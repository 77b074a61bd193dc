/** The longest monotonic run detector of script.js
    (`longestSequenceLength`): the length of the longest stretch of adjacent
    code units that each step by exactly +1 (as in "abc") or exactly -1
    (as in "cba"). */
module MonotonicRun {
  import opened Password

  /** The two directions a run can take; the source counts them with two
      independent inner loops. */
  datatype Direction = Up | Down

  function Delta(dir: Direction): int
  {
    if dir == Up then 1 else -1
  }

  /** The difference between the code unit at j and the one before it. */
  function Step(pw: Pwd, j: int): int
    requires 1 <= j < |pw|
  {
    pw[j] as int - pw[j - 1] as int
  }

  /** pw[i..i+n] is a run of n >= 1 code units, each one step in direction
      dir from the previous. */
  ghost predicate IsRun(pw: Pwd, i: int, n: int, dir: Direction)
  {
    0 <= i && 1 <= n && i + n <= |pw|
    && forall j :: i < j < i + n ==> Step(pw, j) == Delta(dir)
  }

  /** The run in direction dir that starts at i and extends as far as it
      can: what one inner loop of the source counts. */
  function RunFrom(pw: Pwd, i: nat, dir: Direction): (n: nat)
    requires i < |pw|
    ensures IsRun(pw, i, n, dir)
    ensures i + n == |pw| || Step(pw, i + n) != Delta(dir)
    decreases |pw| - i
  {
    if i + 1 < |pw| && Step(pw, i + 1) == Delta(dir) then 1 + RunFrom(pw, i + 1, dir) else 1
  }

  /** No run starting at i is longer than RunFrom(pw, i, dir): a longer one
      would contain the step at which RunFrom stops. */
  lemma RunFromIsLongest(pw: Pwd, i: nat, n: int, dir: Direction)
    requires i < |pw| && IsRun(pw, i, n, dir)
    ensures n <= RunFrom(pw, i, dir)
  {
  }

  /** A run that cannot be extended is the run RunFrom counts. */
  lemma RunEnd(pw: Pwd, i: nat, n: int, dir: Direction)
    requires i < |pw| && IsRun(pw, i, n, dir)
    requires i + n == |pw| || Step(pw, i + n) != Delta(dir)
    ensures n == RunFrom(pw, i, dir)
  {
  }

  /** The best length seen after the outer loop has handled starts 0..k-1,
      beginning from 1 as the source's `best` does. */
  function LongestUpTo(pw: Pwd, k: nat): nat
    requires 0 < |pw| && k <= |pw|
  {
    if k == 0 then 1
    else Max(LongestUpTo(pw, k - 1), Max(RunFrom(pw, k - 1, Up), RunFrom(pw, k - 1, Down)))
  }

  /** The value `longestSequenceLength` computes: 0 for the empty string. */
  function Longest(pw: Pwd): nat
  {
    if |pw| == 0 then 0 else LongestUpTo(pw, |pw|)
  }

  /** n is the maximum length of an ascending or descending run in pw. */
  ghost predicate IsLongestRun(pw: Pwd, n: int)
  {
    && (exists i, dir :: IsRun(pw, i, n, dir))
    && (forall i, m, dir :: IsRun(pw, i, m, dir) ==> m <= n)
  }

  /** The best length so far is the length of an actual run. */
  lemma {:induction false} LongestUpToAttained(pw: Pwd, k: nat) returns (i: nat, dir: Direction)
    requires 0 < |pw| && k <= |pw|
    ensures IsRun(pw, i, LongestUpTo(pw, k), dir)
  {
    if k == 0 {
      i, dir := 0, Up;
    } else {
      var up, down := RunFrom(pw, k - 1, Up), RunFrom(pw, k - 1, Down);
      var best := LongestUpTo(pw, k - 1);
      if best >= up && best >= down {
        i, dir := LongestUpToAttained(pw, k - 1);
      } else if up >= down {
        i, dir := k - 1, Up;
      } else {
        i, dir := k - 1, Down;
      }
    }
  }

  /** No run that starts before k is longer than the best length so far. */
  lemma {:induction false} LongestUpToBounds(pw: Pwd, k: nat, i: nat, m: int, dir: Direction)
    requires 0 < |pw| && k <= |pw|
    requires i < k && IsRun(pw, i, m, dir)
    ensures m <= LongestUpTo(pw, k)
  {
    if i == k - 1 {
      RunFromIsLongest(pw, i, m, dir);
    } else {
      LongestUpToBounds(pw, k - 1, i, m, dir);
    }
  }

  /** `longestSequenceLength` returns the length of the longest run, which is
      0 for the empty string and between 1 and the length otherwise. */
  lemma LongestIsMaximumRun(pw: Pwd)
    ensures |pw| == 0 ==> Longest(pw) == 0
    ensures |pw| > 0 ==> 1 <= Longest(pw) <= |pw| && IsLongestRun(pw, Longest(pw))
  {
    if |pw| > 0 {
      var i, dir := LongestUpToAttained(pw, |pw|);
      forall i', m, dir' | IsRun(pw, i', m, dir') ensures m <= Longest(pw) {
        LongestUpToBounds(pw, |pw|, i', m, dir');
      }
    }
  }

  /** The maximum run length is unique, so IsLongestRun pins the result. */
  lemma LongestRunUnique(pw: Pwd, n: int)
    requires IsLongestRun(pw, n)
    ensures n == Longest(pw)
  {
    LongestIsMaximumRun(pw);
    var i, dir :| IsRun(pw, i, n, dir);
    if |pw| > 0 {
      var i', dir' :| IsRun(pw, i', Longest(pw), dir');
    }
  }

  /** `longestSequenceLength`: nested loops; for each start i, one loop counts
      the ascending run and an independent one the descending run, each
      stopping (`break`) at the first step that does not fit. */
  method LongestSequenceLength(pw: Pwd) returns (best: nat)
    ensures best == Longest(pw)
  {
    if |pw| == 0 {
      return 0;
    }
    best := 1;
    for i := 0 to |pw|
      invariant best == LongestUpTo(pw, i)
    {
      var up, down := 1, 1;
      for j := i + 1 to |pw|
        invariant up == j - i && IsRun(pw, i, up, Up)
      {
        if pw[j] as int - pw[j - 1] as int == 1 {
          up := up + 1;
        } else {
          RunEnd(pw, i, up, Up);
          break;
        }
      }
      if i + up == |pw| {
        RunEnd(pw, i, up, Up);
      }
      for j := i + 1 to |pw|
        invariant down == j - i && IsRun(pw, i, down, Down)
      {
        if pw[j - 1] as int - pw[j] as int == 1 {
          down := down + 1;
        } else {
          RunEnd(pw, i, down, Down);
          break;
        }
      }
      if i + down == |pw| {
        RunEnd(pw, i, down, Down);
      }
      best := Max(best, Max(up, down));
    }
  }

  /** A password with no step of +1 or -1 between neighbours has longest
      run 1 (for instance "a1b" and "aaaa"). */
  lemma NoStepsMeansRunOne(pw: Pwd)
    requires |pw| > 0
    requires forall j :: 1 <= j < |pw| ==> Step(pw, j) != 1 && Step(pw, j) != -1
    ensures Longest(pw) == 1
  {
    assert IsRun(pw, 0, 1, Up);
    forall i, m, dir | IsRun(pw, i, m, dir) ensures m <= 1 {
      assert m > 1 ==> Step(pw, i + 1) == Delta(dir);
    }
    LongestRunUnique(pw, 1);
  }

  /** The examples "abc" and "cba" give 3; "a1b" and "aaaa" give 1. */
  lemma Examples()
    ensures Longest([97, 98, 99]) == 3
    ensures Longest([99, 98, 97]) == 3
    ensures Longest([97, 49, 98]) == 1
    ensures Longest([97, 97, 97, 97]) == 1
  {
    var abc: Pwd := [97, 98, 99];
    assert IsRun(abc, 0, 3, Up);
    LongestRunUnique(abc, 3);
    var cba: Pwd := [99, 98, 97];
    assert IsRun(cba, 0, 3, Down);
    LongestRunUnique(cba, 3);
    NoStepsMeansRunOne([97, 49, 98]);
    NoStepsMeansRunOne([97, 97, 97, 97]);
  }
}
