/** The frequency table that `effectiveEntropy` builds in script.js (a
    dictionary from each character to its number of occurrences) and the
    largest count in it, `maxFreq`. */
module Frequency {
  import opened Password

  /** The number of occurrences of c in pw. */
  function Count(pw: Pwd, c: CodeUnit): nat
  {
    multiset(pw)[c]
  }

  lemma {:induction false} CountAtMostLength(pw: Pwd, c: CodeUnit)
    ensures Count(pw, c) <= |pw|
  {
    if |pw| > 0 {
      var init := pw[..|pw| - 1];
      assert pw == init + [pw[|pw| - 1]];
      CountAtMostLength(init, c);
    }
  }

  /** Every character of pw is c exactly when c occurs |pw| times. */
  lemma {:induction false} CountIsLengthIffAllSame(pw: Pwd, c: CodeUnit)
    ensures Count(pw, c) == |pw| <==> forall i :: 0 <= i < |pw| ==> pw[i] == c
  {
    if |pw| > 0 {
      var init, last := pw[..|pw| - 1], pw[|pw| - 1];
      assert pw == init + [last];
      CountIsLengthIffAllSame(init, c);
      CountAtMostLength(init, c);
      if forall i :: 0 <= i < |pw| ==> pw[i] == c {
        assert forall i :: 0 <= i < |init| ==> init[i] == c;
      }
    }
  }

  /** The largest count among the characters pw[0..k). */
  function MaxCountUpTo(pw: Pwd, k: nat): nat
    requires k <= |pw|
  {
    if k == 0 then 0 else Max(MaxCountUpTo(pw, k - 1), Count(pw, pw[k - 1]))
  }

  /** `maxFreq`: the largest count of any character of pw. */
  function MaxCount(pw: Pwd): nat
  {
    MaxCountUpTo(pw, |pw|)
  }

  /** The largest count in the table is the count of some character that
      occurs, no character occurs more often, and it lies in [1, |pw|]. */
  lemma {:induction false} MaxCountIsMaximum(pw: Pwd)
    requires |pw| > 0
    ensures 1 <= MaxCount(pw) <= |pw|
    ensures exists i :: 0 <= i < |pw| && Count(pw, pw[i]) == MaxCount(pw)
    ensures forall c :: Count(pw, c) <= MaxCount(pw)
  {
    var i := MaxCountAttained(pw, |pw|);
    CountAtMostLength(pw, pw[i]);
    forall c ensures Count(pw, c) <= MaxCount(pw) {
      if c in pw {
        var j :| 0 <= j < |pw| && pw[j] == c;
        MaxCountBounds(pw, |pw|, j);
      }
    }
  }

  lemma {:induction false} MaxCountAttained(pw: Pwd, k: nat) returns (i: nat)
    requires 0 < k <= |pw|
    ensures i < k && Count(pw, pw[i]) == MaxCountUpTo(pw, k)
  {
    if k == 1 || Count(pw, pw[k - 1]) >= MaxCountUpTo(pw, k - 1) {
      i := k - 1;
    } else {
      i := MaxCountAttained(pw, k - 1);
    }
  }

  lemma {:induction false} MaxCountBounds(pw: Pwd, k: nat, j: nat)
    requires j < k <= |pw|
    ensures Count(pw, pw[j]) <= MaxCountUpTo(pw, k)
  {
    if j < k - 1 {
      MaxCountBounds(pw, k - 1, j);
    }
  }

  /** `maxFreq` equals the length exactly when every character of the
      password is the same. */
  lemma MaxCountIsLengthIffAllSame(pw: Pwd)
    requires |pw| > 0
    ensures MaxCount(pw) == |pw| <==> forall i :: 0 <= i < |pw| ==> pw[i] == pw[0]
  {
    MaxCountIsMaximum(pw);
    var i :| 0 <= i < |pw| && Count(pw, pw[i]) == MaxCount(pw);
    CountIsLengthIffAllSame(pw, pw[i]);
    CountIsLengthIffAllSame(pw, pw[0]);
  }

  /** The frequency table: the loop `for(const c of pw) freq[c] = (freq[c]||0)+1`. */
  method FrequencyTable(pw: Pwd) returns (freq: map<CodeUnit, nat>)
    ensures forall c :: c in freq <==> c in pw
    ensures forall c :: c in freq ==> freq[c] == Count(pw, c)
  {
    freq := map[];
    for i := 0 to |pw|
      invariant forall c :: c in freq <==> c in pw[..i]
      invariant forall c :: c in freq ==> freq[c] == multiset(pw[..i])[c]
    {
      var c := pw[i];
      assert pw[..i + 1] == pw[..i] + [c];
      freq := freq[c := (if c in freq then freq[c] else 0) + 1];
    }
    assert pw[..|pw|] == pw;
  }

  /** `Math.max(...Object.values(freq))`, reached only for a non-empty
      password, whose table is non-empty. */
  method MaxFrequency(pw: Pwd) returns (maxFreq: nat)
    requires |pw| > 0
    ensures maxFreq == MaxCount(pw)
    ensures 1 <= maxFreq <= |pw|
  {
    var freq := FrequencyTable(pw);
    var keys := freq.Keys;
    var seen: set<CodeUnit> := {};
    maxFreq := 0;
    while keys != {}
      invariant keys + seen == freq.Keys && keys !! seen
      invariant forall c :: c in seen ==> freq[c] <= maxFreq
      invariant seen == {} ==> maxFreq == 0
      invariant seen != {} ==> exists c :: c in seen && freq[c] == maxFreq
      decreases keys
    {
      var c :| c in keys;
      if freq[c] > maxFreq {
        maxFreq := freq[c];
      }
      keys := keys - {c};
      seen := seen + {c};
    }
    assert pw[0] in freq;
    MaxCountIsMaximum(pw);
    var c :| c in seen && freq[c] == maxFreq;
  }
}
