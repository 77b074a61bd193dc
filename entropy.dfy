/** The combination step of script.js (`effectiveEntropy`): from the pool
    estimate, the Shannon estimate, a repetition penalty and a sequence
    penalty to one score in bits, clamped at 0, capped for passwords
    shorter than 4, and rounded to two decimals.

    The two logarithm-based estimates are not computed here: `poolEntropy`
    (the length times log2 of the pool) and `shannon` (the Shannon entropy
    of the character distribution times the length) enter as non-negative
    reals. Everything else is modelled on exact reals. */
module Entropy {
  import opened Password
  import CharacterPool
  import Frequency
  import MonotonicRun

  /** `Math.round(x*100)/100`: round half up to two decimals. */
  function Round2(x: real): (r: real)
    ensures x - 0.005 < r <= x + 0.005
  {
    (x * 100.0 + 0.5).Floor as real / 100.0
  }

  /** Rounding never reorders two values. */
  lemma Round2Monotone(x: real, y: real)
    requires x <= y
    ensures Round2(x) <= Round2(y)
  {
    var a, b := x * 100.0 + 0.5, y * 100.0 + 0.5;
    assert a <= b;
    assert a.Floor <= b.Floor;
  }

  /** Rounding leaves whole numbers alone, so it keeps every integer bound. */
  lemma Round2OfInteger(n: int)
    ensures Round2(n as real) == n as real
  {
    var a := n as real * 100.0 + 0.5;
    assert (n * 100) as real <= a < (n * 100 + 1) as real;
    assert a.Floor == n * 100;
  }

  lemma Round2KeepsIntegerBounds(x: real, n: int)
    ensures x <= n as real ==> Round2(x) <= n as real
    ensures n as real <= x ==> n as real <= Round2(x)
  {
    Round2OfInteger(n);
    if x <= n as real {
      Round2Monotone(x, n as real);
    }
    if n as real <= x {
      Round2Monotone(n as real, x);
    }
  }

  /** The repetition penalty: 20 bits per unit of the share of the most
      frequent character above 0.3. */
  function RepeatPenalty(maxFreq: nat, len: nat): (p: real)
    requires 0 < len
    ensures 0.0 <= p
    ensures p == 0.0 <==> 10 * maxFreq <= 3 * len
    ensures maxFreq <= len ==> p <= 14.0
    ensures p == 14.0 <==> maxFreq == len
  {
    var repeatFrac := maxFreq as real / len as real;
    ShareAboveThreshold(maxFreq, len);
    if repeatFrac > 0.3 then (repeatFrac - 0.3) * 20.0 else 0.0
  }

  lemma ShareAboveThreshold(maxFreq: nat, len: nat)
    requires 0 < len
    ensures maxFreq as real / len as real > 0.3 <==> 10 * maxFreq > 3 * len
    ensures maxFreq as real / len as real <= 1.0 <==> maxFreq <= len
    ensures maxFreq as real / len as real == 1.0 <==> maxFreq == len
  {
    var m, l := maxFreq as real, len as real;
    QuotientCompare(m, l, 0.3);
    QuotientCompare(m, l, 1.0);
  }

  /** m / l lies above c exactly when m lies above c * l, for positive l. */
  lemma QuotientCompare(m: real, l: real, c: real)
    requires 0.0 < l
    ensures m / l > c <==> m > c * l
    ensures m / l == c <==> m == c * l
  {
    var f := m / l;
    assert f * l == m;
    if f > c {
      MultiplyPositive(c, f, l);
    } else if f < c {
      MultiplyPositive(f, c, l);
    }
  }

  lemma MultiplyPositive(x: real, y: real, z: real)
    requires x < y && 0.0 < z
    ensures x * z < y * z
  {
  }

  /** The sequence penalty: 2 bits for every character of the longest run
      beyond the first two. */
  function SeqPenalty(seqLen: nat): (p: nat)
    ensures p % 2 == 0
    ensures p == 0 <==> seqLen < 3
    ensures seqLen >= 2 ==> p == 2 * (seqLen - 2)
  {
    if seqLen >= 3 then (seqLen - 2) * 2 else 0
  }

  /** A run is never longer than the password, so the sequence penalty is at
      most 2 bits per character beyond the first two. */
  lemma SeqPenaltyBound(seqLen: nat, len: nat)
    requires seqLen <= len
    ensures SeqPenalty(seqLen) <= if len >= 2 then 2 * (len - 2) else 0
  {
  }

  /** Lines 68-72: start from the larger estimate, subtract both penalties,
      clamp at 0, then cap passwords shorter than 4 at 6 + 2 * len. The
      score is 0 exactly when the penalties reach the larger estimate, and
      the penalties come off in full whenever neither the clamp nor the cap
      applies. */
  function Combine(poolEntropy: real, shannon: real, repeatPenalty: real, seqPenalty: nat, len: nat): (bits: real)
    ensures 0.0 <= bits
    ensures 0.0 <= repeatPenalty ==> bits <= MaxReal(0.0, MaxReal(poolEntropy, shannon))
    ensures len < 4 ==> bits <= (6 + 2 * len) as real
    ensures bits == 0.0 <==> MaxReal(poolEntropy, shannon) - repeatPenalty - seqPenalty as real <= 0.0
    ensures bits > 0.0 ==> bits + repeatPenalty + seqPenalty as real <= MaxReal(poolEntropy, shannon)
    ensures 0.0 < bits && (len >= 4 || bits < (6 + 2 * len) as real) ==>
      bits + repeatPenalty + seqPenalty as real == MaxReal(poolEntropy, shannon)
  {
    var base := MaxReal(poolEntropy, shannon);
    var bits := MaxReal(0.0, base - repeatPenalty - seqPenalty as real);
    if len < 4 then MinReal(bits, (6 + len * 2) as real) else bits
  }

  /** Larger penalties never raise the score, and a larger estimate never
      lowers it. */
  lemma CombineMonotone(pe: real, sh: real, rp: real, sp: nat, pe': real, sh': real, rp': real, sp': nat, len: nat)
    requires pe <= pe' && sh <= sh' && rp' <= rp && sp' <= sp
    ensures Combine(pe, sh, rp, sp, len) <= Combine(pe', sh', rp', sp', len)
  {
  }

  datatype Details =
    | NoDetails
    | Details(pool: nat, poolEntropy: real, shannon: real, repeatPenalty: real, seqPenalty: nat)

  /** The record `effectiveEntropy` returns. */
  datatype ScoreResult = ScoreResult(bits: real, details: Details)

  /** The score of pw, given the two logarithm-based estimates. */
  ghost function Score(pw: Pwd, poolEntropy: real, shannon: real): ScoreResult
  {
    if |pw| == 0 then ScoreResult(0.0, NoDetails)
    else
      var len := |pw|;
      var repeatPenalty := RepeatPenalty(Frequency.MaxCount(pw), len);
      var seqPenalty := SeqPenalty(MonotonicRun.Longest(pw));
      var bits := Combine(poolEntropy, shannon, repeatPenalty, seqPenalty, len);
      ScoreResult(Round2(bits),
                  Details(CharacterPool.PoolOf(pw), Round2(poolEntropy), Round2(shannon),
                          Round2(repeatPenalty), seqPenalty))
  }

  /** What the score promises: 0 with no details for the empty password;
      otherwise never negative, never above the larger of the two reported
      estimates, at most 6 + 2 * len below length 4, with penalties in
      their ranges. */
  lemma ScoreBounds(pw: Pwd, poolEntropy: real, shannon: real)
    requires 0.0 <= poolEntropy && 0.0 <= shannon
    ensures |pw| == 0 ==> Score(pw, poolEntropy, shannon) == ScoreResult(0.0, NoDetails)
    ensures 0.0 <= Score(pw, poolEntropy, shannon).bits
    ensures |pw| < 4 ==> Score(pw, poolEntropy, shannon).bits <= (6 + 2 * |pw|) as real
    ensures |pw| > 0 ==>
      var s := Score(pw, poolEntropy, shannon);
      && s.details.Details?
      && s.bits <= MaxReal(s.details.poolEntropy, s.details.shannon)
      && 0 < s.details.pool <= 94
      && 0.0 <= s.details.repeatPenalty <= 14.0
      && s.details.seqPenalty % 2 == 0
      && s.details.seqPenalty <= if |pw| >= 2 then 2 * (|pw| - 2) else 0
  {
    var s := Score(pw, poolEntropy, shannon);
    if |pw| > 0 {
      var len := |pw|;
      Frequency.MaxCountIsMaximum(pw);
      MonotonicRun.LongestIsMaximumRun(pw);
      CharacterPool.PoolIsZeroOnlyWhenEmpty(pw);
      var rp := RepeatPenalty(Frequency.MaxCount(pw), len);
      var sp := SeqPenalty(MonotonicRun.Longest(pw));
      SeqPenaltyBound(MonotonicRun.Longest(pw), len);
      var bits := Combine(poolEntropy, shannon, rp, sp, len);
      Round2KeepsIntegerBounds(bits, 0);
      Round2KeepsIntegerBounds(rp, 0);
      Round2KeepsIntegerBounds(rp, 14);
      if len < 4 {
        Round2KeepsIntegerBounds(bits, 6 + 2 * len);
      }
      if poolEntropy <= shannon {
        Round2Monotone(bits, shannon);
      } else {
        Round2Monotone(bits, poolEntropy);
      }
    }
  }

  /** `effectiveEntropy`: the pool scan, the frequency table and its
      maximum, the run detector, then the penalties and the combination. */
  method EffectiveEntropy(pw: Pwd, poolEntropy: real, shannon: real) returns (res: ScoreResult)
    requires 0.0 <= poolEntropy && 0.0 <= shannon
    ensures res == Score(pw, poolEntropy, shannon)
    ensures 0.0 <= res.bits
    ensures |pw| == 0 ==> res.bits == 0.0 && res.details == NoDetails
    ensures |pw| < 4 ==> res.bits <= (6 + 2 * |pw|) as real
    ensures |pw| > 0 ==> res.details.Details? && res.bits <= MaxReal(res.details.poolEntropy, res.details.shannon)
  {
    ScoreBounds(pw, poolEntropy, shannon);
    var len := |pw|;
    if len == 0 {
      return ScoreResult(0.0, NoDetails);
    }
    var pool := CharacterPool.PoolSizeForPassword(pw);
    var maxFreq := Frequency.MaxFrequency(pw);
    var repeatPenalty := RepeatPenalty(maxFreq, len);
    var seqLen := MonotonicRun.LongestSequenceLength(pw);
    var seqPenalty := SeqPenalty(seqLen);
    var bits := Combine(poolEntropy, shannon, repeatPenalty, seqPenalty, len);
    res := ScoreResult(Round2(bits),
                       Details(pool, Round2(poolEntropy), Round2(shannon), Round2(repeatPenalty), seqPenalty));
  }

  /** A worked example: "aaaa" has pool 26, the
      full repetition penalty of 14 and no sequence penalty. */
  // The password is a parameter fixed by `requires` rather than a literal in
  // the `ensures`, so that the verifier does not unfold the definitions on it.
  lemma ExampleRepeated(pw: Pwd, poolEntropy: real, shannon: real)
    requires pw == [97, 97, 97, 97]
    ensures Score(pw, poolEntropy, shannon)
         == ScoreResult(Round2(MaxReal(0.0, MaxReal(poolEntropy, shannon) - 14.0)),
                        Details(26, Round2(poolEntropy), Round2(shannon), 14.0, 0))
  {
    AllLowerPool(pw);
    assert multiset(pw)[97] == 4;
    Frequency.MaxCountIsMaximum(pw);
    assert Frequency.MaxCount(pw) == 4;
    MonotonicRun.NoStepsMeansRunOne(pw);
    Round2OfInteger(14);
  }

  /** A worked example: "abcdef" has pool 26, no
      repetition penalty and a sequence penalty of 8. */
  // The password is a parameter fixed by `requires` rather than a literal in
  // the `ensures`, so that the verifier does not unfold the definitions on it.
  lemma ExampleSequence(pw: Pwd, poolEntropy: real, shannon: real)
    requires pw == [97, 98, 99, 100, 101, 102]
    ensures Score(pw, poolEntropy, shannon)
         == ScoreResult(Round2(MaxReal(0.0, MaxReal(poolEntropy, shannon) - 8.0)),
                        Details(26, Round2(poolEntropy), Round2(shannon), 0.0, 8))
  {
    AllLowerPool(pw);
    assert Frequency.MaxCount(pw) <= 1 by {
      Frequency.MaxCountIsMaximum(pw);
      var i :| 0 <= i < |pw| && Frequency.Count(pw, pw[i]) == Frequency.MaxCount(pw);
      assert multiset(pw)[pw[i]] == 1;
    }
    assert MonotonicRun.IsRun(pw, 0, 6, MonotonicRun.Up);
    MonotonicRun.LongestRunUnique(pw, 6);
    Round2OfInteger(0);
  }

  /** A non-empty password of lower-case letters only has pool 26. */
  lemma AllLowerPool(pw: Pwd)
    requires |pw| > 0 && forall i :: 0 <= i < |pw| ==> CharacterPool.IsLower(pw[i])
    ensures CharacterPool.PoolOf(pw) == 26
  {
    assert CharacterPool.InClass(CharacterPool.Lower, pw[0]);
  }
}
