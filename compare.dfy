/** The comparison of two passwords in script.js: the summary record that
    `renderInfo` returns for each side, and the deterministic winner cascade
    of `compareAndShow` (bits with a 0.5 margin, then Shannon bits with a
    0.1 margin, then length, then the first password). */
module Comparison {
  import opened Password
  import opened Strength
  import Entropy

  /** The record `renderInfo` returns. `shannon` is None for the empty
      password, whose details record is empty, so the field reads as
      undefined; every numeric comparison with it is then false. */
  datatype Summary = Summary(bits: real, shannon: Option<real>, len: nat, level: Label, className: Tone)

  /** Line 118: the summary of a password from its score. */
  function Summarize(pw: Pwd, res: Entropy.ScoreResult): (r: Summary)
    ensures r.bits == res.bits && r.len == |pw|
    ensures r.shannon.Some? <==> res.details.Details?
    ensures r.shannon.Some? ==> r.shannon.value == res.details.shannon
    ensures InBand(r.level, r.bits)
    ensures r.className == Bad <==> r.bits < 36.0
    ensures r.className == Good <==> 60.0 <= r.bits
  {
    var sl := Classify(res.bits);
    var shannon := if res.details.Details? then Some(res.details.shannon) else None;
    Summary(res.bits, shannon, |pw|, sl.level, sl.className)
  }

  /** `a > b + margin` in JavaScript, where an undefined operand makes the
      comparison false. */
  predicate Exceeds(a: Option<real>, b: Option<real>, margin: real)
  {
    a.Some? && b.Some? && a.value > b.value + margin
  }

  /** Which password won, and on which rule. */
  datatype Reason = StrictlyStronger | HigherShannon | LongerLength | First

  type Index = i: int | i == 1 || i == 2 witness 1

  datatype Verdict = Verdict(winner: Index, reason: Reason, className: Tone)

  /** The winner cascade of `compareAndShow`. */
  function Decide(r1: Summary, r2: Summary): (v: Verdict)
    ensures v.className == if v.winner == 1 then r1.className else r2.className
    ensures v.reason == StrictlyStronger <==> r1.bits > r2.bits + 0.5 || r2.bits > r1.bits + 0.5
    ensures v.reason == StrictlyStronger ==>
      if v.winner == 1 then r1.bits > r2.bits + 0.5 else r2.bits > r1.bits + 0.5
    ensures v.reason == HigherShannon ==>
      if v.winner == 1 then Exceeds(r1.shannon, r2.shannon, 0.1) else Exceeds(r2.shannon, r1.shannon, 0.1)
    ensures v.reason == LongerLength ==>
      !Exceeds(r1.shannon, r2.shannon, 0.1) && !Exceeds(r2.shannon, r1.shannon, 0.1)
      && if v.winner == 1 then r1.len > r2.len else r2.len > r1.len
    ensures v.reason == First <==>
      && r2.bits - 0.5 <= r1.bits <= r2.bits + 0.5
      && !Exceeds(r1.shannon, r2.shannon, 0.1) && !Exceeds(r2.shannon, r1.shannon, 0.1)
      && r1.len == r2.len
    ensures v.reason == First ==> v.winner == 1
  {
    if r1.bits > r2.bits + 0.5 then Verdict(1, StrictlyStronger, r1.className)
    else if r2.bits > r1.bits + 0.5 then Verdict(2, StrictlyStronger, r2.className)
    else if Exceeds(r1.shannon, r2.shannon, 0.1) then Verdict(1, HigherShannon, r1.className)
    else if Exceeds(r2.shannon, r1.shannon, 0.1) then Verdict(2, HigherShannon, r2.className)
    else if r1.len > r2.len then Verdict(1, LongerLength, r1.className)
    else if r2.len > r1.len then Verdict(2, LongerLength, r2.className)
    else Verdict(1, First, r1.className)
  }

  /** Swapping the two passwords swaps the winner, on the same rule and with
      the same class, on every rule but the final default. */
  lemma DecideSwap(r1: Summary, r2: Summary)
    ensures Decide(r1, r2).reason != First ==>
      Decide(r2, r1) == Verdict(3 - Decide(r1, r2).winner, Decide(r1, r2).reason, Decide(r1, r2).className)
    ensures Decide(r1, r2).reason == First <==> Decide(r2, r1).reason == First
  {
  }

  /** When the scores differ by more than half a bit, the higher score wins
      whichever side it is on. */
  lemma DecideStrictAntisymmetric(r1: Summary, r2: Summary)
    requires r1.bits > r2.bits + 0.5 || r2.bits > r1.bits + 0.5
    ensures Decide(r1, r2).winner == 1 <==> Decide(r2, r1).winner == 2
  {
  }

  /** Two identical records resolve to password 1 on the final default. */
  lemma DecideSelf(r: Summary)
    ensures Decide(r, r) == Verdict(1, First, r.className)
  {
  }

  /** The winner never scores more than half a bit below the loser. */
  lemma WinnerNotWeaker(r1: Summary, r2: Summary)
    ensures var v := Decide(r1, r2);
      if v.winner == 1 then r1.bits >= r2.bits - 0.5 else r2.bits >= r1.bits - 0.5
  {
  }

  /** `compareAndShow` without its page updates: score both passwords, sum
      them up as `renderInfo` does, then decide. */
  method Compare(pw1: Pwd, poolEntropy1: real, shannon1: real,
                 pw2: Pwd, poolEntropy2: real, shannon2: real) returns (v: Verdict)
    requires 0.0 <= poolEntropy1 && 0.0 <= shannon1
    requires 0.0 <= poolEntropy2 && 0.0 <= shannon2
    ensures v == Decide(Summarize(pw1, Entropy.Score(pw1, poolEntropy1, shannon1)),
                        Summarize(pw2, Entropy.Score(pw2, poolEntropy2, shannon2)))
    ensures pw1 == pw2 && poolEntropy1 == poolEntropy2 && shannon1 == shannon2 ==>
      v.winner == 1 && v.reason == First
    ensures v.className == Classify(if v.winner == 1 then Entropy.Score(pw1, poolEntropy1, shannon1).bits
                                    else Entropy.Score(pw2, poolEntropy2, shannon2).bits).className
  {
    var res1 := Entropy.EffectiveEntropy(pw1, poolEntropy1, shannon1);
    var res2 := Entropy.EffectiveEntropy(pw2, poolEntropy2, shannon2);
    var r1 := Summarize(pw1, res1);
    var r2 := Summarize(pw2, res2);
    v := Decide(r1, r2);
    if r1 == r2 {
      DecideSelf(r1);
    }
  }
}
