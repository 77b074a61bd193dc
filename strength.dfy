/** The strength classifier of script.js (`strengthLabel`): a cascade of
    thresholds at 28, 36, 60 and 128 bits, giving a label and the style
    class the page colours it with. */
module Strength {

  datatype Label = VeryWeak | Weak | Moderate | Strong | VeryStrong

  /** The style class: 'bad', 'neutral' or 'good'. */
  datatype Tone = Bad | Neutral | Good

  datatype StrengthLabel = StrengthLabel(level: Label, className: Tone)

  /** The position of a label in the order weakest to strongest. */
  function Rank(l: Label): nat
  {
    match l
    case VeryWeak => 0
    case Weak => 1
    case Moderate => 2
    case Strong => 3
    case VeryStrong => 4
  }

  /** The half-open band [lo, hi) of each label, with no lower bound for
      Very weak and no upper bound for Very strong. */
  predicate InBand(l: Label, bits: real)
  {
    match l
    case VeryWeak => bits < 28.0
    case Weak => 28.0 <= bits < 36.0
    case Moderate => 36.0 <= bits < 60.0
    case Strong => 60.0 <= bits < 128.0
    case VeryStrong => 128.0 <= bits
  }

  /** `strengthLabel`: first matching threshold wins. Each label is given
      exactly on its band, and the class is 'bad' exactly below 36 bits and
      'good' exactly from 60 bits on. */
  function Classify(bits: real): (s: StrengthLabel)
    ensures InBand(s.level, bits)
    ensures s.className == Bad <==> bits < 36.0
    ensures s.className == Good <==> 60.0 <= bits
  {
    if bits < 28.0 then StrengthLabel(VeryWeak, Bad)
    else if bits < 36.0 then StrengthLabel(Weak, Bad)
    else if bits < 60.0 then StrengthLabel(Moderate, Neutral)
    else if bits < 128.0 then StrengthLabel(Strong, Good)
    else StrengthLabel(VeryStrong, Good)
  }

  /** The bands do not overlap, so the label of a score is determined by
      its band alone. */
  lemma BandsDisjoint(l: Label, l': Label, bits: real)
    requires InBand(l, bits) && InBand(l', bits)
    ensures l == l'
  {
  }

  /** The label never gets weaker as the score rises. */
  lemma ClassifyMonotone(bits: real, bits': real)
    requires bits <= bits'
    ensures Rank(Classify(bits).level) <= Rank(Classify(bits').level)
  {
  }

  /** The class is a function of the label alone. */
  lemma ClassFollowsLabel(bits: real, bits': real)
    requires Classify(bits).level == Classify(bits').level
    ensures Classify(bits).className == Classify(bits').className
  {
  }

  /** The boundary values: 27.99 is Very weak, 28 Weak, 59.99 Moderate,
      60 and 127.99 Strong, 128 Very strong. */
  lemma Boundaries()
    ensures Classify(27.99).level == VeryWeak && Classify(28.0).level == Weak
    ensures Classify(59.99).level == Moderate && Classify(60.0).level == Strong
    ensures Classify(127.99).level == Strong && Classify(128.0).level == VeryStrong
  {
  }
}
