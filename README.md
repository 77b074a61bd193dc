# Password strength scorer — a Dafny model

This project models the scoring core of a small browser page that rates a
password and compares two passwords (`script.js`). The core estimates the
"effective bits of entropy" of a password:

- a character pool from the classes present (lower case 26, upper case 26,
  digits 10, anything else 32);
- the length times log2 of the pool, and the Shannon entropy of the
  password's own character distribution times the length (total bits over
  the whole string);
- a repetition penalty from the share of the most frequent character;
- a sequence penalty from the longest run of codes stepping by +1 or -1;
- the larger estimate minus the penalties, clamped at 0, capped at
  6 + 2·length below length 4, rounded to two decimals.

The score is mapped to a strength label, and two passwords are compared
by a fixed cascade: more than half a bit apart, then Shannon bits more than
0.1 apart, then length, then password 1.

A password is the sequence of its UTF-16 code units (`charCodeAt` values).
Surrogate units (0xD800..0xDFFF) are excluded from the code-unit type, so
every character is exactly one unit. The modules follow the source's
functions:

- `Password` (password.dfy): the shared types.
- `CharacterPool` (pool.dfy): `poolSizeForPassword`, imperative. Each regex
  test is a scanning loop, and the size is accumulated with `+=`.
- `MonotonicRun` (run.dfy): `longestSequenceLength`, with the nested loops
  and their `break`s. It is proved equal to a recursive reference, and that
  reference is proved to be the maximum run length.
- `Frequency` (frequency.dfy): the frequency dictionary `effectiveEntropy`
  builds in place, and `maxFreq`, the largest value in it.
- `Entropy` (entropy.dfy): the penalties, the combination, rounding, and
  `effectiveEntropy` as a method proved against the specification function
  `Score`.
- `Strength` (strength.dfy): `strengthLabel`, as `Classify`. The record field
  `label` is called `level`, because `label` is a Dafny keyword.
- `Comparison` (compare.dfy): the record `renderInfo` returns, and the winner
  cascade of `compareAndShow`.

The two logarithm-based estimates (`poolEntropy`, `shannon`) are inputs:
non-negative reals, as the source's `len * log2(pool)` with pool >= 10 and
its sum of `-p * log2 p` terms are. All other arithmetic is on exact reals.

Every pool size is one of twelve values (`CharacterPool.PoolValues`); 78 is
not among them. The comparison margins are
strict: the code tests for more than 0.5 bits and more than 0.1 Shannon bits.
The pool is reported unrounded; only the real-valued details are rounded.

## Model

| member | source | states |
|---|---|---|
| CharacterPool.ClassOf | script.js:4-7 | every code unit is in exactly one of the four regex classes |
| CharacterPool.TestClass | script.js:4-7 | a regex test is true exactly when some character of the password is in the class |
| CharacterPool.PoolSizeForPassword | script.js:3-13 | the size is the sum of the sizes of the classes present; it is 0 exactly for the empty password and at most 94 |
| CharacterPool.PoolIsZeroOnlyWhenEmpty | script.js:3-13 | the pool is 0 exactly for the empty password, and never above 94 |
| CharacterPool.PoolValues | script.js:8-13 | the pool is one of 0, 10, 26, 32, 36, 42, 52, 58, 62, 68, 84, 94 |
| CharacterPool.PoolGrowsWithClasses | script.js:8-13 | using every class another password uses gives a pool at least as large, and strictly larger with an extra class |
| MonotonicRun.RunFrom | script.js:35-42 | the run an inner loop counts is a run in that direction and cannot be extended |
| MonotonicRun.RunFromIsLongest | script.js:35-42 | no run from the same start is longer than what the inner loop counts |
| MonotonicRun.RunEnd | script.js:35-42 | a run that stops at a non-fitting step or at the end is what the inner loop counts |
| MonotonicRun.LongestUpToAttained | script.js:31-44 | after each round of the outer loop, `best` is the length of an actual run |
| MonotonicRun.LongestUpToBounds | script.js:31-44 | after k rounds, no run starting before k is longer than `best` |
| MonotonicRun.LongestIsMaximumRun | script.js:29-46 | the result is 0 for the empty string; otherwise it is in [1, len] and is the maximum length of an ascending or descending run |
| MonotonicRun.LongestRunUnique | script.js:29-46 | the maximum run length is unique, so the result is fully determined by being that maximum |
| MonotonicRun.LongestSequenceLength | script.js:29-46 | the nested loops with their breaks compute the reference value `Longest` |
| MonotonicRun.NoStepsMeansRunOne | script.js:35-43 | with no neighbouring step of +1 or -1, the result is 1 |
| MonotonicRun.Examples | script.js:29-46 | "abc" and "cba" give 3; "a1b" and "aaaa" give 1 |
| Frequency.CountAtMostLength | script.js:57 | no character occurs more often than the password is long |
| Frequency.CountIsLengthIffAllSame | script.js:57 | a character occurs len times exactly when every character of the password is that character |
| Frequency.MaxCountIsLengthIffAllSame | script.js:58 | for a non-empty password, `maxFreq` equals the length exactly when every character is the same |
| Frequency.MaxCountIsMaximum | script.js:58 | for a non-empty password, `maxFreq` is in [1, len], is reached by some character, and bounds every character's count |
| Frequency.FrequencyTable | script.js:56-57 | the table has exactly the password's characters as keys, each mapped to its number of occurrences |
| Frequency.MaxFrequency | script.js:56-58 | the maximum over the table's values is `maxFreq`, in [1, len] |
| Entropy.Round2 | script.js:75 | rounding to two decimals moves a value by at most half a hundredth |
| Entropy.Round2Monotone | script.js:75-79 | rounding never reorders two values |
| Entropy.Round2OfInteger | script.js:75 | whole numbers are unchanged by rounding |
| Entropy.Round2KeepsIntegerBounds | script.js:75 | an integer upper or lower bound of a value is also a bound of its rounding |
| Entropy.RepeatPenalty | script.js:59-61 | the penalty is never negative; it is 0 exactly when 10·maxFreq <= 3·len; at most 14 when maxFreq <= len; it is 14 exactly when maxFreq == len, which by Frequency.MaxCountIsLengthIffAllSame means every character is the same |
| Entropy.ShareAboveThreshold | script.js:59-61 | the share maxFreq/len exceeds 0.3 exactly when 10·maxFreq > 3·len, is at most 1 exactly when maxFreq <= len, and equals 1 exactly when maxFreq == len |
| Entropy.SeqPenalty | script.js:63-65 | the penalty is even, 0 exactly for runs shorter than 3, and 2 bits per character beyond the first two |
| Entropy.SeqPenaltyBound | script.js:63-65 | the sequence penalty is at most 2·(len − 2), and 0 for lengths below 2 |
| Entropy.Combine | script.js:67-72 | the score is never negative and never above the larger estimate; it is 0 exactly when the penalties reach the larger estimate; otherwise it is at most the estimate minus the penalties; below length 4 it is at most 6 + 2·len; when neither the clamp nor the cap applies, the penalties come off in full |
| Entropy.CombineMonotone | script.js:67-72 | larger penalties never raise the score, and larger estimates never lower it |
| Entropy.ScoreBounds | script.js:48-80 | bits 0 and no details for the empty password; otherwise bits >= 0, at most the larger reported estimate, at most 6 + 2·len below length 4, pool in (0, 94], repeat penalty in [0, 14], sequence penalty even and at most 2·(len − 2) |
| Entropy.EffectiveEntropy | script.js:48-80 | the method computes `Score`: bits >= 0, 0 with no details for the empty password, the short-password cap, and bits at most the larger reported estimate |
| Entropy.ExampleRepeated | script.js:48-80 | "aaaa" has pool 26, repeat penalty 14 and sequence penalty 0 |
| Entropy.ExampleSequence | script.js:48-80 | "abcdef" has pool 26, repeat penalty 0 and sequence penalty 8 |
| Entropy.AllLowerPool | script.js:4-13 | a password made only of lower-case letters has pool 26 |
| Strength.Classify | script.js:83-89 | each label is given exactly on its half-open band (<28, [28,36), [36,60), [60,128), >=128); the class is bad exactly below 36 and good exactly from 60 |
| Strength.BandsDisjoint | script.js:83-89 | the bands do not overlap |
| Strength.ClassifyMonotone | script.js:83-89 | the label never gets weaker as the bits rise |
| Strength.ClassFollowsLabel | script.js:83-89 | the class depends only on the label |
| Strength.Boundaries | script.js:83-89 | 27.99 is Very weak, 28 Weak, 59.99 Moderate, 60 and 127.99 Strong, 128 Very strong |
| Comparison.Summarize | script.js:118 | the record carries the bits, the length, the Shannon bits (absent for the empty password) and the label and class of the bits |
| Comparison.Decide | script.js:129-156 | exactly one winner; the strict rule applies exactly when the bits differ by more than 0.5, and then the higher score wins; each tie-breaker picks the side it names; the default applies exactly on a full tie and picks password 1; the class is the winner's own |
| Comparison.DecideSwap | script.js:132-155 | swapping the records swaps the winner, keeping the rule and class, on every rule but the default; the default applies to both orders or to neither |
| Comparison.DecideStrictAntisymmetric | script.js:132-137 | when the bits differ by more than 0.5, password 1 wins one order exactly when password 2 wins the other |
| Comparison.DecideSelf | script.js:152-155 | identical records resolve to password 1 on the default rule, with its class |
| Comparison.WinnerNotWeaker | script.js:132-155 | the winner never scores more than half a bit below the loser |
| Comparison.Compare | script.js:121-156 | scoring both passwords and deciding gives the cascade's verdict; a password compared with itself gives password 1 on the default rule; the class is that of the winner's own bits |

## Left out

- The logarithms (script.js:1, 52) and `shannonTotal` (script.js:16-27) are not computed. Their results enter `EffectiveEntropy` and `Compare` as non-negative real inputs. The frequency loop of `shannonTotal` (line 20) is the loop modelled by `Frequency.FrequencyTable`.
- Entropy.EffectiveEntropy: requires both estimates to be non-negative. This stands in for what the logarithms guarantee: a pool of at least 10 and a sum of non-negative `-p * log2 p` terms.
- Frequency.MaxFrequency: requires a non-empty password. The source reaches this code only after the empty-password return at line 50.
- Floating point is not modelled. The thresholds 0.3, 0.5 and 0.1 are exact reals, and `Math.round` is floor(100x + 0.5)/100 on reals. IEEE doubles can differ from this at the last bit near those boundaries.
- Surrogate pairs are not modelled: the code-unit type excludes 0xD800..0xDFFF. For characters outside the BMP, the source's frequency loops iterate code points, while the length and the runs count UTF-16 units. Those passwords are outside the model.
- The regular expressions are replaced by explicit code ranges: 'a'..'z', 'A'..'Z', '0'..'9', and everything else.
- The page is not modelled: the DOM updates of `renderInfo` (script.js:91-117), the progress-bar percentage (line 108), the element lookups and result display of `compareAndShow` (lines 122-127, 158-162), and the listeners (lines 165-178).
- Comparison.Decide: the winner text is represented by its rule tag, without the formatted bit counts of lines 133 and 136. The initial `'neutral'` class (line 131) is always overwritten, so it does not appear.
