# PassMetrics password analysis engine, in Dafny

This project models the analysis core of PassMetrics (`script.js`): what the page
computes from a password each time the field changes, without the DOM writes that
display it. It covers the following parts:

- **Entropy estimator** (`calculateEntropy`). It builds a pool size from the
  character classes present. It deducts from the length for runs of three or more
  repeated characters and for sequential triads. It then rounds log2(pool) times
  the effective length.
- **Crack-time estimator** (`estimateCrackTime`). It gives 2^entropy /
  (2 * 10^6) seconds. It uses a log-domain branch above 160 bits and returns
  `Number.MAX_VALUE` above 1023 bits.
- **Crack-time formatter** (`formatCrackTime`). It writes "Unknown",
  "Instantly", "Centuries (effectively uncrackable)" or a rounded count of the
  largest fitting unit.
- **Requirement checker** (`checkRequirements`) and the local fallback scorer
  (`createZxcvbnFallback`).
- **Feedback generator** (`generateFeedback`, with `sanitizeOutput`). It picks a
  base message from the 0-4 score. It then adds up to twelve recommendations
  from ten checks, in a fixed order. The letter-case check is one if / else-if
  chain with three possible recommendations.
- **Input handler** (`handlePasswordInput`, lines 996-1067). It clears on an empty
  password and stops when no scorer is loaded. Otherwise it runs the steps above.
  The model also covers two of the display scales it feeds: the meter percentage
  and the entropy colour band.

A password is a sequence of UTF-16 code units (`Text.Password`), which is what
JavaScript strings and regular expressions see. Numbers are exact:
- Entropy is computed with integers. `round(log2(pool) * len)` is the integer
  part of half of log2(2 * pool^(2 len)), which is never a tie.
- Crack times are reals, and `Number.MAX_VALUE` is (2^53 - 1) * 2^971.

Modules, one per file:
- `Numeric`: powers and the integer base-2 logarithm.
- `Text`: code units, character classes, decimal printing and `join`.
- `Patterns`: the global repeat and sequence scans.
- `Entropy`.
- `CrackTime`.
- `TimeFormat`.
- `Requirements`.
- `Feedback`.
- `Analysis`: the input handler.

Behaviour of the code worth noting:
- **Sequence scan case.** The alphabet and keyboard pattern literals carry the
  `i` flag (lines 381 and 383). The scan builds `new RegExp(pattern, 'g')`
  (line 387), which keeps the pattern but replaces its flags, so the scan is
  case-sensitive. Every triad match deducts floor(3 * 0.3) = 0, so this changes
  no entropy.
- **Uncrackable threshold.** The formatter treats a time as uncrackable only
  above 1e21 seconds (strict `>`, line 928). Exactly 1e21 seconds is written as
  a count of centuries.
- **No scorer loaded.** The handler returns early (lines 1048-1051) and runs no
  analysis.
- **Duplicate advice.** Nothing in lines 491-541 removes duplicates. The model
  proves that no text can appear twice anyway.
- **Requirement results.** `generateFeedback` (lines 493-509) and the
  requirement list (line 716) read `.valid` from each requirement result, but
  `checkRequirements` returns plain booleans (lines 898-904). See Findings.

## Model

| member | source | states |
|---|---|---|
| Numeric.Log2Floor | script.js:400 | the result r is the exact integer base-2 logarithm: 2^r <= x < 2^(r+1) |
| Numeric.Round | script.js:946 | `Math.round` gives the integer n with n - 0.5 <= x < n + 0.5 |
| Numeric.Log2FloorUnique | script.js:400 | any r with 2^r <= x < 2^(r+1) is the logarithm, so the bracket characterises it |
| Text.SomeClassPresent | script.js:358-361 | every code unit of a non-empty password is lower, upper, digit or symbol, so some class test succeeds |
| Text.NonAsciiIsSymbol | script.js:361-362 | a password with a non-ASCII code unit also has a symbol, so the 100-unit pool never comes alone |
| Text.AllLetters | script.js:518 | definition: the password is non-empty and every code unit is an ASCII letter, as `/^[a-zA-Z]+$/` tests |
| Text.AllDigits | script.js:522 | definition: the password is non-empty and every code unit is an ASCII digit, as `/^[0-9]+$/` tests |
| Text.NatToString | script.js:944-962 | the count prints as at least one decimal digit, all digits, with no leading zero except for 0 |
| Text.Join | script.js:540 | the joined text is as long as the parts plus one separator between each two neighbours, and starts with the first part |
| Text.NatToStringRoundTrip | script.js:944-962 | reading the printed decimal count back gives the count |
| Patterns.RepeatMatches | script.js:371 | the matches lie left to right without overlap, and each is a maximal run of three or more copies of a code unit that is not a line terminator |
| Patterns.HasRepeat | script.js:526 | definition: `/(.)\1{2,}/.test` succeeds where some position starts a run of three equal code units that is not a line terminator |
| Patterns.SequenceMatches | script.js:387 | every match of a family's global scan is three code units long and is one of the family's triads |
| Patterns.RepeatMatchesAreMaximalRuns | script.js:371 | the global scan for `(.)\1{2,}` returns, in order and without overlap, exactly the maximal runs of three or more copies of a character that is not a line terminator |
| Patterns.HasRepeatIffMatches | script.js:371-372 | the `test` used in feedback succeeds exactly when the global `match` used for entropy finds something |
| Entropy.PoolSize | script.js:357-365 | the pool size lies between 10 and 195 |
| Entropy.FallbackNeverApplies | script.js:365 | for a non-empty password some class is present, so the 26-symbol fallback is never used |
| Entropy.CalculateEntropy | script.js:341-407 | the value the loops accumulate is the entropy function of the password, and 0 for the empty password |
| Entropy.DeductSequences | script.js:380-394 | the scan over the three families takes off exactly the families' summed penalty |
| Entropy.DeductFamily | script.js:386-393 | one family's `forEach` takes off floor(0.3 * length) per match |
| Entropy.RepeatPenaltyBound | script.js:371-377 | the repeat deductions take off at most half the length |
| Entropy.FamiliesPenaltyZero | script.js:380-394 | the sequential-pattern deductions are always zero, since every match is three code units long |
| Entropy.EffectiveLengthBounds | script.js:368-397 | the effective length is the length less the repeat penalty, and lies between half the length (rounded up) and the length, so the floor at 1 never applies |
| Entropy.EffectiveLengthShortIffRepeat | script.js:370-377 | the effective length falls short of the length exactly when the password holds a run of three equal code units |
| Entropy.RoundedBitsIsNearest | script.js:400-402 | the computed bits B satisfy 2^(2B-1) <= pool^(2 len) < 2^(2B+1), that is B is the integer nearest len * log2(pool) |
| Entropy.RoundedBitsStrictlyIncreasing | script.js:400-402 | over a pool of at least two symbols a longer effective length gives strictly more bits |
| Entropy.EntropyPositive | script.js:341-402 | every non-empty password is worth at least one bit |
| Entropy.RepeatsLowerEntropy | script.js:370-402 | of two passwords of the same length and pool, the one with a repeated run has strictly less entropy |
| CrackTime.EstimateCrackTime | script.js:415-453 | the estimate is never negative; it is 0 for an empty password and `Number.MAX_VALUE` above 1023 bits |
| CrackTime.LogDomainSeconds | script.js:438-441 | the log-domain value is positive, never above 2^e / 2,000,000, and equal to it up to 1023 bits, so the clamp at 1023 only lowers the estimate |
| CrackTime.ClampBelowAverage | script.js:441 | where the minimum picks 1023, 2^1023 lies at or below 2^e / 2,000,000 |
| CrackTime.MaxFinite | script.js:437 | `Number.MAX_VALUE` exceeds 2^1023 |
| CrackTime.MaxValueIsLargestDouble | script.js:437 | the decimal constant the estimator returns is exactly (2^53 - 1) * 2^971, the largest finite double, and lies above 2^1023 |
| CrackTime.CrackTimeBelowSentinel | script.js:435-446 | up to 1023 bits both branches give 2^entropy / 2,000,000: the clamp at 2^1023 never fires |
| CrackTime.AverageSecondsBelowMaxValue | script.js:435-446 | every estimate below the sentinel is smaller than `Number.MAX_VALUE` |
| CrackTime.CrackTimeMonotone | script.js:415-448 | more entropy never gives a shorter crack time, across all three branches |
| CrackTime.MaxValueAboveCenturiesBound | script.js:437 | `Number.MAX_VALUE` is above the formatter's 1e21-second bound |
| TimeFormat.CountOf | script.js:946 | a time of at least one unit rounds to a count of at least one |
| TimeFormat.UnitsAscending | script.js:936-941 | the seven units strictly increase |
| TimeFormat.FormatPicksLargestUnit | script.js:936-962 | between 1 and 1e21 seconds the text is the rounded count of the largest unit not exceeding the time, with the singular word exactly for a count of one, except that seconds are always plural |
| TimeFormat.FormatCrackTime | script.js:922-968 | the text is never empty; its content is characterised by the two lemmas below |
| TimeFormat.FormatWritesCountIff | script.js:922-963 | the text starts with a digit exactly for finite times from 1 to 1e21 seconds; a non-number reads "Unknown", +Infinity or more than 1e21 seconds reads "Centuries (effectively uncrackable)", and -Infinity or less than one second reads "Instantly" |
| TimeFormat.MaxValueFormatsAsUncrackable | script.js:928-929 | the estimator's sentinel reads "Centuries (effectively uncrackable)" |
| TimeFormat.MaxValueFormatsAsUncrackableCorrected | script.js:928-929 | the same holds with the seconds branch corrected |
| TimeFormat.FormatSpecialCaseExamples | script.js:924-934 | a non-number reads "Unknown", half a second "Instantly" |
| TimeFormat.FormatSecondsExample | script.js:943-944 | 45 seconds reads "45 seconds" |
| TimeFormat.FormatMinutesExample | script.js:945-947 | 90 seconds reads "2 minutes" |
| TimeFormat.FormatYearExample | script.js:957-959 | 31,536,000 seconds reads "1 year" |
| TimeFormat.OneSecondReadsPlural | script.js:943-944 | 1.2 seconds reads "1 seconds" |
| TimeFormat.CorrectedFormatAgreesInNumber | script.js:943-962 | with the seconds branch corrected, every unit word is singular exactly when its count is one |
| Requirements.CheckRequirements | script.js:871-915 | each flag holds exactly when its requirement does (length at least 12, some upper, lower, digit, symbol), the empty password included, and an empty password meets none |
| Requirements.RequirementExamples | script.js:884-896 | "Sh0rt!" fails only the length; "CorrectHorseBattery9!" meets all five |
| Requirements.FallbackScorer | script.js:974-991 | the score is 0-4, is 4 exactly when all five requirements hold, and is 0 exactly when the password is shorter than 8 with neither both letter cases nor a digit with a symbol |
| Feedback.BaseMessage | script.js:470-488 | the base message is non-empty, and it is the "could not be determined" text exactly when the score is outside 0-4 |
| Feedback.SanitizeOutput | script.js:556-565 | definition: the identity, since a text node's `textContent` reads back the string it was given |
| Feedback.StartsWithKeyboardWalk | script.js:530 | definition: the password starts with "qwerty", "asdfgh" or "zxcvbn", ignoring ASCII case, as `/^(qwerty\|asdfgh\|zxcvbn)/i` tests |
| Feedback.StartsWithSequence | script.js:534 | definition: the password starts with "abc", "123" or "321", ignoring ASCII case, as `/^(abc\|123\|321)/i` tests |
| Feedback.ValidOf | script.js:493 | a requirement entry reads as met only if it is a `{ valid }` object: a plain boolean has no `valid` member |
| Feedback.Rank | script.js:493-536 | each advice has a position below twelve in the check order, and the check at that position gives it back |
| Feedback.Texts | script.js:540 | the texts list has one entry per advice, each that advice's text |
| Feedback.GenerateFeedback | script.js:463-549 | the feedback built by pushing recommendations is the feedback function of the password, score and requirement entries, and the prompt for an empty password |
| Feedback.RequirementAdvice | script.js:491-511 | the requirement checks push exactly the advice of checks 0-5 that apply, in check order |
| Feedback.PatternAdvice | script.js:513-536 | the pattern checks push exactly the advice of checks 6-11 that apply, in check order |
| Feedback.RegexAdvice | script.js:526-536 | the three regular-expression checks extend the earlier pattern advice with exactly those of checks 9-11 that apply |
| Feedback.CaseAdviceStep | script.js:497-503 | the letter-case if / else-if chain pushes exactly the first applicable of its three advices |
| Feedback.RecommendationsInCheckOrder | script.js:491-536 | the recommendations follow check order strictly, and an advice appears exactly when its check fires |
| Feedback.AdviceTextInjective | script.js:493-536 | different advices have different texts |
| Feedback.RecommendationTextsDistinct | script.js:538-541 | no text appears twice in the joined recommendation list |
| Feedback.AtMostOneCaseAdvice | script.js:497-503 | at most one of the three letter-case advices is given |
| Feedback.LettersAndNumbersAdviceExclusive | script.js:518-524 | a password is never told both to add non-alphabetic characters and to use more than numbers |
| Feedback.FeedbackShape | script.js:468-544 | for a non-empty password the feedback starts with the score's base message and equals it exactly when there is no recommendation |
| Feedback.UnratedScoreFeedback | script.js:486-488 | a score outside 0-4 gives feedback that starts with "Password strength could not be determined." |
| Analysis.AnalyzePasswordAsWritten | script.js:996-1067 | the handler as wired: an empty password clears, a missing scorer stops, otherwise the report holds the score, entropy, crack time and its text, the requirements, and feedback built from the bare booleans |
| Analysis.AsWrittenAlwaysAdvisesRequirements | script.js:1064-1067 | as wired, the first four recommendations for every password are "Use at least 12 characters", "Mix uppercase and lowercase letters", "Include numbers" and "Add special characters (e.g., !@#$%)" |
| Analysis.BareEntriesSelect | script.js:493-511 | over boolean entries every requirement check fires, and the letter-case chain stops at its first branch |
| Analysis.AnalyzePassword | script.js:996-1067 | the handler with `{ valid }` entries and the corrected seconds text: the outcome is the corrected outcome function |
| Analysis.ValidAdviceFollowsFlags | script.js:493-511 | advice chosen over `{ valid }` entries is given exactly when its flag is false, with the letter cases following the if / else-if chain |
| Analysis.RequirementAdviceFollowsFlags | script.js:491-511 | with `{ valid }` entries each requirement recommendation follows the requirement flags it is built from |
| Analysis.RequirementAdviceIffUnmet | script.js:491-511 | with `{ valid }` entries: "Use at least 12" exactly when shorter than 12; "Mix" exactly when neither case is present; "Add uppercase" / "Add lowercase" exactly when only the other case is present; "Include numbers" / "Add special" exactly when there is no digit / symbol |
| Analysis.MetRequirementsNotAdvised | script.js:491-511 | with `{ valid }` entries a password meeting all five requirements gets no requirement recommendation |
| Analysis.WiringsDisagreeOnMetRequirements | script.js:1064-1067 | for every password meeting all five requirements, the handler as wired still recommends 12 characters, and the corrected wiring does not |
| Analysis.ReportCrackSeconds | script.js:1057-1060 | the report's entropy is positive, and up to 1023 bits its crack time is 2^entropy / 2,000,000 seconds |
| Analysis.ReportUncrackable | script.js:1057-1061 | above 1023 bits the report's crack time reads "Centuries (effectively uncrackable)" |
| Analysis.MeterPercentage | script.js:596 | the meter percentage lies in 0-100 and is 25 times the score for scores 0-4 |
| Analysis.MeterPercentageMonotone | script.js:596 | a higher score never shortens the meter |
| Analysis.EntropyBand | script.js:651-655 | the band is the weakest exactly below 20 bits and the strongest exactly from 80 bits |
| Analysis.EntropyBandMonotone | script.js:651-655 | more entropy never lowers the band |

## Left out

- DOM updates are not modelled. This covers the meter width and colour, strength
  labels, CSS classes, the requirement list, `toFixed` display, and the reset of
  each element on an empty password. Only the values they display are modelled.
- `debounce`, `setTimeout` and `console.warn` are not modelled. They are timing
  and logging only.
- The score from the zxcvbn library is an input (`Analysis.Scorer.Library`).
  That library and `loadZxcvbn` (its asynchronous loading and the installation
  of the fallback) are not part of this model.
- `logError` and every `try` / `catch` are left out. The modelled operations are
  total, so no catch branch can be reached.
- The `typeof` guards are left out, as is `safelyAccessProperty`. The password is
  always a string here, and the time formatter's non-number input is the
  `NotANumber` case.
- `schema.js` is not part of this model.
- `sanitizeInput` and `sanitizeOutput` are the identity. A text node's
  `textContent` gives back the string it was made from, and the empty string
  maps to itself.
- `updatePasswordSuggestion` (lines 673-696) is defined but never called in
  `script.js`, so no behaviour depends on it.
- The letter-case chain and the pattern checks of `generateFeedback` are split
  into helper methods. The three regular-expression checks are their own step.
  The pushes are the same, in the same order.
- The sequence scan of `calculateEntropy` is split into two helper methods: one
  per family and one over the families. The deductions are the same.
- Entropy.CalculateEntropy: computed with exact arithmetic, not IEEE doubles. On
  a value within rounding error of a half-integer, `Math.log2` times the length
  could round the other way.
- CrackTime.EstimateCrackTime: uses exact reals rather than doubles. Its
  log-domain branch is mathematically equal to 2^entropy / 2,000,000, so the
  double rounding of `Math.log2(1e6)` is not modelled.
- TimeFormat.FormatCrackTime: `Math.round` is floor(x + 0.5) on exact reals.
  Double rounding of `seconds / unit` is not modelled.

## Findings

| source | as written | input that shows it | evidently intended | confidence | as-written member | corrected member |
|---|---|---|---|---|---|---|
| script.js:493-509 | `generateFeedback` reads `reqs.length.valid` and the like, but `checkRequirements` (lines 898-904) returns plain booleans. Each `.valid` is `undefined`, so every `!reqs.X.valid` is true, and every password is told to use 12 characters, mix cases, include numbers and add special characters | "CorrectHorseBattery9!": meets all five requirements, yet gets "Use at least 12 characters" | give each requirement recommendation only when that requirement fails | not executed | Analysis.AsWrittenAlwaysAdvisesRequirements | Analysis.RequirementAdviceIffUnmet |
| script.js:943-944 | the seconds branch always writes "seconds" | 1.2 seconds reads "1 seconds" | "1 second", singular for a count of one like every other unit | not executed | TimeFormat.OneSecondReadsPlural | TimeFormat.CorrectedFormatAgreesInNumber |
