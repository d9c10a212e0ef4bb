/** The analysis run on each (debounced) input event of the password field:
    entropy, crack time, requirements and feedback for the current password,
    without the DOM writes that display them. */
module Analysis {
  import opened Numeric
  import opened Text
  import opened Requirements
  import opened Feedback
  import Entropy
  import CrackTime
  import TimeFormat

  /** The 0-4 scorer the page calls as `zxcvbn`: missing while the library
      has not loaded, the library itself (whose score is an input here), or
      the local fallback installed when loading fails. */
  datatype Scorer = NotLoaded | Library(score: int) | Fallback

  function ScoreOf(scorer: Scorer, password: Password): int
    requires !scorer.NotLoaded?
  {
    match scorer
    case Library(score) => score
    case Fallback => FallbackScorer(password).score
  }

  /** What one analysis produces. */
  datatype Report = Report(score: int, entropy: nat, crackSeconds: real, crackTime: string,
                           requirements: Requirements, feedback: string)

  /** An empty field clears the display; a missing scorer stops the analysis. */
  datatype Outcome = Cleared | ScorerMissing | Analyzed(report: Report)

  /** The requirement results as `checkRequirements` hands them to
      `generateFeedback`: plain booleans, with no `valid` member. */
  function BareEntries(r: Requirements): RequirementEntries
  {
    RequirementEntries(Bare(r.length), Bare(r.uppercase), Bare(r.lowercase), Bare(r.numbers), Bare(r.symbols))
  }

  /** The shape `generateFeedback` expects: one `{ valid }` object per
      requirement. */
  function ValidEntries(r: Requirements): RequirementEntries
  {
    RequirementEntries(WithValid(r.length), WithValid(r.uppercase), WithValid(r.lowercase),
                       WithValid(r.numbers), WithValid(r.symbols))
  }

  // ---------------------------------------------------------------------------
  // The analysis as the page wires it

  function ReportAsWritten(password: Password, score: int): Report
  {
    var entropy := Entropy.Entropy(password);
    var seconds := CrackTime.EstimateCrackTime(password, entropy);
    var requirements := CheckRequirements(password);
    Report(score, entropy, seconds, TimeFormat.FormatCrackTime(TimeFormat.Finite(seconds)),
           requirements, FeedbackText(password, score, BareEntries(requirements)))
  }

  function OutcomeAsWritten(password: Password, scorer: Scorer): Outcome
  {
    if password == [] then Cleared
    else if scorer.NotLoaded? then ScorerMissing
    else Analyzed(ReportAsWritten(password, ScoreOf(scorer, password)))
  }

  /** `handlePasswordInput` as written: the requirement booleans go to the
      feedback generator unchanged. */
  method AnalyzePasswordAsWritten(password: Password, scorer: Scorer) returns (outcome: Outcome)
    ensures outcome == OutcomeAsWritten(password, scorer)
  {
    if password == [] {
      return Cleared;
    }
    if scorer.NotLoaded? {
      return ScorerMissing;
    }
    var score := ScoreOf(scorer, password);
    var entropy := Entropy.CalculateEntropy(password);
    var seconds := CrackTime.EstimateCrackTime(password, entropy);
    var crackTime := TimeFormat.FormatCrackTime(TimeFormat.Finite(seconds));
    var requirements := CheckRequirements(password);
    var feedback := GenerateFeedback(password, score, entropy, BareEntries(requirements));
    return Analyzed(Report(score, entropy, seconds, crackTime, requirements, feedback));
  }

  /** As written, every non-empty password is told to use 12 characters, to
      mix letter cases, to include numbers and to add special characters,
      whatever it contains: reading `valid` off a boolean gives `undefined`. */
  lemma AsWrittenAlwaysAdvisesRequirements(password: Password, score: int)
    ensures var recs := Recommendations(password, score, BareEntries(CheckRequirements(password)));
            |recs| >= 4 && recs[..4] == [UseTwelve, MixCase, IncludeNumbers, AddSpecial]
  {
    var entries := BareEntries(CheckRequirements(password));
    var t := TraitsOf(password, score);
    BareEntriesSelect(t, CheckRequirements(password));
    var head := SelectedIn(0, RequirementChecks, t, entries);
    SelectedInSplit(0, RequirementChecks, CheckCount, t, entries);
    var recs := Recommendations(password, score, entries);
    assert recs == head + SelectedIn(RequirementChecks, CheckCount, t, entries);
    assert recs[..4] == head;
  }

  /** Over boolean entries every requirement check fires, the letter-case
      chain stopping at its first branch. */
  lemma BareEntriesSelect(t: Traits, r: Requirements)
    ensures SelectedIn(0, RequirementChecks, t, BareEntries(r)) == [UseTwelve, MixCase, IncludeNumbers, AddSpecial]
  {
    var entries := BareEntries(r);
    assert SelectedIn(0, 1, t, entries) == [UseTwelve];
    assert SelectedIn(0, 2, t, entries) == [UseTwelve, MixCase];
    assert SelectedIn(0, 4, t, entries) == [UseTwelve, MixCase];
    assert SelectedIn(0, 5, t, entries) == [UseTwelve, MixCase, IncludeNumbers];
  }

  // ---------------------------------------------------------------------------
  // The analysis with the requirement results passed as `{ valid }` objects
  // and the seconds unit pluralised like the others

  function ReportOf(password: Password, score: int): Report
  {
    var entropy := Entropy.Entropy(password);
    var seconds := CrackTime.EstimateCrackTime(password, entropy);
    var requirements := CheckRequirements(password);
    Report(score, entropy, seconds, TimeFormat.FormatCrackTimeCorrected(TimeFormat.Finite(seconds)),
           requirements, FeedbackText(password, score, ValidEntries(requirements)))
  }

  function OutcomeOf(password: Password, scorer: Scorer): Outcome
  {
    if password == [] then Cleared
    else if scorer.NotLoaded? then ScorerMissing
    else Analyzed(ReportOf(password, ScoreOf(scorer, password)))
  }

  method AnalyzePassword(password: Password, scorer: Scorer) returns (outcome: Outcome)
    ensures outcome == OutcomeOf(password, scorer)
  {
    if password == [] {
      return Cleared;
    }
    if scorer.NotLoaded? {
      return ScorerMissing;
    }
    var score := ScoreOf(scorer, password);
    var entropy := Entropy.CalculateEntropy(password);
    var seconds := CrackTime.EstimateCrackTime(password, entropy);
    var crackTime := TimeFormat.FormatCrackTimeCorrected(TimeFormat.Finite(seconds));
    var requirements := CheckRequirements(password);
    var feedback := GenerateFeedback(password, score, entropy, ValidEntries(requirements));
    return Analyzed(Report(score, entropy, seconds, crackTime, requirements, feedback));
  }

  /** Advice chosen by `Applies` over `{ valid }` entries follows the flags. */
  lemma ValidAdviceFollowsFlags(recs: seq<Advice>, t: Traits, r: Requirements)
    requires forall a :: a in recs <==> Applies(a, t, ValidEntries(r))
    ensures (UseTwelve in recs <==> !r.length)
            && (MixCase in recs <==> !r.uppercase && !r.lowercase)
            && (AddUpper in recs <==> !r.uppercase && r.lowercase)
            && (AddLower in recs <==> r.uppercase && !r.lowercase)
            && (IncludeNumbers in recs <==> !r.numbers)
            && (AddSpecial in recs <==> !r.symbols)
  {
    var entries := ValidEntries(r);
    assert UseTwelve in recs <==> Applies(UseTwelve, t, entries);
    assert MixCase in recs <==> Applies(MixCase, t, entries);
    assert AddUpper in recs <==> Applies(AddUpper, t, entries);
    assert AddLower in recs <==> Applies(AddLower, t, entries);
    assert IncludeNumbers in recs <==> Applies(IncludeNumbers, t, entries);
    assert AddSpecial in recs <==> Applies(AddSpecial, t, entries);
  }

  /** With `{ valid }` entries each requirement recommendation follows its
      flag: given exactly when the flag is false (or, for the letter cases,
      when the if / else-if chain picks it). */
  lemma RequirementAdviceFollowsFlags(password: Password, score: int, r: Requirements)
    ensures var recs := Recommendations(password, score, ValidEntries(r));
            (UseTwelve in recs <==> !r.length)
            && (MixCase in recs <==> !r.uppercase && !r.lowercase)
            && (AddUpper in recs <==> !r.uppercase && r.lowercase)
            && (AddLower in recs <==> r.uppercase && !r.lowercase)
            && (IncludeNumbers in recs <==> !r.numbers)
            && (AddSpecial in recs <==> !r.symbols)
  {
    RecommendationsInCheckOrder(password, score, ValidEntries(r));
    ValidAdviceFollowsFlags(Recommendations(password, score, ValidEntries(r)), TraitsOf(password, score), r);
  }

  /** With `{ valid }` entries each requirement recommendation is given
      exactly when its requirement fails. */
  lemma RequirementAdviceIffUnmet(password: Password, score: int)
    ensures var recs := Recommendations(password, score, ValidEntries(CheckRequirements(password)));
            (UseTwelve in recs <==> |password| < MinLength)
            && (MixCase in recs <==> !HasUpper(password) && !HasLower(password))
            && (AddUpper in recs <==> !HasUpper(password) && HasLower(password))
            && (AddLower in recs <==> HasUpper(password) && !HasLower(password))
            && (IncludeNumbers in recs <==> !HasDigit(password))
            && (AddSpecial in recs <==> !HasSymbol(password))
  {
    RequirementAdviceFollowsFlags(password, score, CheckRequirements(password));
  }

  /** A password that meets all five requirements gets no requirement
      recommendation. */
  lemma MetRequirementsNotAdvised(password: Password, score: int)
    requires AllMet(CheckRequirements(password))
    ensures var recs := Recommendations(password, score, ValidEntries(CheckRequirements(password)));
            UseTwelve !in recs && MixCase !in recs && AddUpper !in recs && AddLower !in recs
            && IncludeNumbers !in recs && AddSpecial !in recs
  {
    RequirementAdviceFollowsFlags(password, score, CheckRequirements(password));
  }

  /** The two wirings part ways on every password that meets all five
      requirements ("CorrectHorseBattery9!" is one): as written it is still
      told to use at least 12 characters, with `{ valid }` entries it is not. */
  lemma WiringsDisagreeOnMetRequirements(password: Password, score: int)
    requires AllMet(CheckRequirements(password))
    ensures UseTwelve in Recommendations(password, score, BareEntries(CheckRequirements(password)))
    ensures UseTwelve !in Recommendations(password, score, ValidEntries(CheckRequirements(password)))
  {
    AsWrittenAlwaysAdvisesRequirements(password, score);
    var recs := Recommendations(password, score, BareEntries(CheckRequirements(password)));
    assert recs[..4][0] == UseTwelve;
    MetRequirementsNotAdvised(password, score);
  }

  /** The report's entropy is positive, and up to 1023 bits its crack time
      is 2^entropy / 2,000,000 seconds. */
  lemma ReportCrackSeconds(password: Password, score: int)
    requires password != []
    ensures var r := ReportOf(password, score);
            r.entropy > 0
            && (r.entropy <= CrackTime.MaxExponent ==> r.crackSeconds == Pow(2, r.entropy) as real / 2000000.0)
  {
    Entropy.EntropyPositive(password);
    var e := Entropy.Entropy(password);
    if e <= CrackTime.MaxExponent {
      CrackTime.CrackTimeBelowSentinel(password, e);
    }
  }

  /** Above 1023 bits the report's crack time reads as uncrackable. */
  lemma ReportUncrackable(password: Password, score: int)
    requires password != [] && Entropy.Entropy(password) > CrackTime.MaxExponent
    ensures ReportOf(password, score).crackTime == TimeFormat.Uncrackable
  {
    var seconds := CrackTime.EstimateCrackTime(password, Entropy.Entropy(password));
    assert seconds == CrackTime.MaxValue;
    TimeFormat.MaxValueFormatsAsUncrackableCorrected();
  }

  // ---------------------------------------------------------------------------
  // Display scales

  /** `Math.min(100, Math.max(0, (score / 4) * 100))` */
  function MeterPercentage(score: int): (pct: real)
    ensures 0.0 <= pct <= 100.0
    ensures 0 <= score <= 4 ==> pct == 25.0 * score as real
  {
    var raw := (score as real / 4.0) * 100.0;
    var low := if raw > 0.0 then raw else 0.0;
    if low < 100.0 then low else 100.0
  }

  lemma MeterPercentageMonotone(a: int, b: int)
    requires a <= b
    ensures MeterPercentage(a) <= MeterPercentage(b)
  {
  }

  /** The colour band of an entropy value, weakest first. */
  datatype Band = VeryWeak | Weak | Moderate | Strong | VeryStrong

  function BandRank(b: Band): nat
  {
    match b
    case VeryWeak => 0
    case Weak => 1
    case Moderate => 2
    case Strong => 3
    case VeryStrong => 4
  }

  /** Thresholds at 20, 40, 60 and 80 bits, tested from the top. */
  function EntropyBand(entropy: real): (b: Band)
    ensures b == VeryWeak <==> entropy < 20.0
    ensures b == VeryStrong <==> entropy >= 80.0
  {
    if entropy >= 80.0 then VeryStrong
    else if entropy >= 60.0 then Strong
    else if entropy >= 40.0 then Moderate
    else if entropy >= 20.0 then Weak
    else VeryWeak
  }

  /** More entropy never lowers the band. */
  lemma EntropyBandMonotone(a: real, b: real)
    requires a <= b
    ensures BandRank(EntropyBand(a)) <= BandRank(EntropyBand(b))
  {
  }
}
