/** The requirement checker (`checkRequirements`) and the local stand-in for
    the external 0-4 scorer (`createZxcvbnFallback`). */
module Requirements {
  import opened Text

  /** The policy's minimum length. */
  const MinLength: nat := 12

  /** The result of `checkRequirements`: one boolean per requirement. */
  datatype Requirements = Requirements(length: bool, uppercase: bool, lowercase: bool, numbers: bool, symbols: bool)

  const NoneMet: Requirements := Requirements(false, false, false, false, false)

  predicate AllMet(r: Requirements)
  {
    r.length && r.uppercase && r.lowercase && r.numbers && r.symbols
  }

  /** `checkRequirements(password)`: an empty password meets nothing; otherwise
      each flag tests its requirement. The early return for the empty password
      agrees with the general tests, so every flag holds exactly when its
      requirement does, for every password. */
  function CheckRequirements(password: Password): (r: Requirements)
    ensures r.length <==> |password| >= MinLength
    ensures r.uppercase == HasUpper(password) && r.lowercase == HasLower(password)
    ensures r.numbers == HasDigit(password) && r.symbols == HasSymbol(password)
    ensures password == [] ==> r == NoneMet
  {
    if password == [] then NoneMet
    else Requirements(|password| >= MinLength, HasUpper(password), HasLower(password),
                      HasDigit(password), HasSymbol(password))
  }

  lemma RequirementExamples()
    ensures CheckRequirements(FromString("Sh0rt!")) == Requirements(false, true, true, true, true)
    ensures AllMet(CheckRequirements(FromString("CorrectHorseBattery9!")))
  {
    var short := FromString("Sh0rt!");
    assert IsUpper(short[0]) && IsLower(short[1]) && IsDigit(short[2]) && IsSymbol(short[5]);
    var long := FromString("CorrectHorseBattery9!");
    assert IsUpper(long[0]) && IsLower(long[1]) && IsDigit(long[19]) && IsSymbol(long[20]);
  }

  // ---------------------------------------------------------------------------
  // The fallback scorer

  /** What a scorer returns: the 0-4 score and its advice. */
  datatype ScoreResult = ScoreResult(score: int, warning: string, suggestions: seq<string>)

  /** `createZxcvbnFallback()(password)`: one point each for a length of 8, a
      length of 12, both letter cases, and a digit together with a symbol,
      capped at 4. */
  function FallbackScorer(password: Password): (r: ScoreResult)
    ensures 0 <= r.score <= 4
    ensures r.score == 4 <==> AllMet(CheckRequirements(password))
    ensures r.score == 0 <==> |password| < 8 && !(HasUpper(password) && HasLower(password))
                                            && !(HasDigit(password) && HasSymbol(password))
  {
    var score :=
      (if |password| >= 8 then 1 else 0)
      + (if |password| >= MinLength then 1 else 0)
      + (if HasUpper(password) && HasLower(password) then 1 else 0)
      + (if HasDigit(password) && HasSymbol(password) then 1 else 0);
    ScoreResult(if score < 4 then score else 4,
                "Using basic password analysis.",
                ["Consider using a mix of character types."])
  }
}
