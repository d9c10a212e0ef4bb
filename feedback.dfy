/** The feedback synthesiser (`generateFeedback`): a base message chosen by
    the coarse 0-4 score, then the recommendations whose checks fire, in a
    fixed order, joined into one sentence. */
module Feedback {
  import opened Text
  import opened Patterns

  /** A requirement entry as JavaScript holds it. `generateFeedback` reads
      `reqs.<name>.valid`: on an object with a `valid` flag that is the flag;
      on a bare boolean it is `undefined`, which is falsy. */
  datatype Entry = Bare(flag: bool) | WithValid(valid: bool)

  function ValidOf(e: Entry): (v: bool)
    ensures v ==> e.WithValid?
  {
    match e
    case Bare(_) => false
    case WithValid(v) => v
  }

  /** The `reqs` argument: one entry per requirement. */
  datatype RequirementEntries =
    RequirementEntries(length: Entry, uppercase: Entry, lowercase: Entry, numbers: Entry, symbols: Entry)

  const EmptyPrompt: string := "Enter a password to see analysis and recommendations."
  const Undetermined: string := "Password strength could not be determined."

  const VeryWeakMessage: string := "This password is extremely vulnerable. It would be cracked almost instantly."
  const WeakMessage: string := "This password is too weak for important accounts. It needs significant improvement."
  const ModerateMessage: string := "This password provides moderate protection but could be stronger."
  const StrongMessage: string := "This is a strong password that provides good protection for most purposes."
  const VeryStrongMessage: string := "Excellent! This password provides very strong protection."

  /** The `switch (score)`; any value other than 0-4 takes the default. */
  function BaseMessage(score: int): (m: string)
    ensures |m| > 0
    ensures m == Undetermined <==> !(0 <= score <= 4)
  {
    assert |Undetermined| == 42;
    match score
    case 0 => assert |VeryWeakMessage| == 76; VeryWeakMessage
    case 1 => assert |WeakMessage| == 83; WeakMessage
    case 2 => assert |ModerateMessage| == 65; ModerateMessage
    case 3 => assert |StrongMessage| == 74; StrongMessage
    case 4 => assert |VeryStrongMessage| == 57; VeryStrongMessage
    case _ => Undetermined
  }

  /** The recommendations, in the order their checks run. */
  datatype Advice =
    | UseTwelve | MixCase | AddUpper | AddLower | IncludeNumbers | AddSpecial
    | MakeLonger | AddNonAlphabetic | MoreThanNumbers | AvoidRepeats | AvoidKeyboard | AvoidSequential

  function AdviceText(a: Advice): string
  {
    match a
    case UseTwelve => "Use at least 12 characters"
    case MixCase => "Mix uppercase and lowercase letters"
    case AddUpper => "Add uppercase letters"
    case AddLower => "Add lowercase letters"
    case IncludeNumbers => "Include numbers"
    case AddSpecial => "Add special characters (e.g., !@#$%)"
    case MakeLonger => "Make your password longer"
    case AddNonAlphabetic => "Add non-alphabetic characters"
    case MoreThanNumbers => "Use more than just numbers"
    case AvoidRepeats => "Avoid repeating characters (e.g., \"aaa\")"
    case AvoidKeyboard => "Avoid keyboard patterns (e.g., \"qwerty\")"
    case AvoidSequential => "Avoid sequential characters (e.g., \"abc\", \"123\")"
  }

  /** The number of recommendation checks. */
  const CheckCount: nat := 12

  /** The advice the k-th check gives. */
  function CheckAt(k: nat): Advice
    requires k < CheckCount
  {
    match k
    case 0 => UseTwelve
    case 1 => MixCase
    case 2 => AddUpper
    case 3 => AddLower
    case 4 => IncludeNumbers
    case 5 => AddSpecial
    case 6 => MakeLonger
    case 7 => AddNonAlphabetic
    case 8 => MoreThanNumbers
    case 9 => AvoidRepeats
    case 10 => AvoidKeyboard
    case _ => AvoidSequential
  }

  /** The position of an advice's check. */
  function Rank(a: Advice): (k: nat)
    ensures k < CheckCount && CheckAt(k) == a
  {
    match a
    case UseTwelve => 0
    case MixCase => 1
    case AddUpper => 2
    case AddLower => 3
    case IncludeNumbers => 4
    case AddSpecial => 5
    case MakeLonger => 6
    case AddNonAlphabetic => 7
    case MoreThanNumbers => 8
    case AvoidRepeats => 9
    case AvoidKeyboard => 10
    case AvoidSequential => 11
  }

  /** `/^(qwerty|asdfgh|zxcvbn)/i` */
  predicate StartsWithKeyboardWalk(p: Password)
  {
    StartsWithIgnoringCase(p, "qwerty") || StartsWithIgnoringCase(p, "asdfgh") || StartsWithIgnoringCase(p, "zxcvbn")
  }

  /** `/^(abc|123|321)/i` */
  predicate StartsWithSequence(p: Password)
  {
    StartsWithIgnoringCase(p, "abc") || StartsWithIgnoringCase(p, "123") || StartsWithIgnoringCase(p, "321")
  }

  /** What the content checks ask of the password (and of the score). */
  datatype Traits = Traits(shortAndWeak: bool, allLetters: bool, allDigits: bool,
                           repeats: bool, keyboardWalk: bool, sequence: bool)

  function TraitsOf(p: Password, score: int): Traits
  {
    Traits(|p| < 10 && score < 3, AllLetters(p), AllDigits(p),
           HasRepeat(p), StartsWithKeyboardWalk(p), StartsWithSequence(p))
  }

  /** When an advice is given, stated on its own. The three letter-case
      advices come from one if / else-if chain, so each one's condition
      excludes the ones before it. */
  predicate Applies(a: Advice, t: Traits, reqs: RequirementEntries)
  {
    match a
    case UseTwelve => !ValidOf(reqs.length)
    case MixCase => !ValidOf(reqs.uppercase) && !ValidOf(reqs.lowercase)
    case AddUpper => !ValidOf(reqs.uppercase) && ValidOf(reqs.lowercase)
    case AddLower => ValidOf(reqs.uppercase) && !ValidOf(reqs.lowercase)
    case IncludeNumbers => !ValidOf(reqs.numbers)
    case AddSpecial => !ValidOf(reqs.symbols)
    case MakeLonger => t.shortAndWeak
    case AddNonAlphabetic => t.allLetters
    case MoreThanNumbers => t.allDigits
    case AvoidRepeats => t.repeats
    case AvoidKeyboard => t.keyboardWalk
    case AvoidSequential => t.sequence
  }

  /** The advices of checks lo .. hi-1 that apply, in check order. */
  function SelectedIn(lo: nat, hi: nat, t: Traits, reqs: RequirementEntries): seq<Advice>
    requires hi <= CheckCount
    decreases hi
  {
    if hi <= lo then []
    else SelectedIn(lo, hi - 1, t, reqs) + (if Applies(CheckAt(hi - 1), t, reqs) then [CheckAt(hi - 1)] else [])
  }

  /** The first six checks read only the requirement entries; the rest read
      only the password and the score. */
  const RequirementChecks: nat := 6

  function Recommendations(p: Password, score: int, reqs: RequirementEntries): seq<Advice>
  {
    SelectedIn(0, CheckCount, TraitsOf(p, score), reqs)
  }

  function Texts(advice: seq<Advice>): (ts: seq<string>)
    ensures |ts| == |advice| && forall i :: 0 <= i < |advice| ==> ts[i] == AdviceText(advice[i])
  {
    if advice == [] then [] else [AdviceText(advice[0])] + Texts(advice[1..])
  }

  /** `' Recommendations: ' + recommendations.join(', ') + '.'` */
  function RecommendationSentence(advice: seq<Advice>): string
  {
    " Recommendations: " + Join(Texts(advice), ", ") + "."
  }

  /** The feedback for a password: the base message, followed by the
      recommendation sentence when there is any recommendation. It does not
      depend on the entropy. */
  function FeedbackText(p: Password, score: int, reqs: RequirementEntries): string
  {
    if p == [] then EmptyPrompt
    else
      var recs := Recommendations(p, score, reqs);
      if recs == [] then BaseMessage(score) else BaseMessage(score) + RecommendationSentence(recs)
  }

  /** `sanitizeOutput`: putting the text into a text node and reading its
      `textContent` back gives the same string. */
  function SanitizeOutput(output: string): string
  {
    output
  }

  /** `generateFeedback(password, score, entropy, reqs)`: picks the base
      message, pushes each recommendation whose check fires (in two groups:
      the requirement checks, then the pattern checks), and appends them.
      The entropy argument is accepted but never read. */
  method GenerateFeedback(password: Password, score: int, entropy: int, reqs: RequirementEntries)
    returns (feedback: string)
    ensures feedback == FeedbackText(password, score, reqs)
    ensures password == [] ==> feedback == EmptyPrompt
  {
    if password == [] {
      return EmptyPrompt;
    }

    feedback := BaseMessage(score);

    var requirementAdvice := RequirementAdvice(password, score, reqs);
    var patternAdvice := PatternAdvice(password, score, reqs);
    var recommendations := requirementAdvice + patternAdvice;
    SelectedInSplit(0, RequirementChecks, CheckCount, TraitsOf(password, score), reqs);
    if |recommendations| > 0 {
      feedback := feedback + (" Recommendations: " + Join(Texts(recommendations), ", ") + ".");
    }

    feedback := SanitizeOutput(feedback);
  }

  /** The checks on the requirement entries, each pushing its advice when
      the entry is not valid. */
  method RequirementAdvice(ghost password: Password, ghost score: int, reqs: RequirementEntries)
    returns (extended: seq<Advice>)
    ensures extended == SelectedIn(0, RequirementChecks, TraitsOf(password, score), reqs)
  {
    ghost var t := TraitsOf(password, score);
    extended := [];
    SelectedExtends(0, 0, UseTwelve, extended, t, reqs);
    if !ValidOf(reqs.length) {
      extended := extended + [UseTwelve];
    }

    CaseAdviceStep(extended, t, reqs);
    if !ValidOf(reqs.uppercase) && !ValidOf(reqs.lowercase) {
      extended := extended + [MixCase];
    } else if !ValidOf(reqs.uppercase) {
      extended := extended + [AddUpper];
    } else if !ValidOf(reqs.lowercase) {
      extended := extended + [AddLower];
    }

    SelectedExtends(0, 4, IncludeNumbers, extended, t, reqs);
    if !ValidOf(reqs.numbers) {
      extended := extended + [IncludeNumbers];
    }

    SelectedExtends(0, 5, AddSpecial, extended, t, reqs);
    if !ValidOf(reqs.symbols) {
      extended := extended + [AddSpecial];
    }
  }

  /** The checks for common patterns in the password, each pushing its
      advice when it fires. */
  method PatternAdvice(password: Password, score: int, ghost reqs: RequirementEntries)
    returns (extended: seq<Advice>)
    ensures extended == SelectedIn(RequirementChecks, CheckCount, TraitsOf(password, score), reqs)
  {
    ghost var t := TraitsOf(password, score);
    extended := [];
    SelectedExtends(6, 6, MakeLonger, extended, t, reqs);
    if |password| < 10 && score < 3 {
      extended := extended + [MakeLonger];
    }

    SelectedExtends(6, 7, AddNonAlphabetic, extended, t, reqs);
    if AllLetters(password) {
      extended := extended + [AddNonAlphabetic];
    }

    SelectedExtends(6, 8, MoreThanNumbers, extended, t, reqs);
    if AllDigits(password) {
      extended := extended + [MoreThanNumbers];
    }

    extended := RegexAdvice(password, score, reqs, extended);
  }

  /** The three regular-expression checks that close the pattern checks,
      appended to the advice the earlier pattern checks gave. */
  method RegexAdvice(password: Password, ghost score: int, ghost reqs: RequirementEntries, recs: seq<Advice>)
    returns (extended: seq<Advice>)
    requires recs == SelectedIn(RequirementChecks, 9, TraitsOf(password, score), reqs)
    ensures extended == SelectedIn(RequirementChecks, CheckCount, TraitsOf(password, score), reqs)
  {
    ghost var t := TraitsOf(password, score);
    extended := recs;
    SelectedExtends(6, 9, AvoidRepeats, extended, t, reqs);
    if HasRepeat(password) {
      extended := extended + [AvoidRepeats];
    }

    SelectedExtends(6, 10, AvoidKeyboard, extended, t, reqs);
    if StartsWithKeyboardWalk(password) {
      extended := extended + [AvoidKeyboard];
    }

    SelectedExtends(6, 11, AvoidSequential, extended, t, reqs);
    if StartsWithSequence(password) {
      extended := extended + [AvoidSequential];
    }
  }

  /** One check: its advice is pushed exactly when it applies. */
  lemma SelectedExtends(lo: nat, k: nat, a: Advice, recs: seq<Advice>, t: Traits, reqs: RequirementEntries)
    requires lo <= k < CheckCount && CheckAt(k) == a && recs == SelectedIn(lo, k, t, reqs)
    ensures Applies(a, t, reqs) ==> recs + [a] == SelectedIn(lo, k + 1, t, reqs)
    ensures !Applies(a, t, reqs) ==> recs == SelectedIn(lo, k + 1, t, reqs)
  {
  }

  /** The letter-case checks form one if / else-if chain: at most one of the
      three advices is pushed, the first whose condition holds. */
  lemma CaseAdviceStep(recs: seq<Advice>, t: Traits, reqs: RequirementEntries)
    requires recs == SelectedIn(0, 1, t, reqs)
    ensures !ValidOf(reqs.uppercase) && !ValidOf(reqs.lowercase) ==> recs + [MixCase] == SelectedIn(0, 4, t, reqs)
    ensures ValidOf(reqs.lowercase) && !ValidOf(reqs.uppercase) ==> recs + [AddUpper] == SelectedIn(0, 4, t, reqs)
    ensures ValidOf(reqs.uppercase) && !ValidOf(reqs.lowercase) ==> recs + [AddLower] == SelectedIn(0, 4, t, reqs)
    ensures ValidOf(reqs.uppercase) && ValidOf(reqs.lowercase) ==> recs == SelectedIn(0, 4, t, reqs)
  {
    SelectedExtends(0, 1, MixCase, recs, t, reqs);
    SelectedExtends(0, 2, AddUpper, SelectedIn(0, 2, t, reqs), t, reqs);
    SelectedExtends(0, 3, AddLower, SelectedIn(0, 3, t, reqs), t, reqs);
  }

  lemma {:induction false} SelectedInSplit(lo: nat, mid: nat, hi: nat, t: Traits, reqs: RequirementEntries)
    requires lo <= mid <= hi <= CheckCount
    ensures SelectedIn(lo, hi, t, reqs) == SelectedIn(lo, mid, t, reqs) + SelectedIn(mid, hi, t, reqs)
    decreases hi
  {
    if hi > mid {
      SelectedInSplit(lo, mid, hi - 1, t, reqs);
      var last := if Applies(CheckAt(hi - 1), t, reqs) then [CheckAt(hi - 1)] else [];
      assert SelectedIn(lo, hi, t, reqs) == SelectedIn(lo, hi - 1, t, reqs) + last;
      assert SelectedIn(mid, hi, t, reqs) == SelectedIn(mid, hi - 1, t, reqs) + last;
    }
  }

  // ---------------------------------------------------------------------------
  // Properties of the recommendation list

  lemma RankOfCheckAt(k: nat)
    requires k < CheckCount
    ensures Rank(CheckAt(k)) == k
  {
  }

  /** Ranks strictly increase along the list. */
  predicate InCheckOrder(recs: seq<Advice>)
  {
    forall i, j :: 0 <= i < j < |recs| ==> Rank(recs[i]) < Rank(recs[j])
  }

  predicate RanksWithin(recs: seq<Advice>, lo: nat, hi: nat)
  {
    forall i :: 0 <= i < |recs| ==> lo <= Rank(recs[i]) < hi
  }

  lemma AppendInCheckOrder(prev: seq<Advice>, a: Advice, lo: nat)
    requires InCheckOrder(prev) && RanksWithin(prev, lo, Rank(a)) && lo <= Rank(a)
    ensures InCheckOrder(prev + [a]) && RanksWithin(prev + [a], lo, Rank(a) + 1)
  {
    var recs := prev + [a];
    assert forall i :: 0 <= i < |prev| ==> recs[i] == prev[i];
    assert recs[|prev|] == a;
  }

  lemma {:induction false} SelectedInOrdered(lo: nat, hi: nat, t: Traits, reqs: RequirementEntries)
    requires hi <= CheckCount
    ensures var recs := SelectedIn(lo, hi, t, reqs);
            InCheckOrder(recs) && RanksWithin(recs, lo, hi)
            && (forall a :: a in recs <==> lo <= Rank(a) < hi && Applies(a, t, reqs))
    decreases hi
  {
    if hi > lo {
      SelectedInOrdered(lo, hi - 1, t, reqs);
      var prev := SelectedIn(lo, hi - 1, t, reqs);
      var recs := SelectedIn(lo, hi, t, reqs);
      var a := CheckAt(hi - 1);
      RankOfCheckAt(hi - 1);
      if Applies(a, t, reqs) {
        assert recs == prev + [a];
        AppendInCheckOrder(prev, a, lo);
      } else {
        assert recs == prev;
      }
      forall b
        ensures b in recs <==> lo <= Rank(b) < hi && Applies(b, t, reqs)
      {
        if Rank(b) == hi - 1 {
          assert b == a;
        }
      }
    }
  }

  /** The recommendations appear in check order, each advice at most once,
      and an advice appears exactly when its check fires. */
  lemma RecommendationsInCheckOrder(p: Password, score: int, reqs: RequirementEntries)
    ensures var recs := Recommendations(p, score, reqs);
            InCheckOrder(recs) && (forall a :: a in recs <==> Applies(a, TraitsOf(p, score), reqs))
  {
    var t := TraitsOf(p, score);
    SelectedInOrdered(0, CheckCount, t, reqs);
    var recs := SelectedIn(0, CheckCount, t, reqs);
    forall a
      ensures a in recs <==> Applies(a, t, reqs)
    {
      assert Rank(a) < CheckCount;
    }
  }

  /** The length of an advice's text, and for the three pairs of texts of
      equal length the seventh character, which tells each pair apart ('-'
      where the length alone is enough). */
  function TextKey(a: Advice): (nat, char)
  {
    match a
    case UseTwelve => (26, ' ')
    case MixCase => (35, '-')
    case AddUpper => (21, 'p')
    case AddLower => (21, 'w')
    case IncludeNumbers => (15, '-')
    case AddSpecial => (36, '-')
    case MakeLonger => (25, '-')
    case AddNonAlphabetic => (29, '-')
    case MoreThanNumbers => (26, 'r')
    case AvoidRepeats => (40, 'r')
    case AvoidKeyboard => (40, 'k')
    case AvoidSequential => (48, '-')
  }

  predicate HasTextKey(a: Advice)
  {
    |AdviceText(a)| == TextKey(a).0
    && (TextKey(a).1 != '-' ==> |AdviceText(a)| > 6 && AdviceText(a)[6] == TextKey(a).1)
  }

  lemma TextKeysOfDistinctLengths(a: Advice)
    requires TextKey(a).1 == '-'
    ensures HasTextKey(a)
  {
  }

  lemma TextKeysOfShortPairs(a: Advice)
    requires a == UseTwelve || a == MoreThanNumbers || a == AddUpper || a == AddLower
    ensures HasTextKey(a)
  {
  }

  lemma TextKeysOfLongPair(a: Advice)
    requires a == AvoidRepeats || a == AvoidKeyboard
    ensures HasTextKey(a)
  {
  }

  lemma TextKeyOfText(a: Advice)
    ensures HasTextKey(a)
  {
    match a
    case UseTwelve | MoreThanNumbers | AddUpper | AddLower => TextKeysOfShortPairs(a);
    case AvoidRepeats | AvoidKeyboard => TextKeysOfLongPair(a);
    case MixCase | IncludeNumbers | AddSpecial | MakeLonger | AddNonAlphabetic | AvoidSequential =>
      TextKeysOfDistinctLengths(a);
  }

  /** Different advices have different keys; where the lengths agree both
      keys name a character, and the characters differ. */
  lemma TextKeyInjective(a: Advice, b: Advice)
    requires a != b
    ensures TextKey(a).0 != TextKey(b).0
            || (TextKey(a).1 != '-' && TextKey(b).1 != '-' && TextKey(a).1 != TextKey(b).1)
  {
  }

  /** Different advices have different texts. */
  lemma AdviceTextInjective(a: Advice, b: Advice)
    requires a != b
    ensures AdviceText(a) != AdviceText(b)
  {
    TextKeyOfText(a);
    TextKeyOfText(b);
    TextKeyInjective(a, b);
    if |AdviceText(a)| == |AdviceText(b)| {
      assert AdviceText(a)[6] != AdviceText(b)[6];
    }
  }

  /** No recommendation text appears twice. */
  lemma RecommendationTextsDistinct(p: Password, score: int, reqs: RequirementEntries)
    ensures var ts := Texts(Recommendations(p, score, reqs));
            forall i, j :: 0 <= i < j < |ts| ==> ts[i] != ts[j]
  {
    var recs := Recommendations(p, score, reqs);
    RecommendationsInCheckOrder(p, score, reqs);
    forall i, j | 0 <= i < j < |recs|
      ensures AdviceText(recs[i]) != AdviceText(recs[j])
    {
      AdviceTextInjective(recs[i], recs[j]);
    }
  }

  predicate IsCaseAdvice(a: Advice)
  {
    a == MixCase || a == AddUpper || a == AddLower
  }

  /** The conditions of the three letter-case advices exclude each other. */
  lemma CaseAdviceExclusive(x: Advice, y: Advice, t: Traits, reqs: RequirementEntries)
    requires IsCaseAdvice(x) && IsCaseAdvice(y) && Applies(x, t, reqs) && Applies(y, t, reqs)
    ensures x == y
  {
  }

  /** At most one of the three letter-case advices is given. */
  lemma AtMostOneCaseAdvice(p: Password, score: int, reqs: RequirementEntries)
    ensures var recs := Recommendations(p, score, reqs);
            forall i, j :: 0 <= i < j < |recs| && IsCaseAdvice(recs[i]) ==> !IsCaseAdvice(recs[j])
  {
    var recs := Recommendations(p, score, reqs);
    RecommendationsInCheckOrder(p, score, reqs);
    forall i, j | 0 <= i < j < |recs| && IsCaseAdvice(recs[i])
      ensures !IsCaseAdvice(recs[j])
    {
      var x, y := recs[i], recs[j];
      assert x in recs && y in recs;
      assert Rank(x) < Rank(y);
      if IsCaseAdvice(y) {
        CaseAdviceExclusive(x, y, TraitsOf(p, score), reqs);
      }
    }
  }

  /** "Add non-alphabetic characters" and "Use more than just numbers" never
      come together: no non-empty password is all letters and all digits. */
  lemma LettersAndNumbersAdviceExclusive(p: Password, score: int, reqs: RequirementEntries)
    ensures var recs := Recommendations(p, score, reqs);
            !(AddNonAlphabetic in recs && MoreThanNumbers in recs)
  {
    RecommendationsInCheckOrder(p, score, reqs);
    if AllLetters(p) {
      assert IsLetter(p[0]);
    }
  }

  /** For a non-empty password the feedback is the base message, followed by
      the recommendation sentence exactly when some recommendation applies. */
  lemma FeedbackShape(p: Password, score: int, reqs: RequirementEntries)
    requires p != []
    ensures var f := FeedbackText(p, score, reqs);
            var base := BaseMessage(score);
            |base| <= |f| && f[..|base|] == base
            && (f == base <==> Recommendations(p, score, reqs) == [])
  {
    var f := FeedbackText(p, score, reqs);
    var base := BaseMessage(score);
    if Recommendations(p, score, reqs) != [] {
      var sentence := RecommendationSentence(Recommendations(p, score, reqs));
      assert f == base + sentence;
      assert f[..|base|] == base;
      assert |f| > |base|;
    }
  }

  /** A score outside 0-4 (a missing score included) makes the feedback open
      with "Password strength could not be determined." */
  lemma UnratedScoreFeedback(p: Password, score: int, reqs: RequirementEntries)
    requires p != [] && !(0 <= score <= 4)
    ensures var f := FeedbackText(p, score, reqs);
            |Undetermined| <= |f| && f[..|Undetermined|] == Undetermined
  {
    FeedbackShape(p, score, reqs);
  }
}
