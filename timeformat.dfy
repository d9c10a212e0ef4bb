/** The time formatter (`formatCrackTime`): renders a crack time in seconds as
    "Instantly", a rounded count of the largest fitting unit, or
    "Centuries (effectively uncrackable)". */
module TimeFormat {
  import opened Numeric
  import opened Text
  import CrackTime

  /** A JavaScript value where a number is expected: NotANumber covers both
      NaN and a value that is not a number at all. */
  datatype Number = NotANumber | PositiveInfinity | NegativeInfinity | Finite(value: real)

  const Minute: nat := 60
  const Hour: nat := 3600          // 60 minutes
  const Day: nat := 86400          // 24 hours
  const Month: nat := 2592000      // 30 days
  const Year: nat := 31536000      // 365 days
  const Century: nat := 3153600000 // 100 years

  /** Above 1e21 seconds a password counts as uncrackable. */
  const UncrackableBound: real := 1000000000000000000000.0

  const Unknown: string := "Unknown"
  const Uncrackable: string := "Centuries (effectively uncrackable)"
  const Instantly: string := "Instantly"

  /** `Math.round(seconds / unit)` for a time of at least one unit. */
  function CountOf(seconds: real, unit: nat): (n: nat)
    requires unit >= 1 && seconds >= unit as real
    ensures n >= 1
  {
    assert seconds / unit as real >= 1.0;
    Round(seconds / unit as real)
  }

  /** `${n} minute${n === 1 ? '' : 's'}` and its siblings. */
  function Counted(n: nat, singular: string, plural: string): string
  {
    NatToString(n) + " " + (if n == 1 then singular else plural)
  }

  /** `formatCrackTime(seconds)` */
  function FormatCrackTime(seconds: Number): (t: string)
    ensures |t| > 0
  {
    match seconds
    case NotANumber => Unknown
    case PositiveInfinity => Uncrackable
    case NegativeInfinity => Instantly
    case Finite(s) =>
      if s > UncrackableBound then Uncrackable
      else if s < 1.0 then Instantly
      else if s < Minute as real then NatToString(CountOf(s, 1)) + " seconds"
      else if s < Hour as real then Counted(CountOf(s, Minute), "minute", "minutes")
      else if s < Day as real then Counted(CountOf(s, Hour), "hour", "hours")
      else if s < Month as real then Counted(CountOf(s, Day), "day", "days")
      else if s < Year as real then Counted(CountOf(s, Month), "month", "months")
      else if s < Century as real then Counted(CountOf(s, Year), "year", "years")
      else Counted(CountOf(s, Century), "century", "centuries")
  }

  // ---------------------------------------------------------------------------
  // The units as a table, smallest first

  datatype Unit = Unit(size: nat, singular: string, plural: string)

  const Units: seq<Unit> := [
    Unit(1, "second", "seconds"),
    Unit(Minute, "minute", "minutes"),
    Unit(Hour, "hour", "hours"),
    Unit(Day, "day", "days"),
    Unit(Month, "month", "months"),
    Unit(Year, "year", "years"),
    Unit(Century, "century", "centuries")
  ]

  /** The index of the largest unit in Units[..k+1] that does not exceed s
      (the second when none does). */
  function LargestUnitUpTo(s: real, k: nat): (i: nat)
    requires k < |Units|
    ensures i <= k
    ensures i > 0 ==> Units[i].size as real <= s
    ensures forall j :: i < j <= k ==> s < Units[j].size as real
  {
    if k == 0 || Units[k].size as real <= s then k else LargestUnitUpTo(s, k - 1)
  }

  function LargestUnit(s: real): nat
  {
    LargestUnitUpTo(s, |Units| - 1)
  }

  lemma UnitsAscending()
    ensures forall a, b :: 0 <= a < b < |Units| ==> Units[a].size < Units[b].size
  {
  }

  /** A time that lies between the k-th unit and the next picks the k-th. */
  lemma LargestUnitIs(s: real, k: nat)
    requires k < |Units|
    requires k > 0 ==> Units[k].size as real <= s
    requires k + 1 < |Units| ==> s < Units[k + 1].size as real
    ensures LargestUnit(s) == k
  {
    UnitsAscending();
  }

  /** For a time between one second and 1e21 seconds the formatter writes the
      rounded count of the largest unit not exceeding it; the count is at
      least one, and the unit word is singular exactly when the count is one,
      except for seconds, which are always plural. */
  lemma FormatPicksLargestUnit(s: real)
    requires 1.0 <= s <= UncrackableBound
    ensures var i := LargestUnit(s);
            var n := Round(s / Units[i].size as real);
            n >= 1
            && Units[i].size as real <= s
            && FormatCrackTime(Finite(s))
               == NatToString(n) + " " + (if n == 1 && i > 0 then Units[i].singular else Units[i].plural)
  {
    var i := LargestUnit(s);
    var t := FormatCrackTime(Finite(s));
    if s < Minute as real {
      LargestUnitIs(s, 0);
      assert s / 1 as real == s;
    } else if s < Hour as real {
      LargestUnitIs(s, 1);
      assert t == Counted(CountOf(s, Minute), "minute", "minutes");
    } else if s < Day as real {
      LargestUnitIs(s, 2);
      assert t == Counted(CountOf(s, Hour), "hour", "hours");
    } else if s < Month as real {
      LargestUnitIs(s, 3);
      assert t == Counted(CountOf(s, Day), "day", "days");
    } else if s < Year as real {
      LargestUnitIs(s, 4);
      assert t == Counted(CountOf(s, Month), "month", "months");
    } else if s < Century as real {
      LargestUnitIs(s, 5);
      assert t == Counted(CountOf(s, Year), "year", "years");
    } else {
      LargestUnitIs(s, 6);
      assert t == Counted(CountOf(s, Century), "century", "centuries");
    }
  }

  /** The formatter writes a count (its text starts with a digit) exactly for
      finite times from one second up to 1e21 seconds; every other input gets
      one of the three fixed phrases: "Unknown" for a non-number, the
      uncrackable phrase above 1e21 seconds, "Instantly" below one second. */
  lemma FormatWritesCountIff(x: Number)
    ensures var t := FormatCrackTime(x);
            |t| > 0 && ('0' <= t[0] <= '9' <==> x.Finite? && 1.0 <= x.value <= UncrackableBound)
    ensures x.NotANumber? ==> FormatCrackTime(x) == Unknown
    ensures x.PositiveInfinity? || (x.Finite? && x.value > UncrackableBound) ==> FormatCrackTime(x) == Uncrackable
    ensures x.NegativeInfinity? || (x.Finite? && x.value < 1.0) ==> FormatCrackTime(x) == Instantly
  {
    if x.Finite? && 1.0 <= x.value <= UncrackableBound {
      FormatPicksLargestUnit(x.value);
      var n := Round(x.value / Units[LargestUnit(x.value)].size as real);
      assert FormatCrackTime(x)[0] == NatToString(n)[0];
    }
  }

  /** `Number.MAX_VALUE`, what the estimator returns above 1023 bits, reads
      as uncrackable. */
  lemma MaxValueFormatsAsUncrackable()
    ensures FormatCrackTime(Finite(CrackTime.MaxValue)) == Uncrackable
  {
    CrackTime.MaxValueAboveCenturiesBound();
  }

  /** The same holds with the seconds branch corrected. */
  lemma MaxValueFormatsAsUncrackableCorrected()
    ensures FormatCrackTimeCorrected(Finite(CrackTime.MaxValue)) == Uncrackable
  {
    MaxValueFormatsAsUncrackable();
  }

  lemma FormatSpecialCaseExamples()
    ensures FormatCrackTime(NotANumber) == "Unknown"
    ensures FormatCrackTime(Finite(0.5)) == "Instantly"
  {
  }

  lemma FormatSecondsExample()
    ensures FormatCrackTime(Finite(45.0)) == "45 seconds"
  {
    assert CountOf(45.0, 1) == 45;
    assert NatToString(45) == "45";
    assert FormatCrackTime(Finite(45.0)) == NatToString(45) + " seconds";
  }

  lemma FormatMinutesExample()
    ensures FormatCrackTime(Finite(90.0)) == "2 minutes"
  {
    assert Round(90.0 / 60.0) == 2;
    assert NatToString(2) == "2";
  }

  lemma FormatYearExample()
    ensures FormatCrackTime(Finite(31536000.0)) == "1 year"
  {
    assert Round(31536000.0 / 31536000.0) == 1;
    assert NatToString(1) == "1";
  }

  // ---------------------------------------------------------------------------
  // The seconds branch always says "seconds", so a time that rounds to one
  // second reads "1 seconds".

  lemma OneSecondReadsPlural()
    ensures FormatCrackTime(Finite(1.2)) == "1 seconds"
  {
    assert NatToString(1) == "1";
  }

  /** The formatter with the seconds branch pluralised like the others. */
  function FormatCrackTimeCorrected(seconds: Number): string
  {
    match seconds
    case Finite(s) =>
      if 1.0 <= s < Minute as real && Round(s) == 1 then Counted(1, "second", "seconds")
      else FormatCrackTime(seconds)
    case _ => FormatCrackTime(seconds)
  }

  /** With the correction every unit word, seconds included, is singular
      exactly when the count is one. */
  lemma CorrectedFormatAgreesInNumber(s: real)
    requires 1.0 <= s <= UncrackableBound
    ensures var i := LargestUnit(s);
            var n := Round(s / Units[i].size as real);
            n >= 1
            && FormatCrackTimeCorrected(Finite(s))
               == NatToString(n) + " " + (if n == 1 then Units[i].singular else Units[i].plural)
  {
    FormatPicksLargestUnit(s);
    assert s / 1 as real == s;
  }
}
