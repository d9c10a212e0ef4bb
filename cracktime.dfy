/** The crack-time estimator (`estimateCrackTime`): the average time, in
    seconds, an offline attacker making a million guesses a second needs to
    find a password of the given entropy. Results are exact reals; the source
    computes them in IEEE doubles. */
module CrackTime {
  import opened Numeric
  import opened Text

  /** The "offline_fast" attacker: guesses per second. */
  const GuessesPerSecond: nat := 1000000

  /** Up to this entropy 2^entropy is computed directly. */
  const DirectLimit: nat := 160

  /** Above this entropy the estimate is the largest finite double. */
  const MaxExponent: nat := 1023

  /** `Number.MAX_VALUE`, the largest finite double, written out in decimal. */
  const MaxValue: real := 179769313486231570814527423731704356798070567525844996598917476803157260780028538760589558632766878171540458953514382464234321326889464182768467546703537516986049910576551282076245490090389328944075868508455133942304583236903222948165808559332123348274797826204144723168738177180919299881250404026184124858368.0

  /** `Number.MAX_VALUE` is (2^53 - 1) * 2^971, and so lies above 2^1023. */
  lemma MaxValueIsLargestDouble()
    ensures MaxValue == MaxFinite() as real
    ensures Pow(2, MaxExponent) as real < MaxValue
    ensures Pow(2, 971) as real <= MaxValue
  {
    assert Pow(2, 53) == 9007199254740992 by {
      assert Pow(2, 1) == 2;
      PowAdd(2, 1, 1);
      assert Pow(2, 2) == 4;
      PowTwoStep(2);
      assert Pow(2, 3) == 8;
      PowAdd(2, 3, 3);
      assert Pow(2, 6) == 64;
      PowAdd(2, 6, 6);
      assert Pow(2, 12) == 4096;
      PowTwoStep(12);
      assert Pow(2, 13) == 8192;
      PowAdd(2, 13, 13);
      assert Pow(2, 26) == 67108864;
      PowAdd(2, 26, 26);
      assert Pow(2, 52) == 4503599627370496;
      PowTwoStep(52);
      assert Pow(2, 53) == 9007199254740992;
    }
    assert Pow(2, 971) == 19958403095347198116563727130368385660674512604354575415025472424372118918689640657849579654926357010893424468441924952439724379883935936607391717982848314203200056729510856765175377214443629871826533567445439239933308104551208703888888552684480441575071209068757560416423584952303440099278848 by {
      assert Pow(2, 1) == 2;
      PowAdd(2, 1, 1);
      assert Pow(2, 2) == 4;
      PowTwoStep(2);
      assert Pow(2, 3) == 8;
      PowAdd(2, 3, 3);
      assert Pow(2, 6) == 64;
      PowTwoStep(6);
      assert Pow(2, 7) == 128;
      PowAdd(2, 7, 7);
      assert Pow(2, 14) == 16384;
      PowTwoStep(14);
      assert Pow(2, 15) == 32768;
      PowAdd(2, 15, 15);
      assert Pow(2, 30) == 1073741824;
      PowAdd(2, 30, 30);
      assert Pow(2, 60) == 1152921504606846976;
      PowAdd(2, 60, 60);
      assert Pow(2, 120) == 1329227995784915872903807060280344576;
      PowTwoStep(120);
      assert Pow(2, 121) == 2658455991569831745807614120560689152;
      PowAdd(2, 121, 121);
      assert Pow(2, 242) == 7067388259113537318333190002971674063309935587502475832486424805170479104;
      PowAdd(2, 242, 242);
      assert Pow(2, 484) == 49947976805055875702105555676690660891977570282639538413746511354005947821116249921924897649015871538557230897942505966327167610868612564900642816;
      PowTwoStep(484);
      assert Pow(2, 485) == 99895953610111751404211111353381321783955140565279076827493022708011895642232499843849795298031743077114461795885011932654335221737225129801285632;
      PowAdd(2, 485, 485);
      assert Pow(2, 970) == 9979201547673599058281863565184192830337256302177287707512736212186059459344820328924789827463178505446712234220962476219862189941967968303695858991424157101600028364755428382587688607221814935913266783722719619966654052275604351944444276342240220787535604534378780208211792476151720049639424;
      PowTwoStep(970);
      assert Pow(2, 971) == 19958403095347198116563727130368385660674512604354575415025472424372118918689640657849579654926357010893424468441924952439724379883935936607391717982848314203200056729510856765175377214443629871826533567445439239933308104551208703888888552684480441575071209068757560416423584952303440099278848;
    }
  }

  function MaxFinite(): (m: nat)
    ensures Pow(2, MaxExponent) < m
    ensures Pow(2, 971) <= m
  {
    MaxFiniteAboveSentinel();
    (Pow(2, 53) - 1) * Pow(2, 971)
  }

  lemma MaxFiniteAboveSentinel()
    ensures Pow(2, 53) >= 1
    ensures Pow(2, MaxExponent) < (Pow(2, 53) - 1) * Pow(2, 971)
    ensures Pow(2, 971) <= (Pow(2, 53) - 1) * Pow(2, 971)
  {
    var a := Pow(2, 52);
    var b := Pow(2, 971);
    PowMonotone(2, 1, 52);
    PowPositive(2, 971);
    PowAdd(2, 52, 971);
    PowTwoStep(52);
    assert Pow(2, 53) == 2 * a && Pow(2, MaxExponent) == a * b;
    DoubledLessOneTimes(a, b);
  }

  lemma DoubledLessOneTimes(a: nat, b: nat)
    requires a >= 2 && b >= 1
    ensures a * b < (2 * a - 1) * b
    ensures b <= (2 * a - 1) * b
  {
    assert (2 * a - 1) * b == a * b + (a - 1) * b;
    MulAtLeast(a - 1, b);
  }

  /** Half the keyspace at the attacker's speed: 2^e / (2 * 1e6). */
  function AverageSeconds(e: nat): real
  {
    Pow(2, e) as real / (2 * GuessesPerSecond) as real
  }

  /** The log-domain branch, `Math.pow(2, Math.min(log2Seconds, 1023))` with
      log2Seconds = e - log2(1e6) - 1. The minimum picks 1023 exactly when
      e - 1024 > log2(1e6), that is when 2^(e - 1024) > 1e6; otherwise
      2^log2Seconds is 2^e / (2 * 1e6). */
  function LogDomainSeconds(e: nat): (s: real)
    ensures s > 0.0
    ensures s <= AverageSeconds(e)
    ensures e <= MaxExponent ==> s == AverageSeconds(e)
  {
    if e >= 1024 && Pow(2, e - 1024) > GuessesPerSecond then
      ClampBelowAverage(e);
      PowPositive(2, MaxExponent);
      Pow(2, MaxExponent) as real
    else
      PowPositive(2, e);
      AverageSeconds(e)
  }

  /** Where the minimum picks 1023, 2^1023 is below 2^e / (2 * 1e6): the clamp
      only ever lowers the estimate. */
  lemma ClampBelowAverage(e: nat)
    requires e >= 1024 && Pow(2, e - 1024) > GuessesPerSecond
    ensures Pow(2, MaxExponent) as real <= AverageSeconds(e)
  {
    var a := Pow(2, e - 1024);
    var b := Pow(2, MaxExponent);
    PowAdd(2, e - 1024, 1024);
    PowTwoStep(MaxExponent);
    assert Pow(2, e) == a * (2 * b);
    ScaledQuotientAtLeast(a, GuessesPerSecond, b);
  }

  lemma ScaledQuotientAtLeast(a: nat, k: nat, b: nat)
    requires a >= k >= 1
    ensures b as real <= (a * (2 * b)) as real / (2 * k) as real
  {
    assert a * (2 * b) >= k * (2 * b) by {
      assert a * (2 * b) == k * (2 * b) + (a - k) * (2 * b);
    }
    var x := (a * (2 * b)) as real;
    var d := (2 * k) as real;
    assert x >= d * b as real;
  }

  /** `estimateCrackTime(password, entropy)` */
  function EstimateCrackTime(password: Password, entropy: nat): (seconds: real)
    ensures seconds >= 0.0
    ensures password == [] ==> seconds == 0.0
    ensures password != [] && entropy > MaxExponent ==> seconds == MaxValue
  {
    if password == [] then 0.0
    else if entropy > MaxExponent then MaxValue
    else if entropy > DirectLimit then LogDomainSeconds(entropy)
    else AverageSeconds(entropy)
  }

  /** Up to the sentinel both branches compute 2^entropy / 2,000,000: the
      clamp at 2^1023 in the log-domain branch never applies there. */
  lemma CrackTimeBelowSentinel(password: Password, entropy: nat)
    requires password != [] && entropy <= MaxExponent
    ensures EstimateCrackTime(password, entropy) == Pow(2, entropy) as real / 2000000.0
  {
    var seconds := LogDomainSeconds(entropy);
    assert (2 * GuessesPerSecond) as real == 2000000.0;
  }

  /** Every estimate below the sentinel is smaller than `Number.MAX_VALUE`. */
  lemma AverageSecondsBelowMaxValue(e: nat)
    requires e <= MaxExponent
    ensures AverageSeconds(e) < MaxValue
  {
    PowMonotone(2, e, MaxExponent);
    MaxValueIsLargestDouble();
    var x := Pow(2, e) as real;
    assert x < MaxValue;
    assert x / 2000000.0 <= x;
  }

  /** The estimate never decreases as the entropy grows, across all three
      branches and the sentinel. */
  lemma CrackTimeMonotone(password: Password, e1: nat, e2: nat)
    requires e1 <= e2
    ensures EstimateCrackTime(password, e1) <= EstimateCrackTime(password, e2)
  {
    if password != [] {
      if e2 <= MaxExponent {
        CrackTimeBelowSentinel(password, e1);
        CrackTimeBelowSentinel(password, e2);
        PowMonotone(2, e1, e2);
        QuotientMonotone(Pow(2, e1), Pow(2, e2));
      } else if e1 <= MaxExponent {
        CrackTimeBelowSentinel(password, e1);
        AverageSecondsBelowMaxValue(e1);
      }
    }
  }

  lemma QuotientMonotone(x: nat, y: nat)
    requires x <= y
    ensures x as real / 2000000.0 <= y as real / 2000000.0
  {
  }

  /** `Number.MAX_VALUE` exceeds 1e21 seconds. */
  lemma MaxValueAboveCenturiesBound()
    ensures MaxValue > 1000000000000000000000.0
  {
    PowTwoDecades(7);
    assert Pow(1000, 7) == 1000000000000000000000;
    PowStrictlyMonotone(2, 70, 971);
    MaxValueIsLargestDouble();
  }
}
