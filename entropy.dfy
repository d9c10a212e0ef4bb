/** The entropy estimator (`calculateEntropy`): a pool size from the character
    classes present, an effective length after the repeat and sequence
    penalties, and round(log2(pool size) * effective length) bits. */
module Entropy {
  import opened Numeric
  import opened Text
  import opened Patterns

  // Pool contributions of the character classes.
  const LowerPool: nat := 26
  const UpperPool: nat := 26
  const DigitPool: nat := 10
  const SymbolPool: nat := 33
  const NonAsciiPool: nat := 100
  /** Used when no class is present. */
  const FallbackPool: nat := 26

  /** The pool size summed over the classes present, before the fallback. */
  function ClassPool(p: Password): nat
  {
    (if HasLower(p) then LowerPool else 0)
    + (if HasUpper(p) then UpperPool else 0)
    + (if HasDigit(p) then DigitPool else 0)
    + (if HasSymbol(p) then SymbolPool else 0)
    + (if HasNonAscii(p) then NonAsciiPool else 0)
  }

  function PoolSize(p: Password): (n: nat)
    ensures 10 <= n <= 195
  {
    if ClassPool(p) == 0 then FallbackPool else ClassPool(p)
  }

  /** For a non-empty password some class is always present, so the
      fallback to a 26-symbol pool never applies. */
  lemma FallbackNeverApplies(p: Password)
    requires |p| > 0
    ensures ClassPool(p) >= DigitPool
    ensures PoolSize(p) == ClassPool(p)
  {
    SomeClassPresent(p);
  }

  /** `Math.floor(match.length * 0.5)` */
  function RepeatDeduction(len: nat): nat { len / 2 }

  /** `Math.floor(match.length * 0.3)` */
  function SequenceDeduction(len: nat): nat { len * 3 / 10 }

  /** What a `forEach` over the matches takes off the effective length. */
  function Penalty(ms: seq<Match>, deduction: nat -> nat): nat
  {
    if ms == [] then 0 else deduction(ms[0].len) + Penalty(ms[1..], deduction)
  }

  lemma {:induction false} PenaltyAppend(a: seq<Match>, b: seq<Match>, deduction: nat -> nat)
    ensures Penalty(a + b, deduction) == Penalty(a, deduction) + Penalty(b, deduction)
  {
    if a != [] {
      assert (a + b)[0] == a[0];
      assert (a + b)[1..] == a[1..] + b;
      PenaltyAppend(a[1..], b, deduction);
    } else {
      assert a + b == b;
    }
  }

  /** The penalties of the three sequential-pattern families, in scan order. */
  function FamiliesPenalty(p: Password, families: seq<seq<string>>): nat
  {
    if families == [] then 0
    else FamiliesPenalty(p, families[..|families| - 1])
         + Penalty(SequenceMatches(p, families[|families| - 1]), SequenceDeduction)
  }

  /** The effective length: the length less both penalties, never below 1. */
  function EffectiveLength(p: Password): nat
  {
    var n := |p| - Penalty(RepeatMatches(p), RepeatDeduction) - FamiliesPenalty(p, SequenceFamilies);
    if n < 1 then 1 else n
  }

  /** `Math.round(Math.log2(pool) * len)`, computed exactly: with Q = pool^(2 len),
      log2(2 Q) = 2 (len log2(pool)) + 1, so halving its integer part rounds
      len log2(pool) to the nearest integer. */
  function RoundedBits(pool: nat, len: nat): nat
    requires pool >= 1
  {
    PowPositive(pool, 2 * len);
    Log2Floor(2 * Pow(pool, 2 * len)) / 2
  }

  /** The entropy of a password in bits; 0 for the empty password. */
  function Entropy(p: Password): nat
  {
    if p == [] then 0 else RoundedBits(PoolSize(p), EffectiveLength(p))
  }

  /** `calculateEntropy`: accumulates the pool size class by class, then walks
      the matches of each scan and takes each one's deduction off the length. */
  method CalculateEntropy(password: Password) returns (entropy: nat)
    ensures entropy == Entropy(password)
    ensures password == [] ==> entropy == 0
  {
    if password == [] {
      return 0;
    }

    var poolSize := 0;
    if HasLower(password) { poolSize := poolSize + LowerPool; }
    if HasUpper(password) { poolSize := poolSize + UpperPool; }
    if HasDigit(password) { poolSize := poolSize + DigitPool; }
    if HasSymbol(password) { poolSize := poolSize + SymbolPool; }
    if HasNonAscii(password) { poolSize := poolSize + NonAsciiPool; }
    assert poolSize == ClassPool(password);
    if poolSize == 0 { poolSize := FallbackPool; }
    assert poolSize == PoolSize(password);

    var effectiveLength: int := |password|;

    var repeated := RepeatMatches(password);
    for k := 0 to |repeated|
      invariant effectiveLength == |password| - Penalty(repeated[..k], RepeatDeduction)
    {
      PenaltyAppend(repeated[..k], [repeated[k]], RepeatDeduction);
      assert repeated[..k + 1] == repeated[..k] + [repeated[k]];
      effectiveLength := effectiveLength - RepeatDeduction(repeated[k].len);
    }
    assert repeated[..|repeated|] == repeated;
    effectiveLength := DeductSequences(password, effectiveLength);

    if effectiveLength < 1 {
      effectiveLength := 1;
    }
    assert effectiveLength == EffectiveLength(password);
    entropy := RoundedBits(poolSize, effectiveLength);
  }

  /** The sequence scan of `calculateEntropy`: for each family of sequences,
      each match takes its deduction off the running length. */
  method DeductSequences(password: Password, afterRepeats: int) returns (effectiveLength: int)
    ensures effectiveLength == afterRepeats - FamiliesPenalty(password, SequenceFamilies)
  {
    effectiveLength := afterRepeats;
    for f := 0 to |SequenceFamilies|
      invariant effectiveLength == afterRepeats - FamiliesPenalty(password, SequenceFamilies[..f])
    {
      ghost var done := SequenceFamilies[..f];
      effectiveLength := DeductFamily(password, SequenceFamilies[f], effectiveLength);
      assert SequenceFamilies[..f + 1] == done + [SequenceFamilies[f]];
    }
    assert SequenceFamilies[..|SequenceFamilies|] == SequenceFamilies;
  }

  /** One family's matches, each taking its deduction off the running length. */
  method DeductFamily(password: Password, family: seq<string>, before: int) returns (effectiveLength: int)
    ensures effectiveLength == before - Penalty(SequenceMatches(password, family), SequenceDeduction)
  {
    effectiveLength := before;
    var matches := SequenceMatches(password, family);
    for k := 0 to |matches|
      invariant effectiveLength == before - Penalty(matches[..k], SequenceDeduction)
    {
      PenaltyAppend(matches[..k], [matches[k]], SequenceDeduction);
      assert matches[..k + 1] == matches[..k] + [matches[k]];
      effectiveLength := effectiveLength - SequenceDeduction(matches[k].len);
    }
    assert matches[..|matches|] == matches;
  }

  // ---------------------------------------------------------------------------
  // Effective length

  lemma {:induction false} RepeatPenaltyFromBound(p: Password, i: nat)
    requires i <= |p|
    ensures 2 * Penalty(RepeatMatchesFrom(p, i), RepeatDeduction) <= |p| - i
    decreases |p| - i
  {
    if i < |p| {
      if RepeatAt(p, i) {
        var k := RunLength(p, i);
        RepeatPenaltyFromBound(p, i + k);
        assert ([Match(i, k)] + RepeatMatchesFrom(p, i + k))[1..] == RepeatMatchesFrom(p, i + k);
      } else {
        RepeatPenaltyFromBound(p, i + 1);
      }
    }
  }

  /** The repeat penalty takes off at most half the length, since the runs it
      deducts for do not overlap. */
  lemma RepeatPenaltyBound(p: Password)
    ensures 2 * Penalty(RepeatMatches(p), RepeatDeduction) <= |p|
  {
    RepeatPenaltyFromBound(p, 0);
  }

  lemma {:induction false} ThreeUnitMatchesDeductNothing(ms: seq<Match>)
    requires forall m :: m in ms ==> m.len == 3
    ensures Penalty(ms, SequenceDeduction) == 0
  {
    if ms != [] {
      assert ms[0] in ms;
      ThreeUnitMatchesDeductNothing(ms[1..]);
    }
  }

  lemma {:induction false} FamiliesPenaltyZero(p: Password, families: seq<seq<string>>)
    ensures FamiliesPenalty(p, families) == 0
  {
    if families != [] {
      FamiliesPenaltyZero(p, families[..|families| - 1]);
      ThreeUnitMatchesDeductNothing(SequenceMatches(p, families[|families| - 1]));
    }
  }

  /** Every sequential-pattern match is three code units long and
      floor(3 * 0.3) = 0, so the sequence scan never changes the effective
      length; and since the repeat penalty takes at most half the length, the
      floor at 1 never applies either: the effective length lies between half
      the length (rounded up) and the length. */
  lemma EffectiveLengthBounds(p: Password)
    requires |p| > 0
    ensures FamiliesPenalty(p, SequenceFamilies) == 0
    ensures EffectiveLength(p) == |p| - Penalty(RepeatMatches(p), RepeatDeduction)
    ensures (|p| + 1) / 2 <= EffectiveLength(p) <= |p|
  {
    FamiliesPenaltyZero(p, SequenceFamilies);
    RepeatPenaltyBound(p);
    var penalty := Penalty(RepeatMatches(p), RepeatDeduction);
    RepeatPenaltyLeavesHalf(|p|, penalty);
    EffectiveLengthUnfloored(p, penalty);
  }

  lemma RepeatPenaltyLeavesHalf(n: nat, penalty: nat)
    requires n >= 1 && 2 * penalty <= n
    ensures 1 <= (n + 1) / 2 <= n - penalty
  {
  }

  lemma EffectiveLengthUnfloored(p: Password, penalty: nat)
    requires |p| - penalty >= 1
    requires FamiliesPenalty(p, SequenceFamilies) == 0 && penalty == Penalty(RepeatMatches(p), RepeatDeduction)
    ensures EffectiveLength(p) == |p| - penalty
  {
  }

  lemma {:induction false} PenaltyPositive(ms: seq<Match>)
    requires exists m :: m in ms && m.len >= 3
    ensures Penalty(ms, RepeatDeduction) >= 1
  {
    if ms[0].len < 3 {
      var m :| m in ms && m.len >= 3;
      assert m in ms[1..];
      PenaltyPositive(ms[1..]);
    }
  }

  /** The effective length falls short of the length exactly when the password
      holds a run of three or more identical code units. */
  lemma EffectiveLengthShortIffRepeat(p: Password)
    requires |p| > 0
    ensures EffectiveLength(p) < |p| <==> HasRepeat(p)
  {
    EffectiveLengthBounds(p);
    HasRepeatIffMatches(p);
    RepeatMatchesAreMaximalRuns(p);
    var ms := RepeatMatches(p);
    if ms != [] {
      assert ms[0] in ms;
      PenaltyPositive(ms);
    }
  }

  // ---------------------------------------------------------------------------
  // Rounding and the entropy itself

  /** RoundedBits is the integer nearest to len * log2(pool):
      2^(2e - 1) <= pool^(2 len) < 2^(2e + 1). */
  lemma RoundedBitsIsNearest(pool: nat, len: nat)
    requires pool >= 1
    ensures Pow(pool, 2 * len) < Pow(2, 2 * RoundedBits(pool, len) + 1)
    ensures RoundedBits(pool, len) >= 1 ==> Pow(2, 2 * RoundedBits(pool, len) - 1) <= Pow(pool, 2 * len)
  {
    var q := Pow(pool, 2 * len);
    PowPositive(pool, 2 * len);
    HalvedLog(Log2Floor(2 * q), q);
  }

  /** If 2^f <= 2q < 2^(f+1), then e = f / 2 brackets q as 2^(2e-1) <= q < 2^(2e+1). */
  lemma HalvedLog(f: nat, q: nat)
    requires Pow(2, f) <= 2 * q < Pow(2, f + 1)
    ensures q < Pow(2, 2 * (f / 2) + 1)
    ensures f / 2 >= 1 ==> Pow(2, 2 * (f / 2) - 1) <= q
  {
    var e := f / 2;
    PowTwoStep(2 * e + 1);
    if f == 2 * e {
      PowMonotone(2, f + 1, 2 * e + 2);
      if e >= 1 {
        PowTwoStep(2 * e - 1);
      }
    } else {
      assert f == 2 * e + 1;
      if e >= 1 {
        PowTwoStep(2 * e - 1);
        PowTwoStep(2 * e);
        PowMonotone(2, 2 * e - 1, 2 * e);
      }
    }
  }

  /** One more unit of effective length over a pool of at least two symbols
      adds at least one bit. */
  lemma RoundedBitsStep(pool: nat, a: nat)
    requires pool >= 2
    ensures RoundedBits(pool, a) + 1 <= RoundedBits(pool, a + 1)
  {
    var q, q' := Pow(pool, 2 * a), Pow(pool, 2 * a + 2);
    PowPositive(pool, 2 * a);
    PowSquareStep(pool, 2 * a);
    assert 2 * (a + 1) == 2 * a + 2;
    Log2FloorMonotone(4 * (2 * q), 2 * q');
    Log2FloorTimesFour(2 * q);
  }

  /** A longer effective length over the same pool (of at least two symbols)
      gives strictly more bits. */
  lemma {:induction false} RoundedBitsStrictlyIncreasing(pool: nat, a: nat, b: nat)
    requires pool >= 2 && a < b
    ensures RoundedBits(pool, a) < RoundedBits(pool, b)
    decreases b - a
  {
    RoundedBitsStep(pool, a);
    if a + 1 < b {
      RoundedBitsStrictlyIncreasing(pool, a + 1, b);
    }
  }

  /** Every non-empty password is worth at least one bit. */
  lemma EntropyPositive(p: Password)
    requires |p| > 0
    ensures Entropy(p) >= 1
  {
    var pool, len := PoolSize(p), EffectiveLength(p);
    RoundedBitsIsNearest(pool, len);
    PowMonotone(pool, 2, 2 * len);
    PowSquareStep(pool, 0);
    assert Pow(2, 1) == 2;
  }

  /** A run of repeated characters costs entropy: against a password of the
      same length and pool size without such a run, strictly fewer bits. */
  lemma RepeatsLowerEntropy(p: Password, q: Password)
    requires |p| == |q| > 0 && PoolSize(p) == PoolSize(q)
    requires HasRepeat(p) && !HasRepeat(q)
    ensures Entropy(p) < Entropy(q)
  {
    EffectiveLengthShortIffRepeat(p);
    EffectiveLengthShortIffRepeat(q);
    EffectiveLengthBounds(q);
    RoundedBitsStrictlyIncreasing(PoolSize(p), EffectiveLength(p), EffectiveLength(q));
  }
}
