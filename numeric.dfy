/** Exact integer arithmetic that stands in for the engine's floating-point
    powers and logarithms: `Math.pow(2, e)`, `Math.log2` and `Math.round`. */
module Numeric {

  function Pow(b: nat, e: nat): nat
  {
    if e == 0 then 1 else b * Pow(b, e - 1)
  }

  lemma {:induction false} PowPositive(b: nat, e: nat)
    requires b >= 1
    ensures Pow(b, e) >= 1
  {
    if e > 0 {
      PowPositive(b, e - 1);
    }
  }

  lemma {:induction false} PowAdd(b: nat, m: nat, n: nat)
    ensures Pow(b, m + n) == Pow(b, m) * Pow(b, n)
  {
    if n > 0 {
      PowAdd(b, m, n - 1);
      calc {
        Pow(b, m + n);
        b * Pow(b, m + n - 1);
        b * (Pow(b, m) * Pow(b, n - 1));
        Pow(b, m) * (b * Pow(b, n - 1));
      }
    }
  }

  lemma {:induction false} PowMonotone(b: nat, m: nat, n: nat)
    requires b >= 1 && m <= n
    ensures Pow(b, m) <= Pow(b, n)
  {
    if m < n {
      PowMonotone(b, m, n - 1);
      PowPositive(b, n - 1);
      assert Pow(b, n) == b * Pow(b, n - 1) >= Pow(b, n - 1);
    }
  }

  lemma {:induction false} PowStrictlyMonotone(b: nat, m: nat, n: nat)
    requires b >= 2 && m < n
    ensures Pow(b, m) < Pow(b, n)
  {
    PowMonotone(b, m, n - 1);
    PowPositive(b, n - 1);
    assert Pow(b, n) == b * Pow(b, n - 1) >= 2 * Pow(b, n - 1);
  }

  lemma MulAtLeast(x: nat, y: nat)
    requires x >= 1
    ensures x * y >= y
  {
  }

  lemma PowTwoStep(n: nat)
    ensures Pow(2, n + 1) == 2 * Pow(2, n)
  {
  }

  /** Two more factors of a base of at least two multiply by at least four. */
  lemma PowSquareStep(b: nat, n: nat)
    requires b >= 2
    ensures Pow(b, n + 2) >= 4 * Pow(b, n)
  {
    var x := Pow(b, n);
    assert Pow(b, n + 2) == b * (b * x);
    assert b * x >= 2 * x;
    assert b * (b * x) >= 2 * (b * x);
  }

  /** 2^(10k) >= 1000^k: used to bound large powers of two from below. */
  lemma {:induction false} PowTwoDecades(k: nat)
    ensures Pow(2, 10 * k) >= Pow(1000, k)
  {
    if k > 0 {
      PowTwoDecades(k - 1);
      PowAdd(2, 10 * (k - 1), 10);
      assert Pow(2, 10) == 1024;
      assert 10 * k == 10 * (k - 1) + 10;
      assert Pow(2, 10 * k) == Pow(2, 10 * (k - 1)) * 1024;
    }
  }

  /** The integer part of log2(x). */
  function Log2Floor(x: nat): (r: nat)
    requires x >= 1
    ensures Pow(2, r) <= x < Pow(2, r + 1)
    decreases x
  {
    if x < 2 then 0 else 1 + Log2Floor(x / 2)
  }

  /** The bracketing of Log2Floor determines it. */
  lemma Log2FloorUnique(x: nat, r: nat)
    requires x >= 1 && Pow(2, r) <= x < Pow(2, r + 1)
    ensures Log2Floor(x) == r
  {
    var s := Log2Floor(x);
    if s < r {
      PowMonotone(2, s + 1, r);
    } else if s > r {
      PowMonotone(2, r + 1, s);
    }
  }

  lemma Log2FloorMonotone(x: nat, y: nat)
    requires 1 <= x <= y
    ensures Log2Floor(x) <= Log2Floor(y)
  {
    if Log2Floor(x) > Log2Floor(y) {
      PowMonotone(2, Log2Floor(y) + 1, Log2Floor(x));
    }
  }

  /** Multiplying by four adds exactly two to the binary logarithm. */
  lemma Log2FloorTimesFour(x: nat)
    requires x >= 1
    ensures Log2Floor(4 * x) == Log2Floor(x) + 2
  {
    var r := Log2Floor(x);
    assert Pow(2, r + 2) == 4 * Pow(2, r);
    assert Pow(2, r + 3) == 4 * Pow(2, r + 1);
    Log2FloorUnique(4 * x, r + 2);
  }

  /** `Math.round` on a finite number: the nearest integer, halves rounded up. */
  function Round(x: real): (n: int)
    ensures n as real - 0.5 <= x < n as real + 0.5
  {
    (x + 0.5).Floor
  }
}
