/** Division facts the solver does not find by itself. */
module Arith {

  lemma MulAtLeast(a: nat, d: nat)
    requires a >= 1
    ensures a * d >= d
  {
    assert a * d == (a - 1) * d + d;
  }

  lemma FactorSign(x: int, d: nat)
    ensures x <= 0 ==> x * d <= 0
  {
  }

  /** Quotient and remainder are unique. */
  lemma DivUnique(n: int, d: int, q: int, r: int)
    requires d >= 1 && n == q * d + r && 0 <= r < d
    ensures n / d == q && n % d == r
  {
    var q', r' := n / d, n % d;
    assert n == q' * d + r';
    assert (q - q') * d == r' - r;
    if q > q' {
      MulAtLeast(q - q', d);
    } else if q < q' {
      MulAtLeast(q' - q, d);
    }
  }

  /** Multiples of d are at least d apart. */
  lemma MultiplesApart(a: nat, b: nat, d: nat)
    requires a < b
    ensures d * a + d <= d * b
  {
    assert d * b == d * a + d * (b - a);
    MulAtLeast(b - a, d);
  }

  lemma ModShift(x: int, d: nat, q: int)
    requires d > 0
    ensures (x + q * d) % d == x % d
  {
    assert x + q * d == (x / d + q) * d + x % d;
    DivUnique(x + q * d, d, x / d + q, x % d);
  }

  lemma ModPlus(x: int, d: nat)
    requires d > 0
    ensures (x + d) % d == x % d
  {
    ModShift(x, d, 1);
  }

  /** Remainders may be taken early. */
  lemma ModAbsorb(x: int, y: int, d: nat)
    requires d > 0
    ensures (x % d + y) % d == (x + y) % d
  {
    assert x == (x / d) * d + x % d;
    ModShift(x % d + y, d, x / d);
  }

  lemma SameRemainder(x: int, y: int, d: nat)
    requires d > 0
    ensures x % d == y % d <==> (y - x) % d == 0
  {
    assert x == (x / d) * d + x % d && y == (y / d) * d + y % d;
    if x % d == y % d {
      assert y - x == (y / d - x / d) * d;
      DivUnique(y - x, d, y / d - x / d, 0);
    }
    if (y - x) % d == 0 {
      assert y == x + ((y - x) / d) * d;
      ModShift(x, d, (y - x) / d);
    }
  }

  /** Numbers less than d apart have different remainders. */
  lemma RemaindersDiffer(x: int, y: int, d: nat)
    requires d > 0 && x < y < x + d
    ensures x % d != y % d
  {
    SameRemainder(x, y, d);
    DivUnique(y - x, d, 0, y - x);
  }

  function Pow2(k: nat): (r: nat)
    ensures r >= 1
  {
    if k == 0 then 1 else 2 * Pow2(k - 1)
  }

  lemma {:induction false} PowMonotone(k: nat, j: nat)
    ensures k <= j ==> Pow2(k) <= Pow2(j)
    ensures k > j ==> Pow2(k) >= 2 * Pow2(j)
  {
    if k > 0 && j > 0 { PowMonotone(k - 1, j - 1); }
  }

  ghost predicate IsPow2(n: nat) { exists k: nat :: n == Pow2(k) }

  lemma DoublePow2(n: nat)
    requires IsPow2(n)
    ensures IsPow2(2 * n)
    ensures n > 1 ==> n % 2 == 0 && IsPow2(n / 2)
  {
    var k: nat :| n == Pow2(k);
    assert 2 * n == Pow2(k + 1);
    if k > 0 { assert n / 2 == Pow2(k - 1); }
  }
}
