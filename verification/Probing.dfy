/**
 Triangular probing: jumps of 1, 2, 3, ... modulo a power of two visit every bucket once.
 */
module Probing {
  import opened Arith
  import opened Sums

  /** 1 + 2 + ... + n, the total of the first n jumps. */
  function Tri(n: nat): nat { if n == 0 then 0 else Tri(n - 1) + n }

  /** The bucket looked at after n jumps from hash h. */
  function ProbeAt(h: nat, n: nat, buckets: nat): (i: nat)
    requires buckets > 0
    ensures i < buckets
  {
    (h + Tri(n)) % buckets
  }

  lemma {:induction false} TriClosed(n: nat)
    ensures 2 * Tri(n) == n * (n + 1)
  {
    if n > 0 { TriClosed(n - 1); }
  }

  /** An odd factor does not help to reach a power of two. */
  lemma {:induction false} OddFactor(odd: int, x: int, z: int, m: nat)
    requires odd % 2 == 1 && z == odd * x && z % Pow2(m) == 0
    ensures x % Pow2(m) == 0
    decreases m
  {
    if m > 0 {
      var p := Pow2(m - 1);
      assert z % (2 * p) == 0;
      var y, w := Halve(odd, x, z, p);
      OddFactor(odd, y, w, m - 1);
      DoubleDivides(y, p);
    }
  }

  lemma Halve(odd: int, x: int, z: int, p: nat) returns (y: int, w: int)
    requires p > 0 && odd % 2 == 1 && z == odd * x && z % (2 * p) == 0
    ensures x == 2 * y && w == odd * y && w % p == 0
  {
    var q := z / (2 * p);
    assert z == q * (2 * p) == (q * p) * 2;
    DivUnique(z, 2, q * p, 0);
    OddKeepsParity(odd, x);
    y := x / 2;
    w := odd * y;
    assert z == 2 * w;
    DivUnique(w, p, q, 0);
  }

  lemma OddKeepsParity(odd: int, x: int)
    requires odd % 2 == 1
    ensures (odd * x) % 2 == x % 2
  {
    var a := odd / 2;
    assert odd * x == x + (a * x) * 2 by {
      assert odd == 2 * a + 1;
    }
    ModShift(x, 2, a * x);
  }

  lemma DoubleDivides(y: int, p: nat)
    requires p > 0 && y % p == 0
    ensures (2 * y) % (2 * p) == 0
  {
    assert y == (y / p) * p;
    assert 2 * y == (y / p) * (2 * p);
    DivUnique(2 * y, 2 * p, y / p, 0);
  }

  /** Of two factors of different parity, the even one alone carries the power of two. */
  lemma EvenFactorCarries(d: int, e: int, z: int, m: nat)
    requires d % 2 == 1 || e % 2 == 1
    requires z == d * e == e * d && z % Pow2(m) == 0
    ensures d % Pow2(m) == 0 || e % Pow2(m) == 0
  {
    if d % 2 == 1 {
      OddFactor(d, e, z, m);
    } else {
      OddFactor(e, d, z, m);
    }
  }

  lemma TriDifference(i: nat, j: nat)
    ensures 2 * (Tri(j) - Tri(i)) == (j - i) * (j + i + 1)
  {
    TriClosed(i);
    TriClosed(j);
  }

  lemma HalfProductApart(d: int, e: int, x: int, k: nat)
    requires 2 * x == d * e == e * d && (d % 2 == 1 || e % 2 == 1)
    requires 0 < d < 2 * Pow2(k) && 0 < e < 2 * Pow2(k)
    ensures x % Pow2(k) != 0
  {
    var p := Pow2(k);
    DivUnique(d, 2 * p, 0, d);
    DivUnique(e, 2 * p, 0, e);
    if x % p == 0 {
      DoubleDivides(x, p);
      assert Pow2(k + 1) == 2 * p;
      EvenFactorCarries(d, e, 2 * x, k + 1);
    }
  }

  /** Two triangular numbers less than 2^k jumps apart never agree modulo 2^k. */
  lemma TriApart(i: nat, j: nat, k: nat)
    requires i < j < Pow2(k)
    ensures (Tri(j) - Tri(i)) % Pow2(k) != 0
  {
    var d, e := j - i, j + i + 1;
    TriDifference(i, j);
    Commute(d, e);
    OneIsOdd(d, e, i);
    HalfProductApart(d, e, Tri(j) - Tri(i), k);
  }

  lemma OneIsOdd(d: int, e: int, i: int)
    requires e == d + 2 * i + 1
    ensures d % 2 == 1 || e % 2 == 1
  {
  }

  lemma Commute(x: int, y: int)
    ensures x * y == y * x
  {
  }

  /** The first 2^k probes look at different buckets. */
  lemma ProbesDiffer(h: nat, i: nat, j: nat, k: nat)
    requires i < j < Pow2(k)
    ensures ProbeAt(h, i, Pow2(k)) != ProbeAt(h, j, Pow2(k))
  {
    TriApart(i, j, k);
    SameRemainder(h + Tri(i), h + Tri(j), Pow2(k));
    assert h + Tri(j) - (h + Tri(i)) == Tri(j) - Tri(i);
  }

  /** So every bucket is looked at within the first 2^k probes. */
  lemma ProbesReachAll(h: nat, b: nat, k: nat) returns (n: nat)
    requires b < Pow2(k)
    ensures n < Pow2(k) && ProbeAt(h, n, Pow2(k)) == b
  {
    var p := Pow2(k);
    var s := seq(p, n requires 0 <= n < p => ProbeAt(h, n, p));
    if b in s {
      n :| n < p && s[n] == b;
    } else {
      forall i, j | 0 <= i < j < |s| ensures s[i] != s[j] {
        ProbesDiffer(h, i, j, k);
      }
      DistinctSize(s, Below(p) - {b});
      assert false;
    }
  }

  /** One loop iteration of the source goes from one probe to the next. */
  lemma NextProbe(h: nat, n: nat, buckets: nat)
    requires buckets > 0
    ensures (ProbeAt(h, n, buckets) + n + 1) % buckets == ProbeAt(h, n + 1, buckets)
  {
    ModAbsorb(h + Tri(n), n + 1, buckets);
  }
}
