/** Keys as eight bytes and as integers: byte swapping, comparison, and the bucket of a key. */
module KeyOrder {
  import opened Arith

  type Bytes = s: seq<int> | forall i :: 0 <= i < |s| ==> 0 <= s[i] < 256

  /** Integer value of bytes, most significant first. */
  function BigEndian(s: Bytes): nat {
    if |s| == 0 then 0 else BigEndian(s[..|s| - 1]) * 256 + s[|s| - 1]
  }

  function Reverse(s: Bytes): (r: Bytes)
    ensures |r| == |s| && forall i :: 0 <= i < |s| ==> r[i] == s[|s| - 1 - i]
  {
    seq(|s|, i requires 0 <= i < |s| => s[|s| - 1 - i])
  }

  /** TO_UINT64 on a little-endian machine. */
  function LoadWord(s: Bytes): nat { BigEndian(Reverse(s)) }

  /** The n low bytes of x, most significant first. */
  function ToBytes(x: nat, n: nat): (s: Bytes)
    ensures |s| == n
  {
    if n == 0 then [] else ToBytes(x / 256, n - 1) + [x % 256]
  }

  /** bswap_64, and the store of a word into memory. */
  function ByteSwap(x: nat): nat { BigEndian(Reverse(ToBytes(x, 8))) }
  function StoreWord(x: nat): Bytes { Reverse(ToBytes(x, 8)) }

  function Power256(n: nat): nat { if n == 0 then 1 else 256 * Power256(n - 1) }

  lemma {:induction false} BigEndianBound(s: Bytes)
    ensures BigEndian(s) < Power256(|s|)
  {
    if |s| > 0 { BigEndianBound(s[..|s| - 1]); }
  }

  lemma {:induction false} BytesOfBigEndian(s: Bytes)
    ensures ToBytes(BigEndian(s), |s|) == s
  {
    if |s| > 0 {
      var t := s[..|s| - 1];
      BytesOfBigEndian(t);
      DivUnique(BigEndian(s), 256, BigEndian(t), s[|s| - 1]);
      assert s == t + [s[|s| - 1]];
    }
  }

  lemma ReverseTwice(s: Bytes)
    ensures Reverse(Reverse(s)) == s
  {
  }

  /** The integer the engine works with is the big-endian value of the key's bytes. */
  lemma SwappedLoadIsBigEndian(s: Bytes)
    requires |s| == 8
    ensures ByteSwap(LoadWord(s)) == BigEndian(s)
  {
    BytesOfBigEndian(Reverse(s));
    ReverseTwice(s);
  }

  /** What a scan hands to the visitor is the key's bytes again. */
  lemma StoredSwapIsKey(s: Bytes)
    requires |s| == 8
    ensures KeyBytes(BigEndian(s)) == s
  {
    BytesOfBigEndian(s);
    BytesOfBigEndian(Reverse(s));
    ReverseTwice(s);
  }

  /** The bytes a scan stores for the visitor: the swapped key, written to memory. */
  function KeyBytes(x: nat): Bytes { StoreWord(ByteSwap(x)) }

  lemma {:induction false} BigEndianOfBytes(x: nat, n: nat)
    requires x < Power256(n)
    ensures BigEndian(ToBytes(x, n)) == x
  {
    if n > 0 {
      BigEndianOfBytes(x / 256, n - 1);
      var s := ToBytes(x, n);
      assert s[..n - 1] == ToBytes(x / 256, n - 1);
    }
  }

  lemma KeyBytesAreBigEndian(x: nat)
    requires x < KEY_RANGE
    ensures |KeyBytes(x)| == 8 && BigEndian(KeyBytes(x)) == x
  {
    BytesOfBigEndian(Reverse(ToBytes(x, 8)));
    ReverseTwice(ToBytes(x, 8));
    EightBytes();
    BigEndianOfBytes(x, 8);
  }

  lemma EightBytes()
    ensures Power256(8) == KEY_RANGE
  {
    assert Power256(2) == 65536;
    assert Power256(4) == 256 * (256 * Power256(2));
    assert Power256(6) == 256 * (256 * Power256(4));
    assert Power256(8) == 256 * (256 * Power256(6));
  }

  lemma KeyInRange(s: Bytes)
    requires |s| == 8
    ensures BigEndian(s) < KEY_RANGE
  {
    EightBytes();
    BigEndianBound(s);
  }

  /** memcmp over the first n bytes. */
  function MemCompare(a: Bytes, b: Bytes, n: nat): int
    requires n <= |a| && n <= |b|
  {
    if n == 0 then 0
    else
      var before := MemCompare(a, b, n - 1);
      if before != 0 then before else a[n - 1] - b[n - 1]
  }

  /** PolarString::compare */
  function Compare(a: Bytes, b: Bytes): int {
    var r := MemCompare(a, b, if |a| < |b| then |a| else |b|);
    if r != 0 then r else if |a| < |b| then -1 else if |a| > |b| then 1 else 0
  }

  lemma {:induction false} PrefixOrder(a: Bytes, b: Bytes, n: nat)
    requires n <= |a| && n <= |b|
    ensures MemCompare(a, b, n) < 0 <==> BigEndian(a[..n]) < BigEndian(b[..n])
    ensures MemCompare(a, b, n) == 0 <==> BigEndian(a[..n]) == BigEndian(b[..n])
  {
    if n > 0 {
      PrefixOrder(a, b, n - 1);
      assert a[..n][..n - 1] == a[..n - 1] && b[..n][..n - 1] == b[..n - 1];
    }
  }

  /** For keys of equal length, byte order is the order of the big-endian integers. */
  lemma CompareIsBigEndianOrder(a: Bytes, b: Bytes)
    requires |a| == |b|
    ensures Compare(a, b) < 0 <==> BigEndian(a) < BigEndian(b)
    ensures Compare(a, b) == 0 <==> BigEndian(a) == BigEndian(b)
    ensures Compare(a, b) == 0 <==> a == b
  {
    PrefixOrder(a, b, |a|);
    assert a[..|a|] == a && b[..|b|] == b;
    BytesOfBigEndian(a);
    BytesOfBigEndian(b);
  }

  // ---------- Buckets ----------

  const KEY_RANGE: nat := 0x1_0000_0000_0000_0000
  const BUCKET_DIGITS: nat := 10
  const BUCKET_NUM: nat := 1024
  const BUCKET_SPAN: nat := 0x40_0000_0000_0000      // 2 to the power 64 - BUCKET_DIGITS

  /** get_par_bucket_id: (key >> (64 - BUCKET_DIGITS)) & 0xffffff */
  function BucketId(key: nat): nat { key / BUCKET_SPAN % 0x100_0000 }

  /** Every 64-bit key has a bucket, the mask drops nothing, and buckets follow key order. */
  lemma BucketsFollowKeys(k: nat, l: nat)
    requires k < KEY_RANGE && l < KEY_RANGE
    ensures BucketId(k) < BUCKET_NUM
    ensures BucketId(k) < BucketId(l) ==> k < l
    ensures k <= l ==> BucketId(k) <= BucketId(l)
  {
    assert k / BUCKET_SPAN < BUCKET_NUM && l / BUCKET_SPAN < BUCKET_NUM;
  }

  /** The bucket of a key is its first byte and the two top bits of its second. */
  lemma BucketFromBytes(s: Bytes)
    requires |s| == 8
    ensures BucketId(BigEndian(s)) == s[0] * 4 + s[1] / 64
  {
    SplitBigEndian(s, 2);
    BigEndianBound(s[2..]);
    TwoBytes(s[..2]);
    SixBytes();
    TopBits(s[0], s[1], BigEndian(s[2..]), Power256(6), BigEndian(s));
  }

  lemma TopBits(x: nat, y: nat, low: nat, p: nat, key: nat)
    requires x < 256 && y < 256 && low < p && p * 64 == BUCKET_SPAN && key == (x * 256 + y) * p + low
    ensures BucketId(key) == x * 4 + y / 64
  {
    var q, r := x * 4 + y / 64, y % 64;
    assert (x * 256 + y) * p == q * (p * 64) + r * p by { Regroup(x * 256 + y, q, r, p); }
    assert r * p + p <= 64 * p by { MulAtLeastOnce(64 - r, p); }
    DivUnique(key, BUCKET_SPAN, q, r * p + low);
  }

  lemma Regroup(n: nat, q: nat, r: nat, p: nat)
    requires n == q * 64 + r
    ensures n * p == q * (p * 64) + r * p
  {
  }

  lemma MulAtLeastOnce(n: nat, p: nat)
    requires 1 <= n <= 64
    ensures (64 - n) * p + p <= 64 * p
  {
    var m: nat := n - 1;
    assert 64 * p == (64 - n) * p + p + m * p;
  }

  lemma TwoBytes(s: Bytes)
    requires |s| == 2
    ensures BigEndian(s) == s[0] * 256 + s[1]
  {
    assert s[..1] == [s[0]] && BigEndian([s[0]]) == s[0];
  }

  lemma SixBytes()
    ensures Power256(6) * 64 == BUCKET_SPAN
  {
    assert Power256(2) == 65536;
    assert Power256(4) == 256 * (256 * Power256(2));
    assert Power256(6) == 256 * (256 * Power256(4));
  }

  lemma {:induction false} SplitBigEndian(s: Bytes, n: nat)
    requires n <= |s|
    ensures BigEndian(s) == BigEndian(s[..n]) * Power256(|s| - n) + BigEndian(s[n..])
    decreases |s|
  {
    if n == |s| {
      assert s[..n] == s;
    } else {
      var t := s[..|s| - 1];
      SplitBigEndian(t, n);
      assert t[..n] == s[..n] && s[n..][..|s| - n - 1] == t[n..];
      LastByte(BigEndian(s[..n]), Power256(|t| - n), BigEndian(t[n..]), s[|s| - 1]);
    }
  }

  lemma LastByte(a: nat, p: nat, b: nat, x: nat)
    ensures (a * p + b) * 256 + x == a * (256 * p) + (b * 256 + x)
  {
  }
}
