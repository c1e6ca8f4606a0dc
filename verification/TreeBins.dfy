/**
 The allocator's tree bins: bitwise tries of free chunks keyed on size, with chunks of equal size on one ring,
 and the best-fit searches over them.

 Chunks are named by their address.  Trees are values: a node's parent pointer is not part of this model.
 */
module TreeBins {
  import opened Arith
  import opened Options

  const NTREEBINS: nat := 32
  const TREEBIN_SHIFT: nat := 8
  const WORD: nat := 0x1_0000_0000_0000_0000    // a size_t
  const TOP: nat := 0x8000_0000_0000_0000       // its top bit
  const UINT: nat := 0x1_0000_0000              // an unsigned int

  datatype Chunk = Chunk(addr: nat, size: nat)

  /** A tree node and the ring of chunks of its size, itself first; children by the next bit of the size. */
  datatype Tree = Nil | Node(size: nat, ring: seq<nat>, left: Tree, right: Tree)

  // ---------- Which bin a size belongs to ----------

  function Log2(x: nat): (k: nat)
    requires x > 0
  {
    if x == 1 then 0 else Log2(x / 2) + 1
  }

  lemma {:induction false} LogBounds(x: nat)
    requires x > 0
    ensures Pow2(Log2(x)) <= x < Pow2(Log2(x) + 1)
  {
    if x > 1 { LogBounds(x / 2); }
  }

  /** compute_tree_index on the shifted size x. */
  function IndexOfShifted(s: nat, x: nat): nat {
    if x == 0 then 0
    else if x > 0xFFFF then NTREEBINS - 1
    else 2 * Log2(x) + (s / Pow2(Log2(x) + TREEBIN_SHIFT - 1)) % 2
  }

  /** compute_tree_index: the shifted size is kept in 32 bits. */
  function TreeIndex(s: nat): nat { IndexOfShifted(s, (s / 256) % UINT) }

  /** minsize_for_tree_index; the two terms have no bit in common. */
  function MinSize(i: nat): nat { Pow2(i / 2 + TREEBIN_SHIFT) + (i % 2) * Pow2(i / 2 + TREEBIN_SHIFT - 1) }

  /** How many low bits of a size the tries of bin i tell apart; the last bin inspects the whole word. */
  function Width(i: nat): nat { if i == NTREEBINS - 1 then 64 else i / 2 + TREEBIN_SHIFT - 1 }

  /** The smallest size below which bin i's tries do not look. */
  function Floor(i: nat): nat { if i == NTREEBINS - 1 then 0 else MinSize(i) }

  lemma LogUnique(x: nat, k: nat)
    requires x > 0 && Pow2(k) <= x < Pow2(k + 1)
    ensures Log2(x) == k
  {
    LogBounds(x);
    PowMonotone(k, Log2(x));
    PowMonotone(Log2(x), k);
  }

  lemma Powers()
    ensures Pow2(7) == 0x80 && Pow2(14) == 0x4000 && Pow2(15) == 0x8000 && Pow2(16) == 0x1_0000
    ensures Pow2(22) == 0x40_0000 && Pow2(23) == 0x80_0000
  {
    assert Pow2(1) == 2 && Pow2(2) == 4 && Pow2(3) == 8;
    PowAdd(4, 3);
    PowAdd(7, 7);
    PowAdd(14, 1);
    PowAdd(14, 2);
    PowAdd(15, 7);
    PowAdd(16, 7);
  }

  /** The bin of a size whose shifted value is not truncated: a quarter of the sizes with its leading bit. */
  lemma BinHolds(s: nat)
    requires 256 <= s && s / 256 <= 0xFFFF
    ensures var i := IndexOfShifted(s, s / 256);
            i < NTREEBINS && i / 2 == Log2(s / 256) && MinSize(i) <= s < MinSize(i) + Pow2(i / 2 + 7)
  {
    var k := Log2(s / 256);
    LogBounds(s / 256);
    ShortLog(s / 256);
    Shifted(s, k);
    QuarterHolds(s, k, Pow2(k + 7));
    var q := (s / Pow2(k + 7)) % 2;
    assert IndexOfShifted(s, s / 256) == 2 * k + q;
    assert (2 * k + q) / 2 == k;
  }

  lemma ShortLog(x: nat)
    requires 0 < x <= 0xFFFF
    ensures Log2(x) <= 15
  {
    Powers();
    LogBounds(x);
    PowMonotone(16, Log2(x));
  }

  lemma QuarterHolds(s: nat, k: nat, p: nat)
    requires p == Pow2(k + 7) && 2 * p <= s < 4 * p
    ensures MinSize(2 * k + (s / p) % 2) <= s < MinSize(2 * k + (s / p) % 2) + p
  {
    Quarters(k);
    var q := if s < 3 * p then 2 else 3;
    assert s / p == q by { DivUnique(s, p, q, s - q * p); }
    var i := 2 * k + q % 2;
    assert MinSize(i) == q * p;
  }

  lemma Quarters(k: nat)
    ensures MinSize(2 * k) == 2 * Pow2(k + 7) && MinSize(2 * k + 1) == 3 * Pow2(k + 7)
  {
    assert (2 * k) / 2 == k && (2 * k + 1) / 2 == k;
  }

  /** A leading bit of the shifted size is one of the size. */
  lemma Shifted(s: nat, k: nat)
    requires Pow2(k) <= s / 256 < Pow2(k + 1)
    ensures 2 * Pow2(k + 7) <= s < 4 * Pow2(k + 7)
  {
    PowAdd(k, 7);
    Powers();
  }

  lemma {:induction false} PowAdd(j: nat, k: nat)
    ensures Pow2(j + k) == Pow2(j) * Pow2(k)
  {
    if k > 0 { PowAdd(j, k - 1); }
  }

  lemma NextMin(i: nat)
    ensures MinSize(i + 1) == MinSize(i) + Pow2(i / 2 + 7)
  {
    if i % 2 == 1 {
      assert (i + 1) / 2 == i / 2 + 1;
    }
  }

  lemma {:induction false} MinMonotone(i: nat, j: nat)
    requires i <= j
    ensures MinSize(i) <= MinSize(j)
    decreases j - i
  {
    if i < j {
      NextMin(i);
      MinMonotone(i + 1, j);
    }
  }

  lemma LastMin()
    ensures MinSize(NTREEBINS - 1) == 0xC0_0000
  {
    Powers();
  }

  /** Every size below 2^40 goes to the bin whose range it is in. */
  lemma IndexRange(s: nat)
    requires 256 <= s < 0x100_0000_0000
    ensures var i := TreeIndex(s);
            i < NTREEBINS && MinSize(i) <= s && (i < NTREEBINS - 1 ==> s < MinSize(i + 1))
  {
    var x := s / 256;
    NotTruncated(s);
    if x <= 0xFFFF {
      BinHolds(s);
      NextMin(TreeIndex(s));
    } else {
      LastMin();
    }
  }

  lemma NotTruncated(s: nat)
    requires s < 0x100_0000_0000
    ensures TreeIndex(s) == IndexOfShifted(s, s / 256)
  {
    DivUnique(s / 256, UINT, 0, s / 256);
  }

  /** So larger sizes never go to lower bins. */
  lemma IndexMonotone(s: nat, u: nat)
    requires 256 <= s <= u < 0x100_0000_0000
    ensures TreeIndex(s) <= TreeIndex(u)
  {
    IndexRange(s);
    IndexRange(u);
    if TreeIndex(u) < TreeIndex(s) { MinMonotone(TreeIndex(u) + 1, TreeIndex(s)); }
  }

  /** From 2^40 on the truncation to 32 bits finds the right bin, the last, only by luck. */
  lemma IndexRightIff(s: nat)
    requires 256 <= s < WORD
    ensures TreeIndex(s) == IndexOfShifted(s, s / 256) <==> s < 0x100_0000_0000 || (s / 256) % UINT >= 0xC000
  {
    var x := (s / 256) % UINT;
    if s < 0x100_0000_0000 {
      NotTruncated(s);
    } else {
      assert s / 256 > 0xFFFF;
      LastBinIff(s, x);
    }
  }

  lemma LastBinIff(s: nat, x: nat)
    requires x == (s / 256) % UINT
    ensures IndexOfShifted(s, x) == NTREEBINS - 1 <==> x >= 0xC000
  {
    Powers();
    if x > 0xFFFF {
    } else if x >= 0x8000 {
      LogUnique(x, 15);
      BitKept(s, x);
    } else if x > 0 {
      LogBounds(x);
      PowMonotone(15, Log2(x));
    }
  }

  lemma BitKept(s: nat, x: nat)
    requires x == (s / 256) % UINT
    ensures (s / 0x40_0000) % 2 == (x / 0x4000) % 2
  {
    var y := s / 256;
    var q := y / UINT;
    assert y == q * UINT + x;
    DivUnique(y, 0x4000, q * 0x4_0000 + x / 0x4000, x % 0x4000);
    DivUnique(s, 0x40_0000, y / 0x4000, (y % 0x4000) * 256 + s % 256);
    ModShift(x / 0x4000, 2, q * 0x2_0000);
  }

  // ---------- Tries ----------

  ghost function RingItems(size: nat, ring: seq<nat>): set<Chunk> { set a | a in ring :: Chunk(a, size) }

  ghost function Items(t: Tree): set<Chunk> {
    match t
    case Nil => {}
    case Node(size, ring, left, right) => RingItems(size, ring) + Items(left) + Items(right)
  }

  ghost predicate Lacks(t: Tree, size: nat) { forall c :: c in Items(t) ==> c.size != size }

  ghost predicate Distinct(ring: seq<nat>) { forall i, j :: 0 <= i < j < |ring| ==> ring[i] != ring[j] }

  /** Sizes lo <= s < lo + span, smaller half to the left, each size in one node. */
  ghost predicate Trie(t: Tree, lo: nat, span: nat)
    decreases t
  {
    match t
    case Nil => true
    case Node(size, ring, left, right) =>
      && ring != [] && Distinct(ring) && lo <= size < lo + span
      && (span <= 1 ==> left.Nil? && right.Nil?)
      && (span > 1 ==> Trie(left, lo, span / 2) && Trie(right, lo + span / 2, span / 2))
      && Lacks(left, size) && Lacks(right, size)
  }

  lemma {:induction false} SizeInRange(t: Tree, lo: nat, span: nat, c: Chunk)
    requires Trie(t, lo, span) && c in Items(t)
    ensures lo <= c.size < lo + span
    decreases t
  {
    if c in Items(t.left) {
      SizeInRange(t.left, lo, span / 2, c);
    } else if c in Items(t.right) {
      SizeInRange(t.right, lo + span / 2, span / 2, c);
    }
  }

  lemma {:induction false} TrieRange(t: Tree, lo: nat, span: nat)
    requires Trie(t, lo, span)
    ensures forall c :: c in Items(t) ==> lo <= c.size < lo + span
  {
    forall c | c in Items(t) ensures lo <= c.size < lo + span {
      SizeInRange(t, lo, span, c);
    }
  }

  /** The bit of a size that picks the child: the top bit of the shifted size, once `span` sizes are left. */
  function Bit(s: nat, span: nat): nat
    requires span > 1
  {
    (s / (span / 2)) % 2
  }

  ghost predicate Aligned(lo: nat, span: nat) { IsPow2(span) && span > 0 && lo % span == 0 }

  /** That bit says in which half of the range the size is. */
  lemma BitSide(s: nat, lo: nat, span: nat)
    requires span > 1 && Aligned(lo, span) && lo <= s < lo + span
    ensures Bit(s, span) == 1 <==> s >= lo + span / 2
    ensures span == 2 * (span / 2) && Aligned(lo, span / 2) && Aligned(lo + span / 2, span / 2)
  {
    DoublePow2(span);
    HalfAligned(s, lo, span / 2);
  }

  lemma HalfAligned(s: nat, lo: nat, p: nat)
    requires p > 0 && lo % (2 * p) == 0 && lo <= s < lo + 2 * p
    ensures (s / p) % 2 == 1 <==> s >= lo + p
    ensures lo % p == 0 && (lo + p) % p == 0
  {
    var q := lo / (2 * p);
    assert lo == q * (2 * p) == (2 * q) * p;
    EvenHalf(s, lo, p, 2 * q);
  }

  lemma EvenHalf(s: nat, lo: nat, p: nat, e: nat)
    requires p > 0 && lo == e * p && e % 2 == 0 && lo <= s < lo + 2 * p
    ensures (s / p) % 2 == 1 <==> s >= lo + p
    ensures lo % p == 0 && (lo + p) % p == 0
  {
    assert lo + p == (e + 1) * p;
    DivUnique(lo, p, e, 0);
    DivUnique(lo + p, p, e + 1, 0);
    if s < lo + p {
      DivUnique(s, p, e, s - lo);
    } else {
      DivUnique(s, p, e + 1, s - lo - p);
    }
  }

  // ---------- Inserting ----------

  /** The newcomer follows the ring's head. */
  function InsertSecond(ring: seq<nat>, x: nat): seq<nat> {
    if ring == [] then [x] else [ring[0], x] + ring[1..]
  }

  lemma InsertSecondItems(size: nat, ring: seq<nat>, x: nat)
    requires Distinct(ring) && x !in ring
    ensures Distinct(InsertSecond(ring, x))
    ensures RingItems(size, InsertSecond(ring, x)) == RingItems(size, ring) + {Chunk(x, size)}
  {
    assert forall a :: a in InsertSecond(ring, x) <==> a in ring || a == x;
  }

  /** insert_large_chunk, from the node it has descended to. */
  function Insert(t: Tree, x: nat, s: nat, span: nat): Tree
    decreases span
  {
    match t
    case Nil => Node(s, [x], Nil, Nil)
    case Node(size, ring, left, right) =>
      if size == s then Node(size, InsertSecond(ring, x), left, right)
      else if span <= 1 then t
      else if Bit(s, span) == 1 then Node(size, ring, left, Insert(right, x, s, span / 2))
      else Node(size, ring, Insert(left, x, s, span / 2), right)
  }

  lemma {:induction false} InsertTrie(t: Tree, x: nat, s: nat, lo: nat, span: nat)
    requires Trie(t, lo, span) && Aligned(lo, span) && lo <= s < lo + span && Chunk(x, s) !in Items(t)
    ensures Trie(Insert(t, x, s, span), lo, span)
    ensures Items(Insert(t, x, s, span)) == Items(t) + {Chunk(x, s)}
    decreases span
  {
    if t.Node? && t.size == s {
      assert Chunk(x, s) !in RingItems(s, t.ring);
      InsertSecondItems(s, t.ring, x);
    } else if t.Node? && span > 1 {
      BitSide(s, lo, span);
      if Bit(s, span) == 1 {
        InsertTrie(t.right, x, s, lo + span / 2, span / 2);
      } else {
        InsertTrie(t.left, x, s, lo, span / 2);
      }
    }
  }

  // ---------- Unlinking ----------

  /** The leaf reached by preferring right children, and the tree without it. */
  function PopLeaf(t: Tree): (r: (Tree, Tree))
    requires t.Node?
    ensures r.0.Node? && r.0.left.Nil? && r.0.right.Nil?
  {
    if t.right.Node? then
      var (leaf, rest) := PopLeaf(t.right);
      (leaf, t.(right := rest))
    else if t.left.Node? then
      var (leaf, rest) := PopLeaf(t.left);
      (leaf, t.(left := rest))
    else (t, Nil)
  }

  lemma {:induction false} PopLeafTrie(t: Tree, lo: nat, span: nat)
    requires t.Node? && Trie(t, lo, span)
    ensures var (leaf, rest) := PopLeaf(t);
            && leaf.ring != [] && Distinct(leaf.ring) && lo <= leaf.size < lo + span
            && Trie(rest, lo, span) && Items(t) == RingItems(leaf.size, leaf.ring) + Items(rest)
            && Lacks(rest, leaf.size)
    decreases t
  {
    if t.right.Node? {
      var (leaf, rest) := PopLeaf(t.right);
      PopLeafTrie(t.right, lo + span / 2, span / 2);
      TrieRange(t.left, lo, span / 2);
      assert Chunk(leaf.ring[0], leaf.size) in Items(t.right);
    } else if t.left.Node? {
      var (leaf, rest) := PopLeaf(t.left);
      PopLeafTrie(t.left, lo, span / 2);
      assert Chunk(leaf.ring[0], leaf.size) in Items(t.left);
    }
  }

  /** A chained chunk leaves its ring; when the head leaves, the last one takes its place. */
  function LeaveRing(ring: seq<nat>, x: nat): seq<nat> {
    if ring == [] then []
    else if ring[0] == x then
      if |ring| == 1 then [] else [ring[|ring| - 1]] + ring[1..|ring| - 1]
    else [ring[0]] + Without(ring[1..], x)
  }

  function Without(ring: seq<nat>, x: nat): seq<nat> {
    if ring == [] then [] else if ring[0] == x then ring[1..] else [ring[0]] + Without(ring[1..], x)
  }

  lemma DistinctCons(x: nat, rest: seq<nat>)
    requires Distinct(rest) && x !in rest
    ensures Distinct([x] + rest)
  {
  }

  lemma DistinctTail(ring: seq<nat>)
    requires Distinct(ring) && ring != []
    ensures Distinct(ring[1..]) && ring[0] !in ring[1..]
    ensures forall a :: a in ring <==> a == ring[0] || a in ring[1..]
  {
    assert ring == [ring[0]] + ring[1..];
    forall i | 0 <= i < |ring[1..]| ensures ring[1..][i] != ring[0] {
      assert ring[1..][i] == ring[i + 1];
    }
  }

  lemma {:induction false} WithoutItems(ring: seq<nat>, x: nat)
    requires Distinct(ring)
    ensures Distinct(Without(ring, x))
    ensures forall a :: a in Without(ring, x) <==> a in ring && a != x
  {
    if ring != [] {
      DistinctTail(ring);
      WithoutItems(ring[1..], x);
      if ring[0] != x { DistinctCons(ring[0], Without(ring[1..], x)); }
    }
  }

  lemma LeaveRingItems(size: nat, ring: seq<nat>, x: nat)
    requires Distinct(ring) && x in ring
    ensures Distinct(LeaveRing(ring, x))
    ensures RingItems(size, LeaveRing(ring, x)) == RingItems(size, ring) - {Chunk(x, size)}
  {
    DistinctTail(ring);
    if ring[0] != x {
      WithoutItems(ring[1..], x);
      DistinctCons(ring[0], Without(ring[1..], x));
    } else if |ring| > 1 {
      var middle, last := ring[1..|ring| - 1], ring[|ring| - 1];
      assert ring[1..] == middle + [last];
      forall i | 0 <= i < |middle| ensures middle[i] != last {
        assert middle[i] == ring[i + 1];
      }
      DistinctCons(last, middle);
    }
    assert forall a :: a in LeaveRing(ring, x) <==> a in ring && a != x;
  }

  /** unlink_large_chunk, from the root of the chunk's bin. */
  function Unlink(t: Tree, x: nat, s: nat, span: nat): Tree
    decreases span
  {
    match t
    case Nil => Nil
    case Node(size, ring, left, right) =>
      if size == s then
        var rest := LeaveRing(ring, x);
        if rest != [] then Node(size, rest, left, right)
        else if right.Node? then
          var (leaf, r) := PopLeaf(right);
          Node(leaf.size, leaf.ring, left, r)
        else if left.Node? then
          var (leaf, l) := PopLeaf(left);
          Node(leaf.size, leaf.ring, l, right)
        else Nil
      else if span <= 1 then t
      else if Bit(s, span) == 1 then Node(size, ring, left, Unlink(right, x, s, span / 2))
      else Node(size, ring, Unlink(left, x, s, span / 2), right)
  }

  lemma {:induction false} UnlinkTrie(t: Tree, x: nat, s: nat, lo: nat, span: nat)
    requires Trie(t, lo, span) && Aligned(lo, span) && Chunk(x, s) in Items(t)
    ensures Trie(Unlink(t, x, s, span), lo, span)
    ensures Items(Unlink(t, x, s, span)) == Items(t) - {Chunk(x, s)}
    decreases span
  {
    SizeInRange(t, lo, span, Chunk(x, s));
    if t.size == s {
      UnlinkHere(t, x, lo, span);
    } else {
      BitSide(s, lo, span);
      TrieRange(t.left, lo, span / 2);
      TrieRange(t.right, lo + span / 2, span / 2);
      if Bit(s, span) == 1 {
        UnlinkTrie(t.right, x, s, lo + span / 2, span / 2);
      } else {
        UnlinkTrie(t.left, x, s, lo, span / 2);
      }
    }
  }

  /** Any leaf below may take a node's place: the trie relation fixes only the children's ranges. */
  lemma {:induction false} UnlinkHere(t: Tree, x: nat, lo: nat, span: nat)
    requires t.Node? && Trie(t, lo, span) && Chunk(x, t.size) in Items(t)
    ensures Trie(Unlink(t, x, t.size, span), lo, span)
    ensures Items(Unlink(t, x, t.size, span)) == Items(t) - {Chunk(x, t.size)}
  {
    assert x in t.ring;
    LeaveRingItems(t.size, t.ring, x);
    if LeaveRing(t.ring, x) == [] {
      if t.right.Node? {
        PopLeafTrie(t.right, lo + span / 2, span / 2);
        TrieRange(t.left, lo, span / 2);
      } else if t.left.Node? {
        PopLeafTrie(t.left, lo, span / 2);
      }
    }
  }

  // ---------- The searches ----------

  /** leftshift_for_tree_index. */
  function LeftShift(i: nat): nat
    requires i < NTREEBINS
  {
    if i == NTREEBINS - 1 then 0 else 63 - (i / 2 + TREEBIN_SHIFT - 2)
  }

  /** The word `size << shift`. */
  function ShiftLeft(s: nat, shift: nat): nat { (s * Pow2(shift)) % WORD }

  /** With 2^w sizes left, the top bit of the size shifted by 64 - w is the bit that picks the child. */
  lemma TopBit(s: nat, w: nat)
    requires 1 <= w <= 64
    ensures ShiftLeft(s, 64 - w) / TOP == (s / Pow2(w - 1)) % 2
  {
    var m := Pow2(w - 1);
    var q, c := s / m, s % m;
    WordHalves(w);
    assert s == q * m + c && q == 2 * (q / 2) + q % 2;
    ShiftedParts(s, Pow2(64 - w), m, q / 2, q % 2, c);
  }

  /** One more shift when half of them are left. */
  lemma ShiftOnce(s: nat, shift: nat)
    ensures (ShiftLeft(s, shift) * 2) % WORD == ShiftLeft(s, shift + 1)
  {
    var p := Pow2(shift);
    assert Pow2(shift + 1) == 2 * p;
    ModTwice(s * p, WORD);
    Regroup(s, p);
  }

  lemma Regroup(s: nat, p: nat)
    ensures (s * p) * 2 == s * (2 * p)
  {
  }

  lemma WordHalves(w: nat)
    requires 1 <= w <= 64
    ensures Pow2(w - 1) * Pow2(64 - w) == TOP
  {
    TopPower();
    PowAdd(w - 1, 64 - w);
  }

  lemma TopPower()
    ensures Pow2(63) == TOP && Pow2(64) == WORD
  {
    Powers();
    PowAdd(16, 16);
    PowAdd(32, 31);
    PowAdd(16, 15);
  }

  lemma ShiftedParts(s: nat, p: nat, m: nat, a: nat, b: nat, c: nat)
    requires s == (2 * a + b) * m + c && c < m && b < 2 && m * p == TOP && p > 0
    ensures ((s * p) % WORD) / TOP == b
  {
    var h := TOP;
    assert s * p == (2 * a + b) * (m * p) + c * p by {
      assert s * p == ((2 * a + b) * m) * p + c * p;
      assert ((2 * a + b) * m) * p == (2 * a + b) * (m * p);
    }
    assert c * p < h by {
      assert m * p - c * p == (m - c) * p;
      MulAtLeast(m - c, p);
    }
    assert (2 * a + b) * h == a * WORD + b * h;
    DivUnique(s * p, WORD, a, b * h + c * p);
    DivUnique(b * h + c * p, h, b, c * p);
  }

  lemma ModTwice(x: nat, d: nat)
    requires d > 0
    ensures ((x % d) * 2) % d == (x * 2) % d
  {
    assert x == (x / d) * d + x % d;
    assert x * 2 == (x % d) * 2 + (2 * (x / d)) * d;
    ModShift((x % d) * 2, d, 2 * (x / d));
  }

  /** The remainder after splitting off nb, as an unsigned word: huge when the chunk is too small. */
  function Rem(size: nat, nb: nat): nat { (size - nb) % WORD }

  /** The remainder of the best chunk so far. */
  ghost predicate RemOf(v: Option<Chunk>, nb: nat, rsize: nat) {
    if v.Some? then nb <= v.value.size < WORD && rsize == v.value.size - nb else rsize == WORD - nb
  }

  /** So one comparison of words says whether a chunk fits and fits better. */
  lemma BetterFit(size: nat, nb: nat, v: Option<Chunk>, rsize: nat)
    requires 0 < nb < WORD && size < WORD && RemOf(v, nb, rsize)
    ensures Rem(size, nb) < rsize <==> size >= nb && (v.None? || size < v.value.size)
    ensures size >= nb ==> Rem(size, nb) == size - nb
  {
    if size >= nb { DivUnique(size - nb, WORD, 0, size - nb); } else { DivUnique(size - nb, WORD, -1, size - nb + WORD); }
  }

  ghost predicate Ordered(t: Tree) {
    match t
    case Nil => true
    case Node(_, ring, left, right) =>
      ring != [] && Ordered(left) && Ordered(right)
      && forall c, d :: c in Items(left) && d in Items(right) ==> c.size < d.size
  }

  lemma {:induction false} TrieOrdered(t: Tree, lo: nat, span: nat)
    requires Trie(t, lo, span)
    ensures Ordered(t)
    decreases t
  {
    if t.Node? && span > 1 {
      TrieOrdered(t.left, lo, span / 2);
      TrieOrdered(t.right, lo + span / 2, span / 2);
      TrieRange(t.left, lo, span / 2);
      TrieRange(t.right, lo + span / 2, span / 2);
    }
  }

  ghost predicate AllAbove(t: Tree, nb: nat) { forall d :: d in Items(t) ==> nb <= d.size < WORD }

  /** c is no better than what was found, or than what is left to be seen. */
  ghost predicate Covered(c: Chunk, v: Option<Chunk>, t: Tree) {
    || (v.Some? && v.value.size <= c.size)
    || c in Items(t)
    || (t.Node? && forall d :: d in Items(t) ==> d.size <= c.size)
  }

  /** v, if any, fits, and belongs to `pool`. */
  ghost predicate Fits(v: Option<Chunk>, pool: set<Chunk>, nb: nat) {
    v.Some? ==> v.value in pool && v.value.size >= nb
  }

  /** What both search loops keep: nothing in the pool is better than v or what is left to be seen in t. */
  ghost predicate Seeking(v: Option<Chunk>, rsize: nat, t: Tree, nb: nat, pool: set<Chunk>) {
    && RemOf(v, nb, rsize) && Fits(v, pool, nb) && Ordered(t) && Items(t) <= pool
    && (forall d :: d in Items(t) ==> d.size < WORD)
    && (AllAbove(t, nb) || (v.Some? && v.value.size == nb))
    && forall c :: c in pool && c.size >= nb ==> Covered(c, v, t)
  }

  /** The loop down the leftmost path, where the smallest chunk of a tree is. */
  method LeastIn(t0: Tree, nb: nat, v0: Option<Chunk>, rsize0: nat, ghost pool: set<Chunk>) returns (v: Option<Chunk>)
    requires 0 < nb < WORD && Seeking(v0, rsize0, t0, nb, pool)
    ensures Fits(v, pool, nb)
    ensures forall c :: c in pool && c.size >= nb ==> v.Some? && v.value.size <= c.size
  {
    v := v0;
    var t, rsize := t0, rsize0;
    while t.Node?
      invariant Seeking(v, rsize, t, nb, pool)
      decreases t
    {
      var next := if t.left.Node? then t.left else t.right;
      SeekStep(v, rsize, t, nb, pool);
      var trem := Rem(t.size, nb);
      if trem < rsize {
        v, rsize := Some(Chunk(t.ring[0], t.size)), trem;
      }
      t := next;
    }
  }

  lemma {:induction false} SeekStep(v: Option<Chunk>, rsize: nat, t: Tree, nb: nat, pool: set<Chunk>)
    requires 0 < nb < WORD && Seeking(v, rsize, t, nb, pool) && t.Node?
    ensures t.ring != []
    ensures var next := if t.left.Node? then t.left else t.right;
            var trem := Rem(t.size, nb);
            if trem < rsize then Seeking(Some(Chunk(t.ring[0], t.size)), trem, next, nb, pool)
            else Seeking(v, rsize, next, nb, pool)
  {
    var next := if t.left.Node? then t.left else t.right;
    var trem := Rem(t.size, nb);
    assert Chunk(t.ring[0], t.size) in Items(t);
    BetterFit(t.size, nb, v, rsize);
    var v' := if trem < rsize then Some(Chunk(t.ring[0], t.size)) else v;
    forall c | c in pool && c.size >= nb ensures Covered(c, v', next) {
      LeftmostCovers(c, v, v', t, next, nb);
    }
  }

  lemma {:induction false} LeftmostCovers(c: Chunk, was: Option<Chunk>, v: Option<Chunk>, t: Tree, next: Tree, nb: nat)
    requires t.Node? && Ordered(t) && c.size >= nb && Covered(c, was, t)
    requires next == if t.left.Node? then t.left else t.right
    requires was.Some? ==> v.Some? && v.value.size <= was.value.size
    requires AllAbove(t, nb) || (v.Some? && v.value.size == nb)
    requires t.size >= nb ==> v.Some? && v.value.size <= t.size
    ensures Covered(c, v, next)
  {
    assert Chunk(t.ring[0], t.size) in Items(t);
  }

  // ---------- The search by bits ----------

  /** Nothing in the pool is better than v, or than what is left in t, or in the deepest right subtree passed by. */
  ghost predicate Searching(v: Option<Chunk>, rsize: nat, t: Tree, rst: Tree, lo: nat, span: nat, nb: nat, pool: set<Chunk>) {
    && RemOf(v, nb, rsize) && Fits(v, pool, nb)
    && Trie(t, lo, span) && Aligned(lo, span) && lo <= nb < lo + span && Ordered(rst)
    && Items(t) <= pool && Items(rst) <= pool
    && (forall d :: d in pool ==> d.size < WORD)
    && (forall d :: d in Items(rst) ==> d.size >= lo + span)
    && forall c :: c in pool && c.size >= nb ==> Covered(c, v, rst) || c in Items(t)
  }

  /** After the node of t itself was weighed: only its children are left to see. */
  ghost predicate Weighed(v: Option<Chunk>, rsize: nat, t: Tree, rst: Tree, nb: nat, pool: set<Chunk>)
    requires t.Node?
  {
    && RemOf(v, nb, rsize) && rsize > 0 && Fits(v, pool, nb)
    && forall c :: c in pool && c.size >= nb ==> Covered(c, v, rst) || c in Items(t.left) || c in Items(t.right)
  }

  lemma {:induction false} WeighNode(v: Option<Chunk>, rsize: nat, t: Tree, rst: Tree, lo: nat, span: nat, nb: nat, pool: set<Chunk>)
    requires 0 < nb < WORD && Searching(v, rsize, t, rst, lo, span, nb, pool) && rsize > 0 && t.Node?
    ensures t.ring != []
    ensures var trem := Rem(t.size, nb);
            if trem < rsize then
              if trem == 0 then Seeking(Some(Chunk(t.ring[0], t.size)), 0, t, nb, pool)
              else span > 1 && Weighed(Some(Chunk(t.ring[0], t.size)), trem, t, rst, nb, pool)
            else span > 1 && Weighed(v, rsize, t, rst, nb, pool)
  {
    assert Chunk(t.ring[0], t.size) in Items(t);
    BetterFit(t.size, nb, v, rsize);
    TrieOrdered(t, lo, span);
    assert span <= 1 ==> t.size == nb;
    if Rem(t.size, nb) < rsize {
      var v' := Some(Chunk(t.ring[0], t.size));
      forall c | c in pool && c.size >= nb
        ensures Covered(c, v', rst) || c in Items(t.left) || c in Items(t.right)
      {
        assert Covered(c, v, rst) || c in Items(t);
      }
    }
  }

  lemma {:induction false} GoRight(v: Option<Chunk>, rsize: nat, t: Tree, rst: Tree, lo: nat, span: nat, nb: nat, pool: set<Chunk>,
                                   v0: Option<Chunk>, r0: nat)
    requires t.Node? && span > 1 && Searching(v0, r0, t, rst, lo, span, nb, pool) && Weighed(v, rsize, t, rst, nb, pool)
    requires Bit(nb, span) == 1
    ensures Searching(v, rsize, t.right, rst, lo + span / 2, span / 2, nb, pool)
  {
    BitSide(nb, lo, span);
    TrieRange(t.left, lo, span / 2);
  }

  lemma {:induction false} GoLeft(v: Option<Chunk>, rsize: nat, t: Tree, rst: Tree, lo: nat, span: nat, nb: nat, pool: set<Chunk>,
                                  v0: Option<Chunk>, r0: nat)
    requires t.Node? && span > 1 && Searching(v0, r0, t, rst, lo, span, nb, pool) && Weighed(v, rsize, t, rst, nb, pool)
    requires Bit(nb, span) != 1
    ensures Searching(v, rsize, t.left, if t.right.Node? then t.right else rst, lo, span / 2, nb, pool)
  {
    var rst' := if t.right.Node? then t.right else rst;
    BitSide(nb, lo, span);
    TrieRange(t.right, lo + span / 2, span / 2);
    TrieOrdered(t.right, lo + span / 2, span / 2);
    forall c | c in pool && c.size >= nb ensures Covered(c, v, rst') || c in Items(t.left) {
      RightCovers(c, v, t, rst, lo + span);
    }
  }

  /** A right subtree passed by later holds smaller chunks than one passed by before. */
  lemma {:induction false} RightCovers(c: Chunk, v: Option<Chunk>, t: Tree, rst: Tree, top: nat)
    requires t.Node? && Ordered(rst) && (Covered(c, v, rst) || c in Items(t.left) || c in Items(t.right))
    requires (forall d :: d in Items(t.right) ==> d.size < top) && forall d :: d in Items(rst) ==> d.size >= top
    ensures Covered(c, v, if t.right.Node? then t.right else rst) || c in Items(t.left)
  {
    if rst.Node? { assert Chunk(rst.ring[0], rst.size) in Items(rst); }
  }

  /** At the end of the path the deepest right subtree passed by is what is left to be seen. */
  lemma {:induction false} PathEnds(v: Option<Chunk>, rsize: nat, rst: Tree, lo: nat, span: nat, nb: nat, pool: set<Chunk>)
    requires Searching(v, rsize, Nil, rst, lo, span, nb, pool)
    ensures Seeking(v, rsize, rst, nb, pool)
  {
  }

  /** One round of the loop: the child the bit picks, and the right subtree passed by. */
  lemma {:induction false} SearchRound(v: Option<Chunk>, rsize: nat, t: Tree, rst: Tree, lo: nat, span: nat, nb: nat,
                                       pool: set<Chunk>, v0: Option<Chunk>, r0: nat)
    requires t.Node? && span > 1
    requires Searching(v0, r0, t, rst, lo, span, nb, pool) && Weighed(v, rsize, t, rst, nb, pool)
    ensures if Bit(nb, span) == 1 then Searching(v, rsize, t.right, rst, lo + span / 2, span / 2, nb, pool)
            else Searching(v, rsize, t.left, if t.right.Node? then t.right else rst, lo, span / 2, nb, pool)
  {
    if Bit(nb, span) == 1 {
      GoRight(v, rsize, t, rst, lo, span, nb, pool, v0, r0);
    } else {
      GoLeft(v, rsize, t, rst, lo, span, nb, pool, v0, r0);
    }
  }

  /** The shifted word's top bit is the bit that picks the child, now and after one more shift. */
  lemma WordBit(nb: nat, w: nat, sizebits: nat)
    requires 0 < w <= 64 && sizebits == ShiftLeft(nb, 64 - w)
    ensures sizebits / TOP == Bit(nb, Pow2(w)) && Pow2(w) / 2 == Pow2(w - 1)
    ensures (sizebits * 2) % WORD == ShiftLeft(nb, 64 - (w - 1))
  {
    TopBit(nb, w);
    ShiftOnce(nb, 64 - w);
  }

  /** The first loop of tmalloc_large: along the bits of nb, until an exact fit or the end of the path. */
  method SearchBits(root: Tree, nb: nat, i: nat, ghost lo0: nat) returns (t: Tree, v: Option<Chunk>, rsize: nat)
    requires i < NTREEBINS && 0 < nb < WORD && Trie(root, lo0, Pow2(Width(i))) && Aligned(lo0, Pow2(Width(i)))
    requires lo0 <= nb < lo0 + Pow2(Width(i)) && forall d :: d in Items(root) ==> d.size < WORD
    ensures Seeking(v, rsize, t, nb, Items(root))
  {
    ghost var w, span := Width(i), Pow2(Width(i));
    ghost var lo: nat := lo0;
    v, rsize, t := None, WORD - nb, root;
    var rst := Nil;
    var sizebits := ShiftLeft(nb, LeftShift(i));
    StartSearch(root, nb, lo, span);
    while t.Node?
      invariant 0 <= w <= 64 && span == Pow2(w) && sizebits == ShiftLeft(nb, 64 - w)
      invariant Searching(v, rsize, t, rst, lo, span, nb, Items(root)) && rsize > 0
      decreases t
    {
      var done, next, passed;
      ghost var lo';
      done, v, rsize, next, passed, lo' := Round(t, v, rsize, rst, nb, sizebits, lo, w, Items(root));
      if done { return; }
      if w > 0 { WordBit(nb, w, sizebits); }
      t, rst, lo := next, passed, lo';
      w, span := w - 1, span / 2;
      sizebits := (sizebits * 2) % WORD;
    }
    PathEnds(v, rsize, rst, lo, span, nb, Items(root));
    t := rst;
  }

  lemma {:induction false} StartSearch(root: Tree, nb: nat, lo: nat, span: nat)
    requires 0 < nb < WORD && Trie(root, lo, span) && Aligned(lo, span)
    requires lo <= nb < lo + span && forall d :: d in Items(root) ==> d.size < WORD
    ensures Searching(None, WORD - nb, root, Nil, lo, span, nb, Items(root))
  {
  }

  /** The body of that loop: weighs the node, then picks the child. */
  method Round(t: Tree, v0: Option<Chunk>, r0: nat, rst: Tree, nb: nat, sizebits: nat,
               ghost lo: nat, ghost w: nat, ghost pool: set<Chunk>)
    returns (done: bool, v: Option<Chunk>, rsize: nat, next: Tree, passed: Tree, ghost lo': nat)
    requires t.Node? && 0 < nb < WORD && w <= 64 && sizebits == ShiftLeft(nb, 64 - w) && r0 > 0
    requires Searching(v0, r0, t, rst, lo, Pow2(w), nb, pool)
    ensures done ==> Seeking(v, rsize, t, nb, pool)
    ensures !done ==> w > 0 && rsize > 0 && (next == t.left || next == t.right)
    ensures !done ==> Searching(v, rsize, next, passed, lo', Pow2(w) / 2, nb, pool)
  {
    WeighNode(v0, r0, t, rst, lo, Pow2(w), nb, pool);
    v, rsize := v0, r0;
    var trem := Rem(t.size, nb);
    if trem < rsize {
      v, rsize := Some(Chunk(t.ring[0], t.size)), trem;
    }
    done, next, passed, lo' := rsize == 0, t.left, rst, lo;
    if !done {
      WordBit(nb, w, sizebits);
      next, passed, lo' := Descend(t, v, rsize, rst, nb, sizebits / TOP, lo, Pow2(w), pool, v0, r0);
    }
  }

  method Descend(t: Tree, v: Option<Chunk>, rsize: nat, rst: Tree, nb: nat, bit: nat,
                 ghost lo: nat, ghost span: nat, ghost pool: set<Chunk>, ghost v0: Option<Chunk>, ghost r0: nat)
    returns (next: Tree, passed: Tree, ghost lo': nat)
    requires t.Node? && span > 1 && bit == Bit(nb, span)
    requires Searching(v0, r0, t, rst, lo, span, nb, pool) && Weighed(v, rsize, t, rst, nb, pool)
    ensures next == t.left || next == t.right
    ensures Searching(v, rsize, next, passed, lo', span / 2, nb, pool)
  {
    SearchRound(v, rsize, t, rst, lo, span, nb, pool, v0, r0);
    if bit == 1 {
      next, passed, lo' := t.right, rst, lo + span / 2;
    } else {
      next, passed, lo' := t.left, if t.right.Node? then t.right else rst, lo;
    }
  }

  // ---------- The thirty-two bins ----------

  ghost predicate BinOk(t: Tree, i: nat)
    requires i < NTREEBINS
  {
    && Trie(t, Floor(i), Pow2(Width(i)))
    && forall c :: c in Items(t) ==> 256 <= c.size < 0x100_0000_0000 && TreeIndex(c.size) == i
  }

  ghost predicate BinsOk(bins: seq<Tree>) {
    |bins| == NTREEBINS && forall i :: 0 <= i < NTREEBINS ==> BinOk(bins[i], i)
  }

  ghost function Binned(bins: seq<Tree>): set<Chunk> { set i, c | 0 <= i < |bins| && c in Items(bins[i]) :: c }

  /** A smallest chunk that fits, if any does. */
  ghost predicate BestFit(pool: set<Chunk>, nb: nat, v: Option<Chunk>) {
    && (v.Some? ==> v.value in pool && v.value.size >= nb)
    && forall c :: c in pool && c.size >= nb ==> v.Some? && v.value.size <= c.size
  }

  /** A bin's trie covers exactly the sizes its bits can tell apart. */
  lemma BinSpan(i: nat, s: nat)
    requires i < NTREEBINS && 256 <= s < 0x100_0000_0000 && TreeIndex(s) == i
    ensures Floor(i) <= s < Floor(i) + Pow2(Width(i)) && Aligned(Floor(i), Pow2(Width(i)))
    ensures LeftShift(i) == 64 - Width(i)
  {
    IndexRange(s);
    if i == NTREEBINS - 1 {
      TopPower();
    } else {
      NextMin(i);
      FloorAligned(i);
    }
  }

  lemma FloorAligned(i: nat)
    ensures Aligned(MinSize(i), Pow2(i / 2 + 7))
  {
    var k := i / 2;
    Quarters(k);
    if i % 2 == 0 { DivUnique(MinSize(i), Pow2(k + 7), 2, 0); } else { DivUnique(MinSize(i), Pow2(k + 7), 3, 0); }
  }

  /** The first non-empty bin from i on: the lowest bit of the map from bit i on. */
  method NextBin(bins: seq<Tree>, from: nat) returns (i: nat)
    requires from <= |bins|
    ensures from <= i <= |bins| && (i < |bins| ==> bins[i].Node?)
    ensures forall j :: from <= j < i ==> bins[j].Nil?
  {
    i := from;
    while i < |bins| && bins[i].Nil?
      invariant from <= i <= |bins| && forall j :: from <= j < i ==> bins[j].Nil?
    {
      i := i + 1;
    }
  }

  /** Chunks of higher bins are larger. */
  lemma BinOrder(bins: seq<Tree>, s: nat, j: nat, c: Chunk)
    requires BinsOk(bins) && 256 <= s < 0x100_0000_0000 && j < NTREEBINS && c in Items(bins[j])
    ensures j < TreeIndex(s) ==> c.size < s
    ensures j > TreeIndex(s) ==> c.size > s
  {
    assert BinOk(bins[j], j);
    if c.size >= s { IndexMonotone(s, c.size); } else { IndexMonotone(c.size, s); }
  }

  /** The best fit of the first bin that has a fit is the best of all bins. */
  lemma BestInBin(bins: seq<Tree>, nb: nat, i: nat, v: Chunk)
    requires BinsOk(bins) && 256 <= nb < 0x100_0000_0000 && TreeIndex(nb) <= i < NTREEBINS
    requires v in Items(bins[i]) && v.size >= nb
    requires forall c :: c in Items(bins[i]) && c.size >= nb ==> v.size <= c.size
    requires forall j, c :: TreeIndex(nb) <= j < i && c in Items(bins[j]) ==> c.size < nb
    ensures BestFit(Binned(bins), nb, Some(v))
  {
    assert BinOk(bins[i], i);
    forall c | c in Binned(bins) && c.size >= nb ensures v.size <= c.size {
      var j :| 0 <= j < |bins| && c in Items(bins[j]);
      BinOrder(bins, nb, j, c);
      BinOrder(bins, v.size, j, c);
    }
  }

  lemma NothingFits(bins: seq<Tree>, nb: nat)
    requires BinsOk(bins) && 256 <= nb < 0x100_0000_0000
    requires forall j, c :: TreeIndex(nb) <= j < |bins| && c in Items(bins[j]) ==> c.size < nb
    ensures BestFit(Binned(bins), nb, None)
  {
    forall c | c in Binned(bins) ensures c.size < nb {
      var j :| 0 <= j < |bins| && c in Items(bins[j]);
      BinOrder(bins, nb, j, c);
    }
  }

  /** A whole bin of chunks that all fit is a search not yet begun. */
  lemma {:induction false} FreshBin(bins: seq<Tree>, nb: nat, i: nat, rsize: nat)
    requires BinsOk(bins) && 0 < nb < WORD && i < NTREEBINS && rsize == WORD - nb && AllAbove(bins[i], nb)
    ensures Seeking(None, rsize, bins[i], nb, Items(bins[i]))
  {
    assert BinOk(bins[i], i);
    TrieOrdered(bins[i], Floor(i), Pow2(Width(i)));
  }

  lemma {:induction false} SomethingLeft(v: Option<Chunk>, rsize: nat, t: Tree, nb: nat, pool: set<Chunk>)
    requires Seeking(v, rsize, t, nb, pool) && (t.Node? || v.Some?)
    ensures exists c :: c in pool && c.size >= nb
  {
    if v.None? {
      assert t.ring != [] && Chunk(t.ring[0], t.size) in Items(t);
    }
  }

  /** tmalloc_large's search: a smallest chunk of all bins that is at least nb. */
  method FindLarge(bins: seq<Tree>, nb: nat) returns (v: Option<Chunk>)
    requires BinsOk(bins) && 256 <= nb < 0x100_0000_0000
    ensures BestFit(Binned(bins), nb, v)
  {
    var idx := TreeIndex(nb);
    IndexRange(nb);
    BinSpan(idx, nb);
    assert BinOk(bins[idx], idx);
    var t, rsize;
    t, v, rsize := SearchBits(bins[idx], nb, idx, Floor(idx));
    if t.Nil? && v.None? {
      v := FindHigher(bins, nb, rsize);
    } else {
      SomethingLeft(v, rsize, t, nb, Items(bins[idx]));
      v := LeastIn(t, nb, v, rsize, Items(bins[idx]));
      BestInBin(bins, nb, idx, v.value);
    }
  }

  lemma HigherFits(bins: seq<Tree>, nb: nat, i: nat)
    requires BinsOk(bins) && 256 <= nb < 0x100_0000_0000 && TreeIndex(nb) < i < NTREEBINS
    ensures AllAbove(bins[i], nb)
  {
    forall c | c in Items(bins[i]) ensures nb <= c.size < WORD {
      BinOrder(bins, nb, i, c);
      assert BinOk(bins[i], i);
    }
  }

  /** When the size's own bin has no fit: the smallest chunk of the next non-empty bin. */
  method FindHigher(bins: seq<Tree>, nb: nat, rsize: nat) returns (v: Option<Chunk>)
    requires BinsOk(bins) && 256 <= nb < 0x100_0000_0000 && rsize == WORD - nb
    requires TreeIndex(nb) < NTREEBINS && forall c :: c in Items(bins[TreeIndex(nb)]) ==> c.size < nb
    ensures BestFit(Binned(bins), nb, v)
  {
    var idx := TreeIndex(nb);
    var i := NextBin(bins, idx + 1);
    if i == |bins| {
      NothingFits(bins, nb);
      return None;
    }
    HigherFits(bins, nb, i);
    var least := LeastOfBin(bins, nb, i, rsize);
    BestInBin(bins, nb, i, least);
    v := Some(least);
  }

  /** A smallest chunk of a bin whose chunks all fit. */
  method LeastOfBin(bins: seq<Tree>, nb: nat, i: nat, rsize: nat) returns (v: Chunk)
    requires BinsOk(bins) && 0 < nb < WORD && i < NTREEBINS && rsize == WORD - nb && AllAbove(bins[i], nb) && bins[i].Node?
    ensures v in Items(bins[i]) && v.size >= nb && forall c :: c in Items(bins[i]) && c.size >= nb ==> v.size <= c.size
  {
    FreshBin(bins, nb, i, rsize);
    SomethingLeft(None, rsize, bins[i], nb, Items(bins[i]));
    var r := LeastIn(bins[i], nb, None, rsize, Items(bins[i]));
    v := r.value;
  }

  /** tmalloc_small's search: a smallest chunk of all bins, when some bin is not empty. */
  method FindSmall(bins: seq<Tree>, nb: nat) returns (v: Chunk)
    requires BinsOk(bins) && 0 < nb < 256 && exists i :: 0 <= i < |bins| && bins[i].Node?
    ensures BestFit(Binned(bins), nb, Some(v))
  {
    var i := NextBin(bins, 0);
    assert BinOk(bins[i], i);
    v := LeastOfBin(bins, nb, i, WORD - nb);
    LeastOfAll(bins, i, v);
  }

  lemma LeastOfAll(bins: seq<Tree>, i: nat, v: Chunk)
    requires BinsOk(bins) && i < |bins| && v in Items(bins[i])
    requires forall c :: c in Items(bins[i]) ==> v.size <= c.size
    requires forall j :: 0 <= j < i ==> bins[j].Nil?
    ensures v in Binned(bins) && v.size >= 256 && forall c :: c in Binned(bins) ==> v.size <= c.size
  {
    assert BinOk(bins[i], i);
    forall c | c in Binned(bins) ensures v.size <= c.size {
      var j :| 0 <= j < |bins| && c in Items(bins[j]);
      BinOrder(bins, v.size, j, c);
    }
  }

  /** insert_large_chunk. */
  function InsertLarge(bins: seq<Tree>, x: nat, s: nat): seq<Tree>
    requires |bins| == NTREEBINS && TreeIndex(s) < NTREEBINS
  {
    var i := TreeIndex(s);
    bins[i := Insert(bins[i], x, s, Pow2(Width(i)))]
  }

  /** unlink_large_chunk. */
  function UnlinkLarge(bins: seq<Tree>, x: nat, s: nat): seq<Tree>
    requires |bins| == NTREEBINS && TreeIndex(s) < NTREEBINS
  {
    var i := TreeIndex(s);
    bins[i := Unlink(bins[i], x, s, Pow2(Width(i)))]
  }

  lemma InsertLargeOk(bins: seq<Tree>, x: nat, s: nat)
    requires BinsOk(bins) && 256 <= s < 0x100_0000_0000 && Chunk(x, s) !in Binned(bins)
    ensures TreeIndex(s) < NTREEBINS
    ensures BinsOk(InsertLarge(bins, x, s)) && Binned(InsertLarge(bins, x, s)) == Binned(bins) + {Chunk(x, s)}
  {
    IndexRange(s);
    var i := TreeIndex(s);
    BinSpan(i, s);
    assert BinOk(bins[i], i);
    InsertTrie(bins[i], x, s, Floor(i), Pow2(Width(i)));
    BinnedMore(bins, i, InsertLarge(bins, x, s)[i], Chunk(x, s));
  }

  lemma UnlinkLargeOk(bins: seq<Tree>, x: nat, s: nat)
    requires BinsOk(bins) && Chunk(x, s) in Binned(bins)
    ensures 256 <= s < 0x100_0000_0000 && TreeIndex(s) < NTREEBINS
    ensures BinsOk(UnlinkLarge(bins, x, s)) && Binned(UnlinkLarge(bins, x, s)) == Binned(bins) - {Chunk(x, s)}
  {
    var i :| 0 <= i < |bins| && Chunk(x, s) in Items(bins[i]);
    assert BinOk(bins[i], i);
    BinSpan(i, s);
    UnlinkTrie(bins[i], x, s, Floor(i), Pow2(Width(i)));
    OnlyInOneBin(bins, i, Chunk(x, s));
    BinnedLess(bins, i, UnlinkLarge(bins, x, s)[i], Chunk(x, s));
  }

  lemma BinnedLess(bins: seq<Tree>, i: nat, t: Tree, c: Chunk)
    requires i < |bins| && Items(t) == Items(bins[i]) - {c}
    requires forall j :: 0 <= j < |bins| && j != i ==> c !in Items(bins[j])
    ensures Binned(bins[i := t]) == Binned(bins) - {c}
  {
    var bins' := bins[i := t];
    forall x | x in Binned(bins') ensures x in Binned(bins) - {c} {
      var j :| 0 <= j < |bins'| && x in Items(bins'[j]);
      assert x in Items(bins[j]);
    }
    forall x | x in Binned(bins) - {c} ensures x in Binned(bins') {
      var j :| 0 <= j < |bins| && x in Items(bins[j]);
      assert x in Items(bins'[j]);
    }
  }

  lemma OnlyInOneBin(bins: seq<Tree>, i: nat, c: Chunk)
    requires BinsOk(bins) && i < |bins| && c in Items(bins[i])
    ensures forall j :: 0 <= j < |bins| && j != i ==> c !in Items(bins[j])
  {
    assert BinOk(bins[i], i);
    forall j | 0 <= j < |bins| && j != i ensures c !in Items(bins[j]) {
      assert BinOk(bins[j], j);
    }
  }

  lemma BinnedMore(bins: seq<Tree>, i: nat, t: Tree, c: Chunk)
    requires i < |bins| && Items(t) == Items(bins[i]) + {c}
    ensures Binned(bins[i := t]) == Binned(bins) + {c}
  {
    var bins' := bins[i := t];
    forall x | x in Binned(bins') ensures x in Binned(bins) + {c} {
      var j :| 0 <= j < |bins'| && x in Items(bins'[j]);
      assert x in Items(bins[j]) || x == c;
    }
    forall x | x in Binned(bins) + {c} ensures x in Binned(bins') {
      if x == c {
        assert x in Items(bins'[i]);
      } else {
        var j :| 0 <= j < |bins| && x in Items(bins[j]);
        assert x in Items(bins'[j]);
      }
    }
  }
}
