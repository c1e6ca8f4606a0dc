/**
 sparsegroup: GROUP_SIZE buckets of which only the full ones are stored, packed in order, with one bit per
 bucket for "full" and one for "erased".  It behaves like a plain array of GROUP_SIZE cells.

 The bit words are sequences of bits, and the buffer has the full capacity from the start.
 */
module SparseGroup {

  const GROUP_SIZE: nat := 32               // SPP_GROUP_SIZE

  datatype Cell<T> = Vacant | Tombstone | Held(value: T)

  /** The number of set bits below position p: spp_popcount(bm & ((1 << p) - 1)). */
  function Rank(bits: seq<bool>, p: nat): (r: nat)
    requires p <= |bits|
    ensures r <= p
  {
    if p == 0 then 0 else Rank(bits, p - 1) + (if bits[p - 1] then 1 else 0)
  }

  lemma {:induction false} RankMonotone(bits: seq<bool>, p: nat, q: nat)
    requires p < q <= |bits|
    ensures Rank(bits, p) + (if bits[p] then 1 else 0) <= Rank(bits, q)
  {
    if p < q - 1 { RankMonotone(bits, p, q - 1); }
  }

  lemma {:induction false} RankUpdate(bits: seq<bool>, i: nat, b: bool, p: nat)
    requires i < |bits| && p <= |bits|
    ensures Rank(bits[i := b], p) ==
            Rank(bits, p) + (if i < p then (if b then 1 else 0) - (if bits[i] then 1 else 0) else 0)
  {
    if p > 0 { RankUpdate(bits, i, b, p - 1); }
  }

  /** The position of the lowest set bit: spp_popcount((bm & -bm) - 1), which is not modelled bit by bit. */
  function Lowest(bits: seq<bool>): (p: nat)
    ensures p <= |bits| && (forall i :: 0 <= i < p ==> !bits[i]) && (p < |bits| ==> bits[p])
    decreases |bits|
  {
    if bits == [] || bits[0] then 0 else Lowest(bits[1..]) + 1
  }

  /** The bits that are left when the k lowest set ones are cleared. */
  function Without(bits: seq<bool>, k: nat): (r: seq<bool>)
    ensures |r| == |bits| && forall i :: 0 <= i < |bits| ==> r[i] == (bits[i] && Rank(bits, i) >= k)
  {
    seq(|bits|, i requires 0 <= i < |bits| => bits[i] && Rank(bits, i) >= k)
  }

  /** With more than k bits set, the lowest that is left is the one of rank k. */
  lemma LowestLeft(bits: seq<bool>, k: nat)
    requires k < Rank(bits, |bits|)
    ensures var p := Lowest(Without(bits, k)); p < |bits| && bits[p] && Rank(bits, p) == k
  {
    var q := HasRank(bits, k, |bits|);
    var p := Lowest(Without(bits, k));
    if p < q { RankMonotone(bits, p, q); }
  }

  lemma {:induction false} HasRank(bits: seq<bool>, k: nat, n: nat) returns (p: nat)
    requires n <= |bits| && k < Rank(bits, n)
    ensures p < n && bits[p] && Rank(bits, p) == k
  {
    if bits[n - 1] && Rank(bits, n - 1) == k { p := n - 1; } else { p := HasRank(bits, k, n - 1); }
  }

  lemma ClearedOne(bits: seq<bool>, k: nat)
    requires k < Rank(bits, |bits|)
    ensures Lowest(Without(bits, k)) < |bits|
    ensures Without(bits, k)[Lowest(Without(bits, k)) := false] == Without(bits, k + 1)
  {
    LowestLeft(bits, k);
    var p := Lowest(Without(bits, k));
    forall i | 0 <= i < |bits| && bits[i] && i != p ensures Rank(bits, i) != k {
      if i < p { RankMonotone(bits, i, p); } else { RankMonotone(bits, p, i); }
    }
  }

  /** Where a bucket's element is packed, and which buckets there are. */
  ghost function View<T>(items: seq<T>, bitmap: seq<bool>, erased: seq<bool>): (v: seq<Cell<T>>)
    requires |erased| == |bitmap| && Rank(bitmap, |bitmap|) <= |items|
    ensures |v| == |bitmap|
  {
    seq(|bitmap|, p requires 0 <= p < |bitmap| => CellAt(items, bitmap, erased, p))
  }

  function CellAt<T>(items: seq<T>, bitmap: seq<bool>, erased: seq<bool>, p: nat): Cell<T>
    requires p < |bitmap| == |erased| && Rank(bitmap, |bitmap|) <= |items|
  {
    RankMonotone(bitmap, p, |bitmap|);
    if bitmap[p] then Held(items[Rank(bitmap, p)]) else if erased[p] then Tombstone else Vacant
  }

  /** Opening a gap at the rank of an empty position and setting its bit fills that cell and moves no other. */
  lemma GapIsUpdate<T>(items: seq<T>, items': seq<T>, bitmap: seq<bool>, erased: seq<bool>, i: nat, v: T)
    requires |erased| == |bitmap| && i < |bitmap| && !bitmap[i]
    requires Rank(bitmap, i) <= Rank(bitmap, |bitmap|) < |items| == |items'|
    requires forall o :: 0 <= o < Rank(bitmap, i) ==> items'[o] == items[o]
    requires items'[Rank(bitmap, i)] == v
    requires forall o :: Rank(bitmap, i) < o <= Rank(bitmap, |bitmap|) ==> items'[o] == items[o - 1]
    ensures Rank(bitmap[i := true], |bitmap|) == Rank(bitmap, |bitmap|) + 1
    ensures View(items', bitmap[i := true], erased[i := false]) == View(items, bitmap, erased)[i := Held(v)]
  {
    var bitmap', erased' := bitmap[i := true], erased[i := false];
    RankUpdate(bitmap, i, true, |bitmap|);
    forall p | 0 <= p < |bitmap|
      ensures CellAt(items', bitmap', erased', p) == if p == i then Held(v) else CellAt(items, bitmap, erased, p)
    {
      RankUpdate(bitmap, i, true, p);
      RankMonotone(bitmap, p, |bitmap|);
      if p < i { RankMonotone(bitmap, p, i); } else if p > i { RankMonotone(bitmap, i, p); }
    }
  }

  /** Closing the gap of a full position and clearing its bit empties that cell and moves no other. */
  lemma CloseIsUpdate<T>(items: seq<T>, items': seq<T>, bitmap: seq<bool>, erased: seq<bool>, i: nat)
    requires |erased| == |bitmap| && i < |bitmap| && bitmap[i]
    requires Rank(bitmap, i) < Rank(bitmap, |bitmap|) <= |items| == |items'|
    requires forall o :: 0 <= o < Rank(bitmap, i) ==> items'[o] == items[o]
    requires forall o :: Rank(bitmap, i) <= o < Rank(bitmap, |bitmap|) - 1 ==> items'[o] == items[o + 1]
    ensures Rank(bitmap[i := false], |bitmap|) == Rank(bitmap, |bitmap|) - 1
    ensures View(items', bitmap[i := false], erased[i := true]) == View(items, bitmap, erased)[i := Tombstone]
  {
    var bitmap', erased' := bitmap[i := false], erased[i := true];
    RankUpdate(bitmap, i, false, |bitmap|);
    forall p | 0 <= p < |bitmap|
      ensures CellAt(items', bitmap', erased', p) == if p == i then Tombstone else CellAt(items, bitmap, erased, p)
    {
      RankUpdate(bitmap, i, false, p);
      RankMonotone(bitmap, p, |bitmap|);
      if p < i { RankMonotone(bitmap, p, i); } else if p > i { RankMonotone(bitmap, i, p); }
    }
  }

  class Group<T(0)> {
    var items: array<T>
    var numItems: nat
    var bitmap: seq<bool>
    var erased: seq<bool>

    ghost predicate Valid()
      reads this, items
    {
      && |bitmap| == |erased| == items.Length == GROUP_SIZE
      && numItems == Rank(bitmap, GROUP_SIZE)
    }

    /** The group as a plain array of cells. */
    ghost function Cells(): (v: seq<Cell<T>>)
      requires Valid()
      reads this, items
      ensures |v| == GROUP_SIZE
    {
      View(items[..], bitmap, erased)
    }

    constructor ()
      ensures Valid() && fresh(items) && numItems == 0
      ensures forall p :: 0 <= p < GROUP_SIZE ==> Cells()[p] == Vacant
    {
      items := new T[GROUP_SIZE];
      numItems := 0;
      bitmap, erased := seq(GROUP_SIZE, _ => false), seq(GROUP_SIZE, _ => false);
      new;
      NoBits(bitmap, GROUP_SIZE);
    }

    /** test and test_strict: full, and full or erased. */
    function Test(p: nat): (b: bool)
      requires Valid() && p < GROUP_SIZE
      reads this, items
      ensures b <==> Cells()[p].Held?
    {
      bitmap[p]
    }

    function TestStrict(p: nat): (b: bool)
      requires Valid() && p < GROUP_SIZE
      reads this, items
      ensures b <==> !Cells()[p].Vacant?
    {
      bitmap[p] || erased[p]
    }

    method Get(p: nat) returns (v: T)
      requires Valid() && p < GROUP_SIZE && Cells()[p].Held?
      ensures v == Cells()[p].value
    {
      var offset := PosToOffset(p);
      RankMonotone(bitmap, p, GROUP_SIZE);
      v := items[offset];
    }

    method PosToOffset(p: nat) returns (offset: nat)
      requires Valid() && p <= GROUP_SIZE
      ensures offset == Rank(bitmap, p)
    {
      offset := 0;
      for i := 0 to p
        invariant offset == Rank(bitmap, i)
      {
        if bitmap[i] { offset := offset + 1; }
      }
    }

    /** The inverse: clears the lowest set bit `offset` times; the lowest that is left is the position. */
    method OffsetToPos(offset: nat) returns (p: nat)
      requires Valid() && offset < numItems
      ensures p < GROUP_SIZE && bitmap[p] && Rank(bitmap, p) == offset
    {
      var bm := bitmap;
      for k := 0 to offset
        invariant bm == Without(bitmap, k)
      {
        LowestLeft(bitmap, k);
        ClearedOne(bitmap, k);
        bm := bm[Lowest(bm) := false];
      }
      LowestLeft(bitmap, offset);
      p := Lowest(bm);
    }

    /** Stores v in cell p, whatever was there. */
    method Set(p: nat, v: T)
      requires Valid() && p < GROUP_SIZE
      modifies this, items
      ensures Valid() && items == old(items)
      ensures numItems == old(numItems) + if old(Cells()[p]).Held? then 0 else 1
      ensures Cells() == old(Cells())[p := Held(v)]
    {
      var offset := PosToOffset(p);
      if bitmap[p] {
        Overwrite(p, offset, v);
      } else {
        RankMonotone(bitmap, p, GROUP_SIZE);
        RankUpdate(bitmap, p, true, GROUP_SIZE);
        ghost var was := items[..];
        OpenGap(offset);
        items[offset] := v;
        GapIsUpdate(was, items[..], bitmap, erased, p, v);
        numItems := numItems + 1;
        bitmap, erased := bitmap[p := true], erased[p := false];
      }
    }

    method Overwrite(p: nat, offset: nat, v: T)
      requires Valid() && p < GROUP_SIZE && bitmap[p] && offset == Rank(bitmap, p)
      modifies this, items
      ensures Valid() && items == old(items) && numItems == old(numItems)
      ensures Cells() == old(Cells())[p := Held(v)]
    {
      RankMonotone(bitmap, p, GROUP_SIZE);
      ghost var was, cells := items[..], Cells();
      erased := erased[p := false];
      items[offset] := v;
      forall q | 0 <= q < GROUP_SIZE ensures Cells()[q] == cells[p := Held(v)][q] {
        RankMonotone(bitmap, q, GROUP_SIZE);
        if q < p { RankMonotone(bitmap, q, p); } else if q > p { RankMonotone(bitmap, p, q); }
      }
    }

    /** Moves the elements from `offset` on one place up. */
    method OpenGap(offset: nat)
      requires Valid() && offset <= numItems < GROUP_SIZE
      modifies items
      ensures forall o :: 0 <= o < offset ==> items[o] == old(items[o])
      ensures forall o :: offset < o <= numItems ==> items[o] == old(items[o - 1])
    {
      var i := numItems;
      while i > offset
        invariant offset <= i <= numItems
        invariant forall o :: 0 <= o < i ==> items[o] == old(items[o])
        invariant forall o :: i < o <= numItems ==> items[o] == old(items[o - 1])
      {
        items[i] := items[i - 1];
        i := i - 1;
      }
    }

    /** Leaves a tombstone in a cell that holds something, and any other cell as it is. */
    method Erase(p: nat)
      requires Valid() && p < GROUP_SIZE
      modifies this, items
      ensures Valid() && items == old(items)
      ensures numItems == old(numItems) - if old(Cells()[p]).Held? then 1 else 0
      ensures Cells() == if old(Cells()[p]).Held? then old(Cells())[p := Tombstone] else old(Cells())
    {
      if bitmap[p] {
        var offset := PosToOffset(p);
        RankMonotone(bitmap, p, GROUP_SIZE);
        ghost var was := items[..];
        CloseGap(offset);
        CloseIsUpdate(was, items[..], bitmap, erased, p);
        numItems := numItems - 1;
        bitmap, erased := bitmap[p := false], erased[p := true];
      }
    }

    /** Moves the elements above `offset` one place down. */
    method CloseGap(offset: nat)
      requires Valid() && offset < numItems
      modifies items
      ensures forall o :: 0 <= o < offset ==> items[o] == old(items[o])
      ensures forall o :: offset <= o < numItems - 1 ==> items[o] == old(items[o + 1])
    {
      var i := offset;
      while i < numItems - 1
        invariant offset <= i <= numItems - 1
        invariant forall o :: 0 <= o < offset ==> items[o] == old(items[o])
        invariant forall o :: offset <= o < i ==> items[o] == old(items[o + 1])
        invariant forall o :: i <= o < GROUP_SIZE ==> items[o] == old(items[o])
      {
        items[i] := items[i + 1];
        i := i + 1;
      }
    }
  }

  lemma {:induction false} NoBits(bits: seq<bool>, p: nat)
    requires p <= |bits| && forall i :: 0 <= i < |bits| ==> !bits[i]
    ensures Rank(bits, p) == 0
  {
    if p > 0 { NoBits(bits, p - 1); }
  }
}
