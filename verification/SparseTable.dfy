/**
 sparsetable: a row of sparse groups.  Bucket i is cell i % GROUP_SIZE of group i / GROUP_SIZE, and together the
 groups behave like the flat array of buckets that the hash table probes.
 */
module SparseTable {
  import opened SparseGroup
  import H = SparseHash

  /** num_groups */
  function NumGroups(num: nat): (r: nat)
    ensures forall i: nat {:trigger GroupNum(i)} :: i < num ==> GroupNum(i) < r
  {
    if num == 0 then 0 else (num - 1) / GROUP_SIZE + 1
  }

  function GroupNum(i: nat): nat { i / GROUP_SIZE }
  function PosInGroup(i: nat): nat { i % GROUP_SIZE }

  /** Every bucket has a group, and different buckets have different groups or positions. */
  lemma GroupOfBucket(num: nat, i: nat, j: nat)
    requires i < num && j < num
    ensures GroupNum(i) < NumGroups(num) && PosInGroup(i) < GROUP_SIZE
    ensures GroupNum(i) == GroupNum(j) && PosInGroup(i) == PosInGroup(j) ==> i == j
  {
    assert i == GROUP_SIZE * GroupNum(i) + PosInGroup(i) && j == GROUP_SIZE * GroupNum(j) + PosInGroup(j);
  }

  /** num_nonempty, of a flat array. */
  function Helds<T>(v: seq<Cell<T>>): (n: nat)
    ensures n <= |v|
  {
    if |v| == 0 then 0 else Helds(v[..|v| - 1]) + (if v[|v| - 1].Held? then 1 else 0)
  }

  lemma {:induction false} HeldsUpdate<T>(v: seq<Cell<T>>, i: nat, x: Cell<T>)
    requires i < |v|
    ensures Helds(v[i := x]) == Helds(v) - (if v[i].Held? then 1 else 0) + (if x.Held? then 1 else 0)
  {
    var n := |v| - 1;
    if i == n {
      assert v[i := x][..n] == v[..n];
    } else {
      HeldsUpdate(v[..n], i, x);
      assert v[i := x][..n] == v[..n][i := x];
    }
  }

  lemma {:induction false} HeldsNone<T>(v: seq<Cell<T>>)
    requires forall i :: 0 <= i < |v| ==> v[i] == Vacant
    ensures Helds(v) == 0
  {
    if |v| > 0 { HeldsNone(v[..|v| - 1]); }
  }

  // ---------- What the hash table sees ----------

  /** A cell that holds a key and its value, as a bucket of the hash table. */
  function SlotOf<K, V>(x: Cell<(K, V)>): H.Slot<K, V> {
    match x
    case Vacant => H.Empty
    case Tombstone => H.Erased
    case Held(kv) => H.Full(kv.0, kv.1)
  }

  function Slots<K, V>(v: seq<Cell<(K, V)>>): (s: seq<H.Slot<K, V>>)
    ensures |s| == |v| && forall i :: 0 <= i < |v| ==> s[i] == SlotOf(v[i])
  {
    seq(|v|, i requires 0 <= i < |v| => SlotOf(v[i]))
  }

  /** Storing and erasing in the flat array are the two updates of the hash table's buckets, with the same counts. */
  lemma SlotsUpdate<K, V>(v: seq<Cell<(K, V)>>, i: nat, k: K, x: V)
    requires i < |v|
    ensures Slots(v[i := Held((k, x))]) == Slots(v)[i := H.Full(k, x)]
    ensures Slots(v[i := Tombstone]) == Slots(v)[i := H.Erased]
    ensures Helds(v) == H.Count(Slots(v), true)
  {
    HeldsAreFull(v);
  }

  lemma {:induction false} HeldsAreFull<K, V>(v: seq<Cell<(K, V)>>)
    ensures Helds(v) == H.Count(Slots(v), true)
  {
    if |v| > 0 {
      HeldsAreFull(v[..|v| - 1]);
      assert Slots(v)[..|v| - 1] == Slots(v[..|v| - 1]);
    }
  }

  // ---------- Rows of groups ----------

  /** The flat array of `size` buckets held in rows of GROUP_SIZE. */
  function Flatten<T>(rows: seq<seq<Cell<T>>>, size: nat): (v: seq<Cell<T>>)
    requires Shaped(rows, size)
    ensures |v| == size
  {
    seq(size, i requires 0 <= i < size => BucketAt(rows, size, i))
  }

  predicate Shaped<T>(rows: seq<seq<Cell<T>>>, size: nat) {
    |rows| == NumGroups(size) && forall g :: 0 <= g < |rows| ==> |rows[g]| == GROUP_SIZE
  }

  function BucketAt<T>(rows: seq<seq<Cell<T>>>, size: nat, i: nat): Cell<T>
    requires Shaped(rows, size) && i < size
  {
    GroupOfBucket(size, i, i);
    rows[GroupNum(i)][PosInGroup(i)]
  }

  /** Changing bucket i's cell changes that bucket and no other. */
  lemma FlattenUpdate<T>(rows: seq<seq<Cell<T>>>, size: nat, i: nat, x: Cell<T>)
    requires Shaped(rows, size) && i < size
    ensures GroupNum(i) < |rows|
    ensures var rows' := rows[GroupNum(i) := rows[GroupNum(i)][PosInGroup(i) := x]];
            && Shaped(rows', size)
            && Flatten(rows', size) == Flatten(rows, size)[i := x]
            && Helds(Flatten(rows', size)) ==
               Helds(Flatten(rows, size)) - (if Flatten(rows, size)[i].Held? then 1 else 0) + (if x.Held? then 1 else 0)
  {
    GroupOfBucket(size, i, i);
    var rows' := rows[GroupNum(i) := rows[GroupNum(i)][PosInGroup(i) := x]];
    forall j | 0 <= j < size ensures BucketAt(rows', size, j) == if j == i then x else BucketAt(rows, size, j) {
      GroupOfBucket(size, i, j);
    }
    assert Flatten(rows', size) == Flatten(rows, size)[i := x];
    HeldsUpdate(Flatten(rows, size), i, x);
  }

  class Table<T(0)> {
    const size: nat
    var groups: seq<Group<T>>
    var numBuckets: nat
    ghost var rows: seq<seq<Cell<T>>>     // the groups' cells

    ghost function Arrays(): set<array<T>>
      reads this, groups
    {
      set g | g in groups :: g.items
    }

    static ghost predicate Holds(g: Group<T>, row: seq<Cell<T>>)
      reads g, g.items
    {
      g.Valid() && g.Cells() == row
    }

    /** Each group holds its row, and none shares memory with another. */
    ghost predicate Sound()
      reads this, groups, Arrays()
    {
      && Shaped(rows, size) && |groups| == |rows|
      && (forall g :: 0 <= g < |groups| ==> Holds(groups[g], rows[g]))
      && Distinct(groups)
    }

    ghost predicate Valid()
      reads this, groups, Arrays()
    {
      Sound() && numBuckets == Helds(Flat())
    }

    /** The flat array of buckets. */
    ghost function Flat(): (v: seq<Cell<T>>)
      requires Shaped(rows, size)
      reads this
      ensures |v| == size
    {
      Flatten(rows, size)
    }

    constructor (size: nat)
      ensures Valid() && this.size == size && Flat() == seq(size, _ => Vacant)
      ensures fresh(groups) && forall g :: g in groups ==> fresh(g.items)
    {
      var gs := NewGroups(NumGroups(size));
      this.size, numBuckets, groups := size, 0, gs;
      rows := seq(|gs|, _ => seq(GROUP_SIZE, _ => Vacant));
      new;
      HeldsNone(Flat());
    }

    static method NewGroups(n: nat) returns (gs: seq<Group<T>>)
      ensures |gs| == n && fresh(gs) && forall g :: g in gs ==> fresh(g.items)
      ensures forall g :: 0 <= g < n ==> Holds(gs[g], seq(GROUP_SIZE, _ => Vacant))
      ensures Distinct(gs)
    {
      gs := [];
      while |gs| < n
        invariant |gs| <= n && fresh(gs) && (forall g :: g in gs ==> fresh(g.items)) && Distinct(gs)
        invariant forall g :: 0 <= g < |gs| ==> Holds(gs[g], seq(GROUP_SIZE, _ => Vacant))
      {
        var g := new Group<T>();
        assert Holds(g, seq(GROUP_SIZE, _ => Vacant)) by { assert g.Cells() == seq(GROUP_SIZE, _ => Vacant); }
        assert forall h :: 0 <= h < |gs| ==> gs[h] != g && gs[h].items != g.items;
        gs := gs + [g];
      }
    }

    /** No two groups share any memory. */
    static ghost predicate Distinct(gs: seq<Group<T>>)
      reads gs
    {
      forall g, h :: 0 <= g < |gs| && 0 <= h < |gs| && g != h ==> gs[g] != gs[h] && gs[g].items != gs[h].items
    }

    function Test(i: nat): (b: bool)
      requires Valid() && i < size
      reads this, groups, Arrays()
      ensures b <==> Flat()[i].Held?
    {
      GroupOfBucket(size, i, i);
      groups[GroupNum(i)].Test(PosInGroup(i))
    }

    function TestStrict(i: nat): (b: bool)
      requires Valid() && i < size
      reads this, groups, Arrays()
      ensures b <==> !Flat()[i].Vacant?
    {
      GroupOfBucket(size, i, i);
      groups[GroupNum(i)].TestStrict(PosInGroup(i))
    }

    method UnsafeGet(i: nat) returns (v: T)
      requires Valid() && i < size && Flat()[i].Held?
      ensures v == Flat()[i].value
    {
      GroupOfBucket(size, i, i);
      v := groups[GroupNum(i)].Get(PosInGroup(i));
    }

    /** Stores v in bucket i and touches no other bucket. */
    method Set(i: nat, v: T)
      requires Valid() && i < size
      modifies `numBuckets, `rows, groups[GroupNum(i)], groups[GroupNum(i)].items
      ensures Valid() && Flat() == old(Flat())[i := Held(v)]
    {
      FlattenUpdate(rows, size, i, Held(v));
      var k := GroupNum(i);
      var before := groups[k].numItems;
      SetCell(k, PosInGroup(i), v);
      numBuckets := numBuckets + groups[k].numItems - before;
    }

    method SetCell(k: nat, p: nat, v: T)
      requires Sound() && k < |groups| && p < GROUP_SIZE
      modifies `rows, groups[k], groups[k].items
      ensures Sound() && rows == old(rows)[k := old(rows)[k][p := Held(v)]]
      ensures groups[k].numItems == old(groups[k].numItems) + if old(rows)[k][p].Held? then 0 else 1
    {
      assert Holds(groups[k], rows[k]);
      groups[k].Set(p, v);
      rows := rows[k := rows[k][p := Held(v)]];
    }

    /** Leaves a tombstone in a bucket that holds something, and touches no other bucket. */
    method Erase(i: nat)
      requires Valid() && i < size
      modifies `numBuckets, `rows, groups[GroupNum(i)], groups[GroupNum(i)].items
      ensures Valid() && Flat() == if old(Flat())[i].Held? then old(Flat())[i := Tombstone] else old(Flat())
    {
      var k := GroupNum(i);
      ghost var x := if Flat()[i].Held? then Tombstone else Flat()[i];
      FlattenUpdate(rows, size, i, x);
      var before := groups[k].numItems;
      EraseCell(k, PosInGroup(i));
      numBuckets := numBuckets + groups[k].numItems - before;
    }

    method EraseCell(k: nat, p: nat)
      requires Sound() && k < |groups| && p < GROUP_SIZE
      modifies `rows, groups[k], groups[k].items
      ensures Sound() && rows == old(rows)[k := old(rows)[k][p := if old(rows)[k][p].Held? then Tombstone else old(rows)[k][p]]]
      ensures groups[k].numItems == old(groups[k].numItems) - if old(rows)[k][p].Held? then 1 else 0
    {
      assert Holds(groups[k], rows[k]);
      groups[k].Erase(p);
      rows := rows[k := rows[k][p := if rows[k][p].Held? then Tombstone else rows[k][p]]];
    }
  }
}
