/**
 sparse_hashtable: open addressing with triangular probing and tombstones, refining a finite map.

 A bucket is empty, erased or full; SparseTable shows that rows of packed groups behave like this array.
 The load factors are their default integer percentages.
 */
module SparseHash {
  import opened Arith
  import opened Options
  import opened Probing
  import opened Sums

  const MIN_BUCKETS: nat := 4               // HT_MIN_BUCKETS
  const DEFAULT_BUCKETS: nat := 32          // HT_DEFAULT_STARTING_BUCKETS
  const OCCUPANCY_PCT: nat := 50            // HT_OCCUPANCY_PCT
  const EMPTY_PCT: nat := 20                // HT_EMPTY_PCT

  datatype Slot<K, V> = Empty | Erased | Full(key: K, value: V)

  datatype Position = AtEmpty(index: nat) | AtErased(index: nat) | AtFull(index: nat)

  function EnlargeSize(x: nat): nat { x * OCCUPANCY_PCT / 100 }

  function ShrinkSize(x: nat): nat { x * EMPTY_PCT / 100 }

  // ---------- Counting buckets ----------

  /** 1 for a full bucket, or for an erased one when `full` is false. */
  function Weight<K, V>(x: Slot<K, V>, full: bool): nat { if x.Empty? || x.Full? != full then 0 else 1 }

  function Count<K, V>(s: seq<Slot<K, V>>, full: bool): nat {
    if |s| == 0 then 0 else Count(s[..|s| - 1], full) + Weight(s[|s| - 1], full)
  }

  lemma {:induction false} CountUpdate<K, V>(s: seq<Slot<K, V>>, i: nat, x: Slot<K, V>, full: bool)
    requires i < |s|
    ensures Count(s[i := x], full) == Count(s, full) - Weight(s[i], full) + Weight(x, full)
  {
    var n := |s| - 1;
    if i == n {
      assert s[i := x][..n] == s[..n];
    } else {
      assert s[i := x][..n] == s[..n][i := x];
      CountUpdate(s[..n], i, x, full);
    }
  }

  lemma {:induction false} CountBounds<K, V>(s: seq<Slot<K, V>>)
    ensures Count(s, true) + Count(s, false) <= |s|
    ensures Count(s, true) + Count(s, false) < |s| ==> Empty in s
  {
    if |s| > 0 { CountBounds(s[..|s| - 1]); }
  }

  lemma {:induction false} CountEmpty<K, V>(s: seq<Slot<K, V>>, full: bool)
    requires forall i :: 0 <= i < |s| ==> s[i] == Empty
    ensures Count(s, full) == 0
  {
    if |s| > 0 { CountEmpty(s[..|s| - 1], full); }
  }

  lemma {:induction false} CountPrefix<K, V>(s: seq<Slot<K, V>>, i: nat, full: bool)
    requires i < |s|
    ensures Count(s[..i + 1], full) == Count(s[..i], full) + Weight(s[i], full) <= Count(s, full)
    decreases |s|
  {
    assert s[..i + 1][..i] == s[..i];
    if i < |s| - 1 {
      var front := s[..|s| - 1];
      assert front[..i] == s[..i] && front[..i + 1] == s[..i + 1];
      CountPrefix(front, i, full);
    } else {
      assert s[..i + 1] == s;
    }
  }

  // ---------- What the buckets stand for ----------

  /** No empty bucket on the way: a lookup of a key with this hash gets as far as probe n. */
  ghost predicate Reached<K, V>(s: seq<Slot<K, V>>, h: nat, n: nat)
    requires |s| > 0
  {
    forall m: nat :: m < n ==> !s[ProbeAt(h, m, |s|)].Empty?
  }

  ghost predicate Findable<K, V>(s: seq<Slot<K, V>>, h: nat, i: nat)
    requires |s| > 0
  {
    exists n: nat :: ProbeAt(h, n, |s|) == i && Reached(s, h, n)
  }

  /** The buckets hold exactly the map, each key once and in sight of its own probe sequence. */
  ghost predicate Holds<K, V>(s: seq<Slot<K, V>>, hash: K -> nat, contents: map<K, V>) {
    && |s| > 0
    && (forall i :: 0 <= i < |s| && s[i].Full? ==>
          s[i].key in contents && contents[s[i].key] == s[i].value && Findable(s, hash(s[i].key), i))
    && (forall i, j :: 0 <= i < j < |s| && s[i].Full? && s[j].Full? ==> s[i].key != s[j].key)
    && (forall k :: k in contents ==> exists i :: 0 <= i < |s| && s[i] == Full(k, contents[k]))
  }

  lemma HoldsNothing<K, V>(s: seq<Slot<K, V>>, hash: K -> nat)
    requires |s| > 0 && forall i :: 0 <= i < |s| ==> s[i] == Empty
    ensures Holds(s, hash, map[])
  {
  }

  /** Taking a free bucket in sight of a new key adds the key, and hides no other. */
  lemma FillKeeps<K, V>(s: seq<Slot<K, V>>, hash: K -> nat, contents: map<K, V>, i: nat, k: K, v: V)
    requires Holds(s, hash, contents) && k !in contents
    requires i < |s| && !s[i].Full? && Findable(s, hash(k), i)
    ensures Holds(s[i := Full(k, v)], hash, contents[k := v])
  {
    var s', c' := s[i := Full(k, v)], contents[k := v];
    forall j | 0 <= j < |s'| && s'[j].Full? ensures Findable(s', hash(s'[j].key), j) {
      SightKept(s, i, Full(k, v), hash(s'[j].key), j);
    }
    forall k' | k' in c' ensures exists j :: 0 <= j < |s'| && s'[j] == Full(k', c'[k']) {
      if k' == k {
        assert s'[i] == Full(k', c'[k']);
      } else {
        var j :| 0 <= j < |s| && s[j] == Full(k', contents[k']);
        assert s'[j] == Full(k', c'[k']);
      }
    }
  }

  /** A tombstone in place of a full bucket removes its key, and hides no other. */
  lemma EraseKeeps<K, V>(s: seq<Slot<K, V>>, hash: K -> nat, contents: map<K, V>, i: nat)
    requires Holds(s, hash, contents) && i < |s| && s[i].Full?
    ensures Holds(s[i := Erased], hash, contents - {s[i].key})
  {
    var s', c' := s[i := Erased], contents - {s[i].key};
    forall j | 0 <= j < |s'| && s'[j].Full? ensures Findable(s', hash(s'[j].key), j) {
      SightKept(s, i, Erased, hash(s'[j].key), j);
    }
    forall k | k in c' ensures exists j :: 0 <= j < |s'| && s'[j] == Full(k, c'[k]) {
      var j :| 0 <= j < |s| && s[j] == Full(k, contents[k]);
      assert s'[j] == Full(k, c'[k]);
    }
  }

  /** Probes only stop at empty buckets, so replacing one by anything else keeps what was in sight in sight. */
  lemma SightKept<K, V>(s: seq<Slot<K, V>>, i: nat, x: Slot<K, V>, h: nat, j: nat)
    requires i < |s| && !x.Empty? && Findable(s, h, j)
    ensures Findable(s[i := x], h, j)
  {
    var n: nat :| ProbeAt(h, n, |s|) == j && Reached(s, h, n);
    assert Reached(s[i := x], h, n);
  }

  /** The buckets determine the map. */
  lemma OneContents<K, V>(s: seq<Slot<K, V>>, hash: K -> nat, c: map<K, V>, d: map<K, V>)
    requires Holds(s, hash, c) && Holds(s, hash, d)
    ensures c == d
  {
    forall k | k in c ensures k in d && d[k] == c[k] {
      var i :| 0 <= i < |s| && s[i] == Full(k, c[k]);
    }
    forall k | k in d ensures k in c {
      var i :| 0 <= i < |s| && s[i] == Full(k, d[k]);
    }
  }

  /** A key that is stored is met before any empty bucket. */
  lemma MetBeforeEmpty<K, V>(s: seq<Slot<K, V>>, hash: K -> nat, contents: map<K, V>, k: K, n: nat)
    requires Holds(s, hash, contents) && Reached(s, hash(k), n)
    requires forall m: nat :: m < n ==> !IsKey(s[ProbeAt(hash(k), m, |s|)], k)
    requires s[ProbeAt(hash(k), n, |s|)].Empty?
    ensures k !in contents
  {
    if k in contents {
      var i :| 0 <= i < |s| && s[i] == Full(k, contents[k]);
      var m: nat :| ProbeAt(hash(k), m, |s|) == i && Reached(s, hash(k), m);
      assert IsKey(s[ProbeAt(hash(k), m, |s|)], k);
    }
  }

  predicate IsKey<K(==), V>(x: Slot<K, V>, k: K) { x.Full? && x.key == k }

  /** While some bucket is empty, a probe that met none yet has not been around all buckets. */
  lemma ProbesLeft<K, V>(s: seq<Slot<K, V>>, h: nat, n: nat)
    requires IsPow2(|s|) && Reached(s, h, n) && Empty in s
    ensures n < |s|
  {
    var i :| 0 <= i < |s| && s[i] == Empty;
    var k: nat :| |s| == Pow2(k);
    var m := ProbesReachAll(h, i, k);
  }

  /** Past a bucket that is not empty there is another one to probe. */
  lemma Jump<K, V>(s: seq<Slot<K, V>>, h: nat, n: nat)
    requires IsPow2(|s|) && Empty in s && Reached(s, h, n) && !s[ProbeAt(h, n, |s|)].Empty?
    ensures n + 1 < |s| && Reached(s, h, n + 1)
    ensures (ProbeAt(h, n, |s|) + n + 1) % |s| == ProbeAt(h, n + 1, |s|)
  {
    NextProbe(h, n, |s|);
    assert Reached(s, h, n + 1);
    ProbesLeft(s, h, n + 1);
  }

  // ---------- The table ----------

  /** The first bucket of a probe that is not full: where a new key belongs. */
  ghost predicate FirstFree<K, V>(s: seq<Slot<K, V>>, h: nat, i: nat)
    requires |s| > 0
  {
    && i < |s| && !s[i].Full?
    && exists n: nat :: ProbeAt(h, n, |s|) == i && forall m: nat :: m < n ==> s[ProbeAt(h, m, |s|)].Full?
  }

  lemma FirstFreeAt<K, V>(s: seq<Slot<K, V>>, h: nat, n: nat)
    requires |s| > 0 && !s[ProbeAt(h, n, |s|)].Full?
    requires forall m: nat :: m < n ==> s[ProbeAt(h, m, |s|)].Full?
    ensures FirstFree(s, h, ProbeAt(h, n, |s|))
  {
  }

  lemma FirstFreeIsFindable<K, V>(s: seq<Slot<K, V>>, h: nat, i: nat)
    requires |s| > 0 && FirstFree(s, h, i)
    ensures Findable(s, h, i)
  {
    var n: nat :| ProbeAt(h, n, |s|) == i && forall m: nat :: m < n ==> s[ProbeAt(h, m, |s|)].Full?;
    assert Reached(s, h, n);
  }

  /** The smallest admissible size: a power of two, as large as wanted, and not too crowded. */
  ghost predicate Smallest(sz: nat, numElts: nat, wanted: nat) {
    && IsPow2(sz) && sz >= MIN_BUCKETS && sz >= wanted && numElts < EnlargeSize(sz)
    && (sz > MIN_BUCKETS ==> sz / 2 < wanted || numElts >= EnlargeSize(sz / 2))
  }

  /**
   * When `buckets` are too few for `occupied` entries, more than that are needed, and asking for at least
   * as many as there are gives no less than needed: neither of _resize_delta's other exits is ever taken.
   */
  lemma OneGrowth(buckets: nat, occupied: nat, needed: nat, resizeTo: nat)
    requires occupied > EnlargeSize(buckets)
    requires Smallest(needed, occupied, 0) && Smallest(resizeTo, occupied, buckets)
    ensures needed > buckets && resizeTo >= needed
  {
    if resizeTo < needed {
      HalfOrMore(resizeTo, needed);
    }
  }

  lemma SmallestUnique(a: nat, b: nat, numElts: nat, wanted: nat)
    requires Smallest(a, numElts, wanted) && Smallest(b, numElts, wanted)
    ensures a == b
  {
    if a < b { HalfOrMore(a, b); }
    if b < a { HalfOrMore(b, a); }
  }

  /** A table that was too empty at twice the size is not too crowded at this one. */
  lemma RoomyAsWanted(sz: nat, numElts: nat)
    requires IsPow2(sz) && sz >= DEFAULT_BUCKETS && numElts < ShrinkSize(2 * sz)
    ensures Smallest(sz, numElts, sz)
  {
  }

  /** Of two powers of two, the smaller is at most half the other. */
  lemma HalfOrMore(a: nat, b: nat)
    requires IsPow2(a) && IsPow2(b) && a < b
    ensures a <= b / 2
  {
    var i: nat, j: nat :| a == Pow2(i) && b == Pow2(j);
    if i >= j { PowMonotone(j, i); }
    PowMonotone(i, j - 1);
  }

  method MinBuckets(numElts: nat, wanted: nat) returns (sz: nat)
    ensures Smallest(sz, numElts, wanted)
  {
    sz := MIN_BUCKETS;
    assert sz == Pow2(2);
    while sz < wanted || numElts >= EnlargeSize(sz)
      invariant IsPow2(sz) && sz >= MIN_BUCKETS
      invariant sz > MIN_BUCKETS ==> sz / 2 < wanted || numElts >= EnlargeSize(sz / 2)
      decreases wanted + 4 * numElts + 4 - sz
    {
      DoublePow2(sz);
      sz := sz * 2;
    }
  }

  /** Puts an entry known to be absent into a table that never had an erasure. */
  method PlaceNew<K(==), V>(dest: array<Slot<K, V>>, hash: K -> nat, ghost contents: map<K, V>, k: K, v: V)
    requires IsPow2(dest.Length) && Holds(dest[..], hash, contents) && k !in contents
    requires Empty in dest[..] && Erased !in dest[..]
    modifies dest
    ensures Holds(dest[..], hash, contents[k := v])
    ensures exists i :: 0 <= i < dest.Length && old(dest[i]) == Empty && dest[..] == old(dest[..])[i := Full(k, v)]
  {
    var numProbes := 0;
    var b := hash(k) % dest.Length;
    while dest[b].Full?
      invariant numProbes < dest.Length && b == ProbeAt(hash(k), numProbes, dest.Length)
      invariant forall m: nat :: m < numProbes ==> dest[..][ProbeAt(hash(k), m, dest.Length)].Full?
      invariant dest[..] == old(dest[..])
      decreases dest.Length - numProbes
    {
      assert Reached(dest[..], hash(k), numProbes);
      Jump(dest[..], hash(k), numProbes);
      numProbes := numProbes + 1;
      b := (b + numProbes) % dest.Length;
    }
    assert dest[..][b] == Empty by { assert dest[..][b] in dest[..]; }
    FirstFreeIsFindable(dest[..], hash(k), b);
    FillKeeps(dest[..], hash, contents, b, k, v);
    dest[b] := Full(k, v);
    assert dest[..] == old(dest[..])[b := Full(k, v)];
  }

  /** Halves the size until it is no longer too empty, or the default. */
  method ShrunkSize(buckets: nat, numFull: nat) returns (sz: nat)
    requires IsPow2(buckets) && buckets > DEFAULT_BUCKETS
    ensures IsPow2(sz) && DEFAULT_BUCKETS <= sz < buckets
    ensures sz == DEFAULT_BUCKETS || numFull >= ShrinkSize(sz)
    ensures 2 * sz <= buckets && (2 * sz < buckets ==> numFull < ShrinkSize(2 * sz))
  {
    DoublePow2(buckets);
    sz := buckets / 2;
    AtLeastDefault(buckets);
    while sz > DEFAULT_BUCKETS && numFull < ShrinkSize(sz)
      invariant DEFAULT_BUCKETS <= sz && IsPow2(sz) && 2 * sz <= buckets
      invariant 2 * sz < buckets ==> numFull < ShrinkSize(2 * sz)
    {
      DoublePow2(sz);
      AtLeastDefault(sz);
      sz := sz / 2;
    }
  }

  /** A power of two above the default is at least twice the default. */
  lemma AtLeastDefault(n: nat)
    requires IsPow2(n) && n > DEFAULT_BUCKETS
    ensures n / 2 >= DEFAULT_BUCKETS
  {
    DoublePow2(n);
    assert Pow2(4) == 16;
    PowAbove(n / 2, 4);
  }

  lemma PowAbove(n: nat, j: nat)
    requires IsPow2(n) && n > Pow2(j)
    ensures n >= 2 * Pow2(j)
  {
    var k: nat :| n == Pow2(k);
    PowMonotone(k, j);
  }

  /** The table's invariant: what is stored, how it is counted, and that enough buckets stay empty. */
  ghost predicate Good<K, V>(s: seq<Slot<K, V>>, hash: K -> nat, contents: map<K, V>, numFull: nat, numDeleted: nat) {
    && IsPow2(|s|) && |s| >= MIN_BUCKETS
    && Holds(s, hash, contents)
    && numFull == Count(s, true) == |contents| && numDeleted == Count(s, false)
    && numFull + numDeleted <= EnlargeSize(|s|)
  }

  /** Some bucket is empty, whatever was inserted and erased. */
  lemma SomeEmpty<K, V>(s: seq<Slot<K, V>>, hash: K -> nat, contents: map<K, V>, numFull: nat, numDeleted: nat)
    requires Good(s, hash, contents, numFull, numDeleted)
    ensures Empty in s
  {
    CountBounds(s);
  }

  lemma GoodEmpty<K, V>(s: seq<Slot<K, V>>, hash: K -> nat)
    requires IsPow2(|s|) && |s| >= MIN_BUCKETS && forall i :: 0 <= i < |s| ==> s[i] == Empty
    ensures Good(s, hash, map[], 0, 0)
  {
    CountEmpty(s, true);
    CountEmpty(s, false);
    HoldsNothing(s, hash);
  }

  class Hashtable<K(==), V> {
    const hash: K -> nat
    var slots: array<Slot<K, V>>
    var numFull: nat                // table.num_nonempty()
    var numDeleted: nat
    var considerShrink: bool
    ghost var contents: map<K, V>

    ghost predicate Valid()
      reads this, slots
    {
      Good(slots[..], hash, contents, numFull, numDeleted)
    }

    constructor (hash: K -> nat, expected: nat)
      ensures Valid() && contents == map[] && this.hash == hash && fresh(slots)
      ensures if expected == 0 then slots.Length == DEFAULT_BUCKETS else Smallest(slots.Length, expected, 0)
    {
      this.hash := hash;
      var sz := DEFAULT_BUCKETS;
      assert DEFAULT_BUCKETS == Pow2(5);
      if expected != 0 { sz := MinBuckets(expected, 0); }
      var s := new Slot<K, V>[sz](_ => Empty);
      slots, numFull, numDeleted, considerShrink, contents := s, 0, 0, false, map[];
      new;
      GoodEmpty(slots[..], hash);
    }

    method FindPosition(k: K) returns (pos: Position)
      requires Valid()
      ensures pos.index < slots.Length
      ensures pos.AtFull? <==> k in contents
      ensures pos.AtFull? ==> slots[pos.index] == Full(k, contents[k])
      ensures pos.AtErased? ==> slots[pos.index] == Erased && FirstFree(slots[..], hash(k), pos.index)
      ensures pos.AtEmpty? ==> slots[pos.index] == Empty && FirstFree(slots[..], hash(k), pos.index)
    {
      ghost var s := slots[..];
      SomeEmpty(s, hash, contents, numFull, numDeleted);
      var numProbes := 0;
      var b := hash(k) % slots.Length;
      var erased: Option<nat> := None;
      while true
        invariant numProbes < |s| && b == ProbeAt(hash(k), numProbes, |s|)
        invariant Reached(s, hash(k), numProbes)
        invariant forall m: nat :: m < numProbes ==> !IsKey(s[ProbeAt(hash(k), m, |s|)], k)
        invariant erased.Some? ==> FirstFree(s, hash(k), erased.value) && s[erased.value] == Erased
        invariant erased.None? ==> forall m: nat :: m < numProbes ==> s[ProbeAt(hash(k), m, |s|)].Full?
        decreases |s| - numProbes
      {
        if slots[b].Empty? {
          MetBeforeEmpty(s, hash, contents, k, numProbes);
          if erased.Some? { return AtErased(erased.value); }
          FirstFreeAt(s, hash(k), numProbes);
          return AtEmpty(b);
        } else if slots[b].Full? {
          if slots[b].key == k { return AtFull(b); }
        } else if erased.None? {
          FirstFreeAt(s, hash(k), numProbes);
          erased := Some(b);
        }
        Jump(s, hash(k), numProbes);
        numProbes := numProbes + 1;
        b := (b + numProbes) % slots.Length;
      }
    }

    /** The loop `find` and `erase` share. */
    method FindBucket(k: K) returns (r: Option<nat>)
      requires Valid()
      ensures r.Some? <==> k in contents
      ensures r.Some? ==> r.value < slots.Length && slots[r.value] == Full(k, contents[k])
    {
      ghost var s := slots[..];
      SomeEmpty(s, hash, contents, numFull, numDeleted);
      var numProbes := 0;
      var b := hash(k) % slots.Length;
      while true
        invariant numProbes < |s| && b == ProbeAt(hash(k), numProbes, |s|)
        invariant Reached(s, hash(k), numProbes)
        invariant forall m: nat :: m < numProbes ==> !IsKey(s[ProbeAt(hash(k), m, |s|)], k)
        decreases |s| - numProbes
      {
        if slots[b].Empty? {
          MetBeforeEmpty(s, hash, contents, k, numProbes);
          return None;
        }
        if slots[b].Full? && slots[b].key == k { return Some(b); }
        Jump(s, hash(k), numProbes);
        numProbes := numProbes + 1;
        b := (b + numProbes) % slots.Length;
      }
    }

    method Find(k: K) returns (r: Option<V>)
      requires Valid()
      ensures r == if k in contents then Some(contents[k]) else None
    {
      var b := FindBucket(k);
      r := if b.Some? then Some(slots[b.value].value) else None;
    }

    /** Rehashes into a larger or smaller array, which purges the tombstones. */
    method MoveTo(wanted: nat)
      requires Valid()
      modifies `slots, `numDeleted, `considerShrink
      ensures Valid() && contents == old(contents) && fresh(slots) && numDeleted == 0 && !considerShrink
      ensures Smallest(slots.Length, numFull, wanted) && numFull == old(numFull)
    {
      var sz := MinBuckets(numFull, wanted);
      var dest := Rehashed(sz);
      Swap(dest);
    }

    method Swap(dest: array<Slot<K, V>>)
      requires IsPow2(dest.Length) && dest.Length >= MIN_BUCKETS
      requires Holds(dest[..], hash, contents) && Count(dest[..], false) == 0
      requires Count(dest[..], true) == numFull == |contents| < EnlargeSize(dest.Length)
      modifies `slots, `numDeleted, `considerShrink
      ensures slots == dest && numDeleted == 0 && !considerShrink && Valid()
    {
      slots, numDeleted, considerShrink := dest, 0, false;
    }

    method Rehashed(buckets: nat) returns (dest: array<Slot<K, V>>)
      requires Valid() && IsPow2(buckets) && numFull < buckets
      ensures fresh(dest) && dest.Length == buckets && Holds(dest[..], hash, contents)
      ensures Count(dest[..], true) == numFull && Count(dest[..], false) == 0
    {
      dest := new Slot<K, V>[buckets](_ => Empty);
      ghost var s := slots[..];
      ghost var moved: map<K, V> := map[];
      NothingMoved(s, dest[..], hash, contents);
      var i := 0;
      while i < slots.Length
        invariant i <= |s| && s == slots[..] && fresh(dest) && dest.Length == buckets
        invariant Moved(s, i, dest[..], hash, contents, moved)
      {
        MovedBound(s, i);
        if slots[i].Full? {
          moved := MoveOne(dest, i, moved);
        } else {
          SkipOne(s, i, dest[..], hash, contents, moved);
        }
        i := i + 1;
      }
      AllMoved(s, dest[..], hash, contents, moved);
    }

    method MoveOne(dest: array<Slot<K, V>>, i: nat, ghost moved: map<K, V>) returns (ghost moved': map<K, V>)
      requires i < slots.Length && slots[i].Full? && dest != slots && IsPow2(dest.Length)
      requires Holds(slots[..], hash, contents) && Moved(slots[..], i, dest[..], hash, contents, moved)
      requires Count(slots[..][..i], true) < dest.Length
      modifies dest
      ensures Moved(slots[..], i + 1, dest[..], hash, contents, moved')
    {
      ghost var was := dest[..];
      CountBounds(was);
      NoneErased(was);
      NotYetMoved(slots[..], i, was, hash, contents, moved);
      PlaceNew(dest, hash, moved, slots[i].key, slots[i].value);
      moved' := moved[slots[i].key := slots[i].value];
      FillOne(slots[..], i, was, dest[..], hash, contents, moved);
    }

    /** After many erasures, moves to a smaller table, though never below the default size. */
    method MaybeShrink() returns (did: bool)
      requires Valid()
      modifies `slots, `numDeleted, `considerShrink
      ensures Valid() && (slots == old(slots) || fresh(slots))
      ensures did <==> old(numFull < ShrinkSize(slots.Length) && slots.Length > DEFAULT_BUCKETS)
      ensures did ==> DEFAULT_BUCKETS <= slots.Length < old(slots.Length) && numDeleted == 0
      ensures did ==> slots.Length == DEFAULT_BUCKETS || numFull >= ShrinkSize(slots.Length)
      ensures !did ==> slots == old(slots) && unchanged(slots) && numDeleted == old(numDeleted)
      ensures !considerShrink
    {
      did := false;
      if numFull < ShrinkSize(slots.Length) && slots.Length > DEFAULT_BUCKETS {
        var sz := ShrunkSize(slots.Length, numFull);
        RoomyAsWanted(sz, numFull);
        MoveTo(sz);
        SmallestUnique(slots.Length, sz, numFull, sz);
        did := true;
      }
      considerShrink := false;
    }

    /** Makes room for `delta` more keys; tombstones count as taken. */
    method ResizeDelta(delta: nat) returns (did: bool)
      requires Valid()
      modifies `slots, `numDeleted, `considerShrink
      ensures Valid() && (slots == old(slots) || fresh(slots))
      ensures numFull + numDeleted + delta <= EnlargeSize(slots.Length)
      ensures !did ==> slots == old(slots) && unchanged(slots) && numDeleted == old(numDeleted)
      ensures did ==> numDeleted == 0 && !considerShrink
      ensures !old(considerShrink) ==> (did <==> old(numFull + numDeleted + delta > EnlargeSize(slots.Length)))
      ensures !old(considerShrink) ==> slots.Length >= old(slots.Length)
    {
      did := false;
      if considerShrink { did := MaybeShrink(); }
      if numFull + numDeleted + delta <= EnlargeSize(slots.Length) { return; }
      var resizeTo := MinBuckets(numFull + numDeleted + delta, slots.Length);
      MoveTo(resizeTo);
      did := true;
    }

    method InsertAt(k: K, v: V, pos: Position)
      requires Valid() && numFull + numDeleted < EnlargeSize(slots.Length) && k !in contents
      requires pos.index < slots.Length && !pos.AtFull? && FirstFree(slots[..], hash(k), pos.index)
      requires slots[pos.index] == if pos.AtErased? then Erased else Empty
      modifies slots, `numFull, `numDeleted, `contents
      ensures Valid() && contents == old(contents)[k := v]
      ensures slots[..] == old(slots[..])[pos.index := Full(k, v)]
    {
      FillEffect(slots[..], hash, contents, numFull, numDeleted, pos.index, k, v);
      ghost var s := slots[..][pos.index := Full(k, v)];
      if pos.AtErased? { numDeleted := numDeleted - 1; }
      slots[pos.index] := Full(k, v);
      assert slots[..] == s;
      numFull, contents := numFull + 1, contents[k := v];
    }

    /** Adds a key that is not there yet, and leaves the value of one that is. */
    method Insert(k: K, v: V) returns (inserted: bool)
      requires Valid()
      modifies this, slots
      ensures Valid() && (slots == old(slots) || fresh(slots))
      ensures inserted <==> k !in old(contents)
      ensures contents == if inserted then old(contents)[k := v] else old(contents)
    {
      var _ := ResizeDelta(1);
      var pos := FindPosition(k);
      inserted := !pos.AtFull?;
      if inserted { InsertAt(k, v, pos); }
    }

    /** The value of k, entered with the given default where it was missing. */
    method FindOrInsert(k: K, default: V) returns (r: V)
      requires Valid()
      modifies this, slots
      ensures Valid() && (slots == old(slots) || fresh(slots))
      ensures contents == if k in old(contents) then old(contents) else old(contents)[k := default]
      ensures k in contents && r == contents[k]
    {
      var pos := FindPosition(k);
      if pos.AtFull? { return slots[pos.index].value; }
      ghost var s := slots[..];
      var resized := ResizeDelta(1);
      if resized {
        pos := FindPosition(k);
      } else {
        assert slots[..] == s;
      }
      InsertAt(k, default, pos);
      r := default;
    }

    method Erase(k: K) returns (erased: nat)
      requires Valid()
      modifies slots, `numFull, `numDeleted, `considerShrink, `contents
      ensures Valid() && contents == old(contents) - {k}
      ensures erased == if k in old(contents) then 1 else 0
    {
      var b := FindBucket(k);
      if b.None? {
        assert contents - {k} == contents;
        return 0;
      }
      EraseAt(b.value, k);
      return 1;
    }

    method EraseAt(b: nat, ghost k: K)
      requires Valid() && b < slots.Length && slots[b].Full? && slots[b].key == k
      modifies slots, `numFull, `numDeleted, `considerShrink, `contents
      ensures Valid() && contents == old(contents) - {k}
      ensures slots[..] == old(slots[..])[b := Erased] && considerShrink
    {
      EraseEffect(slots[..], hash, contents, numFull, numDeleted, b);
      contents := contents - {k};
      ghost var s := slots[..][b := Erased];
      assert Good(s, hash, contents, numFull - 1, numDeleted + 1);
      numFull, numDeleted, considerShrink := numFull - 1, numDeleted + 1, true;
      slots[b] := Erased;
      assert slots[..] == s;
    }
  }

  lemma EraseEffect<K, V>(s: seq<Slot<K, V>>, hash: K -> nat, contents: map<K, V>, f: nat, d: nat, b: nat)
    requires Good(s, hash, contents, f, d) && b < |s| && s[b].Full?
    ensures f > 0 && Good(s[b := Erased], hash, contents - {s[b].key}, f - 1, d + 1)
  {
    EraseKeeps(s, hash, contents, b);
    CountUpdate(s, b, Erased, true);
    CountUpdate(s, b, Erased, false);
    assert contents.Keys == (contents - {s[b].key}).Keys + {s[b].key};
  }

  lemma FillEffect<K, V>(s: seq<Slot<K, V>>, hash: K -> nat, contents: map<K, V>, f: nat, d: nat, b: nat, k: K, v: V)
    requires Good(s, hash, contents, f, d) && f + d < EnlargeSize(|s|)
    requires k !in contents && b < |s| && FirstFree(s, hash(k), b)
    ensures s[b].Erased? ==> d > 0
    ensures Good(s[b := Full(k, v)], hash, contents[k := v], f + 1, if s[b].Erased? then d - 1 else d)
  {
    FirstFreeIsFindable(s, hash(k), b);
    FillKeeps(s, hash, contents, b, k, v);
    CountUpdate(s, b, Full(k, v), true);
    CountUpdate(s, b, Full(k, v), false);
  }

  // ---------- Rehashing ----------

  /** The first i buckets of s are copied: `moved` is what the destination holds. */
  ghost predicate Moved<K, V>(s: seq<Slot<K, V>>, i: nat, dest: seq<Slot<K, V>>, hash: K -> nat,
                              contents: map<K, V>, moved: map<K, V>)
  {
    && i <= |s| && Holds(dest, hash, moved)
    && Count(dest, false) == 0 && Count(dest, true) == Count(s[..i], true)
    && (forall k :: k in moved ==> k in contents && moved[k] == contents[k])
    && (forall j :: 0 <= j < i && s[j].Full? ==> s[j].key in moved)
    && (forall k :: k in moved ==> exists j :: 0 <= j < i && s[j].Full? && s[j].key == k)
  }

  lemma NothingMoved<K, V>(s: seq<Slot<K, V>>, dest: seq<Slot<K, V>>, hash: K -> nat, contents: map<K, V>)
    requires |dest| > 0 && forall i :: 0 <= i < |dest| ==> dest[i] == Empty
    ensures Moved(s, 0, dest, hash, contents, map[])
  {
    CountEmpty(dest, true);
    CountEmpty(dest, false);
    HoldsNothing(dest, hash);
  }

  lemma MovedBound<K, V>(s: seq<Slot<K, V>>, i: nat)
    requires i < |s|
    ensures Count(s[..i], true) <= Count(s, true)
  {
    CountPrefix(s, i, true);
  }

  lemma SkipOne<K, V>(s: seq<Slot<K, V>>, i: nat, dest: seq<Slot<K, V>>, hash: K -> nat,
                      contents: map<K, V>, moved: map<K, V>)
    requires i < |s| && !s[i].Full? && Moved(s, i, dest, hash, contents, moved)
    ensures Moved(s, i + 1, dest, hash, contents, moved)
  {
    CountPrefix(s, i, true);
    forall k | k in moved ensures exists j :: 0 <= j < i + 1 && s[j].Full? && s[j].key == k {
      var j :| 0 <= j < i && s[j].Full? && s[j].key == k;
    }
  }

  lemma FillOne<K, V>(s: seq<Slot<K, V>>, i: nat, was: seq<Slot<K, V>>, dest: seq<Slot<K, V>>, hash: K -> nat,
                      contents: map<K, V>, moved: map<K, V>)
    requires i < |s| && s[i].Full? && Holds(s, hash, contents) && Moved(s, i, was, hash, contents, moved)
    requires Holds(dest, hash, moved[s[i].key := s[i].value])
    requires exists j :: 0 <= j < |was| && was[j] == Empty && dest == was[j := s[i]]
    ensures Moved(s, i + 1, dest, hash, contents, moved[s[i].key := s[i].value])
  {
    FillCounts(was, dest, s[i]);
    CountPrefix(s, i, true);
    var moved' := moved[s[i].key := s[i].value];
    forall k | k in moved' ensures exists j :: 0 <= j < i + 1 && s[j].Full? && s[j].key == k {
      if k != s[i].key {
        var j :| 0 <= j < i && s[j].Full? && s[j].key == k;
      }
    }
  }

  lemma FillCounts<K, V>(was: seq<Slot<K, V>>, dest: seq<Slot<K, V>>, x: Slot<K, V>)
    requires x.Full? && exists j :: 0 <= j < |was| && was[j] == Empty && dest == was[j := x]
    ensures Count(dest, true) == Count(was, true) + 1 && Count(dest, false) == Count(was, false)
  {
    var j :| 0 <= j < |was| && was[j] == Empty && dest == was[j := x];
    CountUpdate(was, j, x, true);
    CountUpdate(was, j, x, false);
  }

  /** A full bucket's key was not moved before: it is in no earlier bucket. */
  lemma NotYetMoved<K, V>(s: seq<Slot<K, V>>, i: nat, dest: seq<Slot<K, V>>, hash: K -> nat,
                          contents: map<K, V>, moved: map<K, V>)
    requires i < |s| && s[i].Full? && Holds(s, hash, contents) && Moved(s, i, dest, hash, contents, moved)
    ensures s[i].key !in moved
  {
  }

  lemma AllMoved<K, V>(s: seq<Slot<K, V>>, dest: seq<Slot<K, V>>, hash: K -> nat,
                       contents: map<K, V>, moved: map<K, V>)
    requires Holds(s, hash, contents) && Moved(s, |s|, dest, hash, contents, moved)
    ensures moved == contents && Count(dest, true) == Count(s, true) && Count(dest, false) == 0
  {
    assert s[..|s|] == s;
    forall k | k in contents ensures k in moved {
      var j :| 0 <= j < |s| && s[j] == Full(k, contents[k]);
    }
  }

  lemma {:induction false} NoneErased<K, V>(s: seq<Slot<K, V>>)
    requires Count(s, false) == 0
    ensures Erased !in s
  {
    if |s| > 0 { NoneErased(s[..|s| - 1]); }
  }
}
