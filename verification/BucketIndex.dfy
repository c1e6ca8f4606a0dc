/**
 The sorted in-memory index of a bucket: BuildIndex, branchfree_search and Read.

 A bucket's log is the sequence of its counted entries; entry i has its key in slot i of the key region and
 its value in slot i of the value region.
 */
module BucketIndex {
  import opened Arith
  import opened BucketLog
  import opened Options

  /** The packed struct KeyEntry; value_offset_ has 16 bits. */
  datatype KeyEntry = KeyEntry(key: Key, off: nat)

  const OFFSETS: nat := 0x1_0000
  const READ_BLOCK: nat := 8192        // KEY_READ_BLOCK_COUNT
  const PAGE_KEYS: nat := 512          // FILESYSTEM_BLOCK_SIZE / sizeof(uint64_t)

  // ---------- What reading means ----------

  /** The value of a key's latest write. */
  function Latest(log: seq<Entry>, key: Key): Option<Value> {
    if |log| == 0 then None
    else if log[|log| - 1].key == key then Some(log[|log| - 1].value)
    else Latest(log[..|log| - 1], key)
  }

  lemma {:induction false} LatestIs(log: seq<Entry>, key: Key, i: nat)
    requires i < |log| && log[i].key == key
    requires forall j :: i < j < |log| ==> log[j].key != key
    ensures Latest(log, key) == Some(log[i].value)
  {
    if i < |log| - 1 {
      var shorter := log[..|log| - 1];
      LatestIs(shorter, key, i);
    }
  }

  lemma {:induction false} LatestNone(log: seq<Entry>, key: Key)
    ensures Latest(log, key) == None <==> forall i :: 0 <= i < |log| ==> log[i].key != key
  {
    if |log| > 0 {
      LatestNone(log[..|log| - 1], key);
      if log[|log| - 1].key != key {
        if Latest(log, key) == None {
          forall i | 0 <= i < |log| ensures log[i].key != key {
            if i < |log| - 1 { assert log[..|log| - 1][i] == log[i]; }
          }
        }
      }
    }
  }

  // ---------- The index ----------

  /** Index entries in file order, as they are read from the key file. */
  function Entries(keys: seq<Key>): (r: seq<KeyEntry>)
    ensures |r| == |keys| && forall i :: 0 <= i < |keys| ==> r[i] == KeyEntry(keys[i], i % OFFSETS)
  {
    seq(|keys|, i requires 0 <= i < |keys| => KeyEntry(keys[i], i % OFFSETS))
  }

  /** The comparator given to std::sort: key up, offset down. */
  predicate Before(l: KeyEntry, r: KeyEntry) {
    if l.key == r.key then l.off > r.off else l.key < r.key
  }

  predicate Sorted(s: seq<KeyEntry>) {
    forall i, j :: 0 <= i < j < |s| ==> !Before(s[j], s[i])
  }

  function Insert(s: seq<KeyEntry>, e: KeyEntry): (r: seq<KeyEntry>)
    requires Sorted(s)
    ensures |r| == |s| + 1
    ensures multiset(r) == multiset(s) + multiset{e}
    ensures Sorted(r)
  {
    if |s| == 0 then [e]
    else if Before(s[|s| - 1], e) then s + [e]
    else
      var r := Insert(s[..|s| - 1], e);
      assert s == s[..|s| - 1] + [s[|s| - 1]];
      InsertBelow(s, e, r);
      r + [s[|s| - 1]]
  }

  lemma InsertBelow(s: seq<KeyEntry>, e: KeyEntry, r: seq<KeyEntry>)
    requires |s| > 0 && Sorted(s) && !Before(s[|s| - 1], e)
    requires multiset(r) == multiset(s[..|s| - 1]) + multiset{e}
    ensures forall i :: 0 <= i < |r| ==> !Before(s[|s| - 1], r[i])
  {
    forall i | 0 <= i < |r| ensures !Before(s[|s| - 1], r[i]) {
      assert r[i] in multiset(r);
      if r[i] != e {
        assert r[i] in s[..|s| - 1];
        var j :| 0 <= j < |s| - 1 && s[j] == r[i];
      }
    }
  }

  /** The sorted arrangement of the entries; SortedOnce shows that there is only one. */
  function Sort(s: seq<KeyEntry>): (r: seq<KeyEntry>)
    ensures |r| == |s| && multiset(r) == multiset(s) && Sorted(r)
  {
    if |s| == 0 then []
    else
      assert s == s[..|s| - 1] + [s[|s| - 1]];
      Insert(Sort(s[..|s| - 1]), s[|s| - 1])
  }

  /** Whatever sorts these entries by this comparator, as the library's sort does, arrives at the same sequence. */
  lemma {:induction false} SortedOnce(s: seq<KeyEntry>, r: seq<KeyEntry>)
    requires Sorted(r) && multiset(r) == multiset(s)
    ensures r == Sort(s)
  {
    SortedSame(r, Sort(s));
  }

  lemma {:induction false} SortedSame(a: seq<KeyEntry>, b: seq<KeyEntry>)
    requires Sorted(a) && Sorted(b) && multiset(a) == multiset(b)
    ensures a == b
  {
    assert |a| == |multiset(a)| && |b| == |multiset(b)|;
    if a != [] {
      SameBefore(a, b);
      SortedSame(a[..|a| - 1], b[..|a| - 1]);
      assert a == a[..|a| - 1] + [a[|a| - 1]] && b == b[..|a| - 1] + [b[|a| - 1]];
    }
  }

  lemma SameBefore(a: seq<KeyEntry>, b: seq<KeyEntry>)
    requires Sorted(a) && Sorted(b) && multiset(a) == multiset(b) && a != [] && |a| == |b|
    ensures a[|a| - 1] == b[|a| - 1] && multiset(a[..|a| - 1]) == multiset(b[..|a| - 1])
    ensures Sorted(a[..|a| - 1]) && Sorted(b[..|a| - 1])
  {
    SameLast(a, b);
    WithoutLast(a);
    WithoutLast(b);
  }

  lemma WithoutLast(s: seq<KeyEntry>)
    requires s != []
    ensures multiset(s[..|s| - 1]) == multiset(s) - multiset{s[|s| - 1]}
  {
    assert s == s[..|s| - 1] + [s[|s| - 1]];
  }

  lemma SameLast(a: seq<KeyEntry>, b: seq<KeyEntry>)
    requires Sorted(a) && Sorted(b) && multiset(a) == multiset(b) && a != [] && |a| == |b|
    ensures a[|a| - 1] == b[|b| - 1]
  {
    assert a[|a| - 1] in multiset(a) && b[|b| - 1] in multiset(b);
    LastIsGreatest(a, b[|b| - 1]);
    LastIsGreatest(b, a[|a| - 1]);
  }

  lemma LastIsGreatest(s: seq<KeyEntry>, e: KeyEntry)
    requires Sorted(s) && s != [] && e in multiset(s)
    ensures !Before(s[|s| - 1], e)
  {
    var i :| 0 <= i < |s| && s[i] == e;
  }

  function IndexOf(keys: seq<Key>): seq<KeyEntry> { Sort(Entries(keys)) }

  lemma SortKeeps(s: seq<KeyEntry>, e: KeyEntry)
    ensures e in Sort(s) <==> e in s
  {
    assert e in multiset(Sort(s)) <==> e in multiset(s);
  }

  // ---------- Building it ----------

  /** pread of n slots into a buffer; slots past the end of the file are not touched. */
  method Pread(file: seq<Key>, off: nat, buf: array<Key>, n: nat)
    requires n <= buf.Length
    modifies buf
    ensures forall i :: 0 <= i < n && off + i < |file| ==> buf[i] == file[off + i]
  {
    var i := 0;
    while i < n && off + i < |file|
      invariant 0 <= i <= n
      invariant forall k :: 0 <= k < i ==> off + k < |file| && buf[k] == file[off + k]
    {
      buf[i] := file[off + i];
      i := i + 1;
    }
  }

  /**
   Stands in for the library's sort: the algorithm is not modelled, the array receives the one sorted
   arrangement of its entries that any such algorithm leaves.
   */
  method SortInPlace(a: array<KeyEntry>)
    modifies a
    ensures a[..] == Sort(old(a[..]))
  {
    var s := Sort(a[..]);
    var i := 0;
    while i < a.Length
      invariant 0 <= i <= a.Length
      invariant forall k :: 0 <= k < i ==> a[k] == s[k]
    {
      a[i] := s[i];
      i := i + 1;
    }
    assert a[..] == s;
  }

  /** The remainder is read in whole pages; the rounded size still fits the local buffer. */
  lemma RoundedReadFits(remain: nat)
    requires remain < READ_BLOCK
    ensures remain <= (remain + PAGE_KEYS - 1) / PAGE_KEYS * PAGE_KEYS <= READ_BLOCK
  {
  }

  /** The part of BuildIndex that handles one bucket, whose keys start at `start`. */
  method BuildIndex(file: seq<Key>, start: nat, cnt: nat) returns (index: array<KeyEntry>)
    requires start + cnt <= |file|
    ensures fresh(index) && index[..] == IndexOf(file[start..start + cnt])
  {
    index := new KeyEntry[cnt];
    var buffer := new Key[READ_BLOCK];
    ghost var entries := Entries(file[start..start + cnt]);
    var passes := cnt / READ_BLOCK;
    var remain := cnt - passes * READ_BLOCK;
    var fileOffset := 0;
    var readOffset := start;
    var j := 0;
    while j < passes
      invariant 0 <= j <= passes && fileOffset == j * READ_BLOCK && readOffset == start + fileOffset
      invariant forall i :: 0 <= i < fileOffset ==> index[i] == entries[i]
    {
      Pread(file, readOffset, buffer, READ_BLOCK);
      fileOffset := AddEntries(file, start, cnt, index, buffer, fileOffset, READ_BLOCK);
      readOffset := readOffset + READ_BLOCK;
      j := j + 1;
    }
    if remain != 0 {
      RoundedReadFits(remain);
      Pread(file, readOffset, buffer, (remain + PAGE_KEYS - 1) / PAGE_KEYS * PAGE_KEYS);
      fileOffset := AddEntries(file, start, cnt, index, buffer, fileOffset, remain);
    }
    assert index[..] == entries;
    SortInPlace(index);
  }

  /** Appends one index entry for each of the n keys just read. */
  method AddEntries(file: seq<Key>, start: nat, cnt: nat, index: array<KeyEntry>, buffer: array<Key>, from: nat, n: nat)
    returns (fileOffset: nat)
    requires start + cnt <= |file| && index.Length == cnt && from + n <= cnt && n <= buffer.Length
    requires forall i :: 0 <= i < n ==> buffer[i] == file[start + from + i]
    requires forall i :: 0 <= i < from ==> index[i] == Entries(file[start..start + cnt])[i]
    modifies index
    ensures fileOffset == from + n
    ensures forall i :: 0 <= i < fileOffset ==> index[i] == Entries(file[start..start + cnt])[i]
  {
    ghost var entries := Entries(file[start..start + cnt]);
    fileOffset := from;
    var k := 0;
    while k < n
      invariant 0 <= k <= n && fileOffset == from + k
      invariant forall i :: 0 <= i < fileOffset ==> index[i] == entries[i]
    {
      index[fileOffset] := KeyEntry(buffer[k], fileOffset % OFFSETS);
      fileOffset := fileOffset + 1;
      k := k + 1;
    }
  }

  // ---------- Searching it ----------

  predicate KeysAscend(s: seq<KeyEntry>) {
    forall i, j :: 0 <= i < j < |s| ==> s[i].key <= s[j].key
  }

  function LowerBound(s: seq<KeyEntry>, key: Key): (p: nat)
    ensures p <= |s|
  {
    if |s| == 0 || s[0].key >= key then 0 else 1 + LowerBound(s[1..], key)
  }

  lemma {:induction false} LowerBoundIs(s: seq<KeyEntry>, key: Key, p: nat)
    requires KeysAscend(s) && p <= |s|
    ensures p == LowerBound(s, key) <==>
            (forall i :: 0 <= i < p ==> s[i].key < key) && (forall i :: p <= i < |s| ==> s[i].key >= key)
  {
    if |s| > 0 && s[0].key < key {
      if p > 0 {
        LowerBoundIs(s[1..], key, p - 1);
        assert forall i :: 0 <= i < |s| - 1 ==> s[1..][i] == s[i + 1];
        if (forall i :: 0 <= i < p - 1 ==> s[1..][i].key < key) {
          forall i | 0 <= i < p ensures s[i].key < key {
            if i > 0 { assert s[1..][i - 1] == s[i]; }
          }
        }
        if (forall i :: p - 1 <= i < |s[1..]| ==> s[1..][i].key >= key) {
          forall i | p <= i < |s| ensures s[i].key >= key { assert s[1..][i - 1] == s[i]; }
        }
      }
    }
  }

  /** The branch-free binary search is the lower bound, for every n >= 1. */
  method BranchfreeSearch(a: array<KeyEntry>, n: nat, x: Key) returns (r: nat)
    requires 1 <= n <= a.Length && KeysAscend(a[..n])
    ensures r == LowerBound(a[..n], x)
  {
    var b, m := 0, n;
    while m > 1
      invariant 0 <= b && 1 <= m && b + m <= n
      invariant forall i :: 0 <= i < b ==> a[i].key < x
      invariant forall i :: b + m <= i < n ==> a[i].key >= x
    {
      var half := m / 2;
      assert a[..n][b + half] == a[b + half];
      assert forall i :: 0 <= i < n ==> a[..n][i] == a[i];
      b := if a[b + half].key < x then b + half else b;
      m := m - half;
    }
    r := (if a[b].key < x then 1 else 0) + b;
    LowerBoundIs(a[..n], x, r);
  }

  /** Reading through an index: the entry at the lower bound decides. */
  function LookUp(index: seq<KeyEntry>, vals: seq<Value>, key: Key): Option<Value>
    requires forall e :: e in index ==> e.off < |vals|
  {
    var p := LowerBound(index, key);
    if p == |index| || index[p].key != key then None else Some(vals[index[p].off])
  }

  method Read(index: array<KeyEntry>, vals: seq<Value>, key: Key) returns (r: Option<Value>)
    requires index.Length >= 1 && KeysAscend(index[..])
    requires forall e :: e in index[..] ==> e.off < |vals|
    ensures r == LookUp(index[..], vals, key)
  {
    assert index[..index.Length] == index[..];
    var it := BranchfreeSearch(index, index.Length, key);
    if it == index.Length || index[it].key != key {
      r := None;
    } else {
      assert index[it] in index[..];
      r := Some(vals[index[it].off]);
    }
  }

  // ---------- Last write wins ----------

  function KeysOf(log: seq<Entry>): (r: seq<Key>)
    ensures |r| == |log| && forall i :: 0 <= i < |log| ==> r[i] == log[i].key
  {
    seq(|log|, i requires 0 <= i < |log| => log[i].key)
  }

  function ValuesOf(log: seq<Entry>): (r: seq<Value>)
    ensures |r| == |log| && forall i :: 0 <= i < |log| ==> r[i] == log[i].value
  {
    seq(|log|, i requires 0 <= i < |log| => log[i].value)
  }

  /** The index holds an entry exactly for each counted entry. */
  lemma IndexEntries(keys: seq<Key>, e: KeyEntry)
    ensures e in IndexOf(keys) <==> exists i :: 0 <= i < |keys| && e == KeyEntry(keys[i], i % OFFSETS)
    ensures KeysAscend(IndexOf(keys))
    ensures |IndexOf(keys)| == |keys|
  {
    SortKeeps(Entries(keys), e);
    if e in Entries(keys) {
      var i :| 0 <= i < |keys| && Entries(keys)[i] == e;
    }
    if i :| 0 <= i < |keys| && e == KeyEntry(keys[i], i % OFFSETS) {
      assert Entries(keys)[i] == e;
    }
  }

  lemma IndexOffsets(keys: seq<Key>)
    ensures forall e :: e in IndexOf(keys) ==> e.off < |keys|
  {
    forall e | e in IndexOf(keys) ensures e.off < |keys| {
      IndexEntries(keys, e);
      var i :| 0 <= i < |keys| && e == KeyEntry(keys[i], i % OFFSETS);
      OffsetAtMost(i);
    }
  }

  lemma OffsetAtMost(i: nat)
    ensures i % OFFSETS <= i
  {
  }

  /** The entry found for a key that was written carries the largest stored offset among its entries. */
  lemma FoundHasLargestOffset(keys: seq<Key>, key: Key, i: nat)
    requires i < |keys| && keys[i] == key
    ensures var index := IndexOf(keys); var p := LowerBound(index, key);
            p < |index| && index[p].key == key && index[p].off >= i % OFFSETS
  {
    var index, e := IndexOf(keys), KeyEntry(key, i % OFFSETS);
    var p := LowerBound(index, key);
    IndexEntries(keys, e);
    LowerBoundIs(index, key, p);
    var q :| 0 <= q < |index| && index[q] == e;
    assert p <= q;
    if p < q { assert !Before(index[q], index[p]); }
  }

  /** While offsets fit, the entry found is the key's last one. */
  lemma OffsetIs(i: nat)
    requires i < OFFSETS
    ensures i % OFFSETS == i
  {
  }

  lemma FoundIsLast(keys: seq<Key>, key: Key, p: nat) returns (i: nat)
    requires |keys| <= OFFSETS && p == LowerBound(IndexOf(keys), key)
    requires p < |IndexOf(keys)| && IndexOf(keys)[p].key == key
    ensures i < |keys| && IndexOf(keys)[p] == KeyEntry(key, i) && keys[i] == key
    ensures forall j :: i < j < |keys| ==> keys[j] != key
  {
    var e := IndexOf(keys)[p];
    assert e in IndexOf(keys);
    IndexEntries(keys, e);
    i :| 0 <= i < |keys| && e == KeyEntry(keys[i], i % OFFSETS);
    OffsetIs(i);
    forall j | i < j < |keys| ensures keys[j] != key {
      if keys[j] == key {
        FoundHasLargestOffset(keys, key, j);
        OffsetIs(j);
      }
    }
  }

  lemma FoundIsLatest(log: seq<Entry>, key: Key, p: nat)
    requires |log| <= OFFSETS && p == LowerBound(IndexOf(KeysOf(log)), key)
    requires p < |IndexOf(KeysOf(log))| && IndexOf(KeysOf(log))[p].key == key
    ensures IndexOf(KeysOf(log))[p].off < |log|
    ensures Latest(log, key) == Some(log[IndexOf(KeysOf(log))[p].off].value)
  {
    var keys := KeysOf(log);
    var i := FoundIsLast(keys, key, p);
    forall j | i < j < |log| ensures log[j].key != key { assert keys[j] == log[j].key; }
    LatestIs(log, key, i);
  }

  lemma NotFoundIsNone(log: seq<Entry>, key: Key, p: nat)
    requires p == LowerBound(IndexOf(KeysOf(log)), key)
    requires p == |IndexOf(KeysOf(log))| || IndexOf(KeysOf(log))[p].key != key
    ensures Latest(log, key) == None
  {
    LatestNone(log, key);
    forall i | 0 <= i < |log| ensures log[i].key != key {
      if log[i].key == key { FoundHasLargestOffset(KeysOf(log), key, i); }
    }
  }

  /**
   Last write wins: in a bucket of at most 65536 entries, reading returns the value of the key's latest
   write, and nothing exactly when the key was never written.
   */
  lemma LookUpIsLatest(log: seq<Entry>, key: Key)
    requires |log| <= OFFSETS
    ensures forall e :: e in IndexOf(KeysOf(log)) ==> e.off < |ValuesOf(log)|
    ensures LookUp(IndexOf(KeysOf(log)), ValuesOf(log), key) == Latest(log, key)
    ensures Latest(log, key) == None <==> forall i :: 0 <= i < |log| ==> log[i].key != key
  {
    IndexOffsets(KeysOf(log));
    LatestNone(log, key);
    var index := IndexOf(KeysOf(log));
    var p := LowerBound(index, key);
    if p < |index| && index[p].key == key { FoundIsLatest(log, key, p); }
    else { NotFoundIsNone(log, key, p); }
  }

  /** A log of one key whose last value differs from all the others. */
  function Overlong(n: nat): (log: seq<Entry>)
    ensures |log| == n && forall i :: 0 <= i < n ==> log[i] == Entry(0, if i == n - 1 then 1 else 0)
  {
    seq(n, i => Entry(0, if i == n - 1 then 1 else 0))
  }

  ghost predicate ReadsRight(log: seq<Entry>) {
    && (forall e :: e in IndexOf(KeysOf(log)) ==> e.off < |ValuesOf(log)|)
    && forall key :: LookUp(IndexOf(KeysOf(log)), ValuesOf(log), key) == Latest(log, key)
  }

  /** One entry too many and the 16-bit offset wraps: an old value is returned. */
  lemma OverlongReadsOldValue(n: nat)
    requires n > OFFSETS
    ensures !ReadsRight(Overlong(n))
  {
    var log := Overlong(n);
    var keys := KeysOf(log);
    LatestIs(log, 0, n - 1);
    IndexOffsets(keys);
    FoundHasLargestOffset(keys, 0, OFFSETS - 1);
    var index := IndexOf(keys);
    var e := index[LowerBound(index, 0)];
    IndexEntries(keys, e);
    assert ValuesOf(log)[e.off] == 0;
  }

  /** Exactly when reads are right for every log of n entries: when every position fits the offset field. */
  lemma ReadsRightIffOffsetsFit(n: nat)
    ensures (forall log: seq<Entry> :: |log| == n ==> ReadsRight(log)) <==> n <= OFFSETS
  {
    if n <= OFFSETS {
      forall log: seq<Entry> | |log| == n ensures ReadsRight(log) {
        IndexOffsets(KeysOf(log));
        forall key ensures LookUp(IndexOf(KeysOf(log)), ValuesOf(log), key) == Latest(log, key) {
          LookUpIsLatest(log, key);
        }
      }
    } else {
      OverlongReadsOldValue(n);
      assert |Overlong(n)| == n;
    }
  }
}
