/** A full Range pass: buckets in order, duplicate keys skipped, each key with the value of its latest write. */
module RangeScan {
  import opened BucketIndex
  import opened BucketLog
  import opened KeyOrder
  import opened Options

  /** What the visitor is given: the key's bytes and the value. */
  datatype Visit = Visit(key: Bytes, value: Value)

  /** A store as a scan sees it: one log per bucket, every key in the bucket its top bits name. */
  ghost predicate Store(logs: seq<seq<Entry>>) {
    && |logs| == BUCKET_NUM
    && (forall b :: 0 <= b < |logs| ==> |logs[b]| <= OFFSETS)
    && (forall b, i :: 0 <= b < |logs| && 0 <= i < |logs[b]| ==>
          logs[b][i].key < KEY_RANGE && BucketId(logs[b][i].key) == b)
  }

  /** The key was written. */
  ghost predicate Written(log: seq<Entry>, key: Key) {
    exists i :: 0 <= i < |log| && log[i].key == key
  }

  /** Keys and values of the visits to one bucket, keys still as integers. */
  datatype Pair = Pair(key: Key, value: Value)

  ghost predicate Ascending(ps: seq<Pair>) {
    forall i, j :: 0 <= i < j < |ps| ==> ps[i].key < ps[j].key
  }

  /** Exactly the written keys, once each, in increasing order, with their latest values. */
  ghost predicate ScanOf(ps: seq<Pair>, log: seq<Entry>) {
    && Ascending(ps)
    && (forall i :: 0 <= i < |ps| ==> Latest(log, ps[i].key) == Some(ps[i].value))
    && (forall k :: Written(log, k) ==> exists i :: 0 <= i < |ps| && ps[i].key == k)
  }

  /** The first entry of each run of equal keys among the first n index entries. */
  function Heads(index: seq<KeyEntry>, vals: seq<Value>, n: nat): (r: seq<Pair>)
    requires n <= |index| && forall e :: e in index ==> e.off < |vals|
    ensures n == 0 ==> r == []
  {
    if n == 0 then []
    else if n > 1 && index[n - 1].key == index[n - 2].key then Heads(index, vals, n - 1)
    else Heads(index, vals, n - 1) + [Pair(index[n - 1].key, vals[index[n - 1].off])]
  }

  /** The inner loop of Range over one bucket's index. */
  method ScanBucket(index: array<KeyEntry>, vals: seq<Value>, polarKey: array<int>) returns (visits: seq<Visit>, ghost pairs: seq<Pair>)
    requires polarKey.Length == 8
    requires forall e :: e in index[..] ==> e.off < |vals|
    modifies polarKey
    ensures pairs == Heads(index[..], vals, index.Length)
    ensures |visits| == |pairs|
    ensures forall i :: 0 <= i < |visits| ==> visits[i] == Visit(KeyBytes(pairs[i].key), pairs[i].value)
  {
    visits, pairs := [], [];
    ghost var entries := index[..];
    var prevKey := 0;
    var i := 0;
    while i < index.Length
      invariant 0 <= i <= index.Length && index[..] == entries
      invariant i > 0 ==> prevKey == index[i - 1].key
      invariant pairs == Heads(entries, vals, i) && |visits| == |pairs|
      invariant forall j :: 0 <= j < |visits| ==> visits[j] == Visit(KeyBytes(pairs[j].key), pairs[j].value)
    {
      var key := index[i].key;
      assert entries[i] == index[i] && (i > 0 ==> entries[i - 1] == index[i - 1]);
      if i != 0 && key == prevKey {
        i := i + 1;
        continue;
      }
      prevKey := key;
      var bytes := KeyBytes(key);
      forall k | 0 <= k < 8 { polarKey[k] := bytes[k]; }
      assert polarKey[..] == bytes;
      assert entries[i] in entries;
      visits := visits + [Visit(polarKey[..], vals[index[i].off])];
      pairs := pairs + [Pair(key, vals[index[i].off])];
      i := i + 1;
    }
  }

  // ---------- One bucket ----------

  lemma {:induction false} HeadsAscend(index: seq<KeyEntry>, vals: seq<Value>, n: nat)
    requires n <= |index| && KeysAscend(index) && forall e :: e in index ==> e.off < |vals|
    ensures Ascending(Heads(index, vals, n))
    ensures forall i :: 0 <= i < |Heads(index, vals, n)| ==> Heads(index, vals, n)[i].key <= index[n - 1].key
    ensures forall j :: 0 <= j < n ==> exists i :: 0 <= i < |Heads(index, vals, n)| && Heads(index, vals, n)[i].key == index[j].key
  {
    if n > 0 {
      HeadsAscend(index, vals, n - 1);
      var before, r := Heads(index, vals, n - 1), Heads(index, vals, n);
      assert before <= r;
      forall j | 0 <= j < n ensures exists i :: 0 <= i < |r| && r[i].key == index[j].key {
        if j < n - 1 {
          var i :| 0 <= i < |before| && before[i].key == index[j].key;
          assert r[i].key == index[j].key;
        } else if n > 1 && index[n - 1].key == index[n - 2].key {
          var i :| 0 <= i < |before| && before[i].key == index[n - 2].key;
          assert r[i].key == index[j].key;
        } else {
          assert r[|r| - 1].key == index[j].key;
        }
      }
    }
  }

  /** Each head carries what a read of its key returns. */
  lemma {:induction false} HeadsLookUp(index: seq<KeyEntry>, vals: seq<Value>, n: nat, i: nat)
    requires n <= |index| && KeysAscend(index) && forall e :: e in index ==> e.off < |vals|
    requires i < |Heads(index, vals, n)|
    ensures LookUp(index, vals, Heads(index, vals, n)[i].key) == Some(Heads(index, vals, n)[i].value)
  {
    if n > 1 && index[n - 1].key == index[n - 2].key {
      HeadsLookUp(index, vals, n - 1, i);
    } else if i < |Heads(index, vals, n)| - 1 {
      HeadsLookUp(index, vals, n - 1, i);
    } else {
      LowerBoundIs(index, index[n - 1].key, n - 1);
    }
  }

  lemma BucketScan(log: seq<Entry>)
    requires |log| <= OFFSETS
    ensures forall e :: e in IndexOf(KeysOf(log)) ==> e.off < |ValuesOf(log)|
    ensures ScanOf(Heads(IndexOf(KeysOf(log)), ValuesOf(log), |IndexOf(KeysOf(log))|), log)
  {
    var index, vals := IndexOf(KeysOf(log)), ValuesOf(log);
    IndexOffsets(KeysOf(log));
    IndexEntries(KeysOf(log), KeyEntry(0, 0));
    var n := |index|;
    var ps := Heads(index, vals, n);
    HeadsAscend(index, vals, n);
    forall i | 0 <= i < |ps| ensures Latest(log, ps[i].key) == Some(ps[i].value) {
      HeadsLookUp(index, vals, n, i);
      LookUpIsLatest(log, ps[i].key);
    }
    forall k | Written(log, k) ensures exists i :: 0 <= i < |ps| && ps[i].key == k {
      var j :| 0 <= j < |log| && log[j].key == k;
      FoundHasLargestOffset(KeysOf(log), k, j);
    }
  }

  // ---------- All buckets ----------

  /** The visits to one bucket. */
  ghost function BucketPairs(log: seq<Entry>): (r: seq<Pair>)
    requires |log| <= OFFSETS
    ensures ScanOf(r, log)
  {
    BucketScan(log);
    var index := IndexOf(KeysOf(log));
    Heads(index, ValuesOf(log), |index|)
  }

  /** The visits to buckets 0 to n - 1, keys as integers. */
  ghost function PassPairs(logs: seq<seq<Entry>>, n: nat): seq<Pair>
    requires Store(logs) && n <= |logs|
  {
    if n == 0 then [] else PassPairs(logs, n - 1) + BucketPairs(logs[n - 1])
  }

  /** The visits of a whole pass. */
  ghost function Pass(logs: seq<seq<Entry>>): seq<Visit>
    requires Store(logs)
  {
    var ps := PassPairs(logs, BUCKET_NUM);
    seq(|ps|, i requires 0 <= i < |ps| => Visit(KeyBytes(ps[i].key), ps[i].value))
  }

  /** Keys of a bucket's scan are that bucket's. */
  lemma ScanKeys(logs: seq<seq<Entry>>, b: nat, ps: seq<Pair>, i: nat)
    requires Store(logs) && b < |logs| && ScanOf(ps, logs[b]) && i < |ps|
    ensures Written(logs[b], ps[i].key) && ps[i].key < KEY_RANGE && BucketId(ps[i].key) == b
  {
    LatestNone(logs[b], ps[i].key);
  }

  /** The visits cover buckets 0 to n - 1: latest values only, and every written key. */
  ghost predicate Covers(logs: seq<seq<Entry>>, ps: seq<Pair>, n: nat)
    requires |logs| == BUCKET_NUM && n <= |logs|
  {
    && (forall i :: 0 <= i < |ps| ==> PairOk(logs, ps[i], n))
    && (forall b, k :: 0 <= b < n && Written(logs[b], k) ==> Visited(ps, k))
  }

  ghost predicate PairOk(logs: seq<seq<Entry>>, p: Pair, n: nat)
    requires |logs| == BUCKET_NUM && n <= |logs|
  {
    p.key < KEY_RANGE && BucketId(p.key) < n && Latest(logs[BucketId(p.key)], p.key) == Some(p.value)
  }

  ghost predicate Visited(ps: seq<Pair>, k: Key) {
    exists i :: 0 <= i < |ps| && ps[i].key == k
  }

  lemma VisitedJoin(xs: seq<Pair>, ys: seq<Pair>, k: Key)
    ensures Visited(xs, k) || Visited(ys, k) ==> Visited(xs + ys, k)
  {
    if Visited(xs, k) {
      var i :| 0 <= i < |xs| && xs[i].key == k;
      assert (xs + ys)[i].key == k;
    } else if Visited(ys, k) {
      var i :| 0 <= i < |ys| && ys[i].key == k;
      assert (xs + ys)[|xs| + i].key == k;
    }
  }

  lemma CoversNext(logs: seq<seq<Entry>>, before: seq<Pair>, here: seq<Pair>, n: nat)
    requires Store(logs) && n < |logs| && Covers(logs, before, n) && ScanOf(here, logs[n])
    ensures Covers(logs, before + here, n + 1)
  {
    var all := before + here;
    forall i | 0 <= i < |all| ensures PairOk(logs, all[i], n + 1) {
      if i < |before| { assert PairOk(logs, before[i], n); }
      else { ScanKeys(logs, n, here, i - |before|); }
    }
    forall b, k | 0 <= b < n + 1 && Written(logs[b], k) ensures Visited(all, k) {
      if b == n { assert Visited(here, k); }
      VisitedJoin(before, here, k);
    }
  }

  lemma AscendsNext(logs: seq<seq<Entry>>, before: seq<Pair>, here: seq<Pair>, n: nat)
    requires Store(logs) && n < |logs| && Ascending(before) && Covers(logs, before, n) && ScanOf(here, logs[n])
    ensures Ascending(before + here)
  {
    forall i | 0 <= i < |before| ensures before[i].key < KEY_RANGE && BucketId(before[i].key) < n {
      assert PairOk(logs, before[i], n);
    }
    forall i | 0 <= i < |here| ensures here[i].key < KEY_RANGE && BucketId(here[i].key) == n {
      ScanKeys(logs, n, here, i);
    }
    JoinAscends(before, here, n);
  }

  lemma {:induction false} PassFacts(logs: seq<seq<Entry>>, n: nat)
    requires Store(logs) && n <= |logs|
    ensures Ascending(PassPairs(logs, n)) && Covers(logs, PassPairs(logs, n), n)
  {
    if n > 0 {
      var before, here := PassPairs(logs, n - 1), BucketPairs(logs[n - 1]);
      PassFacts(logs, n - 1);
      assert PassPairs(logs, n) == before + here;
      CoversNext(logs, before, here, n - 1);
      AscendsNext(logs, before, here, n - 1);
    }
  }

  /** Keys of lower buckets come before keys of the next one. */
  lemma JoinAscends(xs: seq<Pair>, ys: seq<Pair>, b: nat)
    requires Ascending(xs) && Ascending(ys)
    requires forall i :: 0 <= i < |xs| ==> xs[i].key < KEY_RANGE && BucketId(xs[i].key) < b
    requires forall i :: 0 <= i < |ys| ==> ys[i].key < KEY_RANGE && BucketId(ys[i].key) == b
    ensures Ascending(xs + ys)
  {
    var zs := xs + ys;
    forall i, j | 0 <= i < j < |zs| ensures zs[i].key < zs[j].key {
      if i < |xs| && j >= |xs| { BucketsFollowKeys(zs[i].key, zs[j].key); }
    }
  }

  /**
   A pass visits every key ever written exactly once, with the value of its latest write, in strictly
   increasing byte order.
   */
  lemma PassIsOrderedScan(logs: seq<seq<Entry>>)
    requires Store(logs)
    ensures var vs := Pass(logs);
      && (forall i, j :: 0 <= i < j < |vs| ==> Compare(vs[i].key, vs[j].key) < 0)
      && (forall i :: 0 <= i < |vs| ==>
            var k := BigEndian(vs[i].key);
            |vs[i].key| == 8 && BucketId(k) < BUCKET_NUM && Latest(logs[BucketId(k)], k) == Some(vs[i].value))
      && (forall key: Bytes :: |key| == 8 ==>
            var k := BigEndian(key);
            BucketId(k) < BUCKET_NUM &&
            (Written(logs[BucketId(k)], k) ==> exists i :: 0 <= i < |vs| && vs[i].key == key))
  {
    PassFacts(logs, BUCKET_NUM);
    var ps, vs := PassPairs(logs, BUCKET_NUM), Pass(logs);
    forall i | 0 <= i < |vs| ensures |vs[i].key| == 8 && BigEndian(vs[i].key) == ps[i].key && PairOk(logs, ps[i], BUCKET_NUM) {
      assert PairOk(logs, ps[i], BUCKET_NUM);
      KeyBytesAreBigEndian(ps[i].key);
    }
    forall i, j | 0 <= i < j < |vs| ensures Compare(vs[i].key, vs[j].key) < 0 {
      CompareIsBigEndianOrder(vs[i].key, vs[j].key);
    }
    forall key: Bytes | |key| == 8
      ensures BucketId(BigEndian(key)) < BUCKET_NUM
      ensures Written(logs[BucketId(BigEndian(key))], BigEndian(key)) ==> exists i :: 0 <= i < |vs| && vs[i].key == key
    {
      var k := BigEndian(key);
      KeyInRange(key);
      BucketsFollowKeys(k, k);
      if Written(logs[BucketId(k)], k) {
        assert Visited(ps, k);
        var i :| 0 <= i < |ps| && ps[i].key == k;
        CompareIsBigEndianOrder(vs[i].key, key);
      }
    }
  }
}
