/** The pieces together: what a reader and a scan see after writes, kills and reopening. */
module Engine {
  import opened BucketLog
  import opened BucketIndex
  import opened RangeScan
  import opened KeyOrder

  /** What BuildIndex reads for a bucket: a slice of its key file. */
  ghost function StoredKeys(c: Layout, s: State, b: nat): seq<Key>
    requires Shape(c, s) && b < c.Buckets()
  {
    AddressInFile(c, b, 0, s.cnt[b]);
    var (fid, foff) := Address(c, b, 0);
    s.keyFiles[fid][foff..foff + s.cnt[b]]
  }

  /** What readers fetch: the slots of the bucket's value region. */
  ghost function StoredValues(c: Layout, s: State, b: nat): (r: seq<Value>)
    requires Shape(c, s) && b < c.Buckets()
    ensures |r| == s.cnt[b] && forall i :: 0 <= i < s.cnt[b] ==> r[i] == At(c, s.valFiles, b, i)
  {
    seq(s.cnt[b], i requires 0 <= i < s.cnt[b] => At(c, s.valFiles, b, i))
  }

  lemma StoredKeyAt(c: Layout, s: State, b: nat, i: nat)
    requires Shape(c, s) && b < c.Buckets() && i < s.cnt[b]
    ensures |StoredKeys(c, s, b)| == s.cnt[b]
    ensures StoredKeys(c, s, b)[i] == At(c, s.keyFiles, b, i)
  {
    AddressInFile(c, b, 0, s.cnt[b]);
  }

  lemma StoredMatchesLog(c: Layout, s: State, b: nat)
    requires Reachable(c, s) && s.phase.Open? && Shape(c, s) && b < c.Buckets()
    ensures StoredKeys(c, s, b) == KeysOf(s.log[b]) && StoredValues(c, s, b) == ValuesOf(s.log[b])
  {
    OpenRecoversLog(c, s, b);
    AddressInFile(c, b, 0, s.cnt[b]);
    forall i | 0 <= i < s.cnt[b]
      ensures StoredKeys(c, s, b)[i] == s.log[b][i].key && StoredValues(c, s, b)[i] == s.log[b][i].value
    {
      StoredKeyAt(c, s, b, i);
      assert Recovered(c, s, b)[i] == s.log[b][i];
    }
    assert StoredKeys(c, s, b) == KeysOf(s.log[b]);
    assert StoredValues(c, s, b) == ValuesOf(s.log[b]);
  }

  /**
   Reading after any history of writes, kills and recoveries: the answer is the latest counted write of the
   key, and not-found exactly when no counted write has it.  A bucket without entries is outside the code, whose
   search reads the first entry of its index; the lookup answers not-found there.
   */
  lemma ReopenedReadIsLatest(c: Layout, s: State, key: Key)
    requires Reachable(c, s) && s.phase.Open? && Shape(c, s)
    requires BucketId(key) < c.Buckets() && s.cnt[BucketId(key)] <= OFFSETS
    ensures var b := BucketId(key); var index := IndexOf(StoredKeys(c, s, b));
            && (forall e :: e in index ==> e.off < |StoredValues(c, s, b)|)
            && LookUp(index, StoredValues(c, s, b), key) == Latest(s.log[b], key)
  {
    StoredMatchesLog(c, s, BucketId(key));
    OpenRecoversLog(c, s, BucketId(key));
    LookUpIsLatest(s.log[BucketId(key)], key);
  }

  /**
   The same in terms of the calls: whatever was written by whom, killed where and recovered how often, a read of
   the reopened store gives the value last passed to a finished Write of the key, and not-found exactly when no
   finished Write passed it.
   */
  lemma WrittenIsRead(c: Layout, run: seq<State>, acts: seq<Action>, key: Key)
    requires IsRunBy(c, run, acts) && run[|acts|].phase.Open? && BucketId(key) < c.Buckets()
    requires Shape(c, run[|acts|]) && run[|acts|].cnt[BucketId(key)] <= OFFSETS
    ensures var s, b := run[|acts|], BucketId(key); var index := IndexOf(StoredKeys(c, s, b));
            && (forall e :: e in index ==> e.off < |StoredValues(c, s, b)|)
            && LookUp(index, StoredValues(c, s, b), key) == Latest(CallsOf(run, acts, b).finished, key)
  {
    RunByIsRun(c, run, acts);
    ReopenedReadIsLatest(c, run[|acts|], key);
    LogIsWhatWasWritten(c, run, acts, BucketId(key));
  }

  /** The logs a reopened store holds are in the shape an ordered scan needs. */
  lemma ReopenedStoreCanBeScanned(c: Layout, s: State)
    requires Reachable(c, s) && s.phase.Open? && c.Buckets() == BUCKET_NUM
    requires Shape(c, s) && forall b :: 0 <= b < BUCKET_NUM ==> s.cnt[b] <= OFFSETS
    ensures Store(s.log)
  {
    forall b | 0 <= b < BUCKET_NUM
      ensures |s.log[b]| <= OFFSETS
      ensures forall i :: 0 <= i < |s.log[b]| ==> InBucket(s.log[b][i].key, b)
    {
      OpenRecoversLog(c, s, b);
    }
  }
}
