/**
 What a visitor sees: the range pipeline, with buffers that hold the result of block-wise bucket reads, and the
 inner loop of Range over them.  A pass of any visitor is the ordered scan of the store.
 */
module VisitorScan {
  import opened Arith
  import opened BucketIndex
  import opened BucketLog
  import opened KeyOrder
  import opened Options
  import opened RangeScan
  import P = RangePipeline
  import R = BucketRead

  /** What a buffer may hold when ReadBucketToBuffer has returned, for a bucket with these values. */
  ghost predicate ReadOff(buffer: seq<Value>, values: seq<Value>) {
    exists rc: R.Config, r: R.State :: ReadBy(rc, r, buffer, values)
  }

  ghost predicate ReadBy(rc: R.Config, r: R.State, buffer: seq<Value>, values: seq<Value>) {
    && R.Reachable(rc, r) && r.poller.Exit? && r.buffer == buffer
    && rc.count == |values| <= |rc.region| && rc.region[..rc.count] == values
  }

  /** The buffer begins with the values. */
  predicate Serves(buffer: seq<Value>, values: seq<Value>) { values <= buffer }

  lemma ReadServes(buffer: seq<Value>, values: seq<Value>)
    requires ReadOff(buffer, values)
    ensures Serves(buffer, values)
  {
    var rc, r :| ReadBy(rc, r, buffer, values);
    R.ExitMeansRead(rc, r);
    assert buffer[..rc.count] == values;
  }

  // ---------- Runs of the pipeline, with what is in the buffers ----------

  /**
   One step of the pipeline turns the buffers m into m': only the buffer being filled may change, and when its
   fill ends it is the result of reading the coordinator's bucket.
   */
  ghost predicate Fills(c: P.Config, logs: seq<seq<Entry>>, s: P.State, s': P.State, m: seq<seq<Value>>, m': seq<seq<Value>>)
    requires |logs| == c.buckets > 0
  {
    && |m'| == |m|
    && (forall x :: 0 <= x < |m| && s.coord != P.Filling(x) ==> m'[x] == m[x])
    && (s.coord.Filling? && s'.coord.Publishing? && s.coord.buf < |m'| ==>
          ReadOff(m'[s.coord.buf], ValuesOf(logs[|s.pub| % c.buckets])))
  }

  ghost predicate IsScan(c: P.Config, logs: seq<seq<Entry>>, run: seq<P.State>, mems: seq<seq<seq<Value>>>) {
    && |logs| == c.buckets > 0
    && P.IsRun(c, run) && |mems| == |run| && |mems[0]| == c.Buffers()
    && forall i :: 0 <= i < |run| - 1 ==> Fills(c, logs, run[i], run[i + 1], mems[i], mems[i + 1])
  }

  /** A buffer the pipeline takes to hold a bucket does. */
  ghost predicate Backed(logs: seq<seq<Entry>>, s: P.State, m: seq<seq<Value>>) {
    && |m| == |s.content|
    && (s.coord.Filling? && s.coord.buf < |s.content| ==> s.content[s.coord.buf] == P.Junk)
    && forall x :: 0 <= x < |m| ==> BackedAt(logs, s.content[x], m[x])
  }

  ghost predicate BackedAt(logs: seq<seq<Entry>>, content: P.Content, buffer: seq<Value>) {
    content.Full? ==> content.bucket < |logs| && ReadOff(buffer, ValuesOf(logs[content.bucket]))
  }

  lemma StepBacked(c: P.Config, logs: seq<seq<Entry>>, s: P.State, a: P.Action, m: seq<seq<Value>>, m': seq<seq<Value>>)
    requires |logs| == c.buckets > 0 && P.Enabled(c, s, a) && P.Defined(c, s, a)
    requires Backed(logs, s, m) && Fills(c, logs, s, P.Next(c, s, a), m, m')
    ensures Backed(logs, P.Next(c, s, a), m')
  {
    var s' := P.Next(c, s, a);
    forall x | 0 <= x < |m'| ensures BackedAt(logs, s'.content[x], m'[x]) {
      assert BackedAt(logs, s.content[x], m[x]);
    }
  }

  lemma {:induction false} ScanBacked(c: P.Config, logs: seq<seq<Entry>>, run: seq<P.State>, mems: seq<seq<seq<Value>>>, i: nat)
    requires IsScan(c, logs, run, mems) && i < |run|
    ensures Backed(logs, run[i], mems[i])
  {
    if i > 0 {
      ScanBacked(c, logs, run, mems, i - 1);
      assert P.Step(c, run[i - 1], run[i - 1 + 1]);
      assert Fills(c, logs, run[i - 1], run[i - 1 + 1], mems[i - 1], mems[i - 1 + 1]);
      var a :| P.Enabled(c, run[i - 1], a) && P.Defined(c, run[i - 1], a) && run[i] == P.Next(c, run[i - 1], a);
      StepBacked(c, logs, run[i - 1], a, mems[i - 1], mems[i]);
    }
  }

  /** At every moment of its visit to a bucket, in either pass, a visitor's buffer begins with the bucket's values. */
  lemma VisitorReadsBucket(c: P.Config, logs: seq<seq<Entry>>, run: seq<P.State>, mems: seq<seq<seq<Value>>>, i: nat, t: nat)
    requires IsScan(c, logs, run, mems) && i < |run| && t < |run[i].visitor| && run[i].visitor[t].Visiting?
    ensures var v := run[i].visitor[t];
            v.buf < |mems[i]| && Serves(mems[i][v.buf], ValuesOf(logs[v.f % c.buckets]))
  {
    var v, s := run[i].visitor[t], run[i];
    var prefix := run[..i + 1];
    assert P.IsRun(c, prefix) && prefix[|prefix| - 1] == s;
    P.VisitorsSeeTheirBucket(c, s, t);
    ScanBacked(c, logs, run, mems, i);
    assert BackedAt(logs, s.content[v.buf], mems[i][v.buf]);
    ReadServes(mems[i][v.buf], ValuesOf(logs[v.f % c.buckets]));
  }

  // ---------- A pass over the buffers ----------

  /** At some moment of visitor t's visit to future f, its buffer was this. */
  ghost predicate Saw(run: seq<P.State>, mems: seq<seq<seq<Value>>>, t: nat, f: nat, buffer: seq<Value>) {
    exists i: nat :: SawAt(run, mems, t, f, buffer, i)
  }

  ghost predicate SawAt(run: seq<P.State>, mems: seq<seq<seq<Value>>>, t: nat, f: nat, buffer: seq<Value>, i: nat) {
    && i < |run| && i < |mems| && t < |run[i].visitor| && run[i].visitor[t].Visiting? && run[i].visitor[t].f == f
    && run[i].visitor[t].buf < |mems[i]| && mems[i][run[i].visitor[t].buf] == buffer
  }

  /** What the inner loop of Range passes to the visitor from a bucket's index and a buffer. */
  function BufferPairs(log: seq<Entry>, buffer: seq<Value>): seq<Pair>
    requires Serves(buffer, ValuesOf(log))
  {
    IndexOffsets(KeysOf(log));
    var index := IndexOf(KeysOf(log));
    Heads(index, buffer, |index|)
  }

  /** The visits of a visitor that saw buffer b for bucket b, keys as integers. */
  function SeenPairs(logs: seq<seq<Entry>>, seen: seq<seq<Value>>, n: nat): seq<Pair>
    requires n <= |logs| == |seen| && forall b :: 0 <= b < |logs| ==> Serves(seen[b], ValuesOf(logs[b]))
  {
    if n == 0 then [] else SeenPairs(logs, seen, n - 1) + BufferPairs(logs[n - 1], seen[n - 1])
  }

  function Visits(ps: seq<Pair>): (vs: seq<Visit>)
    ensures |vs| == |ps|
  {
    seq(|ps|, i requires 0 <= i < |ps| => Visit(KeyBytes(ps[i].key), ps[i].value))
  }

  /** The loop only looks at the values the offsets point to. */
  lemma {:induction false} HeadsAgree(index: seq<KeyEntry>, xs: seq<Value>, ys: seq<Value>, n: nat)
    requires n <= |index| && xs <= ys && forall e :: e in index ==> e.off < |xs|
    ensures Heads(index, xs, n) == Heads(index, ys, n)
  {
    if n > 0 {
      HeadsAgree(index, xs, ys, n - 1);
      assert index[n - 1] in index;
    }
  }

  lemma {:induction false} SeenIsPass(logs: seq<seq<Entry>>, seen: seq<seq<Value>>, n: nat)
    requires Store(logs) && n <= |logs| == |seen| && forall b :: 0 <= b < |logs| ==> Serves(seen[b], ValuesOf(logs[b]))
    ensures SeenPairs(logs, seen, n) == PassPairs(logs, n)
  {
    if n > 0 {
      SeenIsPass(logs, seen, n - 1);
      var log := logs[n - 1];
      IndexOffsets(KeysOf(log));
      HeadsAgree(IndexOf(KeysOf(log)), ValuesOf(log), seen[n - 1], |IndexOf(KeysOf(log))|);
    }
  }

  /** Whenever it looked, a visitor's visits over the buffers it saw in one pass are the ordered scan of the store. */
  lemma SeenVisits(c: P.Config, logs: seq<seq<Entry>>, run: seq<P.State>, mems: seq<seq<seq<Value>>>,
                   t: nat, pass: nat, seen: seq<seq<Value>>)
    requires Store(logs) && IsScan(c, logs, run, mems) && |seen| == |logs|
    requires forall b :: 0 <= b < |logs| ==> Saw(run, mems, t, pass * c.buckets + b, seen[b])
    ensures forall b :: 0 <= b < |logs| ==> Serves(seen[b], ValuesOf(logs[b]))
    ensures Visits(SeenPairs(logs, seen, |logs|)) == Pass(logs)
  {
    forall b | 0 <= b < |logs| ensures Serves(seen[b], ValuesOf(logs[b])) {
      SawServes(c, logs, run, mems, t, pass, b, seen[b]);
    }
    SeenIsPass(logs, seen, |logs|);
  }

  /** A visitor that is past a future saw a buffer for it. */
  lemma PastSaw(c: P.Config, logs: seq<seq<Entry>>, run: seq<P.State>, mems: seq<seq<seq<Value>>>, t: nat, f: nat)
    returns (buffer: seq<Value>)
    requires IsScan(c, logs, run, mems) && t < |run[|run| - 1].visitor| && P.Past(run[|run| - 1].visitor[t], f)
    ensures Saw(run, mems, t, f, buffer)
  {
    P.NothingSkipped(c, run, t, f);
    var i: nat :| P.VisitedAt(run, t, f, i);
    VisitorReadsBucket(c, logs, run, mems, i, t);
    buffer := mems[i][run[i].visitor[t].buf];
    assert SawAt(run, mems, t, f, buffer, i);
  }

  lemma {:induction false} PastSawAll(c: P.Config, logs: seq<seq<Entry>>, run: seq<P.State>, mems: seq<seq<seq<Value>>>,
                                      t: nat, from: nat, n: nat)
    returns (seen: seq<seq<Value>>)
    requires IsScan(c, logs, run, mems) && t < |run[|run| - 1].visitor| && from + n <= run[|run| - 1].visitor[t].f
    ensures |seen| == n && forall b :: 0 <= b < n ==> Saw(run, mems, t, from + b, seen[b])
  {
    if n == 0 {
      seen := [];
    } else {
      seen := PastSawAll(c, logs, run, mems, t, from, n - 1);
      var buffer := PastSaw(c, logs, run, mems, t, from + n - 1);
      seen := seen + [buffer];
    }
  }

  /**
   The pieces together: in every run, a visitor that has got through a pass was visiting each of its buckets,
   and what it was passed, whenever it looked, is the ordered scan of the store.
   */
  lemma VisitsArePass(c: P.Config, logs: seq<seq<Entry>>, run: seq<P.State>, mems: seq<seq<seq<Value>>>, t: nat, pass: nat)
    returns (seen: seq<seq<Value>>)
    requires Store(logs) && IsScan(c, logs, run, mems)
    requires t < |run[|run| - 1].visitor| && (pass + 1) * c.buckets <= run[|run| - 1].visitor[t].f
    ensures |seen| == |logs| && forall b :: 0 <= b < |logs| ==> Saw(run, mems, t, pass * c.buckets + b, seen[b])
    ensures forall b :: 0 <= b < |logs| ==> Serves(seen[b], ValuesOf(logs[b]))
    ensures Visits(SeenPairs(logs, seen, |logs|)) == Pass(logs)
  {
    assert (pass + 1) * c.buckets == pass * c.buckets + c.buckets;
    seen := PastSawAll(c, logs, run, mems, t, pass * c.buckets, c.buckets);
    SeenVisits(c, logs, run, mems, t, pass, seen);
  }

  lemma SawServes(c: P.Config, logs: seq<seq<Entry>>, run: seq<P.State>, mems: seq<seq<seq<Value>>>,
                  t: nat, pass: nat, b: nat, buffer: seq<Value>)
    requires IsScan(c, logs, run, mems) && b < |logs| && Saw(run, mems, t, pass * c.buckets + b, buffer)
    ensures Serves(buffer, ValuesOf(logs[b]))
  {
    var i: nat :| SawAt(run, mems, t, pass * c.buckets + b, buffer, i);
    BucketOfFuture(c.buckets, pass, b);
    VisitorReadsBucket(c, logs, run, mems, i, t);
  }

  lemma BucketOfFuture(buckets: nat, pass: nat, b: nat)
    requires b < buckets
    ensures (pass * buckets + b) % buckets == b
  {
    ModShift(b, buckets, pass);
  }
}
