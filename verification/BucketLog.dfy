/**
 The write path and its recovery: a log per bucket, kept in files shared by several buckets and in two
 persistent buffers of different sizes, with a commit counter.

 Writers of different buckets interleave freely (one per bucket, under the bucket's mutex).  The process may
 be killed between any two transitions; while a copy or a pwrite is in progress its target may hold anything.
 Offsets are counted in slots (a key, or a value).
 */
module BucketLog {
  import opened Arith
  import opened KeyOrder
  import opened Options

  type Key = nat
  type Value = nat
  datatype Entry = Entry(key: Key, value: Value)

  /** Slots of a key or value buffer, slots of a bucket's region, and the buckets: `files` files of `perFile`. */
  datatype Layout = Layout(keySlots: nat, valSlots: nat, region: nat, perFile: nat, files: nat) {
    predicate Valid() {
      && keySlots > 0 && valSlots > 0 && perFile > 0 && region > 0
      && region % keySlots == 0 && region % valSlots == 0
    }
    function Buckets(): nat { perFile * files }
  }

  // ---------- Addresses ----------

  /** get_key_fid_foff and get_value_fid_foff, in slots: (file, offset). */
  function Address(c: Layout, b: nat, off: nat): (nat, nat)
    requires c.Valid()
  {
    (b / c.perFile, c.region * (b % c.perFile) + off)
  }

  /** A file is an array of slots long enough for its buckets. */
  ghost predicate FilesOk<T>(c: Layout, files: seq<seq<T>>) {
    |files| == c.files && forall f :: 0 <= f < |files| ==> |files[f]| == c.perFile * c.region
  }

  lemma AddressInFile(c: Layout, b: nat, off: nat, len: nat)
    requires c.Valid() && b < c.Buckets() && off + len <= c.region
    ensures Address(c, b, off).0 < c.files
    ensures Address(c, b, off).1 + len <= c.perFile * c.region
  {
    var q, r := b / c.perFile, b % c.perFile;
    assert b == q * c.perFile + r;
    if q >= c.files { QuotientTooBig(b, c.perFile, c.files); }
    MultiplesApart(r, c.perFile, c.region);
  }

  lemma QuotientTooBig(b: nat, d: nat, k: nat)
    requires d > 0 && b / d >= k
    ensures b >= d * k
  {
    assert b == d * (b / d) + b % d;
    if b / d > k { MultiplesApart(k, b / d, d); }
  }

  /** Different buckets never share a slot, as long as offsets stay inside the region. */
  lemma AddressApart(c: Layout, b: nat, i: nat, b': nat, i': nat)
    requires c.Valid() && i < c.region && i' < c.region
    requires Address(c, b, i).0 == Address(c, b', i').0
    requires c.region * (b % c.perFile) <= Address(c, b', i').1 < c.region * (b % c.perFile) + c.region
    ensures b == b'
    ensures Address(c, b, i).1 == Address(c, b', i').1 <==> i == i'
  {
    var r, r' := b % c.perFile, b' % c.perFile;
    if r < r' {
      MultiplesApart(r, r', c.region);
    } else if r' < r {
      MultiplesApart(r', r, c.region);
    } else {
      SameQuotientAndRemainder(b, b', c.perFile);
    }
  }

  lemma SameQuotientAndRemainder(a: nat, b: nat, d: nat)
    requires d > 0 && a / d == b / d && a % d == b % d
    ensures a == b
  {
    assert a == d * (a / d) + a % d && b == d * (b / d) + b % d;
  }

  function At<T>(c: Layout, files: seq<seq<T>>, b: nat, i: nat): T
    requires c.Valid() && FilesOk(c, files) && b < c.Buckets() && i < c.region
  {
    AddressInFile(c, b, i, 1);
    var (fid, foff) := Address(c, b, i);
    files[fid][foff]
  }

  /** pwrite of whole slots. */
  function Pwrite<T>(files: seq<seq<T>>, fid: nat, foff: nat, data: seq<T>): seq<seq<T>>
    requires fid < |files| && foff + |data| <= |files[fid]|
  {
    files[fid := files[fid][..foff] + data + files[fid][foff + |data|..]]
  }

  /** A pwrite at a bucket's offset, staying inside its region. */
  function WriteBucket<T>(c: Layout, files: seq<seq<T>>, b: nat, off: nat, data: seq<T>): (r: seq<seq<T>>)
    requires c.Valid() && FilesOk(c, files) && b < c.Buckets() && off + |data| <= c.region
    ensures FilesOk(c, r)
  {
    AddressInFile(c, b, off, |data|);
    var (fid, foff) := Address(c, b, off);
    Pwrite(files, fid, foff, data)
  }

  /** It changes exactly that bucket's slots [off, off + |data|), and no slot of any other bucket. */
  lemma WriteBucketReads<T>(c: Layout, files: seq<seq<T>>, b: nat, off: nat, data: seq<T>, b': nat, i: nat)
    requires c.Valid() && FilesOk(c, files) && b < c.Buckets() && off + |data| <= c.region
    requires b' < c.Buckets() && i < c.region
    ensures At(c, WriteBucket(c, files, b, off, data), b', i) ==
            if b' == b && off <= i < off + |data| then data[i - off] else At(c, files, b', i)
  {
    AddressInFile(c, b, off, |data|);
    AddressInFile(c, b', i, 1);
    var (fid, foff) := Address(c, b, off);
    var (fid', foff') := Address(c, b', i);
    if fid == fid' && foff <= foff' < foff + |data| {
      AddressApart(c, b, off, b', i);
    }
  }

  // ---------- The state ----------

  /** The writer inside a bucket's critical section; tearing is possible in the -ing points. */
  datatype Writer =
    | Free
    | Copying(e: Entry)       // memcpy into the value buffer
    | ValWriting(e: Entry)    // pwrite of the full value buffer
    | KeyStoring(e: Entry)
    | KeyWriting(e: Entry)    // pwrite of the full key buffer
    | Counting(e: Entry)      // mmap_meta_cnt_[bucket_id]++

  datatype Progress = Todo | Writing | Done

  datatype Phase =
    | Running                                             // the writing process is up
    | Down                                                // killed or closed
    | Flushing(vals: seq<Progress>, keys: seq<Progress>)  // ParallelFlushTmp, then the truncations
    | ValTruncated
    | Open                                                // reopened: the index is built from the files

  /** `log` records the entries whose count increment took place, bucket by bucket. */
  datatype State = State(cnt: seq<nat>, keyBuf: seq<seq<Key>>, valBuf: seq<seq<Value>>,
                         keyFiles: seq<seq<Key>>, valFiles: seq<seq<Value>>,
                         valBufLive: bool, keyBufLive: bool,
                         writer: seq<Writer>, phase: Phase, log: seq<seq<Entry>>)

  datatype Action =
    | Begin(b: nat, e: Entry)
    | Tear(b: nat, junkValue: Value, junkValues: seq<Value>, junkKeys: seq<Key>)
    | Advance(b: nat)
    | Kill
    | Close
    | Reopen
    | FlushVal(b: nat)
    | FlushKey(b: nat)
    | TearFlush(b: nat, junkValues: seq<Value>, junkKeys: seq<Key>)
    | TruncateVal
    | TruncateKey

  ghost predicate Shape(c: Layout, s: State) {
    && c.Valid()
    && |s.cnt| == |s.keyBuf| == |s.valBuf| == |s.writer| == |s.log| == c.Buckets()
    && (forall b :: 0 <= b < c.Buckets() ==> |s.keyBuf[b]| == c.keySlots && |s.valBuf[b]| == c.valSlots)
    && (forall b :: 0 <= b < c.Buckets() ==> s.cnt[b] <= c.region)
    && (forall b :: 0 <= b < c.Buckets() && !s.writer[b].Free? ==> s.cnt[b] < c.region)
    && FilesOk(c, s.keyFiles) && FilesOk(c, s.valFiles)
    && (s.phase.Flushing? ==> |s.phase.vals| == |s.phase.keys| == c.Buckets())
  }

  // ---------- The program ----------

  ghost predicate Init(c: Layout, s: State) {
    && Shape(c, s)
    && s.phase.Running? && s.valBufLive && s.keyBufLive
    && forall b :: 0 <= b < c.Buckets() ==> s.cnt[b] == 0 && s.log[b] == [] && s.writer[b].Free?
  }

  /** Start of the buffered block that entry n belongs to. */
  function Base(n: nat, slots: nat): nat
    requires slots > 0
  {
    n / slots * slots
  }

  predicate Full(n: nat, slots: nat)
    requires slots > 0
  {
    (n + 1) % slots == 0
  }

  ghost predicate Enabled(c: Layout, s: State, a: Action)
    requires Shape(c, s)
  {
    match a
    case Begin(b, e) =>
      && s.phase.Running? && b < c.Buckets() && s.writer[b].Free? && s.cnt[b] < c.region
      && e.key < KEY_RANGE && b == BucketId(e.key)
    case Tear(b, _, vs, ks) =>
      && s.phase.Running? && b < c.Buckets() && |vs| == c.valSlots && |ks| == c.keySlots
      && (s.writer[b].Copying? || s.writer[b].ValWriting? || s.writer[b].KeyWriting?)
    case Advance(b) => s.phase.Running? && b < c.Buckets() && !s.writer[b].Free?
    case Kill => !s.phase.Down?
    case Close => s.phase.Running? && forall b :: 0 <= b < c.Buckets() ==> s.writer[b].Free?
    case Reopen => s.phase.Down?
    case FlushVal(b) => s.phase.Flushing? && b < c.Buckets() && !s.phase.vals[b].Done?
    case FlushKey(b) => s.phase.Flushing? && b < c.Buckets() && !s.phase.keys[b].Done?
    case TearFlush(b, vs, ks) =>
      && s.phase.Flushing? && b < c.Buckets()
      && |vs| == s.cnt[b] % c.valSlots && |ks| == c.keySlots
    case TruncateVal =>
      s.phase.Flushing? && forall b :: 0 <= b < c.Buckets() ==> s.phase.vals[b].Done? && s.phase.keys[b].Done?
    case TruncateKey => s.phase.ValTruncated?
  }

  function SetWriter(s: State, b: nat, w: Writer): State
    requires b < |s.writer|
  {
    s.(writer := s.writer[b := w])
  }

  /** One slot of one bucket's slice of a persistent buffer. */
  function SetSlot<T>(bufs: seq<seq<T>>, b: nat, i: nat, v: T): seq<seq<T>>
    requires b < |bufs| && i < |bufs[b]|
  {
    bufs[b := bufs[b][i := v]]
  }

  lemma BlockFits(n: nat, slots: nat, region: nat)
    requires slots > 0 && region % slots == 0 && n < region
    ensures Base(n, slots) + slots <= region
    ensures Base(n, slots) <= n < Base(n, slots) + slots && n % slots == n - Base(n, slots)
    ensures Full(n, slots) ==> n >= slots - 1 && n - (slots - 1) == Base(n, slots)
  {
    var q, k := n / slots, region / slots;
    assert n == q * slots + n % slots && region == k * slots;
    assert (k - q) * slots == region - q * slots;
    FactorSign(k - q, slots);
    MulAtLeast(k - q, slots);
    if Full(n, slots) {
      if n % slots != slots - 1 { DivUnique(n + 1, slots, q, n % slots + 1); }
    }
  }

  /** The locked section of Write, one transition at a time. */
  function Write(c: Layout, s: State, b: nat): State
    requires Shape(c, s) && b < c.Buckets() && !s.writer[b].Free?
  {
    var n, e := s.cnt[b], s.writer[b].e;
    BlockFits(n, c.valSlots, c.region);
    BlockFits(n, c.keySlots, c.region);
    match s.writer[b]
    case Copying(_) =>
      SetWriter(s, b, if Full(n, c.valSlots) then ValWriting(e) else KeyStoring(e))
        .(valBuf := SetSlot(s.valBuf, b, n % c.valSlots, e.value))
    case ValWriting(_) =>
      SetWriter(s, b, KeyStoring(e))
        .(valFiles := WriteBucket(c, s.valFiles, b, Base(n, c.valSlots), s.valBuf[b]))
    case KeyStoring(_) =>
      SetWriter(s, b, if Full(n, c.keySlots) then KeyWriting(e) else Counting(e))
        .(keyBuf := SetSlot(s.keyBuf, b, n % c.keySlots, e.key))
    case KeyWriting(_) =>
      SetWriter(s, b, Counting(e))
        .(keyFiles := WriteBucket(c, s.keyFiles, b, Base(n, c.keySlots), s.keyBuf[b]))
    case Counting(_) =>
      SetWriter(s, b, Free).(cnt := s.cnt[b := n + 1], log := s.log[b := s.log[b] + [e]])
  }

  /** An unfinished copy or pwrite leaves its target in any condition. */
  function TearWrite(c: Layout, s: State, b: nat, v: Value, vs: seq<Value>, ks: seq<Key>): State
    requires Shape(c, s) && b < c.Buckets() && !s.writer[b].Free? && |vs| == c.valSlots && |ks| == c.keySlots
  {
    var n := s.cnt[b];
    BlockFits(n, c.valSlots, c.region);
    BlockFits(n, c.keySlots, c.region);
    match s.writer[b]
    case Copying(_) => s.(valBuf := SetSlot(s.valBuf, b, n % c.valSlots, v))
    case ValWriting(_) => s.(valFiles := WriteBucket(c, s.valFiles, b, Base(n, c.valSlots), vs))
    case KeyWriting(_) => s.(keyFiles := WriteBucket(c, s.keyFiles, b, Base(n, c.keySlots), ks))
    case _ => s
  }

  lemma FlushFits(c: Layout, n: nat)
    requires c.Valid() && n <= c.region
    ensures Base(n, c.valSlots) + n % c.valSlots == n
    ensures n % c.keySlots != 0 ==> Base(n, c.keySlots) + c.keySlots <= c.region
    ensures n % c.valSlots < c.valSlots
  {
    assert n == Base(n, c.valSlots) + n % c.valSlots;
    if n < c.region { BlockFits(n, c.keySlots, c.region); }
  }

  /** Flush of a bucket's value buffer: only the counted part. */
  function PutVals(c: Layout, s: State, b: nat, data: seq<Value>): State
    requires Shape(c, s) && b < c.Buckets() && |data| == s.cnt[b] % c.valSlots
  {
    FlushFits(c, s.cnt[b]);
    s.(valFiles := WriteBucket(c, s.valFiles, b, Base(s.cnt[b], c.valSlots), data))
  }

  /** Flush of a bucket's key buffer: always the whole block. */
  function PutKeys(c: Layout, s: State, b: nat, data: seq<Key>): State
    requires Shape(c, s) && b < c.Buckets() && |data| == c.keySlots
  {
    FlushFits(c, s.cnt[b]);
    if s.cnt[b] % c.keySlots == 0 then s
    else s.(keyFiles := WriteBucket(c, s.keyFiles, b, Base(s.cnt[b], c.keySlots), data))
  }

  function AllTodo(n: nat): (r: seq<Progress>)
    ensures |r| == n && forall b :: 0 <= b < n ==> r[b] == Todo
  {
    seq(n, _ => Todo)
  }

  function AllFree(n: nat): (r: seq<Writer>)
    ensures |r| == n && forall b :: 0 <= b < n ==> r[b] == Free
  {
    seq(n, _ => Free)
  }

  ghost function Next(c: Layout, s: State, a: Action): State
    requires Shape(c, s) && Enabled(c, s, a)
  {
    match a
    case Begin(b, e) => SetWriter(s, b, Copying(e))
    case Tear(b, v, vs, ks) => TearWrite(c, s, b, v, vs, ks)
    case Advance(b) => Write(c, s, b)
    case Kill => s.(phase := Down, writer := AllFree(c.Buckets()))
    case Close => s.(phase := Flushing(AllTodo(c.Buckets()), AllTodo(c.Buckets())))
    case Reopen =>
      s.(phase := if s.valBufLive then Flushing(AllTodo(c.Buckets()), AllTodo(c.Buckets())) else Open)
    case FlushVal(b) =>
      if s.phase.vals[b].Todo? then s.(phase := s.phase.(vals := s.phase.vals[b := Writing]))
      else
        FlushFits(c, s.cnt[b]);
        PutVals(c, s, b, s.valBuf[b][..s.cnt[b] % c.valSlots]).(phase := s.phase.(vals := s.phase.vals[b := Done]))
    case FlushKey(b) =>
      if s.phase.keys[b].Todo? then s.(phase := s.phase.(keys := s.phase.keys[b := Writing]))
      else PutKeys(c, s, b, s.keyBuf[b]).(phase := s.phase.(keys := s.phase.keys[b := Done]))
    case TearFlush(b, vs, ks) =>
      var s1 := if s.phase.vals[b].Writing? then PutVals(c, s, b, vs) else s;
      if s.phase.keys[b].Writing? then PutKeys(c, s1, b, ks) else s1
    case TruncateVal => s.(valBufLive := false, phase := ValTruncated)
    case TruncateKey => s.(keyBufLive := false, phase := Open)
  }

  ghost predicate Step(c: Layout, s: State, s': State)
    requires Shape(c, s)
  {
    exists a :: Enabled(c, s, a) && s' == Next(c, s, a)
  }

  ghost predicate IsRun(c: Layout, run: seq<State>) {
    && |run| > 0
    && Init(c, run[0])
    && forall i :: 0 <= i < |run| - 1 ==> Shape(c, run[i]) && Step(c, run[i], run[i + 1])
  }

  ghost predicate Reachable(c: Layout, s: State) {
    exists run :: IsRun(c, run) && run[|run| - 1] == s
  }

  // ---------- One bucket at a time ----------

  /** A bucket's slots of the shared files. */
  function Region<T>(c: Layout, files: seq<seq<T>>, b: nat): (r: seq<T>)
    requires c.Valid() && FilesOk(c, files) && b < c.Buckets()
    ensures |r| == c.region && forall i :: 0 <= i < c.region ==> r[i] == At(c, files, b, i)
  {
    seq(c.region, i requires 0 <= i < c.region => At(c, files, b, i))
  }

  function Splice<T>(r: seq<T>, off: nat, data: seq<T>): (q: seq<T>)
    requires off + |data| <= |r|
    ensures |q| == |r|
    ensures forall i :: 0 <= i < |r| ==> q[i] == if off <= i < off + |data| then data[i - off] else r[i]
  {
    r[..off] + data + r[off + |data|..]
  }

  lemma RegionWrite<T>(c: Layout, files: seq<seq<T>>, b: nat, off: nat, data: seq<T>, b': nat)
    requires c.Valid() && FilesOk(c, files) && b < c.Buckets() && off + |data| <= c.region && b' < c.Buckets()
    ensures Region(c, WriteBucket(c, files, b, off, data), b') ==
            if b' == b then Splice(Region(c, files, b), off, data) else Region(c, files, b')
  {
    forall i | 0 <= i < c.region
      ensures Region(c, WriteBucket(c, files, b, off, data), b')[i] ==
              (if b' == b then Splice(Region(c, files, b), off, data) else Region(c, files, b'))[i]
    {
      WriteBucketReads(c, files, b, off, data, b', i);
    }
  }

  /** Everything about one bucket. `buffered`: its buffers are still authoritative for the last block. */
  datatype View = View(n: nat, log: seq<Entry>, kb: seq<Key>, vb: seq<Value>, keys: seq<Key>, vals: seq<Value>,
                       w: Writer, running: bool, buffered: bool, vDone: bool, kDone: bool)

  ghost function ViewOf(c: Layout, s: State, b: nat): View
    requires Shape(c, s) && b < c.Buckets()
  {
    View(s.cnt[b], s.log[b], s.keyBuf[b], s.valBuf[b], Region(c, s.keyFiles, b), Region(c, s.valFiles, b),
         s.writer[b], s.phase.Running?, s.valBufLive,
         s.phase.Flushing? && s.phase.vals[b].Done?, s.phase.Flushing? && s.phase.keys[b].Done?)
  }

  ghost predicate Sized(c: Layout, v: View) {
    && c.Valid()
    && |v.kb| == c.keySlots && |v.vb| == c.valSlots && |v.keys| == |v.vals| == c.region
    && |v.log| == v.n <= c.region
    && (!v.w.Free? ==> v.n < c.region && v.running)
    && (v.running ==> v.buffered && !v.vDone && !v.kDone)
  }

  ghost predicate ValsInFile(v: View)
    requires |v.log| == v.n <= |v.vals|
  {
    forall i :: 0 <= i < v.n ==> v.vals[i] == v.log[i].value
  }

  ghost predicate KeysInFile(v: View)
    requires |v.log| == v.n <= |v.keys|
  {
    forall i :: 0 <= i < v.n ==> v.keys[i] == v.log[i].key
  }

  /** Counted entries: those of full blocks are in the file, the rest in the buffer. */
  ghost predicate ValsBuffered(c: Layout, v: View)
    requires Sized(c, v)
  {
    var base := Base(v.n, c.valSlots);
    && (forall i :: 0 <= i < v.n && i < base ==> v.vals[i] == v.log[i].value)
    && (forall i :: base <= i < v.n && i - base < |v.vb| ==> v.vb[i - base] == v.log[i].value)
  }

  ghost predicate KeysBuffered(c: Layout, v: View)
    requires Sized(c, v)
  {
    var base := Base(v.n, c.keySlots);
    && (forall i :: 0 <= i < v.n && i < base ==> v.keys[i] == v.log[i].key)
    && (forall i :: base <= i < v.n && i - base < |v.kb| ==> v.kb[i - base] == v.log[i].key)
  }

  /** Slots [base, base + |data|) of the region hold data. */
  ghost predicate Holds<T>(r: seq<T>, base: nat, data: seq<T>) {
    base + |data| <= |r| && forall j :: 0 <= j < |data| ==> r[base + j] == data[j]
  }

  /** What the writer has done so far, at each of its program points. */
  ghost predicate WriterOk(c: Layout, v: View)
    requires Sized(c, v)
  {
    var valOff, keyOff := v.n % c.valSlots, v.n % c.keySlots;
    && (v.w.ValWriting? || v.w.KeyStoring? || v.w.KeyWriting? || v.w.Counting? ==> v.vb[valOff] == v.w.e.value)
    && (v.w.ValWriting? ==> Full(v.n, c.valSlots))
    && ((v.w.KeyStoring? || v.w.KeyWriting? || v.w.Counting?) && Full(v.n, c.valSlots) ==>
          Holds(v.vals, Base(v.n, c.valSlots), v.vb))
    && (v.w.KeyWriting? || v.w.Counting? ==> v.kb[keyOff] == v.w.e.key)
    && (v.w.KeyWriting? ==> Full(v.n, c.keySlots))
    && (v.w.Counting? && Full(v.n, c.keySlots) ==> Holds(v.keys, Base(v.n, c.keySlots), v.kb))
  }

  ghost predicate BucketInv(c: Layout, v: View) {
    && Sized(c, v)
    && (if v.buffered then ValsBuffered(c, v) && KeysBuffered(c, v) else ValsInFile(v) && KeysInFile(v))
    && (v.vDone ==> ValsInFile(v)) && (v.kDone ==> KeysInFile(v))
    && WriterOk(c, v)
  }

  ghost predicate PhaseOk(s: State) {
    match s.phase
    case Running => s.valBufLive && s.keyBufLive
    case Down => s.valBufLive ==> s.keyBufLive
    case Flushing(_, _) => s.valBufLive && s.keyBufLive
    case ValTruncated => !s.valBufLive
    case Open => !s.valBufLive
  }

  ghost predicate Inv(c: Layout, s: State) {
    && Shape(c, s)
    && PhaseOk(s)
    && (forall b :: 0 <= b < c.Buckets() ==> BucketInv(c, ViewOf(c, s, b)))
    && (forall b :: 0 <= b < c.Buckets() ==> Routed(s.log[b], s.writer[b], b))
  }

  /** Every key is written to the bucket its top bits name. */
  ghost predicate Routed(log: seq<Entry>, w: Writer, b: nat) {
    && (forall i :: 0 <= i < |log| ==> InBucket(log[i].key, b))
    && (!w.Free? ==> InBucket(w.e.key, b))
  }

  predicate InBucket(key: Key, b: nat) { key < KEY_RANGE && BucketId(key) == b }

  // ---------- Steps of the bucket's own writer ----------

  /** Writing into the unfinished block of a file leaves every counted entry of earlier blocks alone. */
  lemma TornBlock<T>(r: seq<T>, base: nat, data: seq<T>)
    requires base + |data| <= |r|
    ensures forall i :: 0 <= i < base ==> Splice(r, base, data)[i] == r[i]
    ensures Holds(Splice(r, base, data), base, data)
  {
    forall j | 0 <= j < |data| ensures Splice(r, base, data)[base + j] == data[j] { }
  }

  /** The value slot being filled is past every counted slot of its block. */
  lemma CopyKeeps(c: Layout, v: View, x: Value)
    requires BucketInv(c, v) && v.w.Copying?
    ensures v.n % c.valSlots < |v.vb|
    ensures BucketInv(c, v.(vb := v.vb[v.n % c.valSlots := x]))
  {
    BlockFits(v.n, c.valSlots, c.region);
  }

  lemma CopyDone(c: Layout, v: View)
    requires BucketInv(c, v) && v.w.Copying?
    ensures v.n % c.valSlots < |v.vb|
    ensures BucketInv(c, v.(vb := v.vb[v.n % c.valSlots := v.w.e.value],
                            w := if Full(v.n, c.valSlots) then ValWriting(v.w.e) else KeyStoring(v.w.e)))
  {
    CopyKeeps(c, v, v.w.e.value);
  }

  /** While a block is being written, only the slots below it matter. */
  lemma ValWriteTorn(c: Layout, v: View, vals: seq<Value>)
    requires BucketInv(c, v) && v.w.ValWriting? && |vals| == |v.vals|
    requires forall i :: 0 <= i < Base(v.n, c.valSlots) && i < |vals| ==> vals[i] == v.vals[i]
    ensures BucketInv(c, v.(vals := vals))
  {
    BlockFits(v.n, c.valSlots, c.region);
  }

  lemma ValWriteDone(c: Layout, v: View)
    requires BucketInv(c, v) && v.w.ValWriting?
    ensures Base(v.n, c.valSlots) + |v.vb| <= |v.vals|
    ensures BucketInv(c, v.(vals := Splice(v.vals, Base(v.n, c.valSlots), v.vb), w := KeyStoring(v.w.e)))
  {
    BlockFits(v.n, c.valSlots, c.region);
    TornBlock(v.vals, Base(v.n, c.valSlots), v.vb);
  }

  lemma KeyStoreDone(c: Layout, v: View)
    requires BucketInv(c, v) && v.w.KeyStoring?
    ensures v.n % c.keySlots < |v.kb|
    ensures BucketInv(c, v.(kb := v.kb[v.n % c.keySlots := v.w.e.key],
                            w := if Full(v.n, c.keySlots) then KeyWriting(v.w.e) else Counting(v.w.e)))
  {
    BlockFits(v.n, c.keySlots, c.region);
  }

  lemma KeyWriteTorn(c: Layout, v: View, keys: seq<Key>)
    requires BucketInv(c, v) && v.w.KeyWriting? && |keys| == |v.keys|
    requires forall i :: 0 <= i < Base(v.n, c.keySlots) && i < |keys| ==> keys[i] == v.keys[i]
    ensures BucketInv(c, v.(keys := keys))
  {
    BlockFits(v.n, c.keySlots, c.region);
  }

  lemma KeyWriteDone(c: Layout, v: View)
    requires BucketInv(c, v) && v.w.KeyWriting?
    ensures Base(v.n, c.keySlots) + |v.kb| <= |v.keys|
    ensures BucketInv(c, v.(keys := Splice(v.keys, Base(v.n, c.keySlots), v.kb), w := Counting(v.w.e)))
  {
    BlockFits(v.n, c.keySlots, c.region);
    TornBlock(v.keys, Base(v.n, c.keySlots), v.kb);
  }

  /** Where the block boundary goes when one more entry is counted. */
  lemma BaseNext(n: nat, slots: nat)
    requires slots > 0
    ensures Base(n + 1, slots) == if Full(n, slots) then Base(n, slots) + slots else Base(n, slots)
    ensures Full(n, slots) ==> Base(n + 1, slots) == n + 1
  {
    assert n == n / slots * slots + n % slots;
    if n % slots == slots - 1 {
      assert n + 1 == (n / slots + 1) * slots;
      DivUnique(n + 1, slots, n / slots + 1, 0);
    } else {
      DivUnique(n + 1, slots, n / slots, n % slots + 1);
    }
  }

  lemma CountVals(c: Layout, v: View)
    requires BucketInv(c, v) && v.w.Counting?
    ensures Sized(c, v.(n := v.n + 1, log := v.log + [v.w.e], w := Free))
    ensures ValsBuffered(c, v.(n := v.n + 1, log := v.log + [v.w.e], w := Free))
  {
    BlockFits(v.n, c.valSlots, c.region);
    BaseNext(v.n, c.valSlots);
    var v' := v.(n := v.n + 1, log := v.log + [v.w.e], w := Free);
    var base, base' := Base(v.n, c.valSlots), Base(v'.n, c.valSlots);
    forall i | 0 <= i < v'.n && i < base' ensures v'.vals[i] == v'.log[i].value {
      if i >= base { assert v.vals[base + (i - base)] == v.vb[i - base]; }
    }
  }

  lemma CountKeys(c: Layout, v: View)
    requires BucketInv(c, v) && v.w.Counting?
    ensures Sized(c, v.(n := v.n + 1, log := v.log + [v.w.e], w := Free))
    ensures KeysBuffered(c, v.(n := v.n + 1, log := v.log + [v.w.e], w := Free))
  {
    BlockFits(v.n, c.keySlots, c.region);
    BaseNext(v.n, c.keySlots);
    var v' := v.(n := v.n + 1, log := v.log + [v.w.e], w := Free);
    var base, base' := Base(v.n, c.keySlots), Base(v'.n, c.keySlots);
    forall i | 0 <= i < v'.n && i < base' ensures v'.keys[i] == v'.log[i].key {
      if i >= base { assert v.keys[base + (i - base)] == v.kb[i - base]; }
    }
  }

  // ---------- Steps of the recovery ----------

  /** While a flush of the values is unfinished, only full blocks of the file matter. */
  lemma FlushValTorn(c: Layout, v: View, vals: seq<Value>)
    requires BucketInv(c, v) && !v.running && v.buffered && !v.vDone && |vals| == |v.vals|
    requires forall i :: 0 <= i < Base(v.n, c.valSlots) && i < |vals| ==> vals[i] == v.vals[i]
    ensures BucketInv(c, v.(vals := vals))
  {
  }

  lemma FlushKeyTorn(c: Layout, v: View, keys: seq<Key>)
    requires BucketInv(c, v) && !v.running && v.buffered && !v.kDone && |keys| == |v.keys|
    requires forall i :: 0 <= i < Base(v.n, c.keySlots) && i < |keys| ==> keys[i] == v.keys[i]
    ensures BucketInv(c, v.(keys := keys))
  {
  }

  lemma FlushValDone(c: Layout, v: View)
    requires BucketInv(c, v) && !v.running && v.buffered
    ensures Base(v.n, c.valSlots) + v.n % c.valSlots <= |v.vals| && v.n % c.valSlots <= |v.vb|
    ensures BucketInv(c, v.(vals := Splice(v.vals, Base(v.n, c.valSlots), v.vb[..v.n % c.valSlots]), vDone := true))
  {
    FlushFits(c, v.n);
    FlushedVals(c, v, Base(v.n, c.valSlots), v.n % c.valSlots);
    FlushValKeeps(c, v, Splice(v.vals, Base(v.n, c.valSlots), v.vb[..v.n % c.valSlots]));
  }

  lemma FlushedVals(c: Layout, v: View, base: nat, rest: nat)
    requires Sized(c, v) && base + rest == v.n && rest <= |v.vb|
    requires forall i :: base <= i < v.n ==> v.vb[i - base] == v.log[i].value
    ensures forall i :: 0 <= i < base ==> Splice(v.vals, base, v.vb[..rest])[i] == v.vals[i]
    ensures forall i :: base <= i < v.n ==> Splice(v.vals, base, v.vb[..rest])[i] == v.log[i].value
  {
    var data := v.vb[..rest];
    TornBlock(v.vals, base, data);
    forall i | base <= i < v.n ensures Splice(v.vals, base, data)[i] == v.log[i].value {
      assert Splice(v.vals, base, data)[base + (i - base)] == data[i - base];
    }
  }

  lemma FlushValKeeps(c: Layout, v: View, vals: seq<Value>)
    requires BucketInv(c, v) && !v.running && v.buffered && |vals| == |v.vals|
    requires forall i :: 0 <= i < Base(v.n, c.valSlots) && i < |vals| ==> vals[i] == v.vals[i]
    requires forall i :: Base(v.n, c.valSlots) <= i < v.n && i < |vals| ==> vals[i] == v.log[i].value
    ensures BucketInv(c, v.(vals := vals, vDone := true))
  {
  }

  lemma FlushKeyDone(c: Layout, v: View)
    requires BucketInv(c, v) && !v.running && v.buffered && v.n % c.keySlots != 0
    ensures Base(v.n, c.keySlots) + |v.kb| <= |v.keys|
    ensures BucketInv(c, v.(keys := Splice(v.keys, Base(v.n, c.keySlots), v.kb), kDone := true))
  {
    FlushFits(c, v.n);
    var base := Base(v.n, c.keySlots);
    TornBlock(v.keys, base, v.kb);
    BlockFits(v.n, c.keySlots, c.region);
    forall i | base <= i < v.n ensures Splice(v.keys, base, v.kb)[i] == v.log[i].key {
      assert Splice(v.keys, base, v.kb)[base + (i - base)] == v.kb[i - base];
    }
  }

  // ---------- From one bucket to the whole store ----------

  lemma WriteKeepsSizes(c: Layout, s: State, b: nat)
    requires Shape(c, s) && b < c.Buckets() && !s.writer[b].Free?
    ensures var s' := Write(c, s, b);
            && |s'.keyBuf| == |s.keyBuf| && |s'.valBuf| == |s.valBuf| && s'.phase == s.phase
            && (forall x :: 0 <= x < |s.keyBuf| ==> |s'.keyBuf[x]| == |s.keyBuf[x]| && |s'.valBuf[x]| == |s.valBuf[x]|)
            && FilesOk(c, s'.keyFiles) && FilesOk(c, s'.valFiles)
  {
  }

  lemma KeepShapeWrite(c: Layout, s: State, b: nat)
    requires Shape(c, s) && b < c.Buckets() && !s.writer[b].Free?
    ensures Shape(c, Write(c, s, b))
  {
    var s' := Write(c, s, b);
    WriteKeepsSizes(c, s, b);
    if s.writer[b].Counting? {
      assert s'.cnt == s.cnt[b := s.cnt[b] + 1];
    } else {
      assert s'.cnt == s.cnt && !s'.writer[b].Free?;
    }
  }

  lemma KeepShape(c: Layout, s: State, a: Action)
    requires Shape(c, s) && PhaseOk(s) && Enabled(c, s, a)
    ensures Shape(c, Next(c, s, a)) && PhaseOk(Next(c, s, a))
  {
    if a.Advance? { KeepShapeWrite(c, s, a.b); }
  }

  lemma ViewOthers(c: Layout, s: State, a: Action, b: nat)
    requires Shape(c, s) && PhaseOk(s) && Enabled(c, s, a) && b < c.Buckets()
    requires a.Begin? || a.Tear? || a.Advance?
    requires b != a.b
    ensures Shape(c, Next(c, s, a)) && ViewOf(c, Next(c, s, a), b) == ViewOf(c, s, b)
  {
    KeepShape(c, s, a);
    var n := s.cnt[a.b];
    BlockFits(n, c.valSlots, c.region);
    BlockFits(n, c.keySlots, c.region);
    if a.Advance? {
      RegionWrite(c, s.valFiles, a.b, Base(n, c.valSlots), s.valBuf[a.b], b);
      RegionWrite(c, s.keyFiles, a.b, Base(n, c.keySlots), s.keyBuf[a.b], b);
    } else if a.Tear? {
      RegionWrite(c, s.valFiles, a.b, Base(n, c.valSlots), a.junkValues, b);
      RegionWrite(c, s.keyFiles, a.b, Base(n, c.keySlots), a.junkKeys, b);
    }
  }

  lemma WriterStep(c: Layout, s: State, b: nat)
    requires Inv(c, s) && Enabled(c, s, Advance(b))
    ensures Shape(c, Next(c, s, Advance(b))) && BucketInv(c, ViewOf(c, Next(c, s, Advance(b)), b))
  {
    KeepShape(c, s, Advance(b));
    var v, n := ViewOf(c, s, b), s.cnt[b];
    var v' := ViewOf(c, Next(c, s, Advance(b)), b);
    BlockFits(n, c.valSlots, c.region);
    BlockFits(n, c.keySlots, c.region);
    match s.writer[b]
    case Copying(e) =>
      CopyDone(c, v);
      assert v' == v.(vb := v.vb[n % c.valSlots := e.value], w := v'.w);
    case ValWriting(e) =>
      ValWriteDone(c, v);
      RegionWrite(c, s.valFiles, b, Base(n, c.valSlots), s.valBuf[b], b);
      assert v' == v.(vals := Splice(v.vals, Base(n, c.valSlots), v.vb), w := KeyStoring(e));
    case KeyStoring(e) =>
      KeyStoreDone(c, v);
      assert v' == v.(kb := v.kb[n % c.keySlots := e.key], w := v'.w);
    case KeyWriting(e) =>
      KeyWriteDone(c, v);
      RegionWrite(c, s.keyFiles, b, Base(n, c.keySlots), s.keyBuf[b], b);
      assert v' == v.(keys := Splice(v.keys, Base(n, c.keySlots), v.kb), w := Counting(e));
    case Counting(e) =>
      CountVals(c, v);
      CountKeys(c, v);
      assert v' == v.(n := n + 1, log := v.log + [e], w := Free);
  }

  lemma TornStep(c: Layout, s: State, a: Action)
    requires Inv(c, s) && Enabled(c, s, a) && a.Tear?
    ensures Shape(c, Next(c, s, a)) && BucketInv(c, ViewOf(c, Next(c, s, a), a.b))
  {
    KeepShape(c, s, a);
    var b := a.b;
    var v, n := ViewOf(c, s, b), s.cnt[b];
    var v' := ViewOf(c, Next(c, s, a), b);
    BlockFits(n, c.valSlots, c.region);
    BlockFits(n, c.keySlots, c.region);
    match s.writer[b]
    case Copying(_) =>
      CopyKeeps(c, v, a.junkValue);
      assert v' == v.(vb := v.vb[n % c.valSlots := a.junkValue]);
    case ValWriting(_) =>
      RegionWrite(c, s.valFiles, b, Base(n, c.valSlots), a.junkValues, b);
      ValWriteTorn(c, v, Splice(v.vals, Base(n, c.valSlots), a.junkValues));
      assert v' == v.(vals := Splice(v.vals, Base(n, c.valSlots), a.junkValues));
    case KeyWriting(_) =>
      RegionWrite(c, s.keyFiles, b, Base(n, c.keySlots), a.junkKeys, b);
      KeyWriteTorn(c, v, Splice(v.keys, Base(n, c.keySlots), a.junkKeys));
      assert v' == v.(keys := Splice(v.keys, Base(n, c.keySlots), a.junkKeys));
    case _ =>
  }

  lemma KeepRouted(c: Layout, s: State, a: Action, b: nat)
    requires Inv(c, s) && Enabled(c, s, a) && b < c.Buckets()
    ensures |Next(c, s, a).log| == |Next(c, s, a).writer| == c.Buckets()
    ensures Routed(Next(c, s, a).log[b], Next(c, s, a).writer[b], b)
  {
    assert Routed(s.log[b], s.writer[b], b);
  }

  lemma WriteStepInv(c: Layout, s: State, a: Action)
    requires Inv(c, s) && Enabled(c, s, a) && (a.Begin? || a.Tear? || a.Advance?)
    ensures Inv(c, Next(c, s, a))
  {
    KeepShape(c, s, a);
    var s' := Next(c, s, a);
    forall b | 0 <= b < c.Buckets() ensures Routed(s'.log[b], s'.writer[b], b) { KeepRouted(c, s, a, b); }
    forall b | 0 <= b < c.Buckets() ensures BucketInv(c, ViewOf(c, s', b)) {
      assert BucketInv(c, ViewOf(c, s, b));
      if b != a.b { ViewOthers(c, s, a, b); }
      else if a.Advance? { WriterStep(c, s, b); }
      else if a.Tear? { TornStep(c, s, a); }
      else { assert ViewOf(c, s', b) == ViewOf(c, s, b).(w := Copying(a.e)); }
    }
  }

  lemma FlushValView(c: Layout, s: State, b: nat, data: seq<Value>, b': nat)
    requires Shape(c, s) && b < c.Buckets() && b' < c.Buckets() && |data| == s.cnt[b] % c.valSlots
    ensures Base(s.cnt[b], c.valSlots) + |data| <= c.region
    ensures ViewOf(c, PutVals(c, s, b, data), b') ==
            if b' == b then ViewOf(c, s, b).(vals := Splice(ViewOf(c, s, b).vals, Base(s.cnt[b], c.valSlots), data))
            else ViewOf(c, s, b')
  {
    FlushFits(c, s.cnt[b]);
    RegionWrite(c, s.valFiles, b, Base(s.cnt[b], c.valSlots), data, b');
  }

  lemma FlushKeyView(c: Layout, s: State, b: nat, data: seq<Key>, b': nat)
    requires Shape(c, s) && b < c.Buckets() && b' < c.Buckets() && |data| == c.keySlots && s.cnt[b] % c.keySlots != 0
    ensures Base(s.cnt[b], c.keySlots) + |data| <= c.region
    ensures ViewOf(c, PutKeys(c, s, b, data), b') ==
            if b' == b then ViewOf(c, s, b).(keys := Splice(ViewOf(c, s, b).keys, Base(s.cnt[b], c.keySlots), data))
            else ViewOf(c, s, b')
  {
    FlushFits(c, s.cnt[b]);
    RegionWrite(c, s.keyFiles, b, Base(s.cnt[b], c.keySlots), data, b');
  }

  lemma PutValsTorn(c: Layout, s: State, b: nat, data: seq<Value>)
    requires Inv(c, s) && s.phase.Flushing? && b < c.Buckets() && !s.phase.vals[b].Done?
    requires |data| == s.cnt[b] % c.valSlots
    ensures Inv(c, PutVals(c, s, b, data))
  {
    var s' := PutVals(c, s, b, data);
    forall b' | 0 <= b' < c.Buckets() ensures BucketInv(c, ViewOf(c, s', b')) {
      FlushValView(c, s, b, data, b');
      assert BucketInv(c, ViewOf(c, s, b'));
      if b' == b { FlushValTorn(c, ViewOf(c, s, b), ViewOf(c, s', b).vals); }
    }
  }

  lemma PutKeysTorn(c: Layout, s: State, b: nat, data: seq<Key>)
    requires Inv(c, s) && s.phase.Flushing? && b < c.Buckets() && !s.phase.keys[b].Done? && |data| == c.keySlots
    ensures Inv(c, PutKeys(c, s, b, data))
  {
    var s' := PutKeys(c, s, b, data);
    if s.cnt[b] % c.keySlots != 0 {
      forall b' | 0 <= b' < c.Buckets() ensures BucketInv(c, ViewOf(c, s', b')) {
        FlushKeyView(c, s, b, data, b');
        assert BucketInv(c, ViewOf(c, s, b'));
        if b' == b { FlushKeyTorn(c, ViewOf(c, s, b), ViewOf(c, s', b).keys); }
      }
    }
  }

  lemma FlushValStep(c: Layout, s: State, b: nat)
    requires Inv(c, s) && Enabled(c, s, FlushVal(b))
    ensures Inv(c, Next(c, s, FlushVal(b)))
  {
    KeepShape(c, s, FlushVal(b));
    FlushFits(c, s.cnt[b]);
    var s' := Next(c, s, FlushVal(b));
    var data := s.valBuf[b][..s.cnt[b] % c.valSlots];
    forall b' | 0 <= b' < c.Buckets() ensures BucketInv(c, ViewOf(c, s', b')) {
      assert BucketInv(c, ViewOf(c, s, b'));
      if s.phase.vals[b].Todo? {
        assert ViewOf(c, s', b') == ViewOf(c, s, b');
      } else {
        FlushValView(c, s, b, data, b');
        if b' == b { FlushValDone(c, ViewOf(c, s, b)); }
        assert ViewOf(c, s', b') == ViewOf(c, PutVals(c, s, b, data), b').(vDone := ViewOf(c, s', b').vDone);
      }
    }
  }

  lemma FlushKeyStep(c: Layout, s: State, b: nat)
    requires Inv(c, s) && Enabled(c, s, FlushKey(b))
    ensures Inv(c, Next(c, s, FlushKey(b)))
  {
    KeepShape(c, s, FlushKey(b));
    var s' := Next(c, s, FlushKey(b));
    forall b' | 0 <= b' < c.Buckets() ensures BucketInv(c, ViewOf(c, s', b')) {
      assert BucketInv(c, ViewOf(c, s, b'));
      if s.phase.keys[b].Todo? {
        assert ViewOf(c, s', b') == ViewOf(c, s, b');
      } else {
        FlushKeyDoneView(c, s, b, b');
      }
    }
  }

  lemma FlushKeyDoneView(c: Layout, s: State, b: nat, b': nat)
    requires Inv(c, s) && Enabled(c, s, FlushKey(b)) && s.phase.keys[b].Writing? && b' < c.Buckets()
    ensures Shape(c, Next(c, s, FlushKey(b))) && BucketInv(c, ViewOf(c, Next(c, s, FlushKey(b)), b'))
  {
    KeepShape(c, s, FlushKey(b));
    var v, v' := ViewOf(c, s, b'), ViewOf(c, Next(c, s, FlushKey(b)), b');
    assert BucketInv(c, v);
    if s.cnt[b] % c.keySlots != 0 {
      FlushKeyView(c, s, b, s.keyBuf[b], b');
      if b' == b { FlushKeyDone(c, v); }
    } else {
      assert v' == v.(kDone := v'.kDone);
      if b' == b { assert Base(v.n, c.keySlots) == v.n; }
    }
  }

  /** Killing, closing, reopening and truncating change no slot of any file or buffer. */
  lemma PhaseView(c: Layout, s: State, a: Action, b: nat)
    requires Inv(c, s) && Enabled(c, s, a) && b < c.Buckets()
    requires a.Kill? || a.Close? || a.Reopen? || a.TruncateVal? || a.TruncateKey?
    ensures Shape(c, Next(c, s, a)) && BucketInv(c, ViewOf(c, Next(c, s, a), b))
  {
    KeepShape(c, s, a);
    var v, v' := ViewOf(c, s, b), ViewOf(c, Next(c, s, a), b);
    assert BucketInv(c, v);
    assert v' == v.(w := v'.w, running := v'.running, buffered := v'.buffered, vDone := v'.vDone, kDone := v'.kDone);
  }

  lemma PhaseStep(c: Layout, s: State, a: Action)
    requires Inv(c, s) && Enabled(c, s, a)
    requires a.Kill? || a.Close? || a.Reopen? || a.TruncateVal? || a.TruncateKey?
    ensures Inv(c, Next(c, s, a))
  {
    KeepShape(c, s, a);
    forall b | 0 <= b < c.Buckets() ensures BucketInv(c, ViewOf(c, Next(c, s, a), b)) {
      PhaseView(c, s, a, b);
    }
  }

  lemma StepInv(c: Layout, s: State, a: Action)
    requires Inv(c, s) && Enabled(c, s, a)
    ensures Inv(c, Next(c, s, a))
  {
    match a
    case Begin(_, _) => WriteStepInv(c, s, a);
    case Tear(_, _, _, _) => WriteStepInv(c, s, a);
    case Advance(_) => WriteStepInv(c, s, a);
    case FlushVal(b) => FlushValStep(c, s, b);
    case FlushKey(b) => FlushKeyStep(c, s, b);
    case TearFlush(b, vs, ks) =>
      var s1 := if s.phase.vals[b].Writing? then PutVals(c, s, b, vs) else s;
      if s.phase.vals[b].Writing? { PutValsTorn(c, s, b, vs); }
      if s.phase.keys[b].Writing? { PutKeysTorn(c, s1, b, ks); }
    case _ => PhaseStep(c, s, a);
  }

  lemma {:induction false} RunInv(c: Layout, run: seq<State>)
    requires IsRun(c, run)
    ensures Inv(c, run[|run| - 1])
  {
    if |run| == 1 {
      forall b | 0 <= b < c.Buckets() ensures BucketInv(c, ViewOf(c, run[0], b)) {
        assert Base(0, c.valSlots) == 0 && Base(0, c.keySlots) == 0;
      }
    } else {
      RunInv(c, run[..|run| - 1]);
      var s := run[|run| - 2];
      assert Shape(c, s) && Step(c, s, run[|run| - 2 + 1]);
      var a :| Enabled(c, s, a) && run[|run| - 1] == Next(c, s, a);
      StepInv(c, s, a);
    }
  }

  // ---------- What every run guarantees ----------

  /** What BuildIndex reads for a bucket, entry i's key beside the value a reader fetches for it. */
  ghost function Recovered(c: Layout, s: State, b: nat): seq<Entry>
    requires Shape(c, s) && b < c.Buckets()
  {
    seq(s.cnt[b], i requires 0 <= i < s.cnt[b] => Entry(At(c, s.keyFiles, b, i), At(c, s.valFiles, b, i)))
  }

  /**
   Crash safety: however the writers interleave, and wherever they or any number of recoveries are killed, a
   store that opens holds in every bucket exactly the entries whose count increment took place, in order.
   */
  lemma OpenRecoversLog(c: Layout, s: State, b: nat)
    requires Reachable(c, s) && s.phase.Open?
    ensures Shape(c, s)
    ensures b < c.Buckets() ==> |s.log[b]| == s.cnt[b] && Recovered(c, s, b) == s.log[b]
    ensures b < c.Buckets() ==> forall i :: 0 <= i < |s.log[b]| ==> InBucket(s.log[b][i].key, b)
  {
    var run :| IsRun(c, run) && run[|run| - 1] == s;
    RunInv(c, run);
    if b < c.Buckets() {
      var v := ViewOf(c, s, b);
      assert BucketInv(c, v) && Routed(s.log[b], s.writer[b], b);
      forall i | 0 <= i < s.cnt[b] ensures Recovered(c, s, b)[i] == s.log[b][i] {
        assert v.vals[i] == v.log[i].value && v.keys[i] == v.log[i].key;
      }
    }
  }

  /** Bucket b's log in state s is the beginning of its log in state s'. */
  ghost predicate Extends(c: Layout, s: State, s': State, b: nat) {
    Shape(c, s) && Shape(c, s') && b < c.Buckets() && s.log[b] <= s'.log[b]
  }

  lemma ExtendsOn(c: Layout, s: State, m: State, s': State, b: nat)
    requires Extends(c, s, m, b) && Extends(c, m, s', b)
    ensures Extends(c, s, s', b)
  {
  }

  lemma {:induction false} ExtendsChain(c: Layout, run: seq<State>, i: nat, j: nat, b: nat)
    requires i <= j < |run| && Extends(c, run[i], run[i], b)
    requires forall k :: i <= k < j ==> Extends(c, run[k], run[k + 1], b)
    ensures Extends(c, run[i], run[j], b)
    decreases j
  {
    if i < j {
      ExtendsChain(c, run, i, j - 1, b);
      assert Extends(c, run[j - 1], run[j - 1 + 1], b);
      ExtendsOn(c, run[i], run[j - 1], run[j], b);
    }
  }

  /** Nothing counted is ever taken back: the log at one point of a run is the beginning of the log at any later one. */
  lemma LogOnlyGrows(c: Layout, run: seq<State>, i: nat, j: nat, b: nat)
    requires IsRun(c, run) && i <= j < |run| && b < c.Buckets()
    ensures Extends(c, run[i], run[j], b)
  {
    forall k | i <= k < j ensures Extends(c, run[k], run[k + 1], b) {
      StepExtends(c, run, k, b);
    }
    ShapeAt(c, run, i);
    ExtendsChain(c, run, i, j, b);
  }

  lemma StepExtends(c: Layout, run: seq<State>, k: nat, b: nat)
    requires IsRun(c, run) && k + 1 < |run| && b < c.Buckets()
    ensures Extends(c, run[k], run[k + 1], b)
  {
    StepAt(c, run, k);
    StepGrows(c, run[k], run[k + 1], b);
  }

  lemma StepAt(c: Layout, run: seq<State>, i: nat)
    requires IsRun(c, run) && i + 1 < |run|
    ensures Shape(c, run[i]) && Shape(c, run[i + 1]) && Step(c, run[i], run[i + 1])
  {
    ShapeAt(c, run, i + 1);
  }

  lemma StepGrows(c: Layout, s: State, s': State, b: nat)
    requires Shape(c, s) && Shape(c, s') && Step(c, s, s') && b < c.Buckets()
    ensures Extends(c, s, s', b)
  {
    var a :| Enabled(c, s, a) && s' == Next(c, s, a);
    LogStep(c, s, a, b);
  }

  lemma ShapeAt(c: Layout, run: seq<State>, i: nat)
    requires IsRun(c, run) && i < |run|
    ensures Shape(c, run[i])
  {
    if i == |run| - 1 { RunInv(c, run); }
  }

  /** A log grows by the entry whose count is being incremented. */
  lemma LogStep(c: Layout, s: State, a: Action, b: nat)
    requires Shape(c, s) && Enabled(c, s, a) && b < c.Buckets()
    ensures Next(c, s, a).log[b] ==
            if a == Advance(b) && s.writer[b].Counting? then s.log[b] + [s.writer[b].e] else s.log[b]
  {
  }

  // ---------- What callers wrote ----------

  /** A run with the actions that make it. */
  ghost predicate IsRunBy(c: Layout, run: seq<State>, acts: seq<Action>) {
    && |run| == |acts| + 1
    && Init(c, run[0])
    && forall i :: 0 <= i < |acts| ==> StepBy(c, run[i], acts[i], run[i + 1])
  }

  ghost predicate StepBy(c: Layout, s: State, a: Action, s': State) {
    Shape(c, s) && Enabled(c, s, a) && s' == Next(c, s, a)
  }

  /** Every run is one of these. */
  lemma RunHasActions(c: Layout, run: seq<State>) returns (acts: seq<Action>)
    requires IsRun(c, run)
    ensures IsRunBy(c, run, acts)
  {
    acts := ActionsTo(c, run, |run| - 1);
  }

  lemma {:induction false} ActionsTo(c: Layout, run: seq<State>, n: nat) returns (acts: seq<Action>)
    requires IsRun(c, run) && n < |run|
    ensures |acts| == n && forall i :: 0 <= i < n ==> StepBy(c, run[i], acts[i], run[i + 1])
  {
    if n == 0 {
      acts := [];
    } else {
      acts := ActionsTo(c, run, n - 1);
      var a := ActionAt(c, run, n - 1);
      acts := acts + [a];
    }
  }

  lemma ActionAt(c: Layout, run: seq<State>, i: nat) returns (a: Action)
    requires IsRun(c, run) && i + 1 < |run|
    ensures StepBy(c, run[i], a, run[i + 1])
  {
    StepAt(c, run, i);
    a := ActionOf(c, run[i], run[i + 1]);
  }

  lemma ActionOf(c: Layout, s: State, s': State) returns (a: Action)
    requires Shape(c, s) && Step(c, s, s')
    ensures StepBy(c, s, a, s')
  {
    a :| Enabled(c, s, a) && s' == Next(c, s, a);
  }

  lemma RunByIsRun(c: Layout, run: seq<State>, acts: seq<Action>)
    requires IsRunBy(c, run, acts)
    ensures IsRun(c, run)
  {
    forall i | 0 <= i < |run| - 1 ensures Shape(c, run[i]) && Step(c, run[i], run[i + 1]) {
      assert StepBy(c, run[i], acts[i], run[i + 1]);
    }
  }

  /** A bucket as its callers know it: the entry passed to the Write in progress, and those of finished Writes. */
  datatype Calls = Calls(pending: Option<Entry>, finished: seq<Entry>)

  /**
   What one action makes of the calls, s' being the state after it: a Write begins with its arguments, it is
   finished when its critical section ends, and a kill before that forgets it.
   */
  ghost function CallsNext(k: Calls, a: Action, s': State, b: nat): Calls {
    match a
    case Begin(x, e) => if x == b then k.(pending := Some(e)) else k
    case Advance(x) =>
      if x == b && b < |s'.writer| && s'.writer[b].Free? && k.pending.Some?
      then Calls(None, k.finished + [k.pending.value])
      else k
    case Kill => k.(pending := None)
    case _ => k
  }

  /** The calls after a whole run, from its actions and the ends of its critical sections alone. */
  ghost function CallsOf(run: seq<State>, acts: seq<Action>, b: nat): Calls
    requires |run| == |acts| + 1
    decreases |acts|
  {
    if acts == [] then Calls(None, [])
    else
      var n := |acts| - 1;
      var before := CallsOf(run[..n + 1], acts[..n], b);
      CallsNext(before, acts[n], run[n + 1], b)
  }

  /** The writer carries the entry it was called with until the section ends or the process is killed. */
  ghost predicate CarriesOn(a: Action, w: Writer, w': Writer, b: nat) {
    if a.Begin? && a.b == b then !w'.Free? && w'.e == a.e
    else if a.Advance? && a.b == b then !w.Free? && (w'.Free? <==> w.Counting?) && (!w'.Free? ==> w'.e == w.e)
    else if a.Kill? then w'.Free?
    else w' == w
  }

  lemma AdvanceCarriesOn(c: Layout, s: State, x: nat, b: nat)
    requires Shape(c, s) && Enabled(c, s, Advance(x)) && b < c.Buckets()
    ensures |Next(c, s, Advance(x)).writer| == c.Buckets()
    ensures CarriesOn(Advance(x), s.writer[b], Next(c, s, Advance(x)).writer[b], b)
  {
  }

  lemma WriterKeepsEntry(c: Layout, s: State, a: Action, b: nat)
    requires Shape(c, s) && Enabled(c, s, a) && b < c.Buckets()
    ensures |Next(c, s, a).writer| == c.Buckets()
    ensures CarriesOn(a, s.writer[b], Next(c, s, a).writer[b], b)
  {
    if a.Advance? { AdvanceCarriesOn(c, s, a.b, b); }
  }

  /** Between the calls and the state: the pending call is the writer's, the finished ones are the log. */
  ghost predicate Agrees(c: Layout, s: State, k: Calls, b: nat) {
    && Shape(c, s) && b < c.Buckets()
    && k.finished == s.log[b]
    && k.pending == if s.writer[b].Free? then None else Some(s.writer[b].e)
  }

  lemma {:induction false} CallsAgree(c: Layout, run: seq<State>, acts: seq<Action>, b: nat)
    requires IsRunBy(c, run, acts) && b < c.Buckets()
    ensures Agrees(c, run[|acts|], CallsOf(run, acts, b), b)
    decreases |acts|
  {
    if acts != [] {
      var n := |acts| - 1;
      BeforeLast(c, run, acts);
      CallsAgree(c, run[..n + 1], acts[..n], b);
      ShapeLast(c, run, acts);
      assert StepBy(c, run[n], acts[n], run[n + 1]);
      AgreesStep(c, run[n], acts[n], CallsOf(run[..n + 1], acts[..n], b), b);
    }
  }

  lemma BeforeLast(c: Layout, run: seq<State>, acts: seq<Action>)
    requires IsRunBy(c, run, acts) && acts != []
    ensures IsRunBy(c, run[..|acts|], acts[..|acts| - 1])
  {
    forall i | 0 <= i < |acts| - 1 ensures StepBy(c, run[..|acts|][i], acts[..|acts| - 1][i], run[..|acts|][i + 1]) {
      assert StepBy(c, run[i], acts[i], run[i + 1]);
    }
  }

  lemma ShapeLast(c: Layout, run: seq<State>, acts: seq<Action>)
    requires IsRunBy(c, run, acts)
    ensures Shape(c, run[|acts|])
  {
    RunByIsRun(c, run, acts);
    ShapeAt(c, run, |acts|);
  }

  lemma AgreesStep(c: Layout, s: State, a: Action, k: Calls, b: nat)
    requires Shape(c, s) && Enabled(c, s, a) && Agrees(c, s, k, b) && Shape(c, Next(c, s, a))
    ensures Agrees(c, Next(c, s, a), CallsNext(k, a, Next(c, s, a), b), b)
  {
    WriterKeepsEntry(c, s, a, b);
    LogStep(c, s, a, b);
  }

  /**
   Whatever is written, killed and recovered: a bucket's log is exactly the entries that callers passed to the
   Writes that finished, in order.
   */
  lemma LogIsWhatWasWritten(c: Layout, run: seq<State>, acts: seq<Action>, b: nat)
    requires IsRunBy(c, run, acts) && b < c.Buckets()
    ensures Shape(c, run[|acts|]) && run[|acts|].log[b] == CallsOf(run, acts, b).finished
  {
    CallsAgree(c, run, acts, b);
  }

  // ---------- Writes finish ----------

  ghost predicate Sound(c: Layout, s: State) { Shape(c, s) && PhaseOk(s) }

  lemma ReachableSound(c: Layout, s: State)
    requires Reachable(c, s)
    ensures Sound(c, s)
  {
    var run :| IsRun(c, run) && run[|run| - 1] == s;
    RunInv(c, run);
  }

  /** n steps of bucket b's writer lead from s to s'. */
  ghost predicate Advances(c: Layout, s: State, b: nat, n: nat, s': State)
    decreases n
  {
    if n == 0 then s' == s
    else Shape(c, s) && Enabled(c, s, Advance(b)) && Advances(c, Next(c, s, Advance(b)), b, n - 1, s')
  }

  /** How many more steps a Write takes at most. */
  function Left(w: Writer): nat {
    match w
    case Free => 0
    case Counting(_) => 1
    case KeyWriting(_) => 2
    case KeyStoring(_) => 3
    case ValWriting(_) => 4
    case Copying(_) => 5
  }

  lemma AdvanceGoesOn(c: Layout, s: State, b: nat)
    requires Shape(c, s) && Enabled(c, s, Advance(b))
    ensures var s' := Next(c, s, Advance(b));
            && |s'.writer| == |s'.log| == |s'.cnt| == c.Buckets() && Left(s'.writer[b]) < Left(s.writer[b])
            && s'.phase == s.phase
            && s'.log == if s.writer[b].Counting? then s.log[b := s.log[b] + [s.writer[b].e]] else s.log
  {
  }

  /** A Write that is left alone finishes, and its entry is then the last of its bucket's log. */
  lemma {:induction false} WriteFinishes(c: Layout, s: State, b: nat) returns (n: nat, s': State)
    requires Sound(c, s) && s.phase.Running? && b < c.Buckets() && !s.writer[b].Free?
    ensures n <= Left(s.writer[b]) && Advances(c, s, b, n, s')
    ensures Sound(c, s') && s'.writer[b].Free? && s'.log == s.log[b := s.log[b] + [s.writer[b].e]]
    decreases Left(s.writer[b])
  {
    var next := Next(c, s, Advance(b));
    KeepShape(c, s, Advance(b));
    AdvanceGoesOn(c, s, b);
    AdvanceCarriesOn(c, s, b, b);
    if s.writer[b].Counting? {
      n, s' := 0, next;
    } else {
      n, s' := WriteFinishes(c, next, b);
    }
    n := n + 1;
  }

  /** So a whole Write, called with e on a bucket with room, appends exactly e within six steps. */
  lemma WriteAppends(c: Layout, s: State, b: nat, e: Entry) returns (n: nat, s': State)
    requires Reachable(c, s) && Shape(c, s) && e.key < KEY_RANGE && b == BucketId(e.key) < c.Buckets()
    requires s.phase.Running? && s.writer[b].Free? && s.cnt[b] < c.region
    ensures Enabled(c, s, Begin(b, e))
    ensures n <= 5 && Advances(c, Next(c, s, Begin(b, e)), b, n, s')
    ensures Shape(c, s') && s'.writer[b].Free? && s'.log == s.log[b := s.log[b] + [e]]
  {
    ReachableSound(c, s);
    var next := Next(c, s, Begin(b, e));
    KeepShape(c, s, Begin(b, e));
    WriterKeepsEntry(c, s, Begin(b, e), b);
    assert next.log == s.log && next.phase == s.phase;
    n, s' := WriteFinishes(c, next, b);
  }

  // ---------- Recoveries finish ----------

  /** Steps of one recovery that lead from s to s': no kill, no Write. */
  ghost predicate Recovers(c: Layout, s: State, acts: seq<Action>, s': State)
    decreases |acts|
  {
    if acts == [] then s' == s
    else
      && !acts[0].Kill? && !acts[0].Begin? && !acts[0].Advance?
      && Shape(c, s) && Enabled(c, s, acts[0]) && Recovers(c, Next(c, s, acts[0]), acts[1..], s')
  }

  lemma RecoversFirst(c: Layout, s: State, a: Action, rest: seq<Action>, s': State)
    requires Shape(c, s) && Enabled(c, s, a) && !a.Kill? && !a.Begin? && !a.Advance?
    requires Recovers(c, Next(c, s, a), rest, s')
    ensures Recovers(c, s, [a] + rest, s')
  {
    assert ([a] + rest)[1..] == rest;
  }

  /** How many flush steps remain for one buffer. */
  function ToDo(p: Progress): nat {
    match p
    case Todo => 2
    case Writing => 1
    case Done => 0
  }

  function AllToDo(ps: seq<Progress>): nat {
    if ps == [] then 0 else ToDo(ps[0]) + AllToDo(ps[1..])
  }

  lemma {:induction false} LessToDo(ps: seq<Progress>, b: nat, p: Progress)
    requires b < |ps| && ToDo(p) < ToDo(ps[b])
    ensures AllToDo(ps[b := p]) < AllToDo(ps)
  {
    if b == 0 {
      assert ps[0 := p][1..] == ps[1..];
    } else {
      LessToDo(ps[1..], b - 1, p);
      assert ps[b := p][1..] == ps[1..][b - 1 := p];
    }
  }

  lemma FlushGoesOn(c: Layout, s: State, a: Action)
    requires Shape(c, s) && Enabled(c, s, a) && (a.FlushVal? || a.FlushKey?)
    ensures var s' := Next(c, s, a);
            && s'.phase.Flushing? && s'.log == s.log
            && AllToDo(s'.phase.vals) + AllToDo(s'.phase.keys) < AllToDo(s.phase.vals) + AllToDo(s.phase.keys)
  {
    var s' := Next(c, s, a);
    if a.FlushVal? {
      LessToDo(s.phase.vals, a.b, s'.phase.vals[a.b]);
    } else {
      LessToDo(s.phase.keys, a.b, s'.phase.keys[a.b]);
    }
  }

  /** A flush that is not interrupted ends in an open store. */
  lemma {:induction false} FlushFinishes(c: Layout, s: State) returns (acts: seq<Action>, s': State)
    requires Sound(c, s) && s.phase.Flushing?
    ensures Recovers(c, s, acts, s') && s'.phase.Open? && s'.log == s.log
    decreases AllToDo(s.phase.vals) + AllToDo(s.phase.keys)
  {
    if b :| 0 <= b < c.Buckets() && !s.phase.vals[b].Done? {
      acts, s' := FlushOneMore(c, s, FlushVal(b));
    } else if b :| 0 <= b < c.Buckets() && !s.phase.keys[b].Done? {
      acts, s' := FlushOneMore(c, s, FlushKey(b));
    } else {
      acts, s' := Truncations(c, s);
    }
  }

  lemma {:induction false} FlushOneMore(c: Layout, s: State, a: Action) returns (acts: seq<Action>, s': State)
    requires Sound(c, s) && Enabled(c, s, a) && (a.FlushVal? || a.FlushKey?)
    ensures Recovers(c, s, acts, s') && s'.phase.Open? && s'.log == s.log
    decreases AllToDo(s.phase.vals) + AllToDo(s.phase.keys), 0
  {
    KeepShape(c, s, a);
    FlushGoesOn(c, s, a);
    acts, s' := FlushFinishes(c, Next(c, s, a));
    RecoversFirst(c, s, a, acts, s');
    acts := [a] + acts;
  }

  lemma Truncations(c: Layout, s: State) returns (acts: seq<Action>, s': State)
    requires Sound(c, s) && Enabled(c, s, TruncateVal)
    ensures Recovers(c, s, acts, s') && s'.phase.Open? && s'.log == s.log
  {
    KeepShape(c, s, TruncateVal);
    acts, s' := LastTruncation(c, Next(c, s, TruncateVal));
    RecoversFirst(c, s, TruncateVal, acts, s');
    acts := [TruncateVal] + acts;
  }

  lemma LastTruncation(c: Layout, s: State) returns (acts: seq<Action>, s': State)
    requires Shape(c, s) && Enabled(c, s, TruncateKey)
    ensures Recovers(c, s, acts, s') && s'.phase.Open? && s'.log == s.log
  {
    s' := Next(c, s, TruncateKey);
    acts := [TruncateKey];
    RecoversFirst(c, s, TruncateKey, [], s');
    assert acts + [] == acts;
  }

  /** A store that is down can always be reopened, with the logs it went down with. */
  lemma RecoveryFinishes(c: Layout, s: State) returns (acts: seq<Action>, s': State)
    requires Reachable(c, s) && s.phase.Down?
    ensures Recovers(c, s, acts, s') && s'.phase.Open? && s'.log == s.log
  {
    ReachableSound(c, s);
    KeepShape(c, s, Reopen);
    var next := Next(c, s, Reopen);
    if s.valBufLive {
      acts, s' := FlushFinishes(c, next);
    } else {
      acts, s' := [], next;
    }
    RecoversFirst(c, s, Reopen, acts, s');
    acts := [Reopen] + acts;
  }

  /** Wherever the process is killed, it can be reopened, with exactly the logs of that moment. */
  lemma KillLosesNothing(c: Layout, s: State) returns (acts: seq<Action>, s': State)
    requires Reachable(c, s) && Shape(c, s) && !s.phase.Down?
    ensures Enabled(c, s, Kill) && Recovers(c, Next(c, s, Kill), acts, s') && s'.phase.Open? && s'.log == s.log
  {
    ReachableSound(c, s);
    KeepShape(c, s, Kill);
    var run :| IsRun(c, run) && run[|run| - 1] == s;
    KillReached(c, run);
    acts, s' := RecoveryFinishes(c, Next(c, s, Kill));
  }

  lemma KillReached(c: Layout, run: seq<State>)
    requires IsRun(c, run) && Shape(c, run[|run| - 1]) && Enabled(c, run[|run| - 1], Kill)
    ensures Reachable(c, Next(c, run[|run| - 1], Kill))
  {
    var s' := Next(c, run[|run| - 1], Kill);
    var r := run + [s'];
    forall i | 0 <= i < |r| - 1 ensures Shape(c, r[i]) && Step(c, r[i], r[i + 1]) {
      if i < |run| - 1 { assert r[i] == run[i] && r[i + 1] == run[i + 1]; }
    }
    assert IsRun(c, r) && r[|r| - 1] == s';
  }

  /** Until a copy or a pwrite is over, its target may hold anything. */
  lemma TornAnyhow(c: Layout, s: State, b: nat, v: Value, vs: seq<Value>, ks: seq<Key>)
    requires Shape(c, s) && s.phase.Running? && b < c.Buckets() && |vs| == c.valSlots && |ks| == c.keySlots
    ensures s.writer[b].Copying? || s.writer[b].ValWriting? || s.writer[b].KeyWriting? ==> Enabled(c, s, Tear(b, v, vs, ks))
  {
  }

  /** A reopened store needs no further flush, so nothing that a recovery wrote is written again. */
  lemma ReopenAfterRecovery(c: Layout, s: State)
    requires Reachable(c, s) && s.phase.Open?
    ensures Shape(c, s)
    ensures var down := Next(c, s, Kill);
            && Shape(c, down) && Enabled(c, down, Reopen)
            && var again := Next(c, down, Reopen);
               again.phase.Open? && again.keyFiles == s.keyFiles && again.valFiles == s.valFiles && again.cnt == s.cnt
  {
    OpenRecoversLog(c, s, 0);
    var run :| IsRun(c, run) && run[|run| - 1] == s;
    RunInv(c, run);
    KeepShape(c, s, Kill);
  }

  /** Re-running a bucket's flush after it completed leaves the files exactly as they are. */
  lemma FlushIdempotent(c: Layout, s: State, b: nat, vs: seq<Value>, ks: seq<Key>)
    requires Shape(c, s) && b < c.Buckets() && |vs| == s.cnt[b] % c.valSlots && |ks| == c.keySlots
    ensures PutVals(c, PutVals(c, s, b, vs), b, vs) == PutVals(c, s, b, vs)
    ensures PutKeys(c, PutKeys(c, s, b, ks), b, ks) == PutKeys(c, s, b, ks)
  {
    FlushFits(c, s.cnt[b]);
    WriteTwice(c, s.valFiles, b, Base(s.cnt[b], c.valSlots), vs);
    if s.cnt[b] % c.keySlots != 0 { WriteTwice(c, s.keyFiles, b, Base(s.cnt[b], c.keySlots), ks); }
  }

  lemma WriteTwice<T>(c: Layout, files: seq<seq<T>>, b: nat, off: nat, data: seq<T>)
    requires c.Valid() && FilesOk(c, files) && b < c.Buckets() && off + |data| <= c.region
    ensures WriteBucket(c, WriteBucket(c, files, b, off, data), b, off, data) == WriteBucket(c, files, b, off, data)
  {
    AddressInFile(c, b, off, |data|);
    var (fid, foff) := Address(c, b, off);
    var once := WriteBucket(c, files, b, off, data);
    assert once[fid][..foff] == files[fid][..foff];
    assert once[fid][foff + |data|..] == files[fid][foff + |data|..];
  }

  /** The region bound is exact: one slot past it lies in the next bucket of the same file. */
  lemma PastRegionIsNextBucket(c: Layout, b: nat)
    requires c.Valid() && b % c.perFile + 1 < c.perFile
    ensures Address(c, b, c.region) == Address(c, b + 1, 0)
  {
    DivUnique(b + 1, c.perFile, b / c.perFile, b % c.perFile + 1);
    assert c.region * (b % c.perFile) + c.region == c.region * (b % c.perFile + 1);
  }

  /** The engine's constants satisfy what the layout needs. */
  lemma EngineLayout()
    ensures Layout(512, 4, 68 * 1024 * 1024 / 1024 / 4096 * 4096, 1024 / 32, 32).Valid()
    ensures Layout(512, 4, 68 * 1024 * 1024 / 1024 / 4096 * 4096, 1024 / 32, 32).Buckets() == 1024
    ensures Layout(512, 4, 68 * 1024 * 1024 / 1024 / 4096 * 4096, 1024 / 32, 32).region == 69632
  {
  }
}
