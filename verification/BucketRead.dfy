/**
 ReadBucketToBuffer and its I/O workers: a bucket's values are read in blocks, with one job at a time per
 worker.  The polling loop, the job queues and the workers interleave freely; a pread in progress may leave
 anything in its part of the buffer.  Sizes and offsets are counted in values.
 */
module BucketRead {
  import opened Arith
  import opened Options
  import opened Sums

  type Value = nat
  /** agg: VAL_AGG_NUM; depth: RANGE_QUEUE_DEPTH; region: the bucket's part of the value file. */
  datatype Config = Config(agg: nat, depth: nat, region: seq<Value>, count: nat) {
    predicate Valid() { agg >= 1 && depth >= 1 && count <= |region| }

    /** total_block_num */
    function Total(): nat
      requires Valid()
    {
      if count % agg == 0 then count / agg else count / agg + 1
    }

    /** The size of the job for block j. */
    function Size(j: nat): nat
      requires Valid()
    {
      if j + 1 == Total() then (if count % agg == 0 then agg else count % agg) else agg
    }
  }

  datatype Status = WorkerIdle | WorkerSubmitted | WorkerCompleted

  /** Where the polling thread is; io is its loop variable. */
  datatype Poller =
    | Test                            // while (completed < total)
    | Peek(io: nat)                   // status == COMPLETED ?
    | Submit(io: nat)                 // anything left, and status == IDLE ?
    | Enqueue(io: nat, job: nat)      // status is SUBMITTED; hand the job over
    | Exit

  datatype State = State(status: seq<Status>, tasks: seq<seq<nat>>, busy: seq<Option<nat>>,
                         poller: Poller, submitted: nat, completed: nat, buffer: seq<Value>)

  datatype Action = Poll | Start(io: nat) | Tear(io: nat, junk: seq<Value>) | Finish(io: nat)

  ghost predicate Init(c: Config, s: State) {
    && c.Valid()
    && |s.status| == |s.tasks| == |s.busy| == c.depth
    && (forall io :: 0 <= io < c.depth ==> s.status[io] == WorkerIdle && s.tasks[io] == [] && s.busy[io] == None)
    && s.poller == Test && s.submitted == s.completed == 0
    && |s.buffer| >= c.count
  }

  predicate Sized(c: Config, s: State) {
    && c.Valid()
    && |s.status| == |s.tasks| == |s.busy| == c.depth
    && |s.buffer| >= c.count
    && (match s.poller
        case Peek(io) => io < c.depth
        case Submit(io) => io < c.depth
        case Enqueue(io, _) => io < c.depth
        case _ => true)
  }

  /** Part of the bucket that block j covers. */
  predicate InBounds(c: Config, j: nat)
    requires c.Valid()
  {
    j * c.agg + c.Size(j) <= c.count
  }

  predicate Enabled(c: Config, s: State, a: Action)
    requires Sized(c, s)
  {
    match a
    case Poll => !s.poller.Exit?
    case Start(io) => io < c.depth && s.busy[io].None? && s.tasks[io] != []
    case Tear(io, junk) => io < c.depth && s.busy[io].Some? && InBounds(c, s.busy[io].value) && |junk| == c.Size(s.busy[io].value)
    case Finish(io) => io < c.depth && s.busy[io].Some? && InBounds(c, s.busy[io].value)
  }

  function After(c: Config, io: nat): Poller { if io + 1 < c.depth then Peek(io + 1) else Test }

  function Put(buffer: seq<Value>, off: nat, data: seq<Value>): (r: seq<Value>)
    requires off + |data| <= |buffer|
    ensures |r| == |buffer|
    ensures forall i :: 0 <= i < |buffer| ==> r[i] == if off <= i < off + |data| then data[i - off] else buffer[i]
  {
    buffer[..off] + data + buffer[off + |data|..]
  }

  function PollNext(c: Config, s: State): State
    requires Sized(c, s) && Enabled(c, s, Poll)
  {
    match s.poller
    case Test => s.(poller := if s.completed < c.Total() then Peek(0) else Exit)
    case Peek(io) =>
      if s.status[io].WorkerCompleted? then
        s.(poller := Submit(io), completed := s.completed + 1, status := s.status[io := WorkerIdle])
      else s.(poller := Submit(io))
    case Submit(io) =>
      if s.submitted < c.Total() && s.status[io].WorkerIdle? then
        s.(poller := Enqueue(io, s.submitted), status := s.status[io := WorkerSubmitted])
      else s.(poller := After(c, io))
    case Enqueue(io, job) =>
      s.(poller := After(c, io), tasks := s.tasks[io := s.tasks[io] + [job]], submitted := s.submitted + 1)
  }

  function Next(c: Config, s: State, a: Action): State
    requires Sized(c, s) && Enabled(c, s, a)
  {
    match a
    case Poll => PollNext(c, s)
    case Start(io) => s.(busy := s.busy[io := Some(s.tasks[io][0])], tasks := s.tasks[io := s.tasks[io][1..]])
    case Tear(io, junk) => s.(buffer := Put(s.buffer, s.busy[io].value * c.agg, junk))
    case Finish(io) =>
      var off := s.busy[io].value * c.agg;
      s.(buffer := Put(s.buffer, off, c.region[off..off + c.Size(s.busy[io].value)]),
         busy := s.busy[io := None], status := s.status[io := WorkerCompleted])
  }

  ghost predicate Step(c: Config, s: State, s': State) {
    exists a :: Sized(c, s) && Enabled(c, s, a) && s' == Next(c, s, a)
  }

  ghost predicate IsRun(c: Config, run: seq<State>) {
    && |run| > 0
    && Init(c, run[0])
    && forall i :: 0 <= i < |run| - 1 ==> Step(c, run[i], run[i + 1])
  }

  ghost predicate Reachable(c: Config, s: State) {
    exists run :: IsRun(c, run) && run[|run| - 1] == s
  }

  // ---------- Blocks partition the bucket ----------

  /** Every block lies inside the bucket, is not empty, and ends where the next begins or the bucket ends. */
  lemma BlockBounds(c: Config, j: nat)
    requires c.Valid() && j < c.Total()
    ensures InBounds(c, j) && c.Size(j) >= 1
    ensures j + 1 < c.Total() ==> j * c.agg + c.Size(j) == (j + 1) * c.agg
    ensures j + 1 == c.Total() ==> j * c.agg + c.Size(j) == c.count
  {
    var q, r := c.count / c.agg, c.count % c.agg;
    assert c.count == q * c.agg + r;
    assert (j + 1) * c.agg == j * c.agg + c.agg;
    if j + 1 < q {
      MultiplesApart(j + 1, q, c.agg);
    }
  }

  /** The block a position falls into. */
  lemma BlockOfPosition(c: Config, i: nat)
    requires c.Valid() && i < c.count
    ensures i / c.agg < c.Total()
    ensures (i / c.agg) * c.agg <= i < (i / c.agg) * c.agg + c.Size(i / c.agg)
  {
    var j, q := i / c.agg, c.count / c.agg;
    assert i == j * c.agg + i % c.agg && c.count == q * c.agg + c.count % c.agg;
    if j > q { MultiplesApart(q, j, c.agg); }
  }

  lemma BlocksApart(c: Config, j: nat, k: nat)
    requires c.Valid() && j < c.Total() && k < c.Total() && j != k
    ensures j * c.agg + c.Size(j) <= k * c.agg || k * c.agg + c.Size(k) <= j * c.agg
  {
    BlockBounds(c, j);
    BlockBounds(c, k);
    if j < k {
      if j + 1 < k { MultiplesApart(j + 1, k, c.agg); }
    } else {
      if k + 1 < j { MultiplesApart(k + 1, j, c.agg); }
    }
  }

  // ---------- The invariant ----------

  /** The job worker io is responsible for, wherever it is between claim and completion. */
  function Job(s: State, io: nat): Option<nat>
    requires io < |s.tasks| && io < |s.busy|
  {
    if s.poller.Enqueue? && s.poller.io == io then Some(s.poller.job)
    else if s.tasks[io] != [] then Some(s.tasks[io][0])
    else s.busy[io]
  }

  /** Jobs claimed so far. */
  function Claimed(s: State): nat { s.submitted + if s.poller.Enqueue? then 1 else 0 }

  /** A worker has at most one job, between its claim and its completion report. */
  ghost predicate WorkerOk(s: State, io: nat)
    requires io < |s.tasks| && io < |s.busy| && io < |s.status|
  {
    var claiming := s.poller.Enqueue? && s.poller.io == io;
    if s.status[io].WorkerSubmitted? then
      || (claiming && s.tasks[io] == [] && s.busy[io].None?)
      || (!claiming && |s.tasks[io]| == 1 && s.busy[io].None?)
      || (!claiming && s.tasks[io] == [] && s.busy[io].Some?)
    else !claiming && s.tasks[io] == [] && s.busy[io].None?
  }

  function Occupied(status: seq<Status>): (r: seq<int>)
    ensures |r| == |status| && forall io :: 0 <= io < |status| ==> r[io] == if status[io].WorkerIdle? then 0 else 1
  {
    seq(|status|, io requires 0 <= io < |status| => if status[io].WorkerIdle? then 0 else 1)
  }

  ghost predicate BlockRead(c: Config, s: State, j: nat)
    requires Sized(c, s) && j < c.Total()
  {
    forall i :: j * c.agg <= i < j * c.agg + c.Size(j) && i < c.count ==> s.buffer[i] == c.region[i]
  }

  ghost predicate SomeWorkerHas(s: State, j: nat)
    requires |s.tasks| == |s.busy|
  {
    exists io :: 0 <= io < |s.tasks| && Job(s, io) == Some(j)
  }

  ghost predicate Inv(c: Config, s: State) {
    && Sized(c, s)
    && Claimed(s) <= c.Total()
    && (s.poller.Enqueue? ==> s.poller.job == s.submitted)
    && s.completed + Sum(Occupied(s.status)) == Claimed(s)
    && (forall io :: 0 <= io < c.depth ==> WorkerOk(s, io))
    && Jobs(c, s)
    && (forall j :: 0 <= j < Claimed(s) ==> BlockRead(c, s, j) || SomeWorkerHas(s, j))
    && (s.poller.Exit? ==> s.completed >= c.Total())
  }

  /** Jobs in the hands of workers are claimed blocks, all different. */
  ghost predicate Jobs(c: Config, s: State)
    requires Sized(c, s)
  {
    && (forall io :: 0 <= io < c.depth && Job(s, io).Some? ==> Job(s, io).value < Claimed(s))
    && (forall io, io' :: 0 <= io < io' < c.depth && Job(s, io).Some? ==> Job(s, io) != Job(s, io'))
  }

  // ---------- Every step keeps it ----------

  /** A job in hand is a block of the bucket. */
  lemma BusyInBounds(c: Config, s: State, io: nat)
    requires Inv(c, s) && io < c.depth && s.busy[io].Some?
    ensures Job(s, io) == s.busy[io] && s.busy[io].value < c.Total() && InBounds(c, s.busy[io].value)
  {
    assert WorkerOk(s, io);
    assert Job(s, io) == s.busy[io];
    BlockBounds(c, s.busy[io].value);
  }

  lemma OccupiedMove(status: seq<Status>, io: nat, x: Status)
    requires io < |status|
    ensures Sum(Occupied(status[io := x])) ==
            Sum(Occupied(status)) - (if status[io].WorkerIdle? then 0 else 1) + (if x.WorkerIdle? then 0 else 1)
  {
    SumChange(Occupied(status), Occupied(status[io := x]), io);
  }

  /** If no job changes hands and no buffer slot changes, nothing about blocks changes. */
  lemma SameJobs(c: Config, s: State, s': State)
    requires Inv(c, s) && Sized(c, s') && Claimed(s') == Claimed(s) && s'.buffer == s.buffer
    requires forall io :: 0 <= io < c.depth ==> Job(s', io) == Job(s, io)
    ensures Jobs(c, s')
    ensures forall j :: 0 <= j < Claimed(s') ==> BlockRead(c, s', j) || SomeWorkerHas(s', j)
  {
    forall j | 0 <= j < Claimed(s') ensures BlockRead(c, s', j) || SomeWorkerHas(s', j) {
      if BlockRead(c, s, j) {
        assert BlockRead(c, s', j);
      } else {
        var io :| 0 <= io < |s.tasks| && Job(s, io) == Some(j);
        assert Job(s', io) == Some(j);
      }
    }
  }

  lemma WorkersStay(c: Config, s: State, s': State)
    requires Inv(c, s) && Sized(c, s') && s'.tasks == s.tasks && s'.busy == s.busy
    requires !s.poller.Enqueue? && !s'.poller.Enqueue?
    requires forall io :: 0 <= io < c.depth ==> (s'.status[io].WorkerSubmitted? <==> s.status[io].WorkerSubmitted?)
    ensures forall io :: 0 <= io < c.depth ==> WorkerOk(s', io)
    ensures forall io :: 0 <= io < c.depth ==> Job(s', io) == Job(s, io)
  {
    forall io | 0 <= io < c.depth ensures WorkerOk(s', io) { assert WorkerOk(s, io); }
  }

  lemma PollTestPeek(c: Config, s: State)
    requires Inv(c, s) && (s.poller.Test? || s.poller.Peek?)
    ensures Inv(c, Next(c, s, Poll))
  {
    var s' := Next(c, s, Poll);
    if s.poller.Peek? && s.status[s.poller.io].WorkerCompleted? { OccupiedMove(s.status, s.poller.io, WorkerIdle); }
    WorkersStay(c, s, s');
    SameJobs(c, s, s');
  }

  lemma PollSkip(c: Config, s: State)
    requires Inv(c, s) && s.poller.Submit? && !(s.submitted < c.Total() && s.status[s.poller.io].WorkerIdle?)
    ensures Inv(c, Next(c, s, Poll))
  {
    var s' := Next(c, s, Poll);
    WorkersStay(c, s, s');
    SameJobs(c, s, s');
  }

  lemma PollClaim(c: Config, s: State)
    requires Inv(c, s) && s.poller.Submit? && s.submitted < c.Total() && s.status[s.poller.io].WorkerIdle?
    ensures Inv(c, Next(c, s, Poll))
  {
    var s', me := Next(c, s, Poll), s.poller.io;
    OccupiedMove(s.status, me, WorkerSubmitted);
    assert WorkerOk(s, me);
    forall io | 0 <= io < c.depth ensures WorkerOk(s', io) && (io != me ==> Job(s', io) == Job(s, io)) {
      assert WorkerOk(s, io);
    }
    assert Job(s', me) == Some(s.submitted);
    forall j | 0 <= j < Claimed(s') ensures BlockRead(c, s', j) || SomeWorkerHas(s', j) {
      if j < Claimed(s) {
        if BlockRead(c, s, j) { assert BlockRead(c, s', j); }
        else {
          var io :| 0 <= io < |s.tasks| && Job(s, io) == Some(j);
          assert Job(s', io) == Some(j);
        }
      }
    }
  }

  lemma PollEnqueue(c: Config, s: State)
    requires Inv(c, s) && s.poller.Enqueue?
    ensures Inv(c, Next(c, s, Poll))
  {
    var s', me := Next(c, s, Poll), s.poller.io;
    assert WorkerOk(s, me);
    forall io | 0 <= io < c.depth ensures WorkerOk(s', io) && Job(s', io) == Job(s, io) {
      assert WorkerOk(s, io);
    }
    SameJobs(c, s, s');
  }

  lemma StartStep(c: Config, s: State, me: nat)
    requires Inv(c, s) && Enabled(c, s, Start(me))
    ensures Inv(c, Next(c, s, Start(me)))
  {
    var s' := Next(c, s, Start(me));
    assert WorkerOk(s, me);
    forall io | 0 <= io < c.depth ensures WorkerOk(s', io) && Job(s', io) == Job(s, io) {
      assert WorkerOk(s, io);
    }
    SameJobs(c, s, s');
  }

  /** Writing one worker's block leaves every other block as it was. */
  lemma OtherBlocksKept(c: Config, s: State, me: nat, data: seq<Value>, j: nat)
    requires Inv(c, s) && me < c.depth && s.busy[me].Some? && |data| == c.Size(s.busy[me].value)
    requires j < c.Total() && j != s.busy[me].value && BlockRead(c, s, j)
    ensures InBounds(c, s.busy[me].value) && s.busy[me].value < c.Total()
    ensures forall i :: j * c.agg <= i < j * c.agg + c.Size(j) && i < c.count ==>
              Put(s.buffer, s.busy[me].value * c.agg, data)[i] == c.region[i]
  {
    BusyInBounds(c, s, me);
    BlocksApart(c, s.busy[me].value, j);
  }

  lemma TearStep(c: Config, s: State, a: Action)
    requires Inv(c, s) && Enabled(c, s, a) && a.Tear?
    ensures Inv(c, Next(c, s, a))
  {
    var s', me := Next(c, s, a), a.io;
    BusyInBounds(c, s, me);
    forall io | 0 <= io < c.depth ensures WorkerOk(s', io) && Job(s', io) == Job(s, io) {
      assert WorkerOk(s, io);
    }
    forall j | 0 <= j < Claimed(s') ensures BlockRead(c, s', j) || SomeWorkerHas(s', j) {
      if j == s.busy[me].value { assert Job(s', me) == Some(j); }
      else if BlockRead(c, s, j) { OtherBlocksKept(c, s, me, a.junk, j); }
      else {
        var io :| 0 <= io < |s.tasks| && Job(s, io) == Some(j);
        assert Job(s', io) == Some(j);
      }
    }
  }

  lemma FinishWorkers(c: Config, s: State, me: nat)
    requires Inv(c, s) && Enabled(c, s, Finish(me))
    ensures Sized(c, Next(c, s, Finish(me))) && Claimed(Next(c, s, Finish(me))) == Claimed(s)
    ensures forall io :: 0 <= io < c.depth ==> WorkerOk(Next(c, s, Finish(me)), io)
    ensures forall io :: 0 <= io < c.depth && io != me ==> Job(Next(c, s, Finish(me)), io) == Job(s, io)
    ensures Job(Next(c, s, Finish(me)), me) == None
    ensures s.completed + Sum(Occupied(Next(c, s, Finish(me)).status)) == Claimed(s)
  {
    var s' := Next(c, s, Finish(me));
    BusyInBounds(c, s, me);
    assert WorkerOk(s, me);
    OccupiedMove(s.status, me, WorkerCompleted);
    forall io | 0 <= io < c.depth ensures WorkerOk(s', io) && (io != me ==> Job(s', io) == Job(s, io)) {
      assert WorkerOk(s, io);
    }
  }

  lemma FinishStep(c: Config, s: State, me: nat)
    requires Inv(c, s) && Enabled(c, s, Finish(me))
    ensures Inv(c, Next(c, s, Finish(me)))
  {
    var s' := Next(c, s, Finish(me));
    FinishWorkers(c, s, me);
    forall j | 0 <= j < Claimed(s') ensures BlockRead(c, s', j) || SomeWorkerHas(s', j) {
      FinishBlocks(c, s, me, j);
    }
  }

  lemma FinishBlocks(c: Config, s: State, me: nat, j: nat)
    requires Inv(c, s) && Enabled(c, s, Finish(me)) && Sized(c, Next(c, s, Finish(me))) && j < Claimed(s)
    ensures BlockRead(c, Next(c, s, Finish(me)), j) || SomeWorkerHas(Next(c, s, Finish(me)), j)
  {
    var s', k := Next(c, s, Finish(me)), s.busy[me].value;
    BusyInBounds(c, s, me);
    if j == k {
      FinishedBlock(c, s, me);
    } else if BlockRead(c, s, j) {
      OtherBlocksKept(c, s, me, c.region[k * c.agg..k * c.agg + c.Size(k)], j);
    } else {
      OtherWorkerKeeps(c, s, me, j);
    }
  }

  lemma OtherWorkerKeeps(c: Config, s: State, me: nat, j: nat)
    requires Inv(c, s) && Enabled(c, s, Finish(me)) && SomeWorkerHas(s, j) && Job(s, me) != Some(j)
    ensures SomeWorkerHas(Next(c, s, Finish(me)), j)
  {
    var io :| 0 <= io < |s.tasks| && Job(s, io) == Some(j);
    FinishWorkers(c, s, me);
    assert Job(Next(c, s, Finish(me)), io) == Some(j);
  }

  lemma FinishedBlock(c: Config, s: State, me: nat)
    requires Inv(c, s) && Enabled(c, s, Finish(me))
    ensures Sized(c, Next(c, s, Finish(me))) && s.busy[me].value < c.Total()
    ensures BlockRead(c, Next(c, s, Finish(me)), s.busy[me].value)
  {
    BusyInBounds(c, s, me);
  }

  lemma StepInv(c: Config, s: State, a: Action)
    requires Inv(c, s) && Enabled(c, s, a)
    ensures Inv(c, Next(c, s, a))
  {
    match a
    case Start(io) => StartStep(c, s, io);
    case Tear(_, _) => TearStep(c, s, a);
    case Finish(io) => FinishStep(c, s, io);
    case Poll =>
      if s.poller.Test? || s.poller.Peek? { PollTestPeek(c, s); }
      else if s.poller.Enqueue? { PollEnqueue(c, s); }
      else if s.submitted < c.Total() && s.status[s.poller.io].WorkerIdle? { PollClaim(c, s); }
      else { PollSkip(c, s); }
  }

  lemma {:induction false} RunInv(c: Config, run: seq<State>)
    requires IsRun(c, run)
    ensures Inv(c, run[|run| - 1])
  {
    if |run| == 1 {
      var s := run[0];
      SumConstant(Occupied(s.status), 0);
      forall io | 0 <= io < c.depth ensures Job(s, io) == None && WorkerOk(s, io) { }
    } else {
      RunInv(c, run[..|run| - 1]);
      var s := run[|run| - 2];
      assert Step(c, s, run[|run| - 2 + 1]);
      var a :| Sized(c, s) && Enabled(c, s, a) && run[|run| - 1] == Next(c, s, a);
      StepInv(c, s, a);
    }
  }

  lemma ReachableInv(c: Config, s: State)
    requires Reachable(c, s)
    ensures Inv(c, s)
  {
    var run :| IsRun(c, run) && run[|run| - 1] == s;
    RunInv(c, run);
  }

  // ---------- What every run guarantees ----------

  lemma AllIdleAtExit(c: Config, s: State)
    requires Inv(c, s) && s.poller.Exit?
    ensures s.submitted == s.completed == c.Total()
    ensures forall io :: 0 <= io < c.depth ==>
              s.status[io] == WorkerIdle && s.tasks[io] == [] && s.busy[io] == None && Job(s, io) == None
  {
    var occ := Occupied(s.status);
    SumNonNegative(occ);
    forall io | 0 <= io < c.depth
      ensures s.status[io] == WorkerIdle && s.tasks[io] == [] && s.busy[io] == None && Job(s, io) == None
    {
      assert occ[io] <= Sum(occ);
      assert WorkerOk(s, io);
    }
  }

  /** On exit all workers are idle with nothing queued, and the buffer is the bucket. */
  lemma ExitMeansRead(c: Config, s: State)
    requires Reachable(c, s) && s.poller.Exit?
    ensures Sized(c, s) && s.buffer[..c.count] == c.region[..c.count]
    ensures s.submitted == s.completed == c.Total()
    ensures forall io :: 0 <= io < c.depth ==> s.status[io] == WorkerIdle && s.tasks[io] == [] && s.busy[io] == None
  {
    ReachableInv(c, s);
    AllIdleAtExit(c, s);
    forall i | 0 <= i < c.count ensures s.buffer[i] == c.region[i] {
      PositionRead(c, s, i);
    }
  }

  lemma PositionRead(c: Config, s: State, i: nat)
    requires Inv(c, s) && s.poller.Exit? && i < c.count
    ensures s.buffer[i] == c.region[i]
  {
    AllIdleAtExit(c, s);
    BlockOfPosition(c, i);
    var j := i / c.agg;
    assert BlockRead(c, s, j) || SomeWorkerHas(s, j);
  }

  /** A worker never has more than one job queued or in progress, and no two workers share a block. */
  lemma OneJobPerWorker(c: Config, s: State, io: nat, io': nat)
    requires Reachable(c, s) && io < c.depth && io' < c.depth && io != io'
    ensures Sized(c, s)
    ensures |s.tasks[io]| + (if s.busy[io].Some? then 1 else 0) <= 1
    ensures s.status[io].WorkerIdle? || s.status[io].WorkerCompleted? ==> s.tasks[io] == [] && s.busy[io].None?
    ensures Job(s, io).Some? ==> Job(s, io) != Job(s, io') && Job(s, io).value < c.Total()
  {
    ReachableInv(c, s);
    assert WorkerOk(s, io) && WorkerOk(s, io');
    assert io < io' || io' < io;
  }

  /** Blocks are handed out in order 0, 1, 2, ...: each exactly once, and no more than there are. */
  lemma BlocksInOrder(c: Config, s: State)
    requires Reachable(c, s)
    ensures Sized(c, s) && s.submitted <= c.Total()
    ensures s.poller.Enqueue? ==> s.poller.job == s.submitted < c.Total()
    ensures Enabled(c, s, Poll) ==> Next(c, s, Poll).submitted == s.submitted + if s.poller.Enqueue? then 1 else 0
  {
    ReachableInv(c, s);
  }

  /** The loop never waits in vain: before it exits, a worker has something to do or the next scan will. */
  lemma NeverWaitsInVain(c: Config, s: State)
    requires Reachable(c, s) && !s.poller.Exit? && s.completed < c.Total()
    ensures Sized(c, s)
    ensures || s.poller.Enqueue?
            || (exists io :: 0 <= io < c.depth && (Enabled(c, s, Start(io)) || Enabled(c, s, Finish(io))))
            || (exists io :: 0 <= io < c.depth && s.status[io].WorkerCompleted?)
            || (exists io :: 0 <= io < c.depth && s.status[io].WorkerIdle? && s.submitted < c.Total())
  {
    ReachableInv(c, s);
    if !s.poller.Enqueue? {
      var occ := Occupied(s.status);
      SumNonNegative(occ);
      if Sum(occ) > 0 {
        var io :| 0 <= io < |occ| && occ[io] > 0;
        assert WorkerOk(s, io);
        if s.busy[io].Some? { BusyInBounds(c, s, io); }
        assert s.status[io].WorkerCompleted? || Enabled(c, s, Start(io)) || Enabled(c, s, Finish(io));
      } else {
        assert occ[0] <= Sum(occ);
        assert s.status[0].WorkerIdle? && s.submitted < c.Total();
      }
    }
  }

  // ---------- The read can always be finished ----------

  /** The actions lead from s to s'. */
  ghost predicate Path(c: Config, s: State, acts: seq<Action>, s': State)
    decreases |acts|
  {
    if acts == [] then s' == s
    else Sized(c, s) && Enabled(c, s, acts[0]) && Path(c, Next(c, s, acts[0]), acts[1..], s')
  }

  lemma PathFirst(c: Config, s: State, a: Action, acts: seq<Action>, s': State)
    requires Sized(c, s) && Enabled(c, s, a) && Path(c, Next(c, s, a), acts, s')
    ensures Path(c, s, [a] + acts, s')
  {
    assert ([a] + acts)[1..] == acts;
  }

  lemma {:induction false} PathJoin(c: Config, s: State, acts: seq<Action>, m: State, rest: seq<Action>, s': State)
    requires Path(c, s, acts, m) && Path(c, m, rest, s')
    ensures Path(c, s, acts + rest, s')
    decreases |acts|
  {
    if acts == [] {
      assert acts + rest == rest;
    } else {
      PathJoin(c, Next(c, s, acts[0]), acts[1..], m, rest, s');
      assert (acts + rest)[1..] == acts[1..] + rest;
    }
  }

  /** No worker has anything to do. */
  ghost predicate Quiet(c: Config, s: State)
    requires Sized(c, s)
  {
    forall io :: 0 <= io < c.depth ==> s.tasks[io] == [] && s.busy[io].None?
  }

  function Work(s: State): (r: seq<int>)
    requires |s.tasks| == |s.busy|
    ensures |r| == |s.tasks| && forall io :: 0 <= io < |r| ==> r[io] == 2 * |s.tasks[io]| + if s.busy[io].Some? then 1 else 0
  {
    seq(|s.tasks|, io requires 0 <= io < |s.tasks| => 2 * |s.tasks[io]| + if s.busy[io].Some? then 1 else 0)
  }

  lemma WorkGoesOn(c: Config, s: State, a: Action)
    requires Sized(c, s) && Enabled(c, s, a) && (a.Start? || a.Finish?)
    ensures var s' := Next(c, s, a);
            && |s'.tasks| == |s'.busy| && Sum(Work(s')) < Sum(Work(s))
            && s'.poller == s.poller && s'.submitted == s.submitted && s'.completed == s.completed
  {
    var s' := Next(c, s, a);
    SumChange(Work(s), Work(s'), a.io);
  }

  /** The workers finish what they were given. */
  lemma {:induction false} WorkersFinish(c: Config, s: State) returns (acts: seq<Action>, s': State)
    requires Inv(c, s)
    ensures Path(c, s, acts, s') && Inv(c, s') && Quiet(c, s')
    ensures s'.poller == s.poller && s'.submitted == s.submitted && s'.completed == s.completed
    decreases Sum(Work(s))
  {
    if io: nat :| io < c.depth && s.busy[io].Some? {
      BusyInBounds(c, s, io);
      acts, s' := WorkOneMore(c, s, Finish(io));
    } else if io: nat :| io < c.depth && s.tasks[io] != [] {
      acts, s' := WorkOneMore(c, s, Start(io));
    } else {
      acts, s' := [], s;
    }
  }

  lemma {:induction false} WorkOneMore(c: Config, s: State, a: Action) returns (acts: seq<Action>, s': State)
    requires Inv(c, s) && Enabled(c, s, a) && (a.Start? || a.Finish?)
    ensures Path(c, s, acts, s') && Inv(c, s') && Quiet(c, s')
    ensures s'.poller == s.poller && s'.submitted == s.submitted && s'.completed == s.completed
    decreases Sum(Work(s)), 0
  {
    StepInv(c, s, a);
    WorkGoesOn(c, s, a);
    SumNonNegative(Work(Next(c, s, a)));
    acts, s' := WorkersFinish(c, Next(c, s, a));
    PathFirst(c, s, a, acts, s');
    acts := [a] + acts;
  }

  /** The polling loop gets something done at worker io: a completion reaped, or a job handed out. */
  predicate Useful(c: Config, s: State, io: nat)
    requires Sized(c, s)
  {
    io < c.depth && (s.status[io].WorkerCompleted? || (s.status[io].WorkerIdle? && s.submitted < c.Total()))
  }

  /** It will do so before the present scan ends. */
  ghost predicate Ahead(c: Config, s: State)
    requires Sized(c, s)
  {
    match s.poller
    case Peek(j) => exists io :: j <= io && Useful(c, s, io)
    case Submit(j) => (s.status[j].WorkerIdle? && s.submitted < c.Total()) || exists io :: j < io && Useful(c, s, io)
    case _ => true
  }

  /** Steps to the end of the scan. */
  function ToScan(c: Config, p: Poller): nat {
    match p
    case Test => 2 * c.depth + 2
    case Peek(j) => if j < c.depth then 2 * (c.depth - j) + 1 else 0
    case Submit(j) => if j < c.depth then 2 * (c.depth - j) else 0
    case _ => 0
  }

  /** With the workers quiet and blocks missing, some worker is worth a look. */
  lemma SomeUseful(c: Config, s: State) returns (io: nat)
    requires Inv(c, s) && Quiet(c, s) && s.poller.Test? && s.completed < c.Total()
    ensures Useful(c, s, io)
  {
    var occ := Occupied(s.status);
    SumNonNegative(occ);
    if s.completed < s.submitted {
      io :| io < c.depth && occ[io] > 0;
      assert WorkerOk(s, io);
    } else {
      io := 0;
      assert occ[0] <= Sum(occ);
    }
  }

  /** One step of a loop that cannot yet be left: something gets done, or what can be done comes closer. */
  lemma PollCloser(c: Config, s: State)
    requires Inv(c, s) && Quiet(c, s) && !s.poller.Exit? && !s.poller.Enqueue?
    ensures var s' := Next(c, s, Poll);
            && Sized(c, s') && Quiet(c, s') && s'.submitted == s.submitted && s'.completed >= s.completed
            && (s'.completed > s.completed || s'.poller.Exit?
                || (!Ahead(c, s) && Ahead(c, s'))
                || ((Ahead(c, s) ==> Ahead(c, s')) && ToScan(c, s'.poller) < ToScan(c, s.poller)))
  {
    StepInv(c, s, Poll);
    var s' := Next(c, s, Poll);
    if s.poller.Test? && s.completed < c.Total() {
      var io := SomeUseful(c, s);
      assert Useful(c, s', io);
    } else if s.poller.Peek? && !s.status[s.poller.io].WorkerCompleted? && Ahead(c, s) {
      var io :| s.poller.io <= io && Useful(c, s, io);
      assert Useful(c, s', io);
    } else if s.poller.Submit? && Ahead(c, s) && !(s.status[s.poller.io].WorkerIdle? && s.submitted < c.Total()) {
      var io :| s.poller.io < io && Useful(c, s, io);
      assert Useful(c, s', io);
    }
  }

  lemma {:induction false} PollFinishes(c: Config, s: State) returns (acts: seq<Action>, s': State)
    requires Inv(c, s) && Quiet(c, s)
    ensures Path(c, s, acts, s') && Inv(c, s') && s'.poller.Exit?
    decreases c.Total() - s.submitted, c.Total() - s.completed, !Ahead(c, s), ToScan(c, s.poller)
  {
    SumNonNegative(Occupied(s.status));
    if s.poller.Exit? {
      acts, s' := [], s;
    } else if s.poller.Enqueue? {
      StepInv(c, s, Poll);
      var works, m := WorkersFinish(c, Next(c, s, Poll));
      var rest;
      rest, s' := PollFinishes(c, m);
      PathJoin(c, Next(c, s, Poll), works, m, rest, s');
      PathFirst(c, s, Poll, works + rest, s');
      acts := [Poll] + (works + rest);
    } else {
      StepInv(c, s, Poll);
      PollCloser(c, s);
      acts, s' := PollFinishes(c, Next(c, s, Poll));
      PathFirst(c, s, Poll, acts, s');
      acts := [Poll] + acts;
    }
  }

  lemma ExitFrom(c: Config, s: State) returns (acts: seq<Action>, s': State)
    requires Inv(c, s)
    ensures Path(c, s, acts, s') && Inv(c, s') && s'.poller.Exit?
  {
    var works, m := WorkersFinish(c, s);
    var rest;
    rest, s' := PollFinishes(c, m);
    PathJoin(c, s, works, m, rest, s');
    acts := works + rest;
  }

  /** From every point of every run, workers and loop can go on to the exit. */
  lemma ReadFinishes(c: Config, s: State) returns (acts: seq<Action>, s': State)
    requires Reachable(c, s)
    ensures Path(c, s, acts, s') && s'.poller.Exit?
    ensures Sized(c, s') && s'.buffer[..c.count] == c.region[..c.count]
  {
    ReachableInv(c, s);
    acts, s' := ExitFrom(c, s);
    forall i | 0 <= i < c.count ensures s'.buffer[i] == c.region[i] { PositionRead(c, s', i); }
  }

  /** While a worker reads, its part of the buffer may hold anything. */
  lemma TornReads(c: Config, s: State, io: nat, junk: seq<Value>)
    requires Reachable(c, s) && io < c.depth && io < |s.busy| && s.busy[io].Some?
    requires s.busy[io].value < c.Total() ==> |junk| == c.Size(s.busy[io].value)
    ensures Sized(c, s) && Enabled(c, s, Tear(io, junk))
  {
    ReachableInv(c, s);
    BusyInBounds(c, s, io);
  }

  /** Runs start for every bucket, every number of workers, and every buffer that is large enough. */
  lemma Starts(c: Config, buffer: seq<Value>) returns (s: State)
    requires c.Valid() && |buffer| >= c.count
    ensures Reachable(c, s) && s.buffer == buffer
  {
    s := State(seq(c.depth, _ => WorkerIdle), seq(c.depth, _ => []), seq(c.depth, _ => None), Test, 0, 0, buffer);
    assert IsRun(c, [s]);
  }
}
