/**
 The reusable barrier.  `Barrier` is the object with its two locked sections; the rest of the module runs N
 threads that use one barrier forever, with notifications, spurious wake-ups and a generation counter that
 wraps around.
 */
module Barrier {
  import opened Sums

  const WORD: int := 0x1_0000_0000_0000_0000   // mGeneration is a size_t

  /** The words held by the object. */
  datatype Fields = Fields(threshold: int, count: int, generation: int)

  /** The section run on arrival, under the mutex: (new fields, this was the last arrival). */
  function Arrive(f: Fields): (Fields, bool) {
    var count := (f.count - 1) % WORD;
    if count == 0 then (f.(generation := (f.generation + 1) % WORD, count := f.threshold), true)
    else (f.(count := count), false)
  }

  /** The wait predicate of a thread that saved generation lGen. */
  predicate MayPass(lGen: int, f: Fields) { lGen != f.generation }

  class BarrierObject {
    const mThreshold: int
    var mCount: int
    var mGeneration: int

    function View(): Fields
      reads this
    {
      Fields(mThreshold, mCount, mGeneration)
    }

    constructor (iCount: nat)
      ensures View() == Fields(iCount, iCount, 0)
    {
      mThreshold, mCount, mGeneration := iCount, iCount, 0;
    }

    /** Up to the point where the caller returns (`last`) or starts waiting for a generation other than lGen. */
    method Enter() returns (lGen: int, last: bool)
      modifies this
      ensures (View(), last) == Arrive(old(View())) && lGen == old(mGeneration)
    {
      lGen := mGeneration;
      mCount := (mCount - 1) % WORD;
      last := mCount == 0;
      if last {
        mGeneration := (mGeneration + 1) % WORD;
        mCount := mThreshold;
      }
    }

    /** The wait predicate, evaluated under the mutex after any wake-up. */
    method MayReturn(lGen: int) returns (b: bool)
      ensures b == MayPass(lGen, View())
    {
      b := lGen != mGeneration;
    }
  }

  // ---------- N threads using one barrier ----------

  /** `calls` is the number of Waits the thread has returned from. */
  datatype PC =
    | Outside(calls: nat)
    | Sleeping(calls: nat, lGen: int)    // parked in the condition variable
    | Awake(calls: nat, lGen: int)       // woken, about to take the mutex and test the predicate

  /** `rounds` counts the generations completed so far; the program only sees `fields`. */
  datatype State = State(fields: Fields, rounds: nat, pc: seq<PC>)

  datatype Action = Call(t: nat) | Recheck(t: nat) | SpuriousWakeUp(t: nat)

  ghost predicate Init(s: State) {
    && 1 <= |s.pc| < WORD
    && s.fields == Fields(|s.pc|, |s.pc|, 0)
    && s.rounds == 0
    && forall t :: 0 <= t < |s.pc| ==> s.pc[t] == Outside(0)
  }

  predicate Enabled(s: State, a: Action) {
    && a.t < |s.pc|
    && match a
       case Call(t) => s.pc[t].Outside?
       case Recheck(t) => s.pc[t].Awake?
       case SpuriousWakeUp(t) => s.pc[t].Sleeping?
  }

  /** notify_all. */
  function Notify(pc: seq<PC>): (r: seq<PC>)
    ensures |r| == |pc|
    ensures forall t :: 0 <= t < |pc| ==> r[t] == if pc[t].Sleeping? then Awake(pc[t].calls, pc[t].lGen) else pc[t]
  {
    seq(|pc|, t requires 0 <= t < |pc| => if pc[t].Sleeping? then Awake(pc[t].calls, pc[t].lGen) else pc[t])
  }

  function Next(s: State, a: Action): State
    requires Enabled(s, a)
  {
    var calls := s.pc[a.t].calls;
    match a
    case Call(t) =>
      var (fields, last) := Arrive(s.fields);
      if last then State(fields, s.rounds + 1, Notify(s.pc)[t := Outside(calls + 1)])
      else State(fields, s.rounds, s.pc[t := Sleeping(calls, s.fields.generation)])
    case Recheck(t) =>
      s.(pc := s.pc[t := if MayPass(s.pc[t].lGen, s.fields) then Outside(calls + 1) else Sleeping(calls, s.pc[t].lGen)])
    case SpuriousWakeUp(t) => s.(pc := s.pc[t := Awake(calls, s.pc[t].lGen)])
  }

  ghost predicate Step(s: State, s': State) {
    exists a :: Enabled(s, a) && s' == Next(s, a)
  }

  ghost predicate IsRun(run: seq<State>) {
    && |run| > 0
    && Init(run[0])
    && forall i :: 0 <= i < |run| - 1 ==> Step(run[i], run[i + 1])
  }

  ghost predicate Reachable(s: State) {
    exists run :: IsRun(run) && run[|run| - 1] == s
  }

  // ---------- The invariant ----------

  /** The thread has arrived in the round now open. */
  predicate Arrived(p: PC, rounds: nat) { !p.Outside? && p.calls == rounds }

  function Arrivals(pc: seq<PC>, rounds: nat): (r: seq<int>)
    ensures |r| == |pc| && forall t :: 0 <= t < |pc| ==> r[t] == if Arrived(pc[t], rounds) then 1 else 0
  {
    seq(|pc|, t requires 0 <= t < |pc| => if Arrived(pc[t], rounds) then 1 else 0)
  }

  ghost predicate PcOk(p: PC, rounds: nat) {
    match p
    case Outside(calls) => calls == rounds
    case Sleeping(calls, lGen) => calls == rounds && lGen == calls % WORD
    case Awake(calls, lGen) => (calls == rounds || calls + 1 == rounds) && lGen == calls % WORD
  }

  ghost predicate Inv(s: State) {
    && 1 <= |s.pc| < WORD
    && s.fields.threshold == |s.pc|
    && 1 <= s.fields.count <= |s.pc|
    && s.fields.generation == s.rounds % WORD
    && (forall t :: 0 <= t < |s.pc| ==> PcOk(s.pc[t], s.rounds))
    && Sum(Arrivals(s.pc, s.rounds)) == |s.pc| - s.fields.count
  }

  /** Generations one apart have different words: wrap-around cannot confuse a waiter. */
  lemma WordsDiffer(r: nat)
    ensures r % WORD != (r + 1) % WORD
    ensures (r % WORD + 1) % WORD == (r + 1) % WORD
  {
  }

  lemma KeepCall(s: State, t: nat)
    requires Inv(s) && Enabled(s, Call(t))
    ensures Inv(Next(s, Call(t)))
  {
    var s' := Next(s, Call(t));
    var before, after := Arrivals(s.pc, s.rounds), Arrivals(s'.pc, s'.rounds);
    assert PcOk(s.pc[t], s.rounds);
    WordsDiffer(s.rounds);
    if s.fields.count == 1 {
      LastArrival(s, t);
      forall u | 0 <= u < |s'.pc| ensures PcOk(s'.pc[u], s'.rounds) {
        assert PcOk(s.pc[u], s.rounds);
      }
      SumConstant(after, 0);
    } else {
      SumChange(before, after, t);
    }
  }

  /** With one arrival missing and t outside, every other thread is waiting in this round. */
  lemma LastArrival(s: State, t: nat)
    requires Inv(s) && Enabled(s, Call(t)) && s.fields.count == 1
    ensures forall u :: 0 <= u < |s.pc| && u != t ==> Arrived(s.pc[u], s.rounds)
  {
    var a := Arrivals(s.pc, s.rounds);
    var full := a[t := 1];
    SumUpdate(a, t, 1);
    SumAtMost(full, 1);
    forall u | 0 <= u < |s.pc| && u != t ensures Arrived(s.pc[u], s.rounds) {
      assert full[u] == 1;
    }
  }

  lemma StepInv(s: State, a: Action)
    requires Inv(s) && Enabled(s, a)
    ensures Inv(Next(s, a))
  {
    if a.Call? {
      KeepCall(s, a.t);
    } else {
      var s' := Next(s, a);
      assert PcOk(s.pc[a.t], s.rounds);
      if a.Recheck? && s.pc[a.t].calls + 1 == s.rounds { WordsDiffer(s.pc[a.t].calls); }
      SumChange(Arrivals(s.pc, s.rounds), Arrivals(s'.pc, s'.rounds), a.t);
    }
  }

  lemma {:induction false} RunInv(run: seq<State>)
    requires IsRun(run)
    ensures Inv(run[|run| - 1])
  {
    if |run| == 1 {
      SumConstant(Arrivals(run[0].pc, 0), 0);
    } else {
      RunInv(run[..|run| - 1]);
      var s := run[|run| - 2];
      assert Step(s, run[|run| - 2 + 1]);
      var a :| Enabled(s, a) && run[|run| - 1] == Next(s, a);
      StepInv(s, a);
    }
  }

  lemma ReachableInv(s: State)
    requires Reachable(s)
    ensures Inv(s)
  {
    var run :| IsRun(run) && run[|run| - 1] == s;
    RunInv(run);
  }

  // ---------- What every run guarantees ----------

  /** Waits the thread has called so far. */
  function Called(p: PC): nat { if p.Outside? then p.calls else p.calls + 1 }

  /** No thread's k-th Wait has returned unless every thread has called its k-th Wait. */
  lemma ReturnsAfterAllCalled(s: State, t: nat, u: nat)
    requires Reachable(s) && t < |s.pc| && u < |s.pc|
    ensures s.pc[t].calls <= Called(s.pc[u])
  {
    ReachableInv(s);
    assert PcOk(s.pc[t], s.rounds) && PcOk(s.pc[u], s.rounds);
  }

  /** A waiter's saved word belongs to the current round or the one before, and tells the two apart. */
  lemma SavedGenerationIsRecent(s: State, t: nat)
    requires Reachable(s) && t < |s.pc| && !s.pc[t].Outside?
    ensures s.pc[t].calls == s.rounds || s.pc[t].calls + 1 == s.rounds
    ensures s.pc[t].lGen == s.fields.generation <==> s.pc[t].calls == s.rounds
  {
    ReachableInv(s);
    assert PcOk(s.pc[t], s.rounds);
    WordsDiffer(s.pc[t].calls);
  }

  /** The thread can move on by itself: it is outside, or its next test of the predicate lets it return. */
  predicate Free(s: State, p: PC) {
    p.Outside? || (p.Awake? && MayPass(p.lGen, s.fields))
  }

  function Frees(s: State): (r: seq<int>)
    ensures |r| == |s.pc| && forall t :: 0 <= t < |s.pc| ==> r[t] == if Free(s, s.pc[t]) then 1 else 0
  {
    seq(|s.pc|, t requires 0 <= t < |s.pc| => if Free(s, s.pc[t]) then 1 else 0)
  }

  /**
   Nobody is stranded: a parked thread belongs to the open round, which is short of exactly `count` >= 1
   arrivals, and exactly that many threads are free to make them.
   */
  lemma NobodyStranded(s: State)
    requires Reachable(s)
    ensures forall t :: 0 <= t < |s.pc| && s.pc[t].Sleeping? ==> s.pc[t].calls == s.rounds
    ensures s.fields.count >= 1 && Sum(Frees(s)) == s.fields.count
    ensures exists t :: 0 <= t < |s.pc| && Free(s, s.pc[t])
  {
    ReachableInv(s);
    var arrived, free := Arrivals(s.pc, s.rounds), Frees(s);
    forall t | 0 <= t < |s.pc| ensures arrived[t] + free[t] == 1 && (s.pc[t].Sleeping? ==> s.pc[t].calls == s.rounds) {
      assert PcOk(s.pc[t], s.rounds);
      WordsDiffer(s.pc[t].calls);
    }
    var ones := seq(|s.pc|, _ => 1);
    SumAdd(arrived, free, ones);
    SumConstant(ones, 1);
    SumNonNegative(free);
    var t :| 0 <= t < |free| && free[t] > 0;
    assert Free(s, s.pc[t]);
  }

  /** The arrival that completes a round releases every waiter: none is left parked and each will return. */
  lemma LastArrivalReleasesAll(s: State, t: nat)
    requires Reachable(s) && Enabled(s, Call(t)) && s.fields.count == 1
    ensures var s' := Next(s, Call(t));
            && s'.rounds == s.rounds + 1 && s'.fields.count == |s.pc|
            && forall u :: 0 <= u < |s.pc| ==> Free(s', s'.pc[u])
  {
    ReachableInv(s);
    LastArrival(s, t);
    WordsDiffer(s.rounds);
    var s' := Next(s, Call(t));
    forall u | 0 <= u < |s.pc| ensures Free(s', s'.pc[u]) {
      assert PcOk(s.pc[u], s.rounds);
      assert u != t ==> s.pc[u].lGen == s.rounds % WORD;
    }
  }

  // ---------- Rounds go on ----------

  /** The actions lead from s to s'. */
  ghost predicate Path(s: State, acts: seq<Action>, s': State)
    decreases |acts|
  {
    if acts == [] then s' == s else Enabled(s, acts[0]) && Path(Next(s, acts[0]), acts[1..], s')
  }

  lemma PathFirst(s: State, a: Action, acts: seq<Action>, s': State)
    requires Enabled(s, a) && Path(Next(s, a), acts, s')
    ensures Path(s, [a] + acts, s')
  {
    assert ([a] + acts)[1..] == acts;
  }

  /** A woken thread of a finished round returns from its Wait at its next test; one of the open round goes on waiting. */
  lemma WokenReturns(s: State, t: nat)
    requires Inv(s) && t < |s.pc| && s.pc[t].Awake?
    ensures Enabled(s, Recheck(t))
    ensures var p' := Next(s, Recheck(t)).pc[t];
            if s.pc[t].calls < s.rounds then p' == Outside(s.pc[t].calls + 1) else p' == Sleeping(s.pc[t].calls, s.pc[t].lGen)
  {
    assert PcOk(s.pc[t], s.rounds);
    WordsDiffer(s.pc[t].calls);
  }

  /** The open round gets one arrival closer: a free thread comes outside if need be, and calls. */
  lemma OneMoreArrival(s: State) returns (acts: seq<Action>, s': State)
    requires Inv(s)
    ensures Path(s, acts, s') && Inv(s')
    ensures if s.fields.count == 1 then s'.rounds == s.rounds + 1 else s'.rounds == s.rounds && s'.fields.count == s.fields.count - 1
  {
    var t := FreeThread(s);
    if s.pc[t].Outside? {
      acts, s' := Arrives(s, t);
    } else {
      StepInv(s, Recheck(t));
      WokenReturns(s, t);
      acts, s' := Arrives(Next(s, Recheck(t)), t);
      PathFirst(s, Recheck(t), acts, s');
      acts := [Recheck(t)] + acts;
    }
  }

  lemma Arrives(s: State, t: nat) returns (acts: seq<Action>, s': State)
    requires Inv(s) && t < |s.pc| && s.pc[t].Outside?
    ensures Path(s, acts, s') && Inv(s')
    ensures if s.fields.count == 1 then s'.rounds == s.rounds + 1 else s'.rounds == s.rounds && s'.fields.count == s.fields.count - 1
  {
    StepInv(s, Call(t));
    s' := Next(s, Call(t));
    PathFirst(s, Call(t), [], s');
    acts := [Call(t)] + [];
  }

  lemma FreeThread(s: State) returns (t: nat)
    requires Inv(s)
    ensures t < |s.pc| && (s.pc[t].Outside? || (s.pc[t].Awake? && s.pc[t].calls < s.rounds))
  {
    if forall u :: 0 <= u < |s.pc| ==> Arrived(s.pc[u], s.rounds) {
      SumConstant(Arrivals(s.pc, s.rounds), 1);
      assert false;
    }
    t :| t < |s.pc| && !Arrived(s.pc[t], s.rounds);
    assert PcOk(s.pc[t], s.rounds);
  }

  lemma {:induction false} RoundEnds(s: State) returns (acts: seq<Action>, s': State)
    requires Inv(s)
    ensures Path(s, acts, s') && Inv(s') && s'.rounds == s.rounds + 1
    decreases s.fields.count
  {
    acts, s' := OneMoreArrival(s);
    if s.fields.count > 1 {
      var rest, m := [], s';
      rest, s' := RoundEnds(m);
      PathJoin(s, acts, m, rest, s');
      acts := acts + rest;
    }
  }

  lemma {:induction false} PathJoin(s: State, acts: seq<Action>, m: State, rest: seq<Action>, s': State)
    requires Path(s, acts, m) && Path(m, rest, s')
    ensures Path(s, acts + rest, s')
    decreases |acts|
  {
    if acts == [] {
      assert acts + rest == rest;
    } else {
      PathJoin(Next(s, acts[0]), acts[1..], m, rest, s');
      assert (acts + rest)[1..] == acts[1..] + rest;
    }
  }

  /** From every reachable state the open round can be completed: the barrier never wedges. */
  lemma RoundsGoOn(s: State) returns (acts: seq<Action>, s': State)
    requires Reachable(s)
    ensures Path(s, acts, s') && s'.rounds == s.rounds + 1
    ensures forall t :: 0 <= t < |s'.pc| ==> Called(s'.pc[t]) >= s'.rounds
  {
    ReachableInv(s);
    acts, s' := RoundEnds(s);
    forall t | 0 <= t < |s'.pc| ensures Called(s'.pc[t]) >= s'.rounds { assert PcOk(s'.pc[t], s'.rounds); }
  }

  /** A parked thread may wake up for no reason; it tests the predicate and is parked again. */
  lemma SpuriousIsHarmless(s: State, t: nat)
    requires Reachable(s) && t < |s.pc| && s.pc[t].Sleeping?
    ensures Enabled(s, SpuriousWakeUp(t)) && Enabled(Next(s, SpuriousWakeUp(t)), Recheck(t))
    ensures Next(Next(s, SpuriousWakeUp(t)), Recheck(t)) == s
  {
    ReachableInv(s);
    assert PcOk(s.pc[t], s.rounds);
    var s1 := Next(s, SpuriousWakeUp(t));
    StepInv(s, SpuriousWakeUp(t));
    WokenReturns(s1, t);
    assert Next(s1, Recheck(t)).pc == s.pc;
  }

  /** Runs start with any number of threads. */
  lemma Starts(threads: nat) returns (s: State)
    requires 1 <= threads < WORD
    ensures Reachable(s) && |s.pc| == threads
  {
    s := State(Fields(threads, threads, 0), 0, seq(threads, _ => Outside(0)));
    assert IsRun([s]);
  }
}
