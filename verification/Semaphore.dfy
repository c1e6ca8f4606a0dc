/**
 The counting semaphore with spinning, timeouts and bulk acquisition, and the blocking queue built on it.

 `count` is the user-level word and `kernel` the value of the kernel semaphore; they change at different
 times, one atomic operation per transition.  Every thread may acquire (tryWait, wait, timed wait and their
 bulk forms), then dequeue what it was granted, or enqueue and then signal.
 */
module Semaphore {
  import opened Options
  import opened Sums

  const SPINS: nat := 10000

  datatype Mode = Try | Block | Timed

  /** A single acquisition has max == 1; bulk ones take up to max units at once. */
  datatype Op = Op(many: bool, max: nat, mode: Mode)

  datatype PC =
    | Idle
    | Put(n: nat)                                         // enqueue n elements into the inner queue
    | SignalAdd(n: nat)                                   // m_count.fetch_add(n)
    | Post(posts: int)                                   // n sem_posts to go
    | TryLoad(op: Op, want: nat, got: nat)                // tryWait / tryWaitMany(want), got units in hand
    | TryCas(op: Op, want: nat, got: nat, seen: int)
    | SpinLoad(op: Op, spin: nat)
    | SpinCas(op: Op, spin: nat, seen: int)
    | Sub(op: Op)                                         // m_count.fetch_sub(1)
    | KernelWait(op: Op)
    | KernelTimed(op: Op)
    | Reload(op: Op)                                      // timed out: re-adjust the count
    | KernelTry(op: Op)
    | Cancel(op: Op, seen: int)
    | Drain(n: nat)                                       // granted; n elements still to dequeue

  /** `initial`, `signalled`, `granted`, `enqueued` and `dequeued` only record what happened. */
  datatype State = State(count: int, kernel: int, initial: nat, signalled: int, granted: int,
                         enqueued: int, dequeued: int, pc: seq<PC>)

  datatype Action =
    | CallAcquire(t: nat, op: Op)
    | CallEnqueue(t: nat, n: nat)
    | Run(t: nat)
    | WeakFail(t: nat)       // compare_exchange_weak fails although the value matches
    | Timeout(t: nat)
    | Miss(t: nat)           // the inner try_dequeue comes back empty-handed

  // ---------- The program ----------

  ghost predicate Init(s: State) {
    && s.count == s.initial
    && s.kernel == s.signalled == s.granted == s.enqueued == s.dequeued == 0
    && |s.pc| < 0x8000_0000
    && forall t :: 0 <= t < |s.pc| ==> s.pc[t] == Idle
  }

  predicate Enabled(s: State, a: Action) {
    && a.t < |s.pc|
    && match a
       case CallAcquire(t, op) => s.pc[t].Idle? && (!op.many ==> op.max == 1)
       case CallEnqueue(t, _) => s.pc[t].Idle?
       case Run(t) =>
         (match s.pc[t]
          case Idle => false
          case KernelWait(_) => s.kernel > 0
          case KernelTimed(_) => s.kernel > 0
          case Drain(_) => s.dequeued < s.enqueued
          case _ => true)
       case WeakFail(t) => s.pc[t].TryCas?
       case Timeout(t) => s.pc[t].KernelTimed?
       case Miss(t) => s.pc[t].Drain?
  }

  /** What the count becomes when `want` units are asked for while it reads seen > 0. */
  function Left(op: Op, want: nat, seen: int): int {
    if op.many then (if seen > want then seen - want else 0) else seen - 1
  }

  function Finish(n: nat): PC { if n == 0 then Idle else Drain(n) }

  /** The loop test of tryWait / tryWaitMany. */
  function Test(op: Op, want: nat, got: nat, seen: int): PC {
    if seen > 0 then TryCas(op, want, got, seen)
    else if got > 0 || op.mode.Try? || op.max == 0 then Finish(got)
    else SpinLoad(op, SPINS)
  }

  /** After one unit was acquired the slow way: bulk operations greedily try for the rest. */
  function More(op: Op): PC { if op.many && op.max > 1 then TryLoad(op, op.max - 1, 1) else Drain(1) }

  /** The cast (int)toRelease. */
  function ToInt32(x: int): int { (x + 0x8000_0000) % 0x1_0000_0000 - 0x8000_0000 }

  function Min(a: int, b: int): int { if a < b then a else b }
  function Max0(a: int): int { if a > 0 then a else 0 }

  /** How many posts `signal(n)` makes when it finds the count at `seen`. */
  function Release(seen: int, n: int): int {
    var toRelease := Min(-seen, n);
    if toRelease > 0 then ToInt32(toRelease) else 0
  }

  function Move(s: State, t: nat, p: PC): State
    requires t < |s.pc|
  {
    s.(pc := s.pc[t := p])
  }

  function Grant(s: State, t: nat, units: int, p: PC): State
    requires t < |s.pc|
  {
    s.(pc := s.pc[t := p], granted := s.granted + units)
  }

  function Next(s: State, a: Action): State
    requires Enabled(s, a)
  {
    match a
    case CallAcquire(t, op) => Move(s, t, TryLoad(op, op.max, 0))
    case CallEnqueue(t, n) => Move(s, t, Put(n))
    case WeakFail(t) => Move(s, t, Test(s.pc[t].op, s.pc[t].want, s.pc[t].got, s.count))
    case Timeout(t) => Move(s, t, Reload(s.pc[t].op))
    case Miss(t) => s
    case Run(t) => RunNext(s, t)
  }

  function RunNext(s: State, t: nat): State
    requires Enabled(s, Run(t))
  {
    match s.pc[t]
    case Put(n) => Move(s, t, SignalAdd(n)).(enqueued := s.enqueued + n)
    case SignalAdd(n) =>
      Move(s, t, Post(Release(s.count, n))).(count := s.count + n, signalled := s.signalled + n)
    case Post(n) => if n > 0 then Move(s, t, Post(n - 1)).(kernel := s.kernel + 1) else Move(s, t, Idle)
    case TryLoad(op, want, got) => Move(s, t, Test(op, want, got, s.count))
    case TryCas(op, want, got, seen) =>
      if s.count == seen && seen > 0 then
        var left := Left(op, want, seen);
        Grant(s, t, seen - left, Finish(got + Max0(seen - left))).(count := left)
      else Move(s, t, Test(op, want, got, s.count))
    case SpinLoad(op, spin) =>
      if spin == 0 then Move(s, t, Sub(op))
      else Move(s, t, if s.count > 0 then SpinCas(op, spin - 1, s.count) else SpinLoad(op, spin - 1))
    case SpinCas(op, spin, seen) =>
      if s.count == seen && seen > 0 then
        var left := Left(op, op.max, seen);
        Grant(s, t, seen - left, Finish(Max0(seen - left))).(count := left)
      else Move(s, t, SpinLoad(op, spin))
    case Sub(op) =>
      if s.count > 0 then Grant(s, t, 1, More(op)).(count := s.count - 1)
      else Move(s, t, if op.mode.Timed? then KernelTimed(op) else KernelWait(op)).(count := s.count - 1)
    case KernelWait(op) => Grant(s, t, 1, More(op)).(kernel := s.kernel - 1)
    case KernelTimed(op) => Grant(s, t, 1, More(op)).(kernel := s.kernel - 1)
    case Reload(op) => Move(s, t, if s.count >= 0 then KernelTry(op) else Cancel(op, s.count))
    case KernelTry(op) =>
      if s.kernel > 0 then Grant(s, t, 1, More(op)).(kernel := s.kernel - 1) else Move(s, t, Reload(op))
    case Cancel(op, seen) =>
      if s.count == seen then Move(s, t, Idle).(count := s.count + 1) else Move(s, t, Reload(op))
    case Drain(n) =>
      if n == 0 then Move(s, t, Idle) else Move(s, t, Finish(n - 1)).(dequeued := s.dequeued + 1)
  }

  ghost predicate Step(s: State, s': State) {
    exists a :: Enabled(s, a) && s' == Next(s, a)
  }

  ghost predicate IsRun(run: seq<State>) {
    && |run| > 0
    && Init(run[0])
    && forall i :: 0 <= i < |run| - 1 ==> Step(run[i], run[i + 1])
  }

  ghost predicate Reachable(s: State) {
    exists run :: IsRun(run) && run[|run| - 1] == s
  }

  // ---------- Per-thread shares ----------

  /** Decremented the count below one and neither granted nor cancelled yet. */
  predicate Waiting(p: PC) { p.KernelWait? || p.KernelTimed? || p.Reload? || p.KernelTry? || p.Cancel? }

  /** sem_posts this thread still has to make. */
  function Owes(p: PC): int { if p.Post? then Max0(p.posts) else 0 }

  /** Units granted to this thread whose elements it has not dequeued yet. */
  function InHand(p: PC): int {
    match p
    case TryLoad(_, _, got) => got
    case TryCas(_, _, got, _) => got
    case Drain(n) => n
    case _ => 0
  }

  /** Elements enqueued by this thread and not signalled yet. */
  function Unsignalled(p: PC): int { if p.SignalAdd? then p.n else 0 }

  function Waiters(pc: seq<PC>): (r: seq<int>)
    ensures |r| == |pc| && forall t :: 0 <= t < |pc| ==> r[t] == if Waiting(pc[t]) then 1 else 0
  { seq(|pc|, t requires 0 <= t < |pc| => if Waiting(pc[t]) then 1 else 0) }

  function Debts(pc: seq<PC>): (r: seq<int>)
    ensures |r| == |pc| && forall t :: 0 <= t < |pc| ==> r[t] == Owes(pc[t])
  { seq(|pc|, t requires 0 <= t < |pc| => Owes(pc[t])) }

  function Hands(pc: seq<PC>): (r: seq<int>)
    ensures |r| == |pc| && forall t :: 0 <= t < |pc| ==> r[t] == InHand(pc[t])
  { seq(|pc|, t requires 0 <= t < |pc| => InHand(pc[t])) }

  function Unsignalleds(pc: seq<PC>): (r: seq<int>)
    ensures |r| == |pc| && forall t :: 0 <= t < |pc| ==> r[t] == Unsignalled(pc[t])
  { seq(|pc|, t requires 0 <= t < |pc| => Unsignalled(pc[t])) }

  function W(s: State): int { Sum(Waiters(s.pc)) }
  function P(s: State): int { Sum(Debts(s.pc)) }

  lemma SharesMove(pc: seq<PC>, t: nat, p: PC)
    requires t < |pc|
    ensures Sum(Waiters(pc[t := p])) == Sum(Waiters(pc)) - (if Waiting(pc[t]) then 1 else 0) + (if Waiting(p) then 1 else 0)
    ensures Sum(Debts(pc[t := p])) == Sum(Debts(pc)) - Owes(pc[t]) + Owes(p)
    ensures Sum(Hands(pc[t := p])) == Sum(Hands(pc)) - InHand(pc[t]) + InHand(p)
    ensures Sum(Unsignalleds(pc[t := p])) == Sum(Unsignalleds(pc)) - Unsignalled(pc[t]) + Unsignalled(p)
  {
    SumChange(Waiters(pc), Waiters(pc[t := p]), t);
    SumChange(Debts(pc), Debts(pc[t := p]), t);
    SumChange(Hands(pc), Hands(pc[t := p]), t);
    SumChange(Unsignalleds(pc), Unsignalleds(pc[t := p]), t);
  }

  lemma SharesBounds(pc: seq<PC>)
    ensures 0 <= Sum(Waiters(pc)) <= |pc|
    ensures 0 <= Sum(Debts(pc)) && 0 <= Sum(Hands(pc)) && 0 <= Sum(Unsignalleds(pc))
    ensures forall t :: 0 <= t < |pc| ==> InHand(pc[t]) <= Sum(Hands(pc)) && Owes(pc[t]) <= Sum(Debts(pc))
    ensures forall t :: 0 <= t < |pc| && Waiting(pc[t]) ==> 1 <= Sum(Waiters(pc))
  {
    SumNonNegative(Waiters(pc));
    SumAtMost(Waiters(pc), 1);
    SumNonNegative(Debts(pc));
    SumNonNegative(Hands(pc));
    SumNonNegative(Unsignalleds(pc));
    forall t | 0 <= t < |pc|
      ensures InHand(pc[t]) <= Sum(Hands(pc)) && Owes(pc[t]) <= Sum(Debts(pc)) && (Waiting(pc[t]) ==> 1 <= Sum(Waiters(pc)))
    {
      assert Hands(pc)[t] == InHand(pc[t]) && Debts(pc)[t] == Owes(pc[t]);
      assert Waiters(pc)[t] <= Sum(Waiters(pc));
    }
  }

  // ---------- The invariant ----------

  /** Every waiter is matched: by the negative count, by the kernel's value, or by a post still to come. */
  ghost predicate Matched(s: State) { Max0(-s.count) == W(s) - s.kernel - P(s) }

  /** Nothing is created or lost between the count, the waiters and the grants. */
  ghost predicate Conserved(s: State) { s.count + W(s) == s.initial + s.signalled - s.granted }

  ghost predicate Accounted(s: State) {
    && s.granted == s.dequeued + Sum(Hands(s.pc))
    && s.enqueued == s.signalled + Sum(Unsignalleds(s.pc))
  }

  /** Bounds on what an operation can have in hand. */
  predicate PcOk(p: PC) {
    match p
    case TryLoad(op, want, got) => OpOk(op) && got + want == op.max && (got > 0 ==> op.many) && (want == 0 ==> op.many)
    case TryCas(op, want, got, seen) => OpOk(op) && got + want == op.max && (got > 0 ==> op.many) && (want == 0 ==> op.many)
    case SpinLoad(op, _) => OpOk(op) && op.max > 0 && !op.mode.Try?
    case SpinCas(op, _, _) => OpOk(op) && op.max > 0 && !op.mode.Try?
    case Sub(op) => OpOk(op) && op.max > 0 && !op.mode.Try?
    case KernelWait(op) => OpOk(op) && op.max > 0 && op.mode.Block?
    case KernelTimed(op) => OpOk(op) && op.max > 0 && op.mode.Timed?
    case Reload(op) => OpOk(op) && op.max > 0 && op.mode.Timed?
    case KernelTry(op) => OpOk(op) && op.max > 0 && op.mode.Timed?
    case Cancel(op, seen) => OpOk(op) && op.max > 0 && op.mode.Timed? && seen < 0
    case Drain(n) => n >= 1
    case _ => true
  }

  predicate OpOk(op: Op) { !op.many ==> op.max == 1 }

  ghost predicate Inv(s: State) {
    && |s.pc| < 0x8000_0000
    && 0 <= s.kernel && 0 <= s.dequeued
    && Matched(s) && Conserved(s) && Accounted(s)
    && forall t :: 0 <= t < |s.pc| ==> PcOk(s.pc[t])
  }

  /** At most one post per waiter is made, so the cast to int is exact and the deficit shrinks by that amount. */
  lemma ReleaseFits(s: State, n: nat)
    requires Inv(s)
    ensures 0 <= Release(s.count, n) <= W(s) <= |s.pc|
    ensures Max0(-(s.count + n)) == Max0(-s.count) - Release(s.count, n)
  {
    SharesBounds(s.pc);
  }

  lemma OtherPcs(s: State, a: Action)
    requires Enabled(s, a)
    ensures |Next(s, a).pc| == |s.pc| && Next(s, a).pc == s.pc[a.t := Next(s, a).pc[a.t]]
  {
  }

  lemma OwnPcRun(s: State, t: nat)
    requires Enabled(s, Run(t)) && PcOk(s.pc[t]) && 0 <= s.kernel && 0 <= s.dequeued
    ensures t < |RunNext(s, t).pc| && PcOk(RunNext(s, t).pc[t])
    ensures 0 <= RunNext(s, t).kernel && 0 <= RunNext(s, t).dequeued
  {
  }

  lemma OwnPc(s: State, a: Action)
    requires Enabled(s, a) && PcOk(s.pc[a.t]) && 0 <= s.kernel && 0 <= s.dequeued
    ensures a.t < |Next(s, a).pc| && PcOk(Next(s, a).pc[a.t])
    ensures 0 <= Next(s, a).kernel && 0 <= Next(s, a).dequeued
  {
    if a.Run? { OwnPcRun(s, a.t); }
  }

  lemma KeepPcs(s: State, a: Action)
    requires Inv(s) && Enabled(s, a)
    ensures |Next(s, a).pc| == |s.pc|
    ensures forall u :: 0 <= u < |s.pc| && u != a.t ==> Next(s, a).pc[u] == s.pc[u]
    ensures Next(s, a).pc == s.pc[a.t := Next(s, a).pc[a.t]]
    ensures forall u :: 0 <= u < |s.pc| ==> PcOk(Next(s, a).pc[u])
    ensures 0 <= Next(s, a).kernel && 0 <= Next(s, a).dequeued
  {
    OtherPcs(s, a);
    OwnPc(s, a);
  }

  function Bit(b: bool): int { if b then 1 else 0 }

  /** The change one thread's move from p to q makes to the totals, with the other fields going from s to s'. */
  ghost predicate Delta(s: State, s': State, p: PC, q: PC) {
    && s'.initial == s.initial
    && Max0(-s'.count) - Max0(-s.count) == Bit(Waiting(q)) - Bit(Waiting(p)) - (s'.kernel - s.kernel) - (Owes(q) - Owes(p))
    && s'.count - s.count + Bit(Waiting(q)) - Bit(Waiting(p)) == (s'.signalled - s.signalled) - (s'.granted - s.granted)
    && s'.granted - s.granted == s'.dequeued - s.dequeued + InHand(q) - InHand(p)
    && s'.enqueued - s.enqueued == s'.signalled - s.signalled + Unsignalled(q) - Unsignalled(p)
  }

  lemma DeltaKeeps(s: State, s': State, t: nat)
    requires Inv(s) && t < |s.pc| && |s'.pc| == |s.pc| && s'.pc == s.pc[t := s'.pc[t]]
    requires Delta(s, s', s.pc[t], s'.pc[t])
    ensures Matched(s') && Conserved(s') && Accounted(s')
  {
    SharesMove(s.pc, t, s'.pc[t]);
  }

  lemma DeltaCall(s: State, a: Action)
    requires Inv(s) && Enabled(s, a) && !a.Run?
    ensures Delta(s, Next(s, a), s.pc[a.t], Next(s, a).pc[a.t])
  {
    assert PcOk(s.pc[a.t]);
  }

  lemma DeltaProduce(s: State, t: nat)
    requires Inv(s) && Enabled(s, Run(t)) && (s.pc[t].Put? || s.pc[t].SignalAdd? || s.pc[t].Post? || s.pc[t].Drain?)
    ensures Delta(s, Next(s, Run(t)), s.pc[t], Next(s, Run(t)).pc[t])
  {
    if s.pc[t].SignalAdd? { ReleaseFits(s, s.pc[t].n); }
  }

  lemma DeltaTry(s: State, t: nat)
    requires Inv(s) && Enabled(s, Run(t)) && (s.pc[t].TryLoad? || s.pc[t].TryCas? || s.pc[t].SpinLoad? || s.pc[t].SpinCas?)
    ensures Delta(s, Next(s, Run(t)), s.pc[t], Next(s, Run(t)).pc[t])
  {
    assert PcOk(s.pc[t]);
  }

  lemma DeltaWait(s: State, t: nat)
    requires Inv(s) && Enabled(s, Run(t))
    requires s.pc[t].Sub? || Waiting(s.pc[t])
    ensures Delta(s, Next(s, Run(t)), s.pc[t], Next(s, Run(t)).pc[t])
  {
    assert PcOk(s.pc[t]);
  }

  lemma DeltaStep(s: State, a: Action)
    requires Inv(s) && Enabled(s, a)
    ensures Delta(s, Next(s, a), s.pc[a.t], Next(s, a).pc[a.t])
  {
    var p := s.pc[a.t];
    if !a.Run? { DeltaCall(s, a); }
    else if p.Put? || p.SignalAdd? || p.Post? || p.Drain? { DeltaProduce(s, a.t); }
    else if p.Sub? || Waiting(p) { DeltaWait(s, a.t); }
    else { DeltaTry(s, a.t); }
  }

  lemma StepInv(s: State, a: Action)
    requires Inv(s) && Enabled(s, a)
    ensures Inv(Next(s, a))
  {
    KeepPcs(s, a);
    DeltaStep(s, a);
    DeltaKeeps(s, Next(s, a), a.t);
  }

  lemma {:induction false} RunInv(run: seq<State>)
    requires IsRun(run)
    ensures Inv(run[|run| - 1])
  {
    if |run| == 1 {
      var pc := run[0].pc;
      SumConstant(Waiters(pc), 0);
      SumConstant(Debts(pc), 0);
      SumConstant(Hands(pc), 0);
      SumConstant(Unsignalleds(pc), 0);
    } else {
      RunInv(run[..|run| - 1]);
      var s := run[|run| - 2];
      assert Step(s, run[|run| - 2 + 1]);
      var a :| Enabled(s, a) && run[|run| - 1] == Next(s, a);
      StepInv(s, a);
    }
  }

  lemma ReachableInv(s: State)
    requires Reachable(s)
    ensures Inv(s)
  {
    var run :| IsRun(run) && run[|run| - 1] == s;
    RunInv(run);
  }

  // ---------- What every run guarantees ----------

  /** Never over-granted: grants never exceed the initial count plus what was signalled, at any instant. */
  lemma NeverOverGrants(s: State)
    requires Reachable(s)
    ensures Max0(-s.count) == W(s) - s.kernel - P(s)
    ensures s.count + W(s) == s.initial + s.signalled - s.granted
    ensures s.granted <= s.initial + s.signalled
  {
    ReachableInv(s);
    SharesBounds(s.pc);
  }

  /** The kernel semaphore never holds or is owed more wake-ups than there are waiters: none survives a timeout. */
  lemma NoSurplusWakeUps(s: State)
    requires Reachable(s)
    ensures 0 <= s.kernel + P(s) <= W(s)
    ensures W(s) == 0 ==> s.kernel == 0 && s.count >= 0
  {
    ReachableInv(s);
    SharesBounds(s.pc);
  }

  /** No lost wake-up: while units are available and somebody waits, a kernel wake-up is present or being posted. */
  lemma NoLostWakeUp(s: State, t: nat)
    requires Reachable(s) && t < |s.pc| && Waiting(s.pc[t])
    ensures s.granted < s.initial + s.signalled <==> s.kernel + P(s) > 0
  {
    ReachableInv(s);
    SharesBounds(s.pc);
  }

  /** Each spinning consumer of the blocking queue has elements left for it, even if all others finish first. */
  lemma SpinnersAreServed(s: State, t: nat)
    requires Reachable(s) && s.initial == 0 && t < |s.pc|
    ensures Sum(Hands(s.pc)) <= s.enqueued - s.dequeued
    ensures s.pc[t].Drain? ==> s.dequeued + s.pc[t].n <= s.enqueued
    ensures s.pc[t].Drain? && s.pc[t].n > 0 ==> Enabled(s, Run(t))
  {
    ReachableInv(s);
    SharesBounds(s.pc);
    assert InHand(s.pc[t]) <= Sum(Hands(s.pc));
  }

  /**
   What an acquisition ends with: a single blocking one exactly 1 unit, a bulk one at most its maximum and,
   when it blocks, at least 1; only tryWait, a timed-out wait or a maximum of 0 may end empty-handed.
   */
  lemma AcquisitionResult(s: State, t: nat, op: Op)
    requires Reachable(s) && Enabled(s, Run(t)) && OpOf(s.pc[t]) == Some(op)
    ensures var p := Next(s, Run(t)).pc[t];
            && (p.Drain? ==> 1 <= p.n <= op.max)
            && (p.Idle? && !op.mode.Timed? ==> op.mode.Try? || op.max == 0)
            && (p.Drain? || p.Idle? || OpOf(p) == Some(op))
  {
    ReachableInv(s);
    assert PcOk(s.pc[t]);
  }

  /** The acquisition a thread is in the middle of. */
  function OpOf(p: PC): Option<Op> {
    match p
    case TryLoad(op, _, _) => Some(op)
    case TryCas(op, _, _, _) => Some(op)
    case SpinLoad(op, _) => Some(op)
    case SpinCas(op, _, _) => Some(op)
    case Sub(op) => Some(op)
    case KernelWait(op) => Some(op)
    case KernelTimed(op) => Some(op)
    case Reload(op) => Some(op)
    case KernelTry(op) => Some(op)
    case Cancel(op, _) => Some(op)
    case _ => None
  }

  // ---------- What callers asked for, and what they got ----------

  /** A run with the actions that make it. */
  ghost predicate IsRunBy(run: seq<State>, acts: seq<Action>) {
    && |run| == |acts| + 1
    && Init(run[0])
    && forall i :: 0 <= i < |acts| ==> StepBy(run[i], acts[i], run[i + 1])
  }

  ghost predicate StepBy(s: State, a: Action, s': State) { Enabled(s, a) && s' == Next(s, a) }

  datatype Request = Nothing | Acquire(op: Op) | Enqueue(n: nat)

  /**
   Thread t's last call, what its own steps have since added to the totals, whether its wait timed out, and whether
   at some moment since the call, and since it was last granted anything, no unit was to be had.
   */
  datatype Caller = Caller(request: Request, granted: int, dequeued: int, enqueued: int, signalled: int,
                           timedOut: bool, sawNone: bool)

  function Called(r: Request): Caller { Caller(r, 0, 0, 0, 0, false, false) }

  ghost function CallerNext(c: Caller, s: State, a: Action, s': State, t: nat): Caller {
    if a.t == t && a.CallAcquire? then Called(Acquire(a.op))
    else if a.t == t && a.CallEnqueue? then Called(Enqueue(a.n))
    else
      var none := if a.t == t && s'.granted > s.granted then s'.count <= 0 else c.sawNone || s.count <= 0;
      var seen := c.(sawNone := none, timedOut := c.timedOut || a == Timeout(t));
      if a.t != t then seen
      else seen.(granted := c.granted + s'.granted - s.granted, dequeued := c.dequeued + s'.dequeued - s.dequeued,
                 enqueued := c.enqueued + s'.enqueued - s.enqueued, signalled := c.signalled + s'.signalled - s.signalled)
  }

  ghost function CallerOf(run: seq<State>, acts: seq<Action>, t: nat): Caller
    requires |run| == |acts| + 1
    decreases |acts|
  {
    if acts == [] then Called(Nothing)
    else
      var n := |acts| - 1;
      CallerNext(CallerOf(run[..n + 1], acts[..n], t), run[n], acts[n], run[n + 1], t)
  }

  predicate Totals(c: Caller, granted: int, dequeued: int, enqueued: int, signalled: int) {
    c.granted == granted && c.dequeued == dequeued && c.enqueued == enqueued && c.signalled == signalled
  }

  /** How far a thread has come with the call it was given. */
  ghost predicate OnCall(p: PC, c: Caller) {
    match p
    case Idle => Served(c)
    case Put(n) => c.request == Enqueue(n) && Totals(c, 0, 0, 0, 0)
    case SignalAdd(n) => c.request == Enqueue(n) && Totals(c, 0, 0, n, 0)
    case Post(_) => c.request.Enqueue? && Totals(c, 0, 0, c.request.n, c.request.n)
    case TryLoad(op, _, got) => c.request == Acquire(op) && Totals(c, got, 0, 0, 0)
    case TryCas(op, _, got, _) => c.request == Acquire(op) && Totals(c, got, 0, 0, 0)
    case Drain(n) =>
      && c.request.Acquire? && n >= 1 && c.dequeued >= 0 && c.dequeued + n <= c.request.op.max
      && Totals(c, c.dequeued + n, c.dequeued, 0, 0) && (c.granted < c.request.op.max ==> c.sawNone)
    case _ =>
      && OpOf(p).Some? && c.request == Acquire(OpOf(p).value) && Totals(c, 0, 0, 0, 0) && c.sawNone
      && (p.Reload? || p.KernelTry? || p.Cancel? ==> c.timedOut)
  }

  /** What a finished call did, in terms of what was asked for. */
  predicate Served(c: Caller) {
    match c.request
    case Nothing => Totals(c, 0, 0, 0, 0)
    case Acquire(op) =>
      && 0 <= c.granted <= op.max && Totals(c, c.granted, c.granted, 0, 0)
      && (c.granted < op.max ==> c.sawNone)
      && (c.granted == 0 && op.max >= 1 ==> op.mode.Try? || (op.mode.Timed? && c.timedOut))
    case Enqueue(n) => Totals(c, 0, 0, n, n)
  }

  lemma OnCallOther(s: State, a: Action, c: Caller)
    requires Enabled(s, a) && !a.Run? && PcOk(s.pc[a.t]) && OnCall(s.pc[a.t], c)
    ensures a.t < |Next(s, a).pc| && OnCall(Next(s, a).pc[a.t], CallerNext(c, s, a, Next(s, a), a.t))
  {
  }

  lemma OnCallProduce(s: State, t: nat, c: Caller)
    requires Enabled(s, Run(t)) && PcOk(s.pc[t]) && OnCall(s.pc[t], c)
    requires s.pc[t].Put? || s.pc[t].SignalAdd? || s.pc[t].Post? || s.pc[t].Drain?
    ensures t < |Next(s, Run(t)).pc| && OnCall(Next(s, Run(t)).pc[t], CallerNext(c, s, Run(t), Next(s, Run(t)), t))
  {
  }

  lemma OnCallTry(s: State, t: nat, c: Caller)
    requires Enabled(s, Run(t)) && PcOk(s.pc[t]) && OnCall(s.pc[t], c)
    requires s.pc[t].TryLoad? || s.pc[t].TryCas? || s.pc[t].SpinLoad? || s.pc[t].SpinCas?
    ensures t < |Next(s, Run(t)).pc| && OnCall(Next(s, Run(t)).pc[t], CallerNext(c, s, Run(t), Next(s, Run(t)), t))
  {
  }

  lemma OnCallWait(s: State, t: nat, c: Caller)
    requires Enabled(s, Run(t)) && PcOk(s.pc[t]) && OnCall(s.pc[t], c)
    requires s.pc[t].Sub? || Waiting(s.pc[t])
    ensures t < |Next(s, Run(t)).pc| && OnCall(Next(s, Run(t)).pc[t], CallerNext(c, s, Run(t), Next(s, Run(t)), t))
  {
  }

  lemma OnCallStep(s: State, a: Action, c: Caller, t: nat)
    requires Inv(s) && Enabled(s, a) && t < |s.pc| && OnCall(s.pc[t], c)
    ensures t < |Next(s, a).pc| && OnCall(Next(s, a).pc[t], CallerNext(c, s, a, Next(s, a), t))
  {
    var p := s.pc[t];
    assert PcOk(p);
    if a.t != t { KeepPcs(s, a); }
    else if !a.Run? { OnCallOther(s, a, c); }
    else if p.Put? || p.SignalAdd? || p.Post? || p.Drain? { OnCallProduce(s, t, c); }
    else if p.Sub? || Waiting(p) { OnCallWait(s, t, c); }
    else { OnCallTry(s, t, c); }
  }

  lemma {:induction false} OnCallAlways(run: seq<State>, acts: seq<Action>, t: nat)
    requires IsRunBy(run, acts) && t < |run[0].pc|
    ensures Inv(run[|acts|]) && t < |run[|acts|].pc| && OnCall(run[|acts|].pc[t], CallerOf(run, acts, t))
    decreases |acts|
  {
    if acts == [] {
      assert IsRun(run);
      RunInv(run);
    } else {
      var n := |acts| - 1;
      forall i | 0 <= i < n ensures StepBy(run[..n + 1][i], acts[..n][i], run[..n + 1][i + 1]) {
        assert StepBy(run[i], acts[i], run[i + 1]);
      }
      OnCallAlways(run[..n + 1], acts[..n], t);
      assert StepBy(run[n], acts[n], run[n + 1]);
      OnCallStep(run[n], acts[n], CallerOf(run[..n + 1], acts[..n], t), t);
      StepInv(run[n], acts[n]);
    }
  }

  /**
   A call that is over did what its caller asked for.  An acquisition took at most its maximum and dequeued all of
   it; it took less only if after its last grant no more was to be had at some moment, and none only if it was a
   try, or a timed wait that timed out, so a blocking one took at least one.  An enqueue of n put in n elements and
   signalled n.
   */
  lemma CallsAreServed(run: seq<State>, acts: seq<Action>, t: nat)
    requires IsRunBy(run, acts) && t < |run[0].pc|
    ensures t < |run[|acts|].pc|
    ensures run[|acts|].pc[t].Idle? ==> Served(CallerOf(run, acts, t))
  {
    OnCallAlways(run, acts, t);
  }

  // ---------- A thread that runs alone ----------

  /** Own steps of thread t, its timeout included, lead from s to s'. */
  ghost predicate Alone(s: State, t: nat, acts: seq<Action>, s': State)
    decreases |acts|
  {
    if acts == [] then s' == s
    else (acts[0] == Run(t) || acts[0] == Timeout(t)) && Enabled(s, acts[0]) && Alone(Next(s, acts[0]), t, acts[1..], s')
  }

  lemma AloneFirst(s: State, t: nat, a: Action, acts: seq<Action>, s': State)
    requires (a == Run(t) || a == Timeout(t)) && Enabled(s, a) && Alone(Next(s, a), t, acts, s')
    ensures Alone(s, t, [a] + acts, s')
  {
    assert ([a] + acts)[1..] == acts;
  }

  /** With units to be had, an acquisition left alone is granted as many as it may take, without waiting. */
  lemma SoloAcquire(s: State, t: nat, op: Op) returns (acts: seq<Action>, s': State)
    requires t < |s.pc| && s.pc[t].Idle? && s.count > 0 && OpOk(op)
    ensures Enabled(s, CallAcquire(t, op)) && Alone(Next(s, CallAcquire(t, op)), t, acts, s')
    ensures var n := Min(op.max, s.count);
            s' == s.(pc := s.pc[t := Finish(n)], count := s.count - n, granted := s.granted + n)
  {
    var n := Min(op.max, s.count);
    var s0 := s.(pc := s.pc[t := TryLoad(op, op.max, 0)]);
    var s1 := s.(pc := s.pc[t := TryCas(op, op.max, 0, s.count)]);
    s' := s.(pc := s.pc[t := Finish(n)], count := s.count - n, granted := s.granted + n);
    assert Next(s, CallAcquire(t, op)) == s0 && Next(s0, Run(t)) == s1 && Next(s1, Run(t)) == s';
    AloneFirst(s1, t, Run(t), [], s');
    AloneFirst(s0, t, Run(t), [Run(t)] + [], s');
    acts := [Run(t)] + ([Run(t)] + []);
  }

  /** Without units, a try comes back at once with nothing. */
  lemma SoloTryFails(s: State, t: nat, op: Op) returns (acts: seq<Action>, s': State)
    requires t < |s.pc| && s.pc[t].Idle? && s.count <= 0 && OpOk(op) && op.mode.Try?
    ensures Enabled(s, CallAcquire(t, op)) && Alone(Next(s, CallAcquire(t, op)), t, acts, s') && s' == s
  {
    var s0 := s.(pc := s.pc[t := TryLoad(op, op.max, 0)]);
    s' := s;
    assert Next(s0, Run(t)).pc == s.pc;
    AloneFirst(s0, t, Run(t), [], s');
    acts := [Run(t)] + [];
  }

  /**
   Own steps a thread has left at most when nobody interferes; 3 per turn of the spin loop.  Some program points
   cost more when what they saw is out of date.
   */
  function StepsLeft(s: State, p: PC): nat {
    match p
    case Idle => 0
    case Drain(n) => n + 1
    case Post(n) => Max0(n) + 1
    case SignalAdd(n) => |s.pc| + 3
    case Put(n) => |s.pc| + 4
    case TryCas(op, _, got, seen) =>
      op.max + (if s.count == seen && seen > 0 then 3 else if got > 0 then 4 else 3 * SPINS + 25)
    case TryLoad(op, _, got) => op.max + (if got > 0 then 5 else 3 * SPINS + 26)
    case SpinLoad(op, spin) => op.max + 3 * spin + 20
    case SpinCas(op, spin, _) => op.max + 3 * spin + 21
    case Sub(op) => op.max + 19
    case KernelWait(op) => op.max + 18
    case KernelTimed(op) => op.max + 18
    case Cancel(op, seen) => op.max + (if s.count == seen then 11 else 15)
    case KernelTry(op) => op.max + (if s.kernel > 0 then 12 else 15)
    case Reload(op) => op.max + 14
  }

  /** Parked in the kernel with no wake-up there. */
  predicate Parked(s: State, p: PC) { p.KernelWait? && s.kernel == 0 }

  /** The step a thread takes alone: a timed wait without a wake-up times out. */
  function OwnStep(s: State, t: nat): Action
    requires t < |s.pc|
  {
    if s.pc[t].KernelTimed? && s.kernel == 0 then Timeout(t) else Run(t)
  }

  /** No other thread owes a post. */
  ghost predicate OthersPosted(s: State, t: nat)
    requires t < |s.pc|
  {
    P(s) == Owes(s.pc[t])
  }

  lemma OwnStepEnabled(s: State, t: nat)
    requires Inv(s) && s.initial == 0 && t < |s.pc| && !s.pc[t].Idle? && !Parked(s, s.pc[t])
    ensures Enabled(s, OwnStep(s, t))
  {
    assert PcOk(s.pc[t]);
    SharesBounds(s.pc);
    assert InHand(s.pc[t]) <= Sum(Hands(s.pc));
  }

  lemma OwnStepCloserTry(s: State, t: nat)
    requires Inv(s) && t < |s.pc| && Enabled(s, Run(t))
    requires s.pc[t].TryLoad? || s.pc[t].TryCas? || s.pc[t].SpinLoad? || s.pc[t].SpinCas?
    ensures t < |Next(s, Run(t)).pc| && StepsLeft(Next(s, Run(t)), Next(s, Run(t)).pc[t]) < StepsLeft(s, s.pc[t])
  {
    assert PcOk(s.pc[t]);
  }

  lemma OwnStepCloserProduce(s: State, t: nat)
    requires Inv(s) && t < |s.pc| && Enabled(s, Run(t))
    requires s.pc[t].Put? || s.pc[t].SignalAdd? || s.pc[t].Post? || s.pc[t].Drain?
    ensures t < |Next(s, Run(t)).pc| && StepsLeft(Next(s, Run(t)), Next(s, Run(t)).pc[t]) < StepsLeft(s, s.pc[t])
  {
    if s.pc[t].SignalAdd? { ReleaseFits(s, s.pc[t].n); }
  }

  lemma OwnStepCloserWait(s: State, t: nat)
    requires Inv(s) && t < |s.pc| && OthersPosted(s, t) && Enabled(s, OwnStep(s, t))
    requires s.pc[t].Sub? || Waiting(s.pc[t])
    ensures t < |Next(s, OwnStep(s, t)).pc|
    ensures StepsLeft(Next(s, OwnStep(s, t)), Next(s, OwnStep(s, t)).pc[t]) < StepsLeft(s, s.pc[t])
  {
    assert PcOk(s.pc[t]);
    SharesBounds(s.pc);
  }

  lemma OwnStepCloser(s: State, t: nat)
    requires Inv(s) && t < |s.pc| && OthersPosted(s, t) && Enabled(s, OwnStep(s, t))
    ensures t < |Next(s, OwnStep(s, t)).pc|
    ensures StepsLeft(Next(s, OwnStep(s, t)), Next(s, OwnStep(s, t)).pc[t]) < StepsLeft(s, s.pc[t])
    ensures OthersPosted(Next(s, OwnStep(s, t)), t) && Next(s, OwnStep(s, t)).initial == s.initial
  {
    var p := s.pc[t];
    if p.Put? || p.SignalAdd? || p.Post? || p.Drain? { OwnStepCloserProduce(s, t); }
    else if p.Sub? || Waiting(p) { OwnStepCloserWait(s, t); }
    else { OwnStepCloserTry(s, t); }
    OtherPcs(s, OwnStep(s, t));
    SharesMove(s.pc, t, Next(s, OwnStep(s, t)).pc[t]);
    DeltaStep(s, OwnStep(s, t));
  }

  /**
   Left alone at any point of any run, with no post owed by others, a thread finishes its call, or is parked in
   an untimed wait because nothing is left to be granted.
   */
  lemma {:induction false} SoloFinishes(s: State, t: nat) returns (acts: seq<Action>, s': State)
    requires Inv(s) && s.initial == 0 && t < |s.pc| && OthersPosted(s, t)
    ensures |acts| <= StepsLeft(s, s.pc[t]) && Alone(s, t, acts, s')
    ensures t < |s'.pc| && (s'.pc[t].Idle? || (s'.pc[t].KernelWait? && s'.granted == s'.signalled))
    decreases StepsLeft(s, s.pc[t])
  {
    if s.pc[t].Idle? || Parked(s, s.pc[t]) {
      acts, s' := [], s;
      SharesBounds(s.pc);
    } else {
      var a := OwnStep(s, t);
      OwnStepEnabled(s, t);
      OwnStepCloser(s, t);
      StepInv(s, a);
      acts, s' := SoloFinishes(Next(s, a), t);
      AloneFirst(s, t, a, acts, s');
      acts := [a] + acts;
    }
  }

  /** The same, of every reachable state of a blocking queue. */
  lemma LeftAloneFinishes(s: State, t: nat) returns (acts: seq<Action>, s': State)
    requires Reachable(s) && s.initial == 0 && t < |s.pc| && OthersPosted(s, t)
    ensures Alone(s, t, acts, s') && t < |s'.pc| && (s'.pc[t].Idle? || (s'.pc[t].KernelWait? && s'.granted == s'.signalled))
  {
    ReachableInv(s);
    acts, s' := SoloFinishes(s, t);
  }

  /** A timed wait may time out at any moment, a wake-up already there or not; a weak exchange may fail at any moment. */
  lemma MayTimeOut(s: State, t: nat)
    requires t < |s.pc|
    ensures s.pc[t].KernelTimed? ==> Enabled(s, Timeout(t)) && Next(s, Timeout(t)).pc[t].Reload?
    ensures s.pc[t].TryCas? ==> Enabled(s, WeakFail(t)) && Next(s, WeakFail(t)).count == s.count
  {
  }

  /** Runs start with any number of threads and of units. */
  lemma Starts(threads: nat, units: nat) returns (s: State)
    requires threads < 0x8000_0000
    ensures Reachable(s) && |s.pc| == threads && s.initial == s.count == units
  {
    s := State(units, 0, units, 0, 0, 0, 0, seq(threads, _ => Idle));
    assert IsRun([s]);
  }
}
