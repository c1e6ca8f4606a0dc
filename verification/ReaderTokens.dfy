/**
 The odd/even token protocol between the random readers.

 Threads come in pairs (2i even, 2i + 1 odd).  A thread's reads are grouped into rounds of `sync` reads
 (SHRINK_SYNC_FACTOR): it waits for a token before the first read of a round and hands a token to the other
 side after the last.  Queues 0 and 1 feed the even threads, 2 and 3 the odd ones; tokens carry no round.
 */
module ReaderTokens {
  import opened Sums
  import opened Arith

  /** `done` reads finished, and whether the next one is past its wait and not yet over. */
  datatype Thread = Thread(done: nat, inside: bool)

  datatype Config = Config(pairs: nat, sync: nat, total: nat)   // total: reads each thread makes

  datatype State = State(q: seq<int>, even: seq<Thread>, odd: seq<Thread>)

  datatype Action = Enter(isOdd: bool, i: nat) | Leave(isOdd: bool, i: nat)

  // ---------- The program ----------

  predicate Valid(c: Config) { c.pairs >= 1 && c.sync >= 1 }

  ghost predicate Init(c: Config, s: State) {
    && s.q == [c.pairs, 0, 0, 0]
    && |s.even| == |s.odd| == c.pairs
    && (forall i :: 0 <= i < c.pairs ==> s.even[i] == Thread(0, false) && s.odd[i] == Thread(0, false))
  }

  /** get_notify_big_round */
  function Round(c: Config, read: nat): nat
    requires Valid(c)
  {
    read / c.sync
  }

  /** The queue a thread waits on in a round. */
  function WaitQueue(isOdd: bool, round: nat): nat { if isOdd then round % 2 + 2 else round % 2 }

  /** The queue it notifies at the end of a round: this round's odd threads, or the next round's even ones. */
  function NotifyQueue(isOdd: bool, round: nat): nat { if isOdd then (round + 1) % 2 else round % 2 + 2 }

  function Side(s: State, isOdd: bool): seq<Thread> { if isOdd then s.odd else s.even }

  function WithThread(s: State, isOdd: bool, i: nat, t: Thread): State
    requires i < |Side(s, isOdd)|
  {
    if isOdd then s.(odd := s.odd[i := t]) else s.(even := s.even[i := t])
  }

  predicate Enabled(c: Config, s: State, a: Action)
    requires Valid(c)
  {
    && |s.q| == 4
    && a.i < |Side(s, a.isOdd)|
    && var t := Side(s, a.isOdd)[a.i];
       match a
       case Enter(isOdd, i) =>
         !t.inside && t.done < c.total && (t.done % c.sync == 0 ==> s.q[WaitQueue(isOdd, Round(c, t.done))] > 0)
       case Leave(_, _) => t.inside
  }

  function Next(c: Config, s: State, a: Action): State
    requires Valid(c) && Enabled(c, s, a)
  {
    var t := Side(s, a.isOdd)[a.i];
    match a
    case Enter(isOdd, i) =>
      var k := WaitQueue(isOdd, Round(c, t.done));
      WithThread(s, isOdd, i, Thread(t.done, true)).(q := if t.done % c.sync == 0 then s.q[k := s.q[k] - 1] else s.q)
    case Leave(isOdd, i) =>
      var k := NotifyQueue(isOdd, Round(c, t.done));
      WithThread(s, isOdd, i, Thread(t.done + 1, false))
        .(q := if t.done % c.sync == c.sync - 1 then s.q[k := s.q[k] + 1] else s.q)
  }

  ghost predicate Step(c: Config, s: State, s': State)
    requires Valid(c)
  {
    exists a :: Enabled(c, s, a) && s' == Next(c, s, a)
  }

  ghost predicate IsRun(c: Config, run: seq<State>)
    requires Valid(c)
  {
    && |run| > 0
    && Init(c, run[0])
    && forall i :: 0 <= i < |run| - 1 ==> Step(c, run[i], run[i + 1])
  }

  ghost predicate Reachable(c: Config, s: State)
    requires Valid(c)
  {
    exists run :: IsRun(c, run) && run[|run| - 1] == s
  }

  predicate Done(c: Config, t: Thread) { t.done == c.total && !t.inside }

  ghost predicate AllDone(c: Config, s: State) {
    && (forall i :: 0 <= i < |s.even| ==> Done(c, s.even[i]))
    && (forall i :: 0 <= i < |s.odd| ==> Done(c, s.odd[i]))
  }

  ghost predicate Stuck(c: Config, s: State)
    requires Valid(c)
  {
    forall a :: !Enabled(c, s, a)
  }

  // ---------- Token flow ----------

  /** The thread is between the wait and the notification of a round. */
  predicate Holds(c: Config, t: Thread)
    requires Valid(c)
  {
    t.inside || t.done % c.sync != 0
  }

  /** Rounds whose token was returned, and rounds whose token was taken. */
  function Returned(c: Config, t: Thread): nat
    requires Valid(c)
  {
    t.done / c.sync
  }

  function Taken(c: Config, t: Thread): nat
    requires Valid(c)
  {
    t.done / c.sync + if Holds(c, t) then 1 else 0
  }

  /** How many of the rounds 0 .. n - 1 have even number, and odd number. */
  function EvenRounds(n: nat): nat { (n + 1) / 2 }
  function OddRounds(n: nat): nat { n / 2 }

  function Count(n: nat, odd: bool): nat { if odd then OddRounds(n) else EvenRounds(n) }

  function TakenSum(c: Config, ts: seq<Thread>, odd: bool): (r: seq<int>)
    requires Valid(c)
    ensures |r| == |ts| && forall i :: 0 <= i < |ts| ==> r[i] == Count(Taken(c, ts[i]), odd)
  {
    seq(|ts|, i requires 0 <= i < |ts| => Count(Taken(c, ts[i]), odd))
  }

  function ReturnedSum(c: Config, ts: seq<Thread>, odd: bool): (r: seq<int>)
    requires Valid(c)
    ensures |r| == |ts| && forall i :: 0 <= i < |ts| ==> r[i] == Count(Returned(c, ts[i]), odd)
  {
    seq(|ts|, i requires 0 <= i < |ts| => Count(Returned(c, ts[i]), odd))
  }

  function Holding(c: Config, ts: seq<Thread>): (r: seq<int>)
    requires Valid(c)
    ensures |r| == |ts| && forall i :: 0 <= i < |ts| ==> r[i] == if Holds(c, ts[i]) then 1 else 0
  {
    seq(|ts|, i requires 0 <= i < |ts| => if Holds(c, ts[i]) then 1 else 0)
  }

  function Tokens(q: seq<int>): int
    requires |q| == 4
  {
    q[0] + q[1] + q[2] + q[3]
  }

  /** What each queue holds: tokens put in less tokens taken out, round parity by round parity. */
  ghost predicate Flow(c: Config, s: State)
    requires Valid(c)
  {
    && |s.q| == 4
    && s.q[0] == c.pairs + Sum(ReturnedSum(c, s.odd, true)) - Sum(TakenSum(c, s.even, false))
    && s.q[1] == Sum(ReturnedSum(c, s.odd, false)) - Sum(TakenSum(c, s.even, true))
    && s.q[2] == Sum(ReturnedSum(c, s.even, false)) - Sum(TakenSum(c, s.odd, false))
    && s.q[3] == Sum(ReturnedSum(c, s.even, true)) - Sum(TakenSum(c, s.odd, true))
  }

  ghost predicate Inv(c: Config, s: State)
    requires Valid(c)
  {
    && |s.even| == |s.odd| == c.pairs
    && Flow(c, s)
    && (forall k :: 0 <= k < 4 ==> s.q[k] >= 0)
    && Tokens(s.q) + Sum(Holding(c, s.even)) + Sum(Holding(c, s.odd)) == c.pairs
    && (forall i :: 0 <= i < c.pairs ==> ThreadOk(c, s.even[i]) && ThreadOk(c, s.odd[i]))
  }

  predicate ThreadOk(c: Config, t: Thread) { t.done <= c.total && (t.inside ==> t.done < c.total) }

  lemma DivStep(n: nat, d: nat)
    requires d >= 1
    ensures n % d == d - 1 ==> (n + 1) / d == n / d + 1 && (n + 1) % d == 0
    ensures n % d != d - 1 ==> (n + 1) / d == n / d && (n + 1) % d != 0
  {
    var q, r := n / d, n % d;
    assert n == q * d + r;
    if r == d - 1 {
      assert n + 1 == (q + 1) * d;
      DivUnique(n + 1, d, q + 1, 0);
    } else {
      DivUnique(n + 1, d, q, r + 1);
    }
  }

  /** What one move does to a thread's round counts. */
  lemma MoveCounts(c: Config, t: Thread)
    requires Valid(c)
    ensures !t.inside && t.done % c.sync == 0 ==>
              var u := Thread(t.done, true);
              Returned(c, u) == Returned(c, t) == Taken(c, t) && Taken(c, u) == Taken(c, t) + 1 && Holds(c, u) && !Holds(c, t)
    ensures !t.inside && t.done % c.sync != 0 ==>
              var u := Thread(t.done, true);
              Returned(c, u) == Returned(c, t) && Taken(c, u) == Taken(c, t) && Holds(c, u) && Holds(c, t)
    ensures t.inside ==>
              var u := Thread(t.done + 1, false);
              && Taken(c, u) == Taken(c, t) == Returned(c, t) + 1
              && Returned(c, u) == Returned(c, t) + (if t.done % c.sync == c.sync - 1 then 1 else 0)
              && Holds(c, t) && (Holds(c, u) <==> t.done % c.sync != c.sync - 1)
  {
    DivStep(t.done, c.sync);
  }

  lemma CountNext(n: nat)
    ensures Count(n + 1, n % 2 == 1) == Count(n, n % 2 == 1) + 1
    ensures Count(n + 1, n % 2 == 0) == Count(n, n % 2 == 0)
  {
  }

  lemma SidesMove(c: Config, ts: seq<Thread>, i: nat, u: Thread)
    requires Valid(c) && i < |ts|
    ensures var ts' := ts[i := u];
            && (forall o :: Sum(TakenSum(c, ts', o)) == Sum(TakenSum(c, ts, o)) - Count(Taken(c, ts[i]), o) + Count(Taken(c, u), o))
            && (forall o :: Sum(ReturnedSum(c, ts', o)) == Sum(ReturnedSum(c, ts, o)) - Count(Returned(c, ts[i]), o) + Count(Returned(c, u), o))
            && Sum(Holding(c, ts')) == Sum(Holding(c, ts)) - (if Holds(c, ts[i]) then 1 else 0) + (if Holds(c, u) then 1 else 0)
  {
    var ts' := ts[i := u];
    forall o ensures Sum(TakenSum(c, ts', o)) == Sum(TakenSum(c, ts, o)) - Count(Taken(c, ts[i]), o) + Count(Taken(c, u), o) {
      SumChange(TakenSum(c, ts, o), TakenSum(c, ts', o), i);
    }
    forall o ensures Sum(ReturnedSum(c, ts', o)) == Sum(ReturnedSum(c, ts, o)) - Count(Returned(c, ts[i]), o) + Count(Returned(c, u), o) {
      SumChange(ReturnedSum(c, ts, o), ReturnedSum(c, ts', o), i);
    }
    SumChange(Holding(c, ts), Holding(c, ts'), i);
  }

  lemma KeepEnter(c: Config, s: State, a: Action)
    requires Valid(c) && Inv(c, s) && Enabled(c, s, a) && a.Enter?
    ensures Flow(c, Next(c, s, a))
  {
    var s' := Next(c, s, a);
    var t := Side(s, a.isOdd)[a.i];
    MoveCounts(c, t);
    SidesMove(c, Side(s, a.isOdd), a.i, Thread(t.done, true));
    CountNext(Returned(c, t));
  }

  lemma KeepLeave(c: Config, s: State, a: Action)
    requires Valid(c) && Inv(c, s) && Enabled(c, s, a) && a.Leave?
    ensures Flow(c, Next(c, s, a))
  {
    var s' := Next(c, s, a);
    var t := Side(s, a.isOdd)[a.i];
    MoveCounts(c, t);
    SidesMove(c, Side(s, a.isOdd), a.i, Thread(t.done + 1, false));
    CountNext(Returned(c, t));
  }

  lemma TokensUpdate(q: seq<int>, k: nat, v: int)
    requires |q| == 4 && k < 4
    ensures Tokens(q[k := v]) == Tokens(q) - q[k] + v
  {
  }

  /** A token taken out of a queue is in the taker's hand, and one put back was in the giver's. */
  lemma KeepTokens(c: Config, s: State, a: Action)
    requires Valid(c) && Inv(c, s) && Enabled(c, s, a)
    ensures var s' := Next(c, s, a);
            Tokens(s'.q) + Sum(Holding(c, s'.even)) + Sum(Holding(c, s'.odd)) == c.pairs
  {
    var t := Side(s, a.isOdd)[a.i];
    MoveCounts(c, t);
    var k := if a.Enter? then WaitQueue(a.isOdd, Round(c, t.done)) else NotifyQueue(a.isOdd, Round(c, t.done));
    TokensUpdate(s.q, k, Next(c, s, a).q[k]);
    if a.Enter? {
      SidesMove(c, Side(s, a.isOdd), a.i, Thread(t.done, true));
    } else {
      SidesMove(c, Side(s, a.isOdd), a.i, Thread(t.done + 1, false));
    }
  }

  lemma KeepQueues(c: Config, s: State, a: Action)
    requires Valid(c) && Inv(c, s) && Enabled(c, s, a)
    ensures forall k :: 0 <= k < 4 ==> Next(c, s, a).q[k] >= 0
  {
  }

  lemma KeepThreads(c: Config, s: State, a: Action)
    requires Valid(c) && Inv(c, s) && Enabled(c, s, a)
    ensures var s' := Next(c, s, a);
            && |s'.even| == |s'.odd| == c.pairs
            && forall i :: 0 <= i < c.pairs ==> ThreadOk(c, s'.even[i]) && ThreadOk(c, s'.odd[i])
  {
  }

  lemma StepInv(c: Config, s: State, a: Action)
    requires Valid(c) && Inv(c, s) && Enabled(c, s, a)
    ensures Inv(c, Next(c, s, a))
  {
    if a.Enter? { KeepEnter(c, s, a); } else { KeepLeave(c, s, a); }
    KeepTokens(c, s, a);
    KeepQueues(c, s, a);
    KeepThreads(c, s, a);
  }

  lemma InitInv(c: Config, s: State)
    requires Valid(c) && Init(c, s)
    ensures Inv(c, s)
  {
    forall ts: seq<Thread>, o: bool | forall i :: 0 <= i < |ts| ==> ts[i] == Thread(0, false)
      ensures Sum(TakenSum(c, ts, o)) == 0 && Sum(ReturnedSum(c, ts, o)) == 0 && Sum(Holding(c, ts)) == 0
    {
      SumConstant(TakenSum(c, ts, o), 0);
      SumConstant(ReturnedSum(c, ts, o), 0);
      SumConstant(Holding(c, ts), 0);
    }
  }

  lemma {:induction false} RunInv(c: Config, run: seq<State>)
    requires Valid(c) && IsRun(c, run)
    ensures Inv(c, run[|run| - 1])
  {
    if |run| == 1 {
      InitInv(c, run[0]);
    } else {
      RunInv(c, run[..|run| - 1]);
      var s := run[|run| - 2];
      assert Step(c, s, run[|run| - 2 + 1]);
      var a :| Enabled(c, s, a) && run[|run| - 1] == Next(c, s, a);
      StepInv(c, s, a);
    }
  }

  lemma ReachableInv(c: Config, s: State)
    requires Valid(c) && Reachable(c, s)
    ensures Inv(c, s)
  {
    var run :| IsRun(c, run) && run[|run| - 1] == s;
    RunInv(c, run);
  }

  // ---------- Tokens are conserved; readers in flight are bounded ----------

  function InFlight(ts: seq<Thread>): (r: seq<int>)
    ensures |r| == |ts| && forall i :: 0 <= i < |ts| ==> r[i] == if ts[i].inside then 1 else 0
  {
    seq(|ts|, i requires 0 <= i < |ts| => if ts[i].inside then 1 else 0)
  }

  /** Queued tokens and tokens in hand always total one per pair, so at most half the threads read at once. */
  lemma TokensConserved(c: Config, s: State)
    requires Valid(c) && Reachable(c, s)
    ensures |s.q| == 4
    ensures Tokens(s.q) + Sum(Holding(c, s.even)) + Sum(Holding(c, s.odd)) == c.pairs
    ensures Sum(InFlight(s.even)) + Sum(InFlight(s.odd)) <= c.pairs
  {
    ReachableInv(c, s);
    SumPointwise(InFlight(s.even), Holding(c, s.even));
    SumPointwise(InFlight(s.odd), Holding(c, s.odd));
  }

  // ---------- No deadlock ----------

  /** Sums of round counts, for threads that have completed xs[i] rounds. */
  function Counts(xs: seq<nat>, odd: bool): (r: seq<int>)
    ensures |r| == |xs| && forall i :: 0 <= i < |xs| ==> r[i] == Count(xs[i], odd)
  {
    seq(|xs|, i requires 0 <= i < |xs| => Count(xs[i], odd))
  }

  function Parities(xs: seq<nat>): (r: seq<int>)
    ensures |r| == |xs| && forall i :: 0 <= i < |xs| ==> r[i] == xs[i] % 2
  {
    seq(|xs|, i requires 0 <= i < |xs| => xs[i] % 2)
  }

  /** A blocked configuration in terms of completed rounds: n rounds per thread, queues 0 to 3. */
  datatype Blocked = Blocked(n: nat, xs: seq<nat>, ys: seq<nat>, q0: int, q1: int, q2: int, q3: int) {
    function Ex(): int { Sum(Counts(xs, false)) }
    function Ox(): int { Sum(Counts(xs, true)) }
    function Ey(): int { Sum(Counts(ys, false)) }
    function Oy(): int { Sum(Counts(ys, true)) }

    ghost predicate Valid() {
      && |xs| == |ys| && |xs| > 0
      && (forall i :: 0 <= i < |xs| ==> xs[i] <= n && ys[i] <= n)
      && q0 == |xs| + Oy() - Ex() && q1 == Ey() - Ox() && q2 == Ex() - Ey() && q3 == Ox() - Oy()
      && q0 >= 0 && q1 >= 0 && q2 >= 0 && q3 >= 0
      // an unfinished thread is waiting on an empty queue
      && (forall i :: 0 <= i < |xs| && xs[i] < n ==> if xs[i] % 2 == 0 then q0 == 0 else q1 == 0)
      && (forall i :: 0 <= i < |ys| && ys[i] < n ==> if ys[i] % 2 == 0 then q2 == 0 else q3 == 0)
    }
  }

  /** Even rounds exceed odd rounds by the number of threads whose total is odd. */
  lemma ParityGap(xs: seq<nat>)
    ensures Sum(Counts(xs, false)) == Sum(Counts(xs, true)) + Sum(Parities(xs))
    ensures 0 <= Sum(Parities(xs)) <= |xs|
  {
    SumAdd(Counts(xs, true), Parities(xs), Counts(xs, false));
    SumNonNegative(Parities(xs));
    SumAtMost(Parities(xs), 1);
  }

  lemma AllParities(xs: seq<nat>, p: nat)
    requires p < 2 && forall i :: 0 <= i < |xs| ==> xs[i] % 2 == p
    ensures Sum(Counts(xs, false)) == Sum(Counts(xs, true)) + p * |xs|
  {
    ParityGap(xs);
    SumConstant(Parities(xs), p);
  }

  lemma OddTotal(xs: seq<nat>) returns (i: nat)
    requires Sum(Counts(xs, false)) > Sum(Counts(xs, true))
    ensures i < |xs| && xs[i] % 2 == 1
  {
    ParityGap(xs);
    SumNonNegative(Parities(xs));
    i :| 0 <= i < |xs| && Parities(xs)[i] > 0;
  }

  lemma EvenTotal(xs: seq<nat>) returns (i: nat)
    requires Sum(Counts(xs, false)) < Sum(Counts(xs, true)) + |xs|
    ensures i < |xs| && xs[i] % 2 == 0
  {
    if forall i :: 0 <= i < |xs| ==> xs[i] % 2 == 1 {
      AllParities(xs, 1);
      assert false;
    }
    i :| 0 <= i < |xs| && xs[i] % 2 != 1;
  }

  /** A thread whose total is odd (or even) bounds the gap. */
  lemma GapAt(xs: seq<nat>, i: nat)
    requires i < |xs|
    ensures xs[i] % 2 == 1 ==> Sum(Counts(xs, false)) > Sum(Counts(xs, true))
    ensures xs[i] % 2 == 0 ==> Sum(Counts(xs, false)) < Sum(Counts(xs, true)) + |xs|
  {
    ParityGap(xs);
    SumNonNegative(Parities(xs));
    SumAtMost(Parities(xs), 1);
    assert Parities(xs)[i] <= Sum(Parities(xs));
    assert Parities(xs)[i] == xs[i] % 2;
  }

  /** If one side's count exceeds the other's, the other side has a thread short of its full count. */
  lemma SomeoneBehind(xs: seq<nat>, ys: seq<nat>, n: nat, odd: bool) returns (j: nat)
    requires |xs| == |ys| && forall i :: 0 <= i < |xs| ==> xs[i] <= n && ys[i] <= n
    requires Sum(Counts(xs, odd)) > Sum(Counts(ys, odd))
    ensures j < |ys| && Count(ys[j], odd) < Count(n, odd) && ys[j] < n
  {
    if forall j :: 0 <= j < |ys| ==> Count(ys[j], odd) == Count(n, odd) {
      SumConstant(Counts(ys, odd), Count(n, odd));
      SumAtMost(Counts(xs, odd), Count(n, odd));
      assert false;
    }
    j :| 0 <= j < |ys| && Count(ys[j], odd) != Count(n, odd);
  }

  lemma Queue2Empty(b: Blocked)
    requires b.Valid()
    ensures b.q2 == 0
  {
    if b.q2 > 0 {
      var j := SomeoneBehind(b.xs, b.ys, b.n, false);
      GapAt(b.ys, j);
      assert b.q3 == 0;
      if b.n % 2 == 1 {
        AllParities(b.ys, 1);
        ParityGap(b.xs);
      } else {
        var i := OddTotal(b.xs);
      }
    }
  }

  lemma Queue3Empty(b: Blocked)
    requires b.Valid()
    ensures b.q3 == 0
  {
    if b.q3 > 0 {
      var j := SomeoneBehind(b.xs, b.ys, b.n, true);
      GapAt(b.ys, j);
      assert b.q2 == 0;
      if b.n % 2 == 0 {
        AllParities(b.ys, 0);
        ParityGap(b.xs);
      } else {
        var i := EvenTotal(b.xs);
      }
    }
  }

  /** With the odd side's queues empty, no even thread is blocked. */
  lemma EvensFinished(b: Blocked)
    requires b.Valid()
    ensures forall i :: 0 <= i < |b.xs| ==> b.xs[i] == b.n
  {
    Queue2Empty(b);
    Queue3Empty(b);
    forall i | 0 <= i < |b.xs| ensures b.xs[i] == b.n {
      GapAt(b.xs, i);
    }
  }

  /** Nor is any odd one: a blocked configuration is a finished one. */
  lemma BlockedIsFinished(b: Blocked)
    requires b.Valid()
    ensures forall i :: 0 <= i < |b.xs| ==> b.xs[i] == b.n && b.ys[i] == b.n
  {
    EvensFinished(b);
    Queue2Empty(b);
    Queue3Empty(b);
    forall odd ensures forall i :: 0 <= i < |b.ys| ==> Count(b.ys[i], odd) == Count(b.n, odd) {
      SumConstant(Counts(b.xs, odd), Count(b.n, odd));
      SumAtMost(Counts(b.ys, odd), Count(b.n, odd));
      assert Sum(Counts(b.xs, odd)) == Sum(Counts(b.ys, odd));
      forall i | 0 <= i < |b.ys| ensures Count(b.ys[i], odd) == Count(b.n, odd) {
        assert Counts(b.ys, odd)[i] == Count(b.n, odd);
      }
    }
    forall i | 0 <= i < |b.xs| ensures b.ys[i] == b.n {
      assert Count(b.ys[i], true) == Count(b.n, true) && Count(b.ys[i], false) == Count(b.n, false);
    }
  }

  function Rounds(c: Config, ts: seq<Thread>): (r: seq<nat>)
    requires Valid(c)
    ensures |r| == |ts| && forall i :: 0 <= i < |ts| ==> r[i] == Returned(c, ts[i])
  {
    seq(|ts|, i requires 0 <= i < |ts| => Returned(c, ts[i]))
  }

  lemma MultiplesOrdered(a: nat, b: nat, d: nat)
    requires d >= 1 && a % d == 0 && b % d == 0 && a < b
    ensures a / d < b / d
  {
    var x, y := a / d, b / d;
    assert a == x * d && b == y * d;
  }

  /** In a stuck state every thread stands between two rounds, or has finished, holding nothing. */
  lemma StuckThreads(c: Config, s: State, isOdd: bool, i: nat)
    requires Valid(c) && Inv(c, s) && Stuck(c, s) && c.total % c.sync == 0 && i < c.pairs
    ensures var t := Side(s, isOdd)[i];
            && !t.inside && t.done % c.sync == 0 && Taken(c, t) == Returned(c, t) <= c.total / c.sync
            && (t.done < c.total <==> Returned(c, t) < c.total / c.sync)
            && (t.done < c.total ==> s.q[WaitQueue(isOdd, Returned(c, t))] == 0)
  {
    var t := Side(s, isOdd)[i];
    assert !Enabled(c, s, Leave(isOdd, i));
    assert !Enabled(c, s, Enter(isOdd, i));
    if t.done < c.total { MultiplesOrdered(t.done, c.total, c.sync); }
  }

  ghost function AsBlocked(c: Config, s: State): Blocked
    requires Valid(c) && Inv(c, s)
  {
    Blocked(Round(c, c.total), Rounds(c, s.even), Rounds(c, s.odd), s.q[0], s.q[1], s.q[2], s.q[3])
  }

  lemma StuckIsBlocked(c: Config, s: State)
    requires Valid(c) && Inv(c, s) && Stuck(c, s) && c.total % c.sync == 0
    ensures AsBlocked(c, s).Valid()
  {
    var b := AsBlocked(c, s);
    forall i | 0 <= i < c.pairs
      ensures b.xs[i] <= b.n && b.ys[i] <= b.n
      ensures Taken(c, s.even[i]) == b.xs[i] && Taken(c, s.odd[i]) == b.ys[i]
      ensures b.xs[i] < b.n ==> if b.xs[i] % 2 == 0 then b.q0 == 0 else b.q1 == 0
      ensures b.ys[i] < b.n ==> if b.ys[i] % 2 == 0 then b.q2 == 0 else b.q3 == 0
    {
      StuckThreads(c, s, false, i);
      StuckThreads(c, s, true, i);
    }
    forall o: bool
      ensures TakenSum(c, s.even, o) == Counts(b.xs, o) == ReturnedSum(c, s.even, o)
      ensures TakenSum(c, s.odd, o) == Counts(b.ys, o) == ReturnedSum(c, s.odd, o)
    {
    }
  }

  /** No deadlock: if the reads per thread are a multiple of `sync`, a state where nobody can move is the end. */
  lemma NoDeadlock(c: Config, s: State)
    requires Valid(c) && c.total % c.sync == 0 && Reachable(c, s) && Stuck(c, s)
    ensures AllDone(c, s)
  {
    ReachableInv(c, s);
    StuckIsBlocked(c, s);
    BlockedIsFinished(AsBlocked(c, s));
    forall i | 0 <= i < c.pairs ensures Done(c, s.even[i]) && Done(c, s.odd[i]) {
      StuckThreads(c, s, false, i);
      StuckThreads(c, s, true, i);
    }
  }

  // ---------- The multiple is necessary ----------

  /** Otherwise the threads can never all finish: each would keep a token, and there are only half as many. */
  lemma IncompleteRoundsNeverFinish(c: Config, s: State)
    requires Valid(c) && c.total % c.sync != 0 && Reachable(c, s)
    ensures !AllDone(c, s)
  {
    ReachableInv(c, s);
    if AllDone(c, s) {
      SumConstant(Holding(c, s.even), 1);
      SumConstant(Holding(c, s.odd), 1);
    }
  }

  function Work(c: Config, t: Thread): int { 2 * (c.total - t.done) - if t.inside then 1 else 0 }

  function Works(c: Config, ts: seq<Thread>): (r: seq<int>)
    ensures |r| == |ts| && forall i :: 0 <= i < |ts| ==> r[i] == Work(c, ts[i])
  {
    seq(|ts|, i requires 0 <= i < |ts| => Work(c, ts[i]))
  }

  ghost function Remaining(c: Config, s: State): int { Sum(Works(c, s.even)) + Sum(Works(c, s.odd)) }

  lemma StepShrinks(c: Config, s: State, a: Action)
    requires Valid(c) && Inv(c, s) && Enabled(c, s, a)
    ensures 0 <= Remaining(c, Next(c, s, a)) < Remaining(c, s)
  {
    var s' := Next(c, s, a);
    StepInv(c, s, a);
    SumChange(Works(c, Side(s, a.isOdd)), Works(c, Side(s', a.isOdd)), a.i);
    SumNonNegative(Works(c, s'.even));
    SumNonNegative(Works(c, s'.odd));
  }

  /** Every schedule runs out of moves: from any reachable state a stuck one is reached. */
  lemma {:induction false} RunsEnd(c: Config, run: seq<State>) returns (end: State)
    requires Valid(c) && IsRun(c, run)
    ensures Reachable(c, end) && Stuck(c, end)
    decreases Remaining(c, run[|run| - 1])
  {
    var s := run[|run| - 1];
    RunInv(c, run);
    if a :| Enabled(c, s, a) {
      StepShrinks(c, s, a);
      var longer := run + [Next(c, s, a)];
      assert Step(c, s, Next(c, s, a));
      forall i | 0 <= i < |longer| - 1 ensures Step(c, longer[i], longer[i + 1]) {
        if i < |run| - 1 { assert Step(c, run[i], run[i + 1]); }
      }
      end := RunsEnd(c, longer);
    } else {
      assert Stuck(c, s);
      end := s;
    }
  }

  /**
   Exactly when the protocol works: every maximal schedule finishes all reads if and only if the number of
   reads per thread is a multiple of `sync`.
   */
  lemma CompletesIffMultiple(c: Config)
    requires Valid(c)
    ensures (forall s :: Reachable(c, s) && Stuck(c, s) ==> AllDone(c, s)) <==> c.total % c.sync == 0
  {
    if c.total % c.sync == 0 {
      forall s | Reachable(c, s) && Stuck(c, s) ensures AllDone(c, s) {
        NoDeadlock(c, s);
      }
    } else {
      var s := State([c.pairs, 0, 0, 0], seq(c.pairs, _ => Thread(0, false)), seq(c.pairs, _ => Thread(0, false)));
      var end := RunsEnd(c, [s]);
      IncompleteRoundsNeverFinish(c, end);
    }
  }

  // ---------- Reads begun and ended ----------

  /** A run with the actions that make it. */
  ghost predicate IsRunBy(c: Config, run: seq<State>, acts: seq<Action>)
    requires Valid(c)
  {
    && |run| == |acts| + 1
    && Init(c, run[0])
    && forall i :: 0 <= i < |acts| ==> StepBy(c, run[i], acts[i], run[i + 1])
  }

  ghost predicate StepBy(c: Config, s: State, a: Action, s': State)
    requires Valid(c)
  {
    Enabled(c, s, a) && s' == Next(c, s, a)
  }

  function Times(acts: seq<Action>, a: Action): nat {
    if acts == [] then 0 else Times(acts[..|acts| - 1], a) + if acts[|acts| - 1] == a then 1 else 0
  }

  lemma SameSides(c: Config, s: State, a: Action, isOdd: bool)
    requires Valid(c) && Enabled(c, s, a)
    ensures |Side(Next(c, s, a), isOdd)| == |Side(s, isOdd)|
  {
  }

  /** `done` counts the reads a thread has ended, and every read it began it ends before the next. */
  lemma {:induction false} ReadsAreMade(c: Config, run: seq<State>, acts: seq<Action>, isOdd: bool, i: nat)
    requires Valid(c) && IsRunBy(c, run, acts) && i < |Side(run[0], isOdd)|
    ensures |Side(run[|acts|], isOdd)| == |Side(run[0], isOdd)|
    ensures var t := Side(run[|acts|], isOdd)[i];
            && Times(acts, Leave(isOdd, i)) == t.done
            && Times(acts, Enter(isOdd, i)) == t.done + if t.inside then 1 else 0
    decreases |acts|
  {
    if acts != [] {
      var n := |acts| - 1;
      forall j | 0 <= j < n ensures StepBy(c, run[..n + 1][j], acts[..n][j], run[..n + 1][j + 1]) {
        assert StepBy(c, run[j], acts[j], run[j + 1]);
      }
      ReadsAreMade(c, run[..n + 1], acts[..n], isOdd, i);
      assert StepBy(c, run[n], acts[n], run[n + 1]);
      SameSides(c, run[n], acts[n], isOdd);
    }
  }

  lemma RunByIsRun(c: Config, run: seq<State>, acts: seq<Action>)
    requires Valid(c) && IsRunBy(c, run, acts)
    ensures IsRun(c, run)
  {
    forall i | 0 <= i < |run| - 1 ensures Step(c, run[i], run[i + 1]) {
      assert StepBy(c, run[i], acts[i], run[i + 1]);
    }
  }

  /** When the protocol works, a run in which nobody can move has made exactly the reads that were to be made. */
  lemma AllReadsAreMade(c: Config, run: seq<State>, acts: seq<Action>, isOdd: bool, i: nat)
    requires Valid(c) && IsRunBy(c, run, acts) && i < c.pairs
    requires c.total % c.sync == 0 && Stuck(c, run[|acts|])
    ensures Times(acts, Enter(isOdd, i)) == Times(acts, Leave(isOdd, i)) == c.total
  {
    RunByIsRun(c, run, acts);
    assert Reachable(c, run[|acts|]);
    NoDeadlock(c, run[|acts|]);
    ReadsAreMade(c, run, acts, isOdd, i);
  }

  /** Runs start for every number of pairs. */
  lemma Starts(c: Config) returns (s: State)
    requires Valid(c)
    ensures Reachable(c, s) && |s.even| == |s.odd| == c.pairs
  {
    s := State([c.pairs, 0, 0, 0], seq(c.pairs, _ => Thread(0, false)), seq(c.pairs, _ => Thread(0, false)));
    assert IsRun(c, [s]);
  }
}
