/**
 The optimistic-ticket dequeue shared by the explicit and implicit producers' sub-queues.

 One producer appends; any number of consumers run `dequeue` (One) or `dequeue_bulk` (Bulk).  Counters are
 kept as unbounded integers, but every test the program makes looks only at 64-bit words, so this is the
 wrapping program.  Tails and heads may wrap any number of times; LIMIT bounds the units of tickets handed out,
 and SafeUpToLimit shows that bound to be exact.
 */
module OptimisticDequeue {
  import opened Arith
  import opened Options
  import opened Sums

  const WORD: int := 0x1_0000_0000_0000_0000
  const HALF: int := 0x8000_0000_0000_0000
  const LIMIT: int := HALF + 2                   // units of tickets up to which the word tests cannot err

  /** The 64-bit word stored for a counter. */
  function Word(x: int): int { x % WORD }

  /** `details::circular_less_than` on two words. */
  predicate CircularLess(a: int, b: int) { Word(a - b) > HALF }

  datatype Kind = One | Bulk(max: nat)

  datatype PC =
    | Idle
    | LoadTail(k: Kind)
    | LoadOver(k: Kind, tail: int)
    | LoadOptimistic(k: Kind, tail: int, over: int)
    | Fetch(k: Kind, desired: nat, over: int)
    | Ticket(k: Kind, desired: nat, over: int, mine: int)
    | GiveBack(granted: nat, rejected: nat)      // overcommit += rejected; then, if anything was granted, Claim
    | Claim(granted: nat)                        // headIndex += granted

  /** A claimed run of indices; `claims` is the history of head increments. */
  datatype Claimed = Claimed(who: nat, first: int, count: nat)

  datatype State = State(tail: int, head: int, optimistic: int, over: int, pc: seq<PC>, claims: seq<Claimed>)

  datatype Action = Enqueue | Call(t: nat, k: Kind) | Run(t: nat)

  // ---------- The program ----------

  ghost predicate Init(s: State) {
    && s.tail == s.head == s.optimistic == s.over == 0
    && s.claims == []
    && forall t :: 0 <= t < |s.pc| ==> s.pc[t] == Idle
  }

  predicate Enabled(s: State, a: Action) {
    match a
    case Enqueue => true
    case Call(t, _) => t < |s.pc| && s.pc[t].Idle?
    case Run(t) => t < |s.pc| && !s.pc[t].Idle?
  }

  function Min(a: int, b: int): int { if a < b then a else b }

  /** First test: (passes, how many to ask for). */
  function Ask(k: Kind, tail: int, optimistic: int, over: int): (bool, nat) {
    match k
    case One => (CircularLess(Word(optimistic - over), Word(tail)), 1)
    case Bulk(max) =>
      var desired := Word(tail - (optimistic - over));
      (CircularLess(0, desired), if desired < max then desired else max)
  }

  /** Second test, on the ticket: (passes, how many are granted). */
  function Decide(k: Kind, desired: nat, tail: int, mine: int, over: int): (bool, nat) {
    match k
    case One => (CircularLess(Word(mine - over), Word(tail)), 1)
    case Bulk(_) =>
      var actual := Word(tail - (mine - over));
      (CircularLess(0, actual), if desired < actual then desired else actual)
  }

  function Settle(granted: nat): PC { if granted > 0 then Claim(granted) else Idle }

  function Next(s: State, a: Action): State
    requires Enabled(s, a)
  {
    match a
    case Enqueue => s.(tail := s.tail + 1)
    case Call(t, k) => s.(pc := s.pc[t := LoadTail(k)])
    case Run(t) =>
      match s.pc[t]
      case LoadTail(k) => s.(pc := s.pc[t := LoadOver(k, s.tail)])
      case LoadOver(k, tail) => s.(pc := s.pc[t := LoadOptimistic(k, tail, s.over)])
      case LoadOptimistic(k, tail, over) =>
        var (passes, desired) := Ask(k, tail, s.optimistic, over);
        s.(pc := s.pc[t := if passes then Fetch(k, desired, over) else Idle])
      case Fetch(k, desired, over) =>
        s.(pc := s.pc[t := Ticket(k, desired, over, s.optimistic)], optimistic := s.optimistic + desired)
      case Ticket(k, desired, over, mine) =>
        var (passes, actual) := Decide(k, desired, s.tail, mine, over);
        s.(pc := s.pc[t :=
          if !passes then GiveBack(0, desired)
          else if actual < desired then GiveBack(actual, desired - actual)
          else Settle(actual)])
      case GiveBack(granted, rejected) => s.(pc := s.pc[t := Settle(granted)], over := s.over + rejected)
      case Claim(granted) =>
        s.(pc := s.pc[t := Idle], head := s.head + granted, claims := s.claims + [Claimed(t, s.head, granted)])
  }

  ghost predicate Step(s: State, s': State) {
    exists a :: Enabled(s, a) && s' == Next(s, a)
  }

  ghost predicate IsRun(run: seq<State>) {
    && |run| > 0
    && Init(run[0])
    && forall i :: 0 <= i < |run| - 1 ==> Step(run[i], run[i + 1])
  }

  ghost predicate Reachable(s: State) {
    exists run :: IsRun(run) && run[|run| - 1] == s
  }

  // ---------- The word tests ----------

  /** Exactly what the circular test on two words says of the counters: they differ by less than half, modulo a word. */
  lemma CircularExactly(a: int, b: int)
    ensures CircularLess(Word(a), Word(b)) <==> 0 < Word(b - a) < HALF
  {
    WordMinus(a, b);
    WordMinus(0, b - a);
    assert Word(0 - Word(b - a)) == Word(a - b);
  }

  /** So within half the range the test is the order of the counters. */
  lemma CircularLessIsLess(a: int, b: int)
    requires -HALF < b - a < HALF
    ensures CircularLess(Word(a), Word(b)) <==> a < b
  {
    CircularExactly(a, b);
    if a <= b { assert Word(b - a) == b - a; } else { assert Word(b - a) == b - a + WORD; }
  }

  lemma WordMinus(a: int, b: int)
    ensures Word(Word(a) - Word(b)) == Word(a - b)
    ensures Word(a - Word(b)) == Word(a - b)
  {
    var qa, qb := a / WORD, b / WORD;
    assert a == qa * WORD + Word(a) && b == qb * WORD + Word(b);
    ModShift(a - b, WORD, qb - qa);
    ModShift(a - b, WORD, qb);
    assert Word(a) - Word(b) == (a - b) + (qb - qa) * WORD;
    assert a - Word(b) == (a - b) + qb * WORD;
  }

  /** `dequeue` is `dequeue_bulk` with a maximum of one: same tests, same amounts, for all words. */
  lemma OneIsBulkOfOne(tail: int, optimistic: int, over: int)
    ensures Ask(One, tail, optimistic, over).0 == Ask(Bulk(1), tail, optimistic, over).0
    ensures Ask(One, tail, optimistic, over).0 ==> Ask(Bulk(1), tail, optimistic, over) == (true, 1)
    ensures Decide(One, 1, tail, optimistic, over).0 == Decide(Bulk(1), 1, tail, optimistic, over).0
    ensures Decide(One, 1, tail, optimistic, over).0 ==> Decide(Bulk(1), 1, tail, optimistic, over) == (true, 1)
  {
    var p := optimistic - over;
    WordMinus(p, tail);
    WordMinus(0, tail - p);
    assert Word(0 - Word(tail - p)) == Word(p - tail);
    if CircularLess(0, Word(tail - p)) {
      assert Word(tail - p) != 0;
    }
  }

  /** What a judged ticket gets, in terms of the counters. */
  lemma DecideFacts(k: Kind, desired: nat, tail: int, mine: int, over: int)
    requires -HALF < tail - (mine - over) < HALF
    requires k.One? ==> desired == 1
    ensures var (passes, actual) := Decide(k, desired, tail, mine, over);
            && (passes <==> tail - (mine - over) > 0)
            && (passes ==> actual == Min(desired, tail - (mine - over)))
  {
    var d := tail - (mine - over);
    match k
    case One => CircularLessIsLess(mine - over, tail);
    case Bulk(_) =>
      if d > 0 { assert Word(d) == d; }
      WordMinus(0, d);
      assert Word(0 - Word(d)) == Word(0 - d);
      if d > 0 { assert Word(0 - d) == WORD - d; } else { assert Word(0 - d) == -d; }
  }

  /** A ticket judged less than half the range beyond the tail gets no more than there is, however far the tail is ahead. */
  lemma DecideSafe(k: Kind, desired: nat, tail: int, mine: int, over: int)
    requires -HALF <= tail - (mine - over)
    ensures var (passes, actual) := Decide(k, desired, tail, mine, over);
            passes ==> actual <= tail - (mine - over)
  {
    var d := tail - (mine - over);
    CircularExactly(mine - over, tail);
    CircularExactly(0, d);
    WordMinus(0, d);
    assert Word(0 - Word(d)) == Word(0 - d);
    if d <= 0 {
      assert d == 0 || Word(d) == d + WORD;
    } else {
      WordAtMost(d);
    }
  }

  lemma WordAtMost(d: int)
    requires d >= 0
    ensures Word(d) <= d
  {
  }

  // ---------- The history of tickets ----------

  /** What became of each unit of the optimistic counter, in the order it was handed out. */
  datatype Status = Open(t: nat) | Granted | Rejected

  function Grants(st: seq<Status>): (r: seq<int>)
    ensures |r| == |st| && forall x :: 0 <= x < |st| ==> r[x] == if st[x].Granted? then 1 else 0
  {
    seq(|st|, x requires 0 <= x < |st| => if st[x].Granted? then 1 else 0)
  }

  function Rejects(st: seq<Status>): (r: seq<int>)
    ensures |r| == |st| && forall x :: 0 <= x < |st| ==> r[x] == if st[x].Rejected? then 1 else 0
  {
    seq(|st|, x requires 0 <= x < |st| => if st[x].Rejected? then 1 else 0)
  }

  function Granteds(st: seq<Status>): int { Sum(Grants(st)) }
  function Rejecteds(st: seq<Status>): int { Sum(Rejects(st)) }

  /** Units [m, m + d) are decided: the first a are granted, the others rejected. */
  function Mark(st: seq<Status>, m: nat, d: nat, a: nat): (r: seq<Status>)
    requires m + d <= |st| && a <= d
    ensures |r| == |st|
  {
    seq(|st|, x requires 0 <= x < |st| => if m <= x < m + a then Granted else if m + a <= x < m + d then Rejected else st[x])
  }

  predicate AllOpen(st: seq<Status>, m: nat, d: nat, t: nat) {
    m + d <= |st| && forall x :: m <= x < m + d ==> st[x] == Open(t)
  }

  lemma {:induction false} MarkCounts(st: seq<Status>, m: nat, d: nat, a: nat, t: nat)
    requires AllOpen(st, m, d, t) && a <= d
    ensures Granteds(Mark(st, m, d, a)) == Granteds(st) + a
    ensures Rejecteds(Mark(st, m, d, a)) == Rejecteds(st) + d - a
  {
    var r := Mark(st, m, d, a);
    if d == 0 {
      assert r == st;
    } else {
      var b := if a < d then a else d - 1;
      var q := Mark(st, m, d - 1, b);
      MarkCounts(st, m, d - 1, b, t);
      assert q[m + d - 1] == Open(t);
      SumChange(Grants(q), Grants(r), m + d - 1);
      SumChange(Rejects(q), Rejects(r), m + d - 1);
    }
  }

  /** Deciding units can only add rejections to any prefix. */
  lemma MarkPrefix(st: seq<Status>, m: nat, d: nat, a: nat, t: nat, x: nat)
    requires AllOpen(st, m, d, t) && a <= d && x <= |st|
    ensures Rejecteds(st[..x]) <= Rejecteds(Mark(st, m, d, a)[..x])
    ensures x <= m ==> Mark(st, m, d, a)[..x] == st[..x]
  {
    SumPointwise(Rejects(st[..x]), Rejects(Mark(st, m, d, a)[..x]));
  }

  lemma {:induction false} RejectsPrefix(st: seq<Status>, x: nat)
    requires x <= |st|
    ensures Rejecteds(st[..x]) <= Rejecteds(st)
    decreases |st|
  {
    if x == |st| {
      assert st[..x] == st;
    } else {
      var q := st[..|st| - 1];
      assert q[..x] == st[..x];
      RejectsPrefix(q, x);
      Extend(q, st[|st| - 1]);
      assert q + [st[|st| - 1]] == st;
    }
  }

  lemma {:induction false} SumSnoc(xs: seq<int>, v: int)
    ensures Sum(xs + [v]) == Sum(xs) + v
  {
    if |xs| > 0 {
      assert (xs + [v])[1..] == xs[1..] + [v];
      SumSnoc(xs[1..], v);
    }
  }

  lemma Extend(st: seq<Status>, x: Status)
    ensures Granteds(st + [x]) == Granteds(st) + if x.Granted? then 1 else 0
    ensures Rejecteds(st + [x]) == Rejecteds(st) + if x.Rejected? then 1 else 0
  {
    assert Grants(st + [x]) == Grants(st) + [if x.Granted? then 1 else 0];
    assert Rejects(st + [x]) == Rejects(st) + [if x.Rejected? then 1 else 0];
    SumSnoc(Grants(st), if x.Granted? then 1 else 0);
    SumSnoc(Rejects(st), if x.Rejected? then 1 else 0);
  }

  /** Every granted unit, less the rejections before it, lies below the tail. */
  ghost predicate GrantsBelow(st: seq<Status>, tail: int) {
    forall x :: 0 <= x < |st| && st[x].Granted? ==> x + 1 - Rejecteds(st[..x]) <= tail
  }

  /** The heart of the argument: then there are no more grants than elements. */
  lemma {:induction false} GrantsAtMostTail(st: seq<Status>, tail: int)
    requires GrantsBelow(st, tail) && 0 <= tail
    ensures Granteds(st) <= tail
    ensures Granteds(st) + Rejecteds(st) <= |st|
  {
    if |st| > 0 {
      var q, x := st[..|st| - 1], st[|st| - 1];
      assert q + [x] == st;
      forall y | 0 <= y < |q| && q[y].Granted? ensures y + 1 - Rejecteds(q[..y]) <= tail {
        assert q[..y] == st[..y];
      }
      GrantsAtMostTail(q, tail);
      Extend(q, x);
    }
  }

  // ---------- The invariant ----------

  function PendingGrant(p: PC): int {
    match p
    case GiveBack(granted, _) => granted
    case Claim(granted) => granted
    case _ => 0
  }

  function PendingReject(p: PC): int { if p.GiveBack? then p.rejected else 0 }

  /** Units of the optimistic counter a thread has taken and not yet turned into a claim or an overcommit. */
  function InFlight(p: PC): int {
    match p
    case Ticket(_, desired, _, _) => desired
    case GiveBack(granted, rejected) => granted + rejected
    case Claim(granted) => granted
    case _ => 0
  }

  function PendingGrants(pc: seq<PC>): (r: seq<int>)
    ensures |r| == |pc| && forall t :: 0 <= t < |pc| ==> r[t] == PendingGrant(pc[t])
  {
    seq(|pc|, t requires 0 <= t < |pc| => PendingGrant(pc[t]))
  }

  function PendingRejects(pc: seq<PC>): (r: seq<int>)
    ensures |r| == |pc| && forall t :: 0 <= t < |pc| ==> r[t] == PendingReject(pc[t])
  {
    seq(|pc|, t requires 0 <= t < |pc| => PendingReject(pc[t]))
  }

  function InFlights(pc: seq<PC>): (r: seq<int>)
    ensures |r| == |pc| && forall t :: 0 <= t < |pc| ==> r[t] == InFlight(pc[t])
  {
    seq(|pc|, t requires 0 <= t < |pc| => InFlight(pc[t]))
  }

  lemma TotalsMove(pc: seq<PC>, t: nat, p: PC)
    requires t < |pc|
    ensures Sum(PendingGrants(pc[t := p])) == Sum(PendingGrants(pc)) - PendingGrant(pc[t]) + PendingGrant(p)
    ensures Sum(PendingRejects(pc[t := p])) == Sum(PendingRejects(pc)) - PendingReject(pc[t]) + PendingReject(p)
    ensures Sum(InFlights(pc[t := p])) == Sum(InFlights(pc)) - InFlight(pc[t]) + InFlight(p)
  {
    SumChange(PendingGrants(pc), PendingGrants(pc[t := p]), t);
    SumChange(PendingRejects(pc), PendingRejects(pc[t := p]), t);
    SumChange(InFlights(pc), InFlights(pc[t := p]), t);
  }

  lemma TotalsNonNegative(pc: seq<PC>)
    ensures 0 <= Sum(PendingGrants(pc)) && 0 <= Sum(PendingRejects(pc)) && 0 <= Sum(InFlights(pc))
    ensures forall t :: 0 <= t < |pc| ==> PendingGrant(pc[t]) <= Sum(PendingGrants(pc))
  {
    SumNonNegative(PendingGrants(pc));
    SumNonNegative(PendingRejects(pc));
    SumNonNegative(InFlights(pc));
    forall t | 0 <= t < |pc| ensures PendingGrant(pc[t]) <= Sum(PendingGrants(pc)) {
      assert PendingGrants(pc)[t] <= Sum(PendingGrants(pc));
    }
  }

  ghost predicate Balanced(s: State, st: seq<Status>) {
    && 0 <= s.tail && 0 <= s.head && 0 <= s.over
    && s.optimistic == |st|
    && s.optimistic == s.head + s.over + Sum(InFlights(s.pc))
    && s.over + Sum(PendingRejects(s.pc)) == Rejecteds(st)
    && s.head + Sum(PendingGrants(s.pc)) == Granteds(st)
  }

  ghost predicate PcOk(p: PC, t: nat, over: int, st: seq<Status>) {
    match p
    case LoadOptimistic(_, _, o) => 0 <= o <= over
    case Fetch(k, desired, o) => 0 <= o <= over && (k.One? ==> desired == 1)
    case Ticket(k, desired, o, mine) =>
      0 <= mine && AllOpen(st, mine, desired, t) && 0 <= o <= Rejecteds(st[..mine]) && (k.One? ==> desired == 1)
    case _ => true
  }

  /** While nothing was ever enqueued, nobody has got past the first test. */
  predicate Fresh(p: PC) {
    match p
    case LoadOver(_, tail) => tail == 0
    case LoadOptimistic(_, tail, over) => tail == over == 0
    case _ => p.Idle? || p.LoadTail?
  }

  ghost predicate FreshOk(s: State) {
    s.tail == 0 ==> s.optimistic == s.over == 0 && forall t :: 0 <= t < |s.pc| ==> Fresh(s.pc[t])
  }

  ghost predicate Inv(s: State, st: seq<Status>) {
    && Balanced(s, st)
    && FreshOk(s)
    && (s.optimistic <= LIMIT ==> GrantsBelow(st, s.tail))
    && forall t :: 0 <= t < |s.pc| ==> PcOk(s.pc[t], t, s.over, st)
  }

  ghost function Follow(s: State, a: Action, st: seq<Status>): seq<Status>
    requires Enabled(s, a)
  {
    if !a.Run? then st
    else
      match s.pc[a.t]
      case Fetch(_, desired, _) => st + seq(desired, _ => Open(a.t))
      case Ticket(k, desired, over, mine) =>
        var (passes, actual) := Decide(k, desired, s.tail, mine, over);
        if 0 <= mine && mine + desired <= |st| && actual <= desired then
          Mark(st, mine, desired, if passes then actual else 0)
        else st
      case _ => st
  }

  lemma {:induction false} OpenAppended(st: seq<Status>, d: nat, t: nat)
    ensures Granteds(st + seq(d, _ => Open(t))) == Granteds(st)
    ensures Rejecteds(st + seq(d, _ => Open(t))) == Rejecteds(st)
    decreases d
  {
    if d == 0 {
      assert st + seq(d, _ => Open(t)) == st;
    } else {
      OpenAppended(st, d - 1, t);
      assert st + seq(d, _ => Open(t)) == (st + seq(d - 1, _ => Open(t))) + [Open(t)];
      Extend(st + seq(d - 1, _ => Open(t)), Open(t));
    }
  }

  lemma KeepFetch(s: State, t: nat, st: seq<Status>)
    requires Inv(s, st) && t < |s.pc| && s.pc[t].Fetch?
    ensures Inv(Next(s, Run(t)), Follow(s, Run(t), st))
  {
    var s', st' := Next(s, Run(t)), Follow(s, Run(t), st);
    var Fetch(k, desired, over) := s.pc[t];
    assert PcOk(s.pc[t], t, s.over, st);
    OpenAppended(st, desired, t);
    TotalsMove(s.pc, t, s'.pc[t]);
    TotalsNonNegative(s.pc);
    assert st'[..|st|] == st;
    forall x | 0 <= x < |st'| && st'[x].Granted? && GrantsBelow(st, s.tail) ensures x + 1 - Rejecteds(st'[..x]) <= s'.tail {
      assert x < |st| && st'[..x] == st[..x];
    }
    forall u | 0 <= u < |s'.pc| ensures PcOk(s'.pc[u], u, s'.over, st') {
      assert PcOk(s.pc[u], u, s.over, st);
      if u != t && s.pc[u].Ticket? { assert st'[..s.pc[u].mine] == st[..s.pc[u].mine]; }
    }
  }

  /** Judging one ticket; `a` of its `d` units are granted. */
  lemma JudgeKeeps(st: seq<Status>, m: nat, d: nat, a: nat, t: nat, over: int, tail: int)
    requires AllOpen(st, m, d, t) && a <= d
    requires over <= Rejecteds(st[..m])
    requires a > 0 ==> a <= tail - (m - over)
    requires GrantsBelow(st, tail)
    ensures GrantsBelow(Mark(st, m, d, a), tail)
  {
    var r := Mark(st, m, d, a);
    forall x | 0 <= x < |r| && r[x].Granted? ensures x + 1 - Rejecteds(r[..x]) <= tail {
      MarkPrefix(st, m, d, a, t, x);
      if m <= x < m + d {
        RejectsPrefix(st[..x], m);
        assert st[..x][..m] == st[..m];
      }
    }
  }

  lemma SomethingEnqueued(s: State, t: nat)
    requires FreshOk(s) && t < |s.pc| && (s.pc[t].Fetch? || s.pc[t].Ticket?)
    ensures s.tail != 0
  {
  }

  /** Up to the limit, a judged ticket stands less than half the range beyond the tail. */
  lemma TicketInReach(s: State, t: nat, st: seq<Status>)
    requires Inv(s, st) && t < |s.pc| && s.pc[t].Ticket? && s.optimistic <= LIMIT
    ensures var Ticket(k, desired, over, mine) := s.pc[t];
            desired > 0 ==> -HALF <= s.tail - (mine - over)
  {
    assert PcOk(s.pc[t], t, s.over, st);
    SomethingEnqueued(s, t);
  }

  lemma KeepGrants(s: State, t: nat, st: seq<Status>)
    requires Inv(s, st) && t < |s.pc| && s.pc[t].Ticket? && s.optimistic <= LIMIT
    ensures GrantsBelow(Follow(s, Run(t), st), s.tail)
  {
    var Ticket(k, desired, over, mine) := s.pc[t];
    assert PcOk(s.pc[t], t, s.over, st);
    var (passes, actual) := Decide(k, desired, s.tail, mine, over);
    var a := if passes then actual else 0;
    TicketInReach(s, t, st);
    if desired > 0 { DecideSafe(k, desired, s.tail, mine, over); }
    JudgeKeeps(st, mine, desired, a, t, over, s.tail);
  }

  lemma KeepTicket(s: State, t: nat, st: seq<Status>)
    requires Inv(s, st) && t < |s.pc| && s.pc[t].Ticket?
    ensures Inv(Next(s, Run(t)), Follow(s, Run(t), st))
  {
    var s', st' := Next(s, Run(t)), Follow(s, Run(t), st);
    var Ticket(k, desired, over, mine) := s.pc[t];
    assert PcOk(s.pc[t], t, s.over, st);
    var (passes, actual) := Decide(k, desired, s.tail, mine, over);
    var a := if passes then actual else 0;
    MarkCounts(st, mine, desired, a, t);
    if s.optimistic <= LIMIT { KeepGrants(s, t, st); }
    TotalsMove(s.pc, t, s'.pc[t]);
    SomethingEnqueued(s, t);
    forall u | 0 <= u < |s'.pc| ensures PcOk(s'.pc[u], u, s'.over, st') {
      assert PcOk(s.pc[u], u, s.over, st);
      if u != t && s.pc[u].Ticket? {
        MarkPrefix(st, mine, desired, a, t, s.pc[u].mine);
        TicketsApart(st, mine, desired, t, s.pc[u].mine, s.pc[u].desired, u, a);
      }
    }
  }

  lemma TicketsApart(st: seq<Status>, m: nat, d: nat, t: nat, m': nat, d': nat, u: nat, a: nat)
    requires AllOpen(st, m, d, t) && AllOpen(st, m', d', u) && t != u && a <= d
    ensures AllOpen(Mark(st, m, d, a), m', d', u)
  {
    forall x | m' <= x < m' + d' ensures Mark(st, m, d, a)[x] == Open(u) {
      assert st[x] == Open(u);
    }
  }

  /** With nothing enqueued yet, the first test turns everyone away. */
  lemma KeepFresh(s: State, a: Action)
    requires FreshOk(s) && 0 <= s.tail && Enabled(s, a)
    ensures FreshOk(Next(s, a))
  {
    if a.Run? && s.tail == 0 {
      assert Fresh(s.pc[a.t]);
      CircularExactly(0, 0);
    }
    forall u | 0 <= u < |s.pc| && Next(s, a).tail == 0 ensures Fresh(Next(s, a).pc[u]) {
      assert Fresh(s.pc[u]);
    }
  }

  lemma KeepOther(s: State, a: Action, st: seq<Status>)
    requires Inv(s, st) && Enabled(s, a)
    requires a.Run? ==> !s.pc[a.t].Ticket? && !s.pc[a.t].Fetch?
    ensures Inv(Next(s, a), Follow(s, a, st))
  {
    var s' := Next(s, a);
    KeepFresh(s, a);
    if !a.Enqueue? {
      TotalsMove(s.pc, a.t, s'.pc[a.t]);
      assert PcOk(s.pc[a.t], a.t, s.over, st);
    }
    forall u | 0 <= u < |s'.pc| ensures PcOk(s'.pc[u], u, s'.over, st) {
      assert PcOk(s.pc[u], u, s.over, st);
    }
  }

  lemma StepInv(s: State, a: Action, st: seq<Status>)
    requires Inv(s, st) && Enabled(s, a)
    ensures Inv(Next(s, a), Follow(s, a, st))
  {
    if a.Run? && s.pc[a.t].Fetch? { KeepFetch(s, a.t, st); }
    else if a.Run? && s.pc[a.t].Ticket? { KeepTicket(s, a.t, st); }
    else { KeepOther(s, a, st); }
  }

  lemma InitInv(s: State)
    requires Init(s)
    ensures Inv(s, []) && ClaimsOk(s)
  {
    SumConstant(InFlights(s.pc), 0);
    SumConstant(PendingGrants(s.pc), 0);
    SumConstant(PendingRejects(s.pc), 0);
  }

  // ---------- Claims ----------

  /** The claims cut [0, head) into consecutive runs, in the order they were made. */
  ghost predicate ClaimsOk(s: State) {
    && (s.claims == [] ==> s.head == 0)
    && (s.claims != [] ==> s.claims[0].first == 0 && End(s.claims[|s.claims| - 1]) == s.head)
    && (forall i :: 0 <= i < |s.claims| - 1 ==> End(s.claims[i]) == s.claims[i + 1].first)
  }

  function End(c: Claimed): int { c.first + c.count }

  lemma StepClaims(s: State, a: Action)
    requires ClaimsOk(s) && Enabled(s, a)
    ensures ClaimsOk(Next(s, a))
  {
  }

  lemma {:induction false} RunInv(run: seq<State>) returns (st: seq<Status>)
    requires IsRun(run)
    ensures Inv(run[|run| - 1], st) && ClaimsOk(run[|run| - 1])
  {
    if |run| == 1 {
      InitInv(run[0]);
      st := [];
    } else {
      st := RunInv(run[..|run| - 1]);
      var s := run[|run| - 2];
      assert Step(s, run[|run| - 2 + 1]);
      var a :| Enabled(s, a) && run[|run| - 1] == Next(s, a);
      StepInv(s, a, st);
      StepClaims(s, a);
      st := Follow(s, a, st);
    }
  }

  lemma ReachableInv(s: State) returns (st: seq<Status>)
    requires Reachable(s)
    ensures Inv(s, st) && ClaimsOk(s)
  {
    var run :| IsRun(run) && run[|run| - 1] == s;
    st := RunInv(run);
  }

  // ---------- What every run guarantees ----------

  /** The counters balance, however often they have wrapped. */
  lemma CountersBalance(s: State)
    requires Reachable(s)
    ensures s.optimistic == s.head + s.over + Sum(InFlights(s.pc))
    ensures 0 <= s.head && 0 <= s.over && 0 <= Sum(InFlights(s.pc))
  {
    var st := ReachableInv(s);
    TotalsNonNegative(s.pc);
  }

  /** Grants never run past the tail: neither those claimed nor those about to be. */
  lemma HeadNeverPassesTail(s: State)
    requires Reachable(s) && s.optimistic <= LIMIT
    ensures 0 <= s.head <= s.head + Sum(PendingGrants(s.pc)) <= s.tail
    ensures forall t :: 0 <= t < |s.pc| && s.pc[t].Claim? ==> s.head + s.pc[t].granted <= s.tail
  {
    var st := ReachableInv(s);
    GrantsAtMostTail(st, s.tail);
    TotalsNonNegative(s.pc);
    forall t | 0 <= t < |s.pc| && s.pc[t].Claim? ensures s.head + s.pc[t].granted <= s.tail {
      assert PendingGrant(s.pc[t]) == s.pc[t].granted;
    }
  }

  /**
   Every element below the head is in exactly one claim and claims are in queue order, in every run; up to the
   limit all are below the tail.
   */
  lemma ClaimedExactlyOnce(s: State, x: int)
    requires Reachable(s) && 0 <= x < s.head
    ensures s.optimistic <= LIMIT ==> x < s.tail
    ensures exists i :: 0 <= i < |s.claims| && s.claims[i].first <= x < End(s.claims[i])
    ensures forall i, j :: 0 <= i < j < |s.claims| && s.claims[i].first <= x < End(s.claims[i]) ==>
              End(s.claims[i]) <= s.claims[j].first
  {
    var st := ReachableInv(s);
    if s.optimistic <= LIMIT { HeadNeverPassesTail(s); }
    var i := FindClaim(s, x, |s.claims|);
    forall i, j | 0 <= i < j < |s.claims| ensures End(s.claims[i]) <= s.claims[j].first {
      ClaimsOrdered(s, i, j);
    }
  }

  lemma {:induction false} FindClaim(s: State, x: int, n: nat) returns (i: nat)
    requires ClaimsOk(s) && 0 < n <= |s.claims| && 0 <= x < End(s.claims[n - 1])
    ensures i < |s.claims| && s.claims[i].first <= x < End(s.claims[i])
    decreases n
  {
    if s.claims[n - 1].first <= x {
      i := n - 1;
    } else {
      assert n > 1 && End(s.claims[n - 2]) == s.claims[n - 2 + 1].first;
      i := FindClaim(s, x, n - 1);
    }
  }

  lemma {:induction false} ClaimsOrdered(s: State, i: nat, j: nat)
    requires ClaimsOk(s) && i < j < |s.claims|
    ensures End(s.claims[i]) <= s.claims[j].first
    decreases j
  {
    assert End(s.claims[j - 1]) == s.claims[j - 1 + 1].first;
    if i < j - 1 { ClaimsOrdered(s, i, j - 1); }
  }

  /**
   Rejected tickets leave no trace: a consumer that runs alone, with fresh loads, is turned away exactly when
   the queue is empty, whatever happened before.
   */
  lemma SoloConsumer(s: State, t: nat)
    requires Reachable(s) && t < |s.pc|
    requires forall u :: 0 <= u < |s.pc| && u != t ==> s.pc[u].Idle?
    requires s.pc[t].LoadOptimistic? && s.pc[t].tail == s.tail && s.pc[t].over == s.over
    requires -HALF < s.tail - s.head < HALF
    ensures s.optimistic - s.over == s.head
    ensures Ask(s.pc[t].k, s.tail, s.optimistic, s.over).0 <==> s.head < s.tail
  {
    CountersBalance(s);
    SumConstant(InFlights(s.pc), 0);
    AskExactly(s.pc[t].k, s.tail, s.optimistic, s.over);
  }

  lemma AskExactly(k: Kind, tail: int, optimistic: int, over: int)
    requires -HALF < tail - (optimistic - over) < HALF
    ensures Ask(k, tail, optimistic, over).0 <==> optimistic - over < tail
  {
    match k
    case One => CircularLessIsLess(optimistic - over, tail);
    case Bulk(_) => DecideFacts(k, 0, tail, optimistic, over);
  }

  // ---------- What a call asks for, and what it gets ----------

  /** The most elements a call may take. */
  function Most(k: Kind): nat { if k.One? then 1 else k.max }

  /** A run with the actions that make it. */
  ghost predicate IsRunBy(run: seq<State>, acts: seq<Action>) {
    && |run| == |acts| + 1
    && Init(run[0])
    && forall i :: 0 <= i < |acts| ==> StepBy(run[i], acts[i], run[i + 1])
  }

  ghost predicate StepBy(s: State, a: Action, s': State) { Enabled(s, a) && s' == Next(s, a) }

  /** Thread t's last call, and how far its own steps since have moved the head. */
  datatype Caller = Caller(k: Option<Kind>, taken: int)

  ghost function CallNext(c: Caller, s: State, a: Action, s': State, t: nat): Caller {
    if a.Call? && a.t == t then Caller(Some(a.k), 0)
    else if a.Run? && a.t == t then c.(taken := c.taken + s'.head - s.head)
    else c
  }

  ghost function CallOf(run: seq<State>, acts: seq<Action>, t: nat): Caller
    requires |run| == |acts| + 1
    decreases |acts|
  {
    if acts == [] then Caller(None, 0)
    else
      var n := |acts| - 1;
      CallNext(CallOf(run[..n + 1], acts[..n], t), run[n], acts[n], run[n + 1], t)
  }

  /** What thread t is about to ask for, holds a ticket for or is about to claim is within what its caller allowed. */
  ghost predicate WithinCall(p: PC, c: Caller) {
    match p
    case Idle => c.k.Some? ==> 0 <= c.taken <= Most(c.k.value)
    case LoadTail(k) => c.k == Some(k) && c.taken == 0
    case LoadOver(k, _) => c.k == Some(k) && c.taken == 0
    case LoadOptimistic(k, _, _) => c.k == Some(k) && c.taken == 0
    case Fetch(k, desired, _) => c.k == Some(k) && c.taken == 0 && desired <= Most(k)
    case Ticket(k, desired, _, _) => c.k == Some(k) && c.taken == 0 && desired <= Most(k)
    case GiveBack(granted, rejected) => c.k.Some? && c.taken == 0 && granted + rejected <= Most(c.k.value)
    case Claim(granted) => c.k.Some? && c.taken == 0 && granted <= Most(c.k.value)
  }

  lemma WithinCallStep(s: State, a: Action, c: Caller, t: nat)
    requires Enabled(s, a) && t < |s.pc| && WithinCall(s.pc[t], c)
    ensures |Next(s, a).pc| == |s.pc| && WithinCall(Next(s, a).pc[t], CallNext(c, s, a, Next(s, a), t))
  {
  }

  lemma {:induction false} CallsWithin(run: seq<State>, acts: seq<Action>, t: nat)
    requires IsRunBy(run, acts) && t < |run[0].pc|
    ensures |run[|acts|].pc| == |run[0].pc| && WithinCall(run[|acts|].pc[t], CallOf(run, acts, t))
    decreases |acts|
  {
    if acts != [] {
      var n := |acts| - 1;
      forall i | 0 <= i < n ensures StepBy(run[..n + 1][i], acts[..n][i], run[..n + 1][i + 1]) {
        assert StepBy(run[i], acts[i], run[i + 1]);
      }
      CallsWithin(run[..n + 1], acts[..n], t);
      assert StepBy(run[n], acts[n], run[n + 1]);
      WithinCallStep(run[n], acts[n], CallOf(run[..n + 1], acts[..n], t), t);
    }
  }

  /**
   In every run, what a call has claimed together with what it still holds a ticket for or is about to claim
   never exceeds what its caller asked for.
   */
  lemma CallTakesAtMost(run: seq<State>, acts: seq<Action>, t: nat)
    requires IsRunBy(run, acts) && t < |run[0].pc| && CallOf(run, acts, t).k.Some?
    ensures |run[|acts|].pc| == |run[0].pc|
    ensures var c := CallOf(run, acts, t); 0 <= c.taken <= c.taken + InFlight(run[|acts|].pc[t]) <= Most(c.k.value)
  {
    CallsWithin(run, acts, t);
  }

  /** Steps a call takes at most from here on. */
  function StepsLeft(p: PC): nat {
    match p
    case Idle => 0
    case Claim(_) => 1
    case GiveBack(_, _) => 2
    case Ticket(_, _, _, _) => 3
    case Fetch(_, _, _) => 4
    case LoadOptimistic(_, _, _) => 5
    case LoadOver(_, _) => 6
    case LoadTail(_) => 7
  }

  /** A call never waits for another thread: it can always go on, and ends after at most seven steps of its own. */
  lemma WaitFree(s: State, t: nat)
    requires t < |s.pc| && !s.pc[t].Idle?
    ensures Enabled(s, Run(t)) && StepsLeft(s.pc[t]) <= 7
    ensures t < |Next(s, Run(t)).pc| && StepsLeft(Next(s, Run(t)).pc[t]) < StepsLeft(s.pc[t])
  {
  }

  /** n steps of thread t lead from s to s'. */
  ghost predicate Alone(s: State, t: nat, n: nat, s': State)
    decreases n
  {
    if n == 0 then s' == s else Enabled(s, Run(t)) && Alone(Next(s, Run(t)), t, n - 1, s')
  }

  lemma AloneFirst(s: State, t: nat, s1: State, n: nat, s': State)
    requires Enabled(s, Run(t)) && Next(s, Run(t)) == s1 && Alone(s1, t, n, s')
    ensures Alone(s, t, n + 1, s')
  {
  }

  /** With nobody else under way, the first test asks for as much as the call may take and the queue holds. */
  lemma AskAmount(k: Kind, tail: int, optimistic: int, over: int)
    requires 0 <= tail - (optimistic - over) < HALF
    ensures var d := tail - (optimistic - over);
            && (Ask(k, tail, optimistic, over).0 <==> d > 0)
            && (d > 0 ==> Ask(k, tail, optimistic, over).1 == Min(Most(k), d))
  {
    AskExactly(k, tail, optimistic, over);
  }

  /** A consumer that runs alone claims as many elements as it may and as there are. */
  lemma SoloClaims(s: State, t: nat, k: Kind) returns (n: nat, s': State)
    requires Reachable(s) && t < |s.pc| && forall u :: 0 <= u < |s.pc| ==> s.pc[u].Idle?
    requires 0 <= s.tail - s.head < HALF
    ensures Enabled(s, Call(t, k)) && n <= 6 && Alone(Next(s, Call(t, k)), t, n, s')
    ensures s'.pc == s.pc && s'.tail == s.tail
    ensures s'.head == s.head + Min(Most(k), s.tail - s.head)
    ensures s'.claims == s.claims + if s'.head == s.head then [] else [Claimed(t, s.head, s'.head - s.head)]
  {
    CountersBalance(s);
    SumConstant(InFlights(s.pc), 0);
    AskAmount(k, s.tail, s.optimistic, s.over);
    var s0 := s.(pc := s.pc[t := LoadTail(k)]);
    var s1 := s.(pc := s.pc[t := LoadOver(k, s.tail)]);
    var s2 := s.(pc := s.pc[t := LoadOptimistic(k, s.tail, s.over)]);
    if s.head == s.tail {
      n, s' := 1, s;
      assert Next(s2, Run(t)).pc == s.pc;
      AloneFirst(s2, t, s, 0, s');
    } else {
      n, s' := SoloTicket(s, s2, t, k);
    }
    AloneFirst(s1, t, s2, n, s');
    AloneFirst(s0, t, s1, n + 1, s');
    n := n + 2;
    assert Next(s, Call(t, k)) == s0;
  }

  lemma SoloTicket(s: State, s2: State, t: nat, k: Kind) returns (n: nat, s': State)
    requires t < |s.pc| && s.pc[t].Idle? && s.optimistic - s.over == s.head < s.tail < s.head + HALF
    requires s2 == s.(pc := s.pc[t := LoadOptimistic(k, s.tail, s.over)])
    ensures n <= 4 && Alone(s2, t, n, s') && s'.pc == s.pc && s'.tail == s.tail
    ensures s'.head == s.head + Min(Most(k), s.tail - s.head)
    ensures s'.claims == s.claims + if s'.head == s.head then [] else [Claimed(t, s.head, s'.head - s.head)]
  {
    var d := Min(Most(k), s.tail - s.head);
    AskAmount(k, s.tail, s.optimistic, s.over);
    DecideFacts(k, d, s.tail, s.optimistic, s.over);
    var s3 := s.(pc := s.pc[t := Fetch(k, d, s.over)]);
    var s4 := s.(pc := s.pc[t := Ticket(k, d, s.over, s.optimistic)], optimistic := s.optimistic + d);
    var s5 := s.(pc := s.pc[t := Settle(d)], optimistic := s.optimistic + d);
    if d == 0 {
      n, s' := 0, s5;
      assert s5.pc == s.pc;
    } else {
      s' := s.(optimistic := s.optimistic + d, head := s.head + d, claims := s.claims + [Claimed(t, s.head, d)]);
      assert Next(s5, Run(t)).pc == s.pc;
      AloneFirst(s5, t, s', 0, s');
      n := 1;
    }
    assert Next(s4, Run(t)) == s5 && Next(s3, Run(t)) == s4 && Next(s2, Run(t)) == s3;
    AloneFirst(s4, t, s5, n, s');
    AloneFirst(s3, t, s4, n + 1, s');
    AloneFirst(s2, t, s3, n + 2, s');
    n := n + 3;
  }

  // ---------- The limit is exact ----------

  lemma ReachableStep(s: State, a: Action)
    requires Reachable(s) && Enabled(s, a)
    ensures Reachable(Next(s, a))
  {
    var run :| IsRun(run) && run[|run| - 1] == s;
    var r := run + [Next(s, a)];
    forall i | 0 <= i < |r| - 1 ensures Step(r[i], r[i + 1]) {
      if i < |run| - 1 { assert r[i] == run[i] && r[i + 1] == run[i + 1]; }
    }
    assert IsRun(r);
  }

  /** One element; of n consumers of one element each, the first j have passed the first test. */
  function Asking(n: nat, j: nat): State {
    State(1, 0, 0, 0, seq(n, t => if t < j then Fetch(One, 1, 0) else Idle), [])
  }

  /** All have passed it, and the first j have drawn their tickets. */
  function Drawn(n: nat, j: nat): State {
    State(1, 0, j, 0, seq(n, t => if t < j then Ticket(One, 1, 0, t) else Fetch(One, 1, 0)), [])
  }

  lemma {:induction false} ReachAsking(n: nat, j: nat)
    requires j <= n
    ensures Reachable(Asking(n, j))
  {
    if j == 0 {
      var s := State(0, 0, 0, 0, seq(n, _ => Idle), []);
      assert IsRun([s]);
      ReachableStep(s, Enqueue);
      assert Next(s, Enqueue) == Asking(n, 0);
    } else {
      var t, s := j - 1, Asking(n, j - 1);
      ReachAsking(n, t);
      ReachableStep(s, Call(t, One));
      var s1 := s.(pc := s.pc[t := LoadTail(One)]);
      ReachableStep(s1, Run(t));
      var s2 := s.(pc := s.pc[t := LoadOver(One, 1)]);
      assert Next(s1, Run(t)) == s2;
      ReachableStep(s2, Run(t));
      var s3 := s.(pc := s.pc[t := LoadOptimistic(One, 1, 0)]);
      assert Next(s2, Run(t)) == s3;
      ReachableStep(s3, Run(t));
      assert Next(s3, Run(t)).pc == Asking(n, j).pc;
    }
  }

  lemma {:induction false} ReachDrawn(n: nat, j: nat)
    requires j <= n
    ensures Reachable(Drawn(n, j))
  {
    if j == 0 {
      ReachAsking(n, n);
      assert Asking(n, n).pc == Drawn(n, 0).pc;
    } else {
      ReachDrawn(n, j - 1);
      ReachableStep(Drawn(n, j - 1), Run(j - 1));
      assert Next(Drawn(n, j - 1), Run(j - 1)).pc == Drawn(n, j).pc;
    }
  }

  /** One unit beyond the limit the head can pass the tail: the last ticket wraps round to be taken for a small one. */
  lemma BeyondLimit() returns (s: State)
    ensures Reachable(s) && s.optimistic == LIMIT + 1 && s.head > s.tail
  {
    var n: nat := LIMIT + 1;
    var last: nat := n - 1;
    s := Drawn(n, n);
    ReachDrawn(n, n);
    s := JudgeAndClaim(s, last);
    s := JudgeAndClaim(s, 0);
  }

  /** A ticket that passes takes its element. */
  lemma JudgeAndClaim(s: State, t: nat) returns (s': State)
    requires Reachable(s) && s.tail == 1 && t < |s.pc| && s.pc[t] == Ticket(One, 1, 0, t)
    requires t == 0 || t == HALF + 2
    ensures Reachable(s') && s'.head == s.head + 1 && s'.tail == s.tail && s'.optimistic == s.optimistic
    ensures |s'.pc| == |s.pc| && forall u :: 0 <= u < |s.pc| && u != t ==> s'.pc[u] == s.pc[u]
  {
    CircularExactly(t, 1);
    ReachableStep(s, Run(t));
    s' := Next(s, Run(t));
    ReachableStep(s', Run(t));
    s' := Next(s', Run(t));
  }

  /** The bound on handed-out units up to which every run is safe: LIMIT, and no more. */
  lemma SafeUpToLimit(b: int)
    ensures (forall s :: Reachable(s) && s.optimistic <= b ==> s.head <= s.tail) <==> b <= LIMIT
  {
    if b <= LIMIT {
      forall s | Reachable(s) && s.optimistic <= b ensures s.head <= s.tail { HeadNeverPassesTail(s); }
    } else {
      var s := BeyondLimit();
    }
  }
}
