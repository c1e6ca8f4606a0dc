/**
 The reference-counted lock-free free list of the concurrent queue.

 Any number of threads run `add` and `try_get`; each transition below is one atomic operation of one
 thread (sequentially consistent).  `client` is the set of nodes held by callers: it is what makes a call
 of `add` legal and what `try_get` gives back.
 */
module FreeList {
  import opened Sums

  const FLAG: int := 0x8000_0000        // SHOULD_BE_ON_FREELIST; the reference count sits below it
  const WORD: int := 0x1_0000_0000      // freeListRefs is a 32-bit word

  type Node = nat
  datatype Link = Null | To(node: Node)

  /** Where a thread continues after the inner add: back to the caller, or on with its `try_get` loop. */
  datatype Cont = Return | Loop(head: Link)

  datatype PC =
    | Idle
    | AddFetch(n: Node)
    | LinkLoad(n: Node, k: Cont)
    | LinkNext(n: Node, head: Link, k: Cont)
    | LinkRefs(n: Node, head: Link, k: Cont)
    | LinkCas(n: Node, head: Link, k: Cont)
    | LinkRestore(n: Node, head: Link, k: Cont)
    | GetLoad
    | GetRefs(h: Node)
    | GetAcquire(h: Node, seen: int)
    | GetNext(h: Node)
    | GetCas(h: Node, next: Link)
    | GetTaken(h: Node)
    | GetRelease(h: Node, head: Link)

  datatype State = State(head: Link, refs: seq<int>, next: seq<Link>, client: set<Node>, pc: seq<PC>)

  datatype Action = CallAdd(n: Node) | CallGet | Run

  // ---------- The program ----------

  ghost predicate Init(s: State) {
    && s.head == Null
    && |s.refs| == |s.next|
    && |s.pc| + 2 < FLAG
    && (forall n :: 0 <= n < |s.refs| ==> s.refs[n] == 0 && s.next[n] == Null)
    && (forall n: Node :: n in s.client <==> n < |s.refs|)
    && (forall t :: 0 <= t < |s.pc| ==> s.pc[t] == Idle)
  }

  /** Callers may only add a node they hold. */
  predicate Enabled(s: State, t: nat, a: Action) {
    && t < |s.pc|
    && match a
       case CallAdd(n) => s.pc[t].Idle? && n in s.client && n < |s.refs|
       case CallGet => s.pc[t].Idle?
       case Run => !s.pc[t].Idle? && (Target(s.pc[t]).To? ==> Target(s.pc[t]).node < |s.refs| == |s.next|)
  }

  /** The node a thread is working on. */
  function Target(p: PC): Link {
    match p
    case Idle => Null
    case GetLoad => Null
    case AddFetch(n) => To(n)
    case LinkLoad(n, _) => To(n)
    case LinkNext(n, _, _) => To(n)
    case LinkRefs(n, _, _) => To(n)
    case LinkCas(n, _, _) => To(n)
    case LinkRestore(n, _, _) => To(n)
    case GetRefs(h) => To(h)
    case GetAcquire(h, _) => To(h)
    case GetNext(h) => To(h)
    case GetCas(h, _) => To(h)
    case GetTaken(h) => To(h)
    case GetRelease(h, _) => To(h)
  }

  function Continue(k: Cont): PC {
    match k
    case Return => Idle
    case Loop(Null) => Idle
    case Loop(To(h)) => GetRefs(h)
  }

  /** Unsigned 32-bit addition. */
  function Plus(w: int, d: int): int { (w + d) % WORD }

  function Move(s: State, t: nat, p: PC): State
    requires t < |s.pc|
  {
    s.(pc := s.pc[t := p])
  }

  function Next(s: State, t: nat, a: Action): State
    requires Enabled(s, t, a)
  {
    match a
    case CallAdd(n) => Move(s, t, AddFetch(n)).(client := s.client - {n})
    case CallGet => Move(s, t, GetLoad)
    case Run =>
      match s.pc[t]
      case AddFetch(n) =>
        Move(s, t, if s.refs[n] == 0 then LinkLoad(n, Return) else Idle).(refs := s.refs[n := Plus(s.refs[n], FLAG)])
      case LinkLoad(n, k) => Move(s, t, LinkNext(n, s.head, k))
      case LinkNext(n, head, k) => Move(s, t, LinkRefs(n, head, k)).(next := s.next[n := head])
      case LinkRefs(n, head, k) => Move(s, t, LinkCas(n, head, k)).(refs := s.refs[n := 1])
      case LinkCas(n, head, k) =>
        if s.head == head then Move(s, t, Continue(k)).(head := To(n))
        else Move(s, t, LinkRestore(n, s.head, k))
      case LinkRestore(n, head, k) =>
        Move(s, t, if s.refs[n] == 1 then LinkNext(n, head, k) else Continue(k))
          .(refs := s.refs[n := Plus(s.refs[n], FLAG - 1)])
      case GetLoad => Move(s, t, Continue(Loop(s.head)))
      case GetRefs(h) => Move(s, t, if s.refs[h] % FLAG == 0 then GetLoad else GetAcquire(h, s.refs[h]))
      case GetAcquire(h, seen) =>
        if s.refs[h] == seen then Move(s, t, GetNext(h)).(refs := s.refs[h := Plus(seen, 1)])
        else Move(s, t, GetLoad)
      case GetNext(h) => Move(s, t, GetCas(h, s.next[h]))
      case GetCas(h, next) =>
        if s.head == To(h) then Move(s, t, GetTaken(h)).(head := next)
        else Move(s, t, GetRelease(h, s.head))
      case GetTaken(h) =>
        Move(s, t, Idle).(refs := s.refs[h := Plus(s.refs[h], -2)], client := s.client + {h})
      case GetRelease(h, head) =>
        Move(s, t, if s.refs[h] == FLAG + 1 then LinkLoad(h, Loop(head)) else Continue(Loop(head)))
          .(refs := s.refs[h := Plus(s.refs[h], -1)])
  }

  ghost predicate Step(s: State, s': State) {
    exists t: nat, a: Action :: Enabled(s, t, a) && s' == Next(s, t, a)
  }

  ghost predicate IsRun(run: seq<State>) {
    && |run| > 0
    && Init(run[0])
    && forall i :: 0 <= i < |run| - 1 ==> Step(run[i], run[i + 1])
  }

  // ---------- The invariant ----------

  /** Who is responsible for a node; at any time exactly one of these. */
  datatype Role =
    | Client                   // held by a caller
    | Adding(t: nat)           // passed to `add`, flag not set yet
    | Pending                  // flagged; the last reference holder will link it
    | Preparing(t: nat)        // t links it: count is zero, flag still set
    | Offering(t: nat)         // t links it: count restored to one, head not swung yet
    | Linked                   // on the list
    | Taken(t: nat)            // t swung the head past it

  datatype Ghost = Ghost(role: seq<Role>, chain: seq<Node>)

  function First(chain: seq<Node>): Link {
    if chain == [] then Null else To(chain[0])
  }

  ghost predicate IsChain(s: State, chain: seq<Node>) {
    && s.head == First(chain)
    && (forall i :: 0 <= i < |chain| ==> chain[i] < |s.next| && s.next[chain[i]] == First(chain[i + 1..]))
    && (forall i, j :: 0 <= i < j < |chain| ==> chain[i] != chain[j])
  }

  /** The thread owns one counted reference to n. */
  predicate Holds(p: PC, n: Node) {
    match p
    case GetNext(h) => h == n
    case GetCas(h, _) => h == n
    case GetTaken(h) => h == n
    case GetRelease(h, _) => h == n
    case _ => false
  }

  function Holding(pc: seq<PC>, n: Node): (r: seq<int>)
    ensures |r| == |pc|
    ensures forall t :: 0 <= t < |pc| ==> r[t] == if Holds(pc[t], n) then 1 else 0
  {
    seq(|pc|, t requires 0 <= t < |pc| => if Holds(pc[t], n) then 1 else 0)
  }

  function Holders(pc: seq<PC>, n: Node): int { Sum(Holding(pc, n)) }

  /** References not owned by a `try_get` thread: the list's own one, present or prospective. */
  function ListRef(r: Role): int { if r.Linked? || r.Offering? || r.Taken? then 1 else 0 }

  function FlagOf(r: Role): int { if r.Pending? || r.Preparing? then FLAG else 0 }

  /** The role a thread's program point forces on its node. */
  ghost predicate RoleOk(p: PC, t: nat, role: seq<Role>) {
    match p
    case AddFetch(n) => n < |role| && role[n] == Adding(t)
    case LinkLoad(n, _) => n < |role| && role[n] == Preparing(t)
    case LinkNext(n, _, _) => n < |role| && role[n] == Preparing(t)
    case LinkRefs(n, _, _) => n < |role| && role[n] == Preparing(t)
    case LinkCas(n, _, _) => n < |role| && role[n] == Offering(t)
    case LinkRestore(n, _, _) => n < |role| && role[n] == Offering(t)
    case GetTaken(h) => h < |role| && role[h] == Taken(t)
    case GetRefs(h) => h < |role|
    case GetAcquire(h, _) => h < |role|
    case GetNext(h) => h < |role|
    case GetCas(h, _) => h < |role|
    case GetRelease(h, _) => h < |role|
    case _ => true
  }

  /** Conversely, a role that names a thread is backed by that thread. */
  ghost predicate Backed(r: Role, n: Node, pc: seq<PC>) {
    match r
    case Adding(t) => t < |pc| && pc[t] == AddFetch(n)
    case Preparing(t) => t < |pc| && (pc[t].LinkLoad? || pc[t].LinkNext? || pc[t].LinkRefs?) && pc[t].n == n
    case Offering(t) => t < |pc| && (pc[t].LinkCas? || pc[t].LinkRestore?) && pc[t].n == n
    case Taken(t) => t < |pc| && pc[t] == GetTaken(n)
    case _ => true
  }

  /** Local copies of links that must be accurate when used; every other local link only has to be a node. */
  ghost predicate LinksOk(p: PC, next: seq<Link>) {
    match p
    case LinkLoad(_, k) => ContOk(k, |next|)
    case LinkNext(_, head, k) => ContOk(k, |next|) && LinkOk(head, |next|)
    case LinkRefs(n, head, k) => ContOk(k, |next|) && LinkOk(head, |next|) && n < |next| && next[n] == head
    case LinkCas(n, head, k) => ContOk(k, |next|) && LinkOk(head, |next|) && n < |next| && next[n] == head
    case LinkRestore(_, head, k) => ContOk(k, |next|) && LinkOk(head, |next|)
    case GetAcquire(_, seen) => 0 <= seen < WORD && seen % FLAG != 0
    case GetCas(h, nx) => h < |next| && next[h] == nx
    case GetRelease(_, head) => LinkOk(head, |next|)
    case _ => true
  }

  predicate LinkOk(l: Link, m: nat) { l.To? ==> l.node < m }
  predicate ContOk(k: Cont, m: nat) { k.Loop? ==> LinkOk(k.head, m) }

  ghost predicate Shape(s: State, g: Ghost) {
    && |s.refs| == |s.next| == |g.role|
    && |s.pc| + 2 < FLAG
    && (forall n :: 0 <= n < |s.next| ==> LinkOk(s.next[n], |s.next|))
    && (forall t :: 0 <= t < |s.pc| ==> LinksOk(s.pc[t], s.next))
  }

  ghost predicate Roles(s: State, g: Ghost) {
    && |s.refs| == |s.next| == |g.role|
    && (forall t :: 0 <= t < |s.pc| ==> RoleOk(s.pc[t], t, g.role))
    && (forall n :: 0 <= n < |g.role| ==> Backed(g.role[n], n, s.pc))
    && (forall n: Node :: n in s.client <==> n < |g.role| && g.role[n] == Client)
  }

  ghost predicate Chained(s: State, g: Ghost) {
    && IsChain(s, g.chain)
    && |s.next| == |g.role|
    && (forall n: Node :: n in g.chain <==> n < |g.role| && g.role[n] == Linked)
  }

  /** The word stored for n spells out its references and its flag. */
  ghost predicate CountOk(s: State, g: Ghost, n: Node)
    requires n < |s.refs| && n < |g.role|
  {
    && s.refs[n] == Holders(s.pc, n) + ListRef(g.role[n]) + FlagOf(g.role[n])
    && (g.role[n].Preparing? ==> Holders(s.pc, n) == 0)
    && (g.role[n].Pending? ==> Holders(s.pc, n) > 0)
  }

  ghost predicate Counts(s: State, g: Ghost) {
    && |s.refs| == |g.role|
    && forall n :: 0 <= n < |s.refs| ==> CountOk(s, g, n)
  }

  ghost predicate Inv(s: State, g: Ghost) {
    Shape(s, g) && Roles(s, g) && Chained(s, g) && Counts(s, g)
  }

  // ---------- Counting references ----------

  lemma HoldersMove(pc: seq<PC>, t: nat, p: PC, n: Node)
    requires t < |pc|
    ensures Holders(pc[t := p], n) ==
            Holders(pc, n) - (if Holds(pc[t], n) then 1 else 0) + (if Holds(p, n) then 1 else 0)
  {
    SumChange(Holding(pc, n), Holding(pc[t := p], n), t);
  }

  lemma HoldersBounds(pc: seq<PC>, n: Node)
    ensures 0 <= Holders(pc, n) <= |pc|
    ensures forall t :: 0 <= t < |pc| && Holds(pc[t], n) ==> Holders(pc, n) >= 1
    ensures Holders(pc, n) > 0 ==> exists t :: 0 <= t < |pc| && Holds(pc[t], n)
  {
    var h := Holding(pc, n);
    SumNonNegative(h);
    SumAtMost(h, 1);
    forall t | 0 <= t < |pc| && Holds(pc[t], n) ensures Holders(pc, n) >= 1 {
      assert h[t] == 1;
    }
    if Holders(pc, n) > 0 {
      var t :| 0 <= t < |h| && h[t] > 0;
      assert Holds(pc[t], n);
    }
  }

  // ---------- How the ghost state follows a step ----------

  function SetRole(g: Ghost, n: Node, r: Role): Ghost
    requires n < |g.role|
  {
    g.(role := g.role[n := r])
  }

  ghost function Follow(s: State, t: nat, a: Action, g: Ghost): Ghost
    requires Enabled(s, t, a) && Inv(s, g)
  {
    match a
    case CallAdd(n) => SetRole(g, n, Adding(t))
    case CallGet => g
    case Run =>
      match s.pc[t]
      case AddFetch(n) => SetRole(g, n, if s.refs[n] == 0 then Preparing(t) else Pending)
      case LinkRefs(n, _, _) => SetRole(g, n, Offering(t))
      case LinkCas(n, head, _) => if s.head == head then SetRole(g, n, Linked).(chain := [n] + g.chain) else g
      case LinkRestore(n, _, _) => SetRole(g, n, if s.refs[n] == 1 then Preparing(t) else Pending)
      case GetCas(h, _) =>
        if s.head == To(h) && g.chain != [] then SetRole(g, h, Taken(t)).(chain := g.chain[1..]) else g
      case GetTaken(h) => SetRole(g, h, Client)
      case GetRelease(h, _) => if s.refs[h] == FLAG + 1 then SetRole(g, h, Preparing(t)) else g
      case _ => g
  }

  lemma HeadFacts(s: State, g: Ghost)
    requires Inv(s, g)
    ensures LinkOk(s.head, |s.next|)
    ensures s.head.To? ==> g.chain != [] && g.chain[0] == s.head.node && g.role[s.head.node] == Linked
    ensures s.head.To? ==> s.next[s.head.node] == First(g.chain[1..])
  {
    if s.head.To? { assert g.chain[0] in g.chain; }
  }

  /** The word of n, read as an unsigned 32-bit number: references below the flag bit. */
  lemma WordFacts(s: State, g: Ghost, n: Node)
    requires Inv(s, g) && n < |s.refs|
    ensures 0 <= Holders(s.pc, n) <= |s.pc|
    ensures 0 <= s.refs[n] < WORD
    ensures s.refs[n] % FLAG == Holders(s.pc, n) + ListRef(g.role[n])
    ensures (s.refs[n] >= FLAG) <==> g.role[n].Pending? || g.role[n].Preparing?
  {
    HoldersBounds(s.pc, n);
    assert CountOk(s, g, n);
  }

  /** Storing a node's next link disturbs nobody: while its count is zero no thread relies on that link. */
  lemma KeepShapeNext(s: State, t: nat, g: Ghost)
    requires Inv(s, g) && Enabled(s, t, Run) && s.pc[t].LinkNext?
    ensures Shape(Next(s, t, Run), g)
  {
    var s' := Next(s, t, Run);
    var n := s.pc[t].n;
    assert RoleOk(s.pc[t], t, g.role) && LinksOk(s.pc[t], s.next);
    assert CountOk(s, g, n);
    HoldersBounds(s.pc, n);
    forall u | 0 <= u < |s'.pc| ensures LinksOk(s'.pc[u], s'.next) {
      if u != t { assert LinksOk(s.pc[u], s.next) && RoleOk(s.pc[u], u, g.role); }
    }
  }

  lemma MoverLinks(s: State, t: nat, g: Ghost)
    requires Inv(s, g) && Enabled(s, t, Run) && !s.pc[t].LinkNext?
    ensures Next(s, t, Run).next == s.next
    ensures LinksOk(Next(s, t, Run).pc[t], s.next)
  {
    HeadFacts(s, g);
    assert RoleOk(s.pc[t], t, g.role) && LinksOk(s.pc[t], s.next);
    if s.pc[t].GetRefs? { WordFacts(s, g, s.pc[t].h); }
  }

  lemma KeepShape(s: State, t: nat, a: Action, g: Ghost)
    requires Inv(s, g) && Enabled(s, t, a)
    ensures Shape(Next(s, t, a), Follow(s, t, a, g))
  {
    if a.Run? && s.pc[t].LinkNext? {
      KeepShapeNext(s, t, g);
    } else {
      if a.Run? { MoverLinks(s, t, g); }
      forall u | 0 <= u < |s.pc| ensures LinksOk(Next(s, t, a).pc[u], s.next) {
        assert LinksOk(s.pc[u], s.next);
      }
    }
  }

  predicate Names(r: Role, t: nat) {
    match r
    case Adding(u) => u == t
    case Preparing(u) => u == t
    case Offering(u) => u == t
    case Taken(u) => u == t
    case _ => false
  }

  predicate Unnamed(r: Role) { r.Client? || r.Pending? || r.Linked? }

  /** Thread t moves to p and the node n it works on (or takes from the callers) becomes r. */
  lemma RolesMove(s: State, g: Ghost, t: nat, p: PC, n: Node, r: Role, s': State, g': Ghost)
    requires Roles(s, g) && t < |s.pc| && n < |g.role|
    requires |s'.refs| == |s.refs| && |s'.next| == |s.next|
    requires s'.pc == s.pc[t := p] && g'.role == g.role[n := r]
    requires Unnamed(g.role[n]) || Names(g.role[n], t)
    requires Target(s.pc[t]) == Null || Target(s.pc[t]) == To(n)
    requires RoleOk(p, t, g'.role) && Backed(r, n, s'.pc)
    requires s'.client == if r.Client? then s.client + {n} else s.client - {n}
    ensures Roles(s', g')
  {
    forall u | 0 <= u < |s'.pc| ensures RoleOk(s'.pc[u], u, g'.role) {
      assert RoleOk(s.pc[u], u, g.role);
    }
    forall m | 0 <= m < |g'.role| ensures Backed(g'.role[m], m, s'.pc) {
      assert Backed(g.role[m], m, s.pc);
    }
  }

  /** Thread t moves to p and no role changes. */
  lemma RolesStay(s: State, g: Ghost, t: nat, p: PC, s': State)
    requires Roles(s, g) && t < |s.pc|
    requires |s'.refs| == |s.refs| && |s'.next| == |s.next| && s'.client == s.client
    requires s'.pc == s.pc[t := p]
    requires RoleOk(p, t, g.role)
    requires forall n: Node :: n < |g.role| && Names(g.role[n], t) ==> Backed(g.role[n], n, s'.pc)
    ensures Roles(s', g)
  {
    forall u | 0 <= u < |s'.pc| ensures RoleOk(s'.pc[u], u, g.role) {
      assert RoleOk(s.pc[u], u, g.role);
    }
    forall m | 0 <= m < |g.role| ensures Backed(g.role[m], m, s'.pc) {
      assert Backed(g.role[m], m, s.pc);
    }
  }

  /** A role that names t is the role of the node t works on. */
  lemma NamedIsTarget(s: State, g: Ghost, t: nat)
    requires Roles(s, g) && t < |s.pc|
    ensures forall n: Node :: n < |g.role| && Names(g.role[n], t) ==> Target(s.pc[t]) == To(n)
  {
    forall n: Node | n < |g.role| && Names(g.role[n], t) ensures Target(s.pc[t]) == To(n) {
      assert Backed(g.role[n], n, s.pc);
    }
  }

  lemma KeepRolesLink(s: State, t: nat, g: Ghost)
    requires Inv(s, g) && Enabled(s, t, Run)
    requires var p := s.pc[t]; p.AddFetch? || p.LinkLoad? || p.LinkNext? || p.LinkRefs? || p.LinkCas? || p.LinkRestore?
    ensures Roles(Next(s, t, Run), Follow(s, t, Run, g))
  {
    HeadFacts(s, g);
    var s', g' := Next(s, t, Run), Follow(s, t, Run, g);
    var n := s.pc[t].n;
    assert RoleOk(s.pc[t], t, g.role) && LinksOk(s.pc[t], s.next);
    assert g.role[n] != Client;
    RolesMove(s, g, t, s'.pc[t], n, g'.role[n], s', g');
  }

  lemma KeepRolesGet(s: State, t: nat, g: Ghost)
    requires Inv(s, g) && Enabled(s, t, Run)
    requires var p := s.pc[t]; p.GetLoad? || p.GetRefs? || p.GetAcquire? || p.GetNext?
    ensures Roles(Next(s, t, Run), Follow(s, t, Run, g))
  {
    HeadFacts(s, g);
    NamedIsTarget(s, g, t);
    assert RoleOk(s.pc[t], t, g.role);
    forall n: Node | n < |g.role| ensures !Names(g.role[n], t) {
      assert Backed(g.role[n], n, s.pc);
    }
    var s' := Next(s, t, Run);
    RolesStay(s, g, t, s'.pc[t], s');
  }

  lemma KeepRolesTake(s: State, t: nat, g: Ghost)
    requires Inv(s, g) && Enabled(s, t, Run)
    requires var p := s.pc[t]; p.GetCas? || p.GetTaken?
    ensures Roles(Next(s, t, Run), Follow(s, t, Run, g))
  {
    HeadFacts(s, g);
    var s', g' := Next(s, t, Run), Follow(s, t, Run, g);
    var h := s.pc[t].h;
    assert RoleOk(s.pc[t], t, g.role);
    if s.pc[t].GetTaken? || s.head == To(h) {
      assert Backed(g'.role[h], h, s'.pc);
      assert s.pc[t].GetTaken? || h !in s.client;
      RolesMove(s, g, t, s'.pc[t], h, g'.role[h], s', g');
    } else {
      forall n: Node | n < |g.role| ensures !Names(g.role[n], t) {
        assert Backed(g.role[n], n, s.pc);
      }
      RolesStay(s, g, t, s'.pc[t], s');
    }
  }

  lemma KeepRolesRelease(s: State, t: nat, g: Ghost)
    requires Inv(s, g) && Enabled(s, t, Run) && s.pc[t].GetRelease?
    ensures Roles(Next(s, t, Run), Follow(s, t, Run, g))
  {
    var s', g' := Next(s, t, Run), Follow(s, t, Run, g);
    var h := s.pc[t].h;
    assert RoleOk(s.pc[t], t, g.role) && LinksOk(s.pc[t], s.next);
    forall n: Node | n < |g.role| ensures !Names(g.role[n], t) {
      assert Backed(g.role[n], n, s.pc);
    }
    if s.refs[h] == FLAG + 1 {
      LastReference(s, t, g);
      RolesMove(s, g, t, s'.pc[t], h, Preparing(t), s', g');
    } else {
      RolesStay(s, g, t, s'.pc[t], s');
    }
  }

  /** Seeing flag + 1 on release means: the node is pending and this was the only reference. */
  lemma LastReference(s: State, t: nat, g: Ghost)
    requires Inv(s, g) && Enabled(s, t, Run) && s.pc[t].GetRelease?
    requires s.refs[s.pc[t].h] == FLAG + 1
    ensures g.role[s.pc[t].h] == Pending && Holders(s.pc, s.pc[t].h) == 1
  {
    assert RoleOk(s.pc[t], t, g.role);
    WordFacts(s, g, s.pc[t].h);
    assert CountOk(s, g, s.pc[t].h);
  }

  lemma KeepRoles(s: State, t: nat, a: Action, g: Ghost)
    requires Inv(s, g) && Enabled(s, t, a)
    ensures Roles(Next(s, t, a), Follow(s, t, a, g))
  {
    match a
    case CallAdd(n) =>
      RolesMove(s, g, t, AddFetch(n), n, Adding(t), Next(s, t, a), Follow(s, t, a, g));
    case CallGet =>
      NamedIsTarget(s, g, t);
      RolesStay(s, g, t, GetLoad, Next(s, t, a));
    case Run =>
      var p := s.pc[t];
      if p.GetLoad? || p.GetRefs? || p.GetAcquire? || p.GetNext? { KeepRolesGet(s, t, g); }
      else if p.GetCas? || p.GetTaken? { KeepRolesTake(s, t, g); }
      else if p.GetRelease? { KeepRolesRelease(s, t, g); }
      else { KeepRolesLink(s, t, g); }
  }

  // ---------- The chain ----------

  lemma ChainPush(s: State, g: Ghost, n: Node, s': State)
    requires Chained(s, g) && n < |g.role| && g.role[n] != Linked
    requires s'.head == To(n) && s'.next == s.next && s.next[n] == s.head
    ensures Chained(s', SetRole(g, n, Linked).(chain := [n] + g.chain))
  {
    var c := [n] + g.chain;
    assert n !in g.chain;
    forall i | 0 <= i < |c| ensures c[i] < |s.next| && s.next[c[i]] == First(c[i + 1..]) {
      if i == 0 {
        assert c[1..] == g.chain;
      } else {
        assert c[i + 1..] == g.chain[i..] && c[i] == g.chain[i - 1];
      }
    }
  }

  lemma ChainPop(s: State, g: Ghost, r: Role, s': State)
    requires Chained(s, g) && g.chain != [] && r != Linked
    requires s'.next == s.next && s'.head == s.next[g.chain[0]]
    ensures g.chain[0] < |g.role|
    ensures Chained(s', SetRole(g, g.chain[0], r).(chain := g.chain[1..]))
  {
    assert g.chain[0] in g.chain;
    var c := g.chain[1..];
    forall i | 0 <= i < |c| ensures c[i] < |s.next| && s.next[c[i]] == First(c[i + 1..]) {
      assert c[i + 1..] == g.chain[i + 2..] && c[i] == g.chain[i + 1];
    }
    forall m: Node ensures m in c <==> m in g.chain && m != g.chain[0] {
      if m in g.chain && m != g.chain[0] {
        var i :| 0 <= i < |g.chain| && g.chain[i] == m;
        assert c[i - 1] == m;
      }
    }
  }

  lemma ChainStay(s: State, g: Ghost, s': State, g': Ghost)
    requires Chained(s, g)
    requires s'.head == s.head && |s'.next| == |s.next|
    requires forall n :: 0 <= n < |s.next| && g.role[n] == Linked ==> s'.next[n] == s.next[n]
    requires g'.chain == g.chain && |g'.role| == |g.role|
    requires forall n: Node :: n < |g.role| ==> (g'.role[n] == Linked <==> g.role[n] == Linked)
    ensures Chained(s', g')
  {
    forall i | 0 <= i < |g.chain| ensures s'.next[g.chain[i]] == First(g.chain[i + 1..]) {
      assert g.chain[i] in g.chain;
    }
  }

  lemma KeepChainLink(s: State, t: nat, g: Ghost)
    requires Inv(s, g) && Enabled(s, t, Run)
    requires var p := s.pc[t]; p.AddFetch? || p.LinkLoad? || p.LinkNext? || p.LinkRefs? || p.LinkCas? || p.LinkRestore?
    ensures Chained(Next(s, t, Run), Follow(s, t, Run, g))
  {
    assert RoleOk(s.pc[t], t, g.role) && LinksOk(s.pc[t], s.next);
    var s', g' := Next(s, t, Run), Follow(s, t, Run, g);
    if s.pc[t].LinkCas? && s.head == s.pc[t].head {
      ChainPush(s, g, s.pc[t].n, s');
    } else {
      ChainStay(s, g, s', g');
    }
  }

  lemma KeepChainGet(s: State, t: nat, g: Ghost)
    requires Inv(s, g) && Enabled(s, t, Run)
    requires var p := s.pc[t]; p.GetCas? || p.GetTaken? || p.GetRelease?
    ensures Chained(Next(s, t, Run), Follow(s, t, Run, g))
  {
    HeadFacts(s, g);
    assert RoleOk(s.pc[t], t, g.role) && LinksOk(s.pc[t], s.next);
    var s', g' := Next(s, t, Run), Follow(s, t, Run, g);
    if s.pc[t].GetCas? && s.head == To(s.pc[t].h) {
      ChainPop(s, g, Taken(t), s');
    } else {
      if s.pc[t].GetRelease? && s.refs[s.pc[t].h] == FLAG + 1 { LastReference(s, t, g); }
      ChainStay(s, g, s', g');
    }
  }

  lemma KeepChain(s: State, t: nat, a: Action, g: Ghost)
    requires Inv(s, g) && Enabled(s, t, a)
    ensures Chained(Next(s, t, a), Follow(s, t, a, g))
  {
    if a.Run? {
      var p := s.pc[t];
      if p.GetCas? || p.GetTaken? || p.GetRelease? { KeepChainGet(s, t, g); }
      else if p.GetLoad? || p.GetRefs? || p.GetAcquire? || p.GetNext? { ChainStay(s, g, Next(s, t, a), g); }
      else { KeepChainLink(s, t, g); }
    } else {
      ChainStay(s, g, Next(s, t, a), Follow(s, t, a, g));
    }
  }

  // ---------- The counts ----------

  lemma CountsMove(s: State, g: Ghost, t: nat, p: PC, n: Node, s': State, g': Ghost)
    requires Counts(s, g) && t < |s.pc| && n < |s.refs|
    requires |s'.refs| == |s.refs| && |g'.role| == |g.role|
    requires s'.pc == s.pc[t := p]
    requires forall m :: 0 <= m < |s.refs| && m != n ==> s'.refs[m] == s.refs[m] && g'.role[m] == g.role[m]
    requires forall m: Node :: m != n ==> !Holds(s.pc[t], m) && !Holds(p, m)
    requires CountOk(s', g', n)
    ensures Counts(s', g')
  {
    forall m | 0 <= m < |s'.refs| ensures CountOk(s', g', m) {
      if m != n {
        assert CountOk(s, g, m);
        HoldersMove(s.pc, t, p, m);
      }
    }
  }

  lemma CountsLink(s: State, t: nat, g: Ghost)
    requires Inv(s, g) && Enabled(s, t, Run)
    requires var p := s.pc[t]; p.AddFetch? || p.LinkLoad? || p.LinkNext? || p.LinkRefs? || p.LinkCas? || p.LinkRestore?
    ensures CountOk(Next(s, t, Run), Follow(s, t, Run, g), s.pc[t].n)
  {
    var n := s.pc[t].n;
    assert RoleOk(s.pc[t], t, g.role);
    assert CountOk(s, g, n);
    HoldersBounds(s.pc, n);
    HoldersMove(s.pc, t, Next(s, t, Run).pc[t], n);
  }

  lemma CountsGet(s: State, t: nat, g: Ghost)
    requires Inv(s, g) && Enabled(s, t, Run)
    requires var p := s.pc[t]; p.GetRefs? || p.GetAcquire? || p.GetNext?
    ensures CountOk(Next(s, t, Run), Follow(s, t, Run, g), s.pc[t].h)
  {
    var h := s.pc[t].h;
    assert RoleOk(s.pc[t], t, g.role) && LinksOk(s.pc[t], s.next);
    WordFacts(s, g, h);
    assert CountOk(s, g, h);
    HoldersMove(s.pc, t, Next(s, t, Run).pc[t], h);
  }

  lemma CountsCas(s: State, t: nat, g: Ghost)
    requires Inv(s, g) && Enabled(s, t, Run) && s.pc[t].GetCas?
    ensures CountOk(Next(s, t, Run), Follow(s, t, Run, g), s.pc[t].h)
  {
    HeadFacts(s, g);
    var h := s.pc[t].h;
    assert RoleOk(s.pc[t], t, g.role);
    assert CountOk(s, g, h);
    HoldersMove(s.pc, t, Next(s, t, Run).pc[t], h);
  }

  lemma CountsTaken(s: State, t: nat, g: Ghost)
    requires Inv(s, g) && Enabled(s, t, Run) && s.pc[t].GetTaken?
    ensures CountOk(Next(s, t, Run), Follow(s, t, Run, g), s.pc[t].h)
  {
    var h := s.pc[t].h;
    assert RoleOk(s.pc[t], t, g.role);
    assert CountOk(s, g, h);
    HoldersBounds(s.pc, h);
    HoldersMove(s.pc, t, Idle, h);
  }

  lemma CountsRelease(s: State, t: nat, g: Ghost)
    requires Inv(s, g) && Enabled(s, t, Run) && s.pc[t].GetRelease?
    ensures CountOk(Next(s, t, Run), Follow(s, t, Run, g), s.pc[t].h)
  {
    var h := s.pc[t].h;
    assert RoleOk(s.pc[t], t, g.role);
    assert CountOk(s, g, h);
    HoldersBounds(s.pc, h);
    HoldersMove(s.pc, t, Next(s, t, Run).pc[t], h);
    if s.refs[h] == FLAG + 1 { LastReference(s, t, g); }
  }

  lemma KeepCounts(s: State, t: nat, a: Action, g: Ghost)
    requires Inv(s, g) && Enabled(s, t, a)
    ensures Counts(Next(s, t, a), Follow(s, t, a, g))
  {
    var s', g' := Next(s, t, a), Follow(s, t, a, g);
    if a.CallGet? || (a.Run? && s.pc[t].GetLoad?) {
      forall m | 0 <= m < |s'.refs| ensures CountOk(s', g', m) {
        assert CountOk(s, g, m);
        HoldersMove(s.pc, t, s'.pc[t], m);
      }
    } else if a.CallAdd? {
      assert CountOk(s, g, a.n);
      HoldersMove(s.pc, t, s'.pc[t], a.n);
      CountsMove(s, g, t, s'.pc[t], a.n, s', g');
    } else {
      var p := s.pc[t];
      if p.GetRefs? || p.GetAcquire? || p.GetNext? { CountsGet(s, t, g); }
      else if p.GetCas? { CountsCas(s, t, g); }
      else if p.GetTaken? { CountsTaken(s, t, g); }
      else if p.GetRelease? { CountsRelease(s, t, g); }
      else { CountsLink(s, t, g); }
      MoverTouches(s, t, g);
      CountsMove(s, g, t, s'.pc[t], Target(p).node, s', g');
    }
  }

  /** A step touches no word, role or reference but those of the node it works on. */
  lemma MoverTouches(s: State, t: nat, g: Ghost)
    requires Inv(s, g) && Enabled(s, t, Run) && !s.pc[t].GetLoad?
    ensures Target(s.pc[t]).To? && Target(s.pc[t]).node < |s.refs|
    ensures var n := Target(s.pc[t]).node;
            && (forall m :: 0 <= m < |s.refs| && m != n ==>
                  Next(s, t, Run).refs[m] == s.refs[m] && Follow(s, t, Run, g).role[m] == g.role[m])
            && (forall m: Node :: m != n ==> !Holds(s.pc[t], m) && !Holds(Next(s, t, Run).pc[t], m))
  {
    assert RoleOk(s.pc[t], t, g.role);
  }

  lemma StepInv(s: State, t: nat, a: Action, g: Ghost)
    requires Inv(s, g) && Enabled(s, t, a)
    ensures Inv(Next(s, t, a), Follow(s, t, a, g))
  {
    KeepShape(s, t, a, g);
    KeepRoles(s, t, a, g);
    KeepChain(s, t, a, g);
    KeepCounts(s, t, a, g);
  }

  lemma InitInv(s: State) returns (g: Ghost)
    requires Init(s)
    ensures Inv(s, g)
  {
    g := Ghost(seq(|s.refs|, _ => Client), []);
    forall n | 0 <= n < |s.refs| ensures CountOk(s, g, n) {
      HoldersBounds(s.pc, n);
    }
  }

  lemma {:induction false} RunInv(run: seq<State>) returns (g: Ghost)
    requires IsRun(run)
    ensures Inv(run[|run| - 1], g)
  {
    if |run| == 1 {
      g := InitInv(run[0]);
    } else {
      var before := run[..|run| - 1];
      g := RunInv(before);
      var s := run[|run| - 2];
      assert Step(s, run[|run| - 2 + 1]);
      var t: nat, a: Action :| Enabled(s, t, a) && run[|run| - 1] == Next(s, t, a);
      StepInv(s, t, a, g);
      g := Follow(s, t, a, g);
    }
  }

  // ---------- What every run guarantees ----------

  /** The thread is inside `add_knowing_refcount_is_zero` for n. */
  predicate Linking(p: PC, n: Node) {
    (p.LinkLoad? || p.LinkNext? || p.LinkRefs? || p.LinkCas? || p.LinkRestore?) && p.n == n
  }

  ghost predicate Reachable(s: State) {
    exists run :: IsRun(run) && run[|run| - 1] == s
  }

  lemma ReachableInv(s: State) returns (g: Ghost)
    requires Reachable(s)
    ensures Inv(s, g)
  {
    var run :| IsRun(run) && run[|run| - 1] == s;
    g := RunInv(run);
  }

  /** At most one thread links a node at a time, and never while the node is on the list or with a caller. */
  lemma SingleLinker(s: State, t: nat, u: nat, n: Node)
    requires Reachable(s) && t < |s.pc| && u < |s.pc|
    requires Linking(s.pc[t], n)
    ensures Linking(s.pc[u], n) ==> t == u
    ensures n !in s.client && s.pc[u] != AddFetch(n) && s.pc[u] != GetTaken(n)
    ensures exists chain :: IsChain(s, chain) && n !in chain
  {
    var g := ReachableInv(s);
    assert RoleOk(s.pc[t], t, g.role) && RoleOk(s.pc[u], u, g.role);
    assert IsChain(s, g.chain) && n !in g.chain;
  }

  /**
   A thread whose head CAS succeeds in `try_get` installs the node's current successor (no ABA), the node's
   flag is clear, and from then on the node is that thread's alone.
   */
  lemma TakeIsExact(s: State, t: nat)
    requires Reachable(s) && t < |s.pc| && s.pc[t].GetCas? && s.head == To(s.pc[t].h)
    ensures Enabled(s, t, Run)
    ensures exists chain :: chain != [] && chain[0] == s.pc[t].h && IsChain(s, chain) && IsChain(Next(s, t, Run), chain[1..])
    ensures s.pc[t].next == s.next[s.pc[t].h]
    ensures 0 <= s.refs[s.pc[t].h] < FLAG
    ensures s.pc[t].h !in s.client
    ensures forall u :: 0 <= u < |s.pc| ==> s.pc[u] != GetTaken(s.pc[t].h) && s.pc[u] != AddFetch(s.pc[t].h)
  {
    var g := ReachableInv(s);
    var h := s.pc[t].h;
    HeadFacts(s, g);
    assert RoleOk(s.pc[t], t, g.role) && LinksOk(s.pc[t], s.next);
    WordFacts(s, g, h);
    StepInv(s, t, Run, g);
    assert IsChain(s, g.chain) && IsChain(Next(s, t, Run), g.chain[1..]);
    LinkedIsNobodys(s, g, h);
  }

  lemma LinkedIsNobodys(s: State, g: Ghost, h: Node)
    requires Inv(s, g) && h < |g.role| && g.role[h].Linked?
    ensures forall u :: 0 <= u < |s.pc| ==> s.pc[u] != GetTaken(h) && s.pc[u] != AddFetch(h)
  {
    forall u | 0 <= u < |s.pc| ensures s.pc[u] != GetTaken(h) && s.pc[u] != AddFetch(h) {
      assert RoleOk(s.pc[u], u, g.role);
    }
  }

  /** A node about to be returned by `try_get` has no other owner of any kind. */
  lemma TakenExclusively(s: State, t: nat, u: nat)
    requires Reachable(s) && t < |s.pc| && u < |s.pc| && t != u && s.pc[t].GetTaken?
    ensures s.pc[t].h !in s.client && s.pc[t].h < |s.refs|
    ensures s.refs[s.pc[t].h] < FLAG
    ensures s.pc[u] != GetTaken(s.pc[t].h) && s.pc[u] != AddFetch(s.pc[t].h) && !Linking(s.pc[u], s.pc[t].h)
    ensures exists chain :: IsChain(s, chain) && s.pc[t].h !in chain
  {
    var g := ReachableInv(s);
    assert RoleOk(s.pc[t], t, g.role) && RoleOk(s.pc[u], u, g.role);
    WordFacts(s, g, s.pc[t].h);
    assert IsChain(s, g.chain) && s.pc[t].h !in g.chain;
  }

  /**
   No node is ever lost: it is with a caller, entering `add`, being linked, on the list, being handed out, or
   flagged with a `try_get` thread still holding a reference, whose release will link it.
   */
  lemma NotLost(s: State, n: Node)
    requires Reachable(s) && n < |s.refs|
    ensures || n in s.client
            || (exists t :: 0 <= t < |s.pc| && (s.pc[t] == AddFetch(n) || Linking(s.pc[t], n) || s.pc[t] == GetTaken(n)))
            || (exists chain :: IsChain(s, chain) && n in chain)
            || (s.refs[n] >= FLAG && exists t :: 0 <= t < |s.pc| && Holds(s.pc[t], n) && !s.pc[t].GetTaken?)
  {
    var g := ReachableInv(s);
    assert Backed(g.role[n], n, s.pc) && CountOk(s, g, n);
    WordFacts(s, g, n);
    match g.role[n]
    case Client =>
    case Linked => assert IsChain(s, g.chain) && n in g.chain;
    case Pending =>
      HoldersBounds(s.pc, n);
      var t :| 0 <= t < |s.pc| && Holds(s.pc[t], n);
      assert RoleOk(s.pc[t], t, g.role);
    case Adding(t) => assert s.pc[t] == AddFetch(n);
    case Preparing(t) => assert Linking(s.pc[t], n);
    case Offering(t) => assert Linking(s.pc[t], n);
    case Taken(t) => assert s.pc[t] == GetTaken(n);
  }

  /** With every thread idle, the callers' nodes and the list partition the nodes, and every count is settled. */
  lemma QuiescentConservation(s: State)
    requires Reachable(s) && forall t :: 0 <= t < |s.pc| ==> s.pc[t] == Idle
    ensures exists chain :: IsChain(s, chain) && forall n: Node ::
                (n < |s.refs| <==> n in s.client || n in chain)
                && !(n in s.client && n in chain)
                && (n < |s.refs| ==> s.refs[n] == if n in chain then 1 else 0)
  {
    var g := ReachableInv(s);
    forall n: Node | n < |s.refs|
      ensures (g.role[n] == Client || g.role[n] == Linked) && s.refs[n] == if n in g.chain then 1 else 0
    {
      assert Backed(g.role[n], n, s.pc) && CountOk(s, g, n);
      HoldersBounds(s.pc, n);
    }
    assert IsChain(s, g.chain);
  }

  /** No thread is ever blocked or sent to a node that does not exist; one between calls may get, or add what callers hold. */
  lemma NeverStuck(s: State, t: nat)
    requires Reachable(s) && t < |s.pc|
    ensures s.pc[t] != Idle ==> Enabled(s, t, Run)
    ensures s.pc[t] == Idle ==> Enabled(s, t, CallGet) && forall n :: n in s.client ==> Enabled(s, t, CallAdd(n))
  {
    var g := ReachableInv(s);
    assert RoleOk(s.pc[t], t, g.role);
  }

  /** Runs start with any number of threads, and any number of nodes in the callers' hands. */
  lemma Starts(threads: nat, nodes: nat) returns (s: State)
    requires threads + 2 < FLAG
    ensures Reachable(s) && |s.pc| == threads && |s.refs| == nodes && forall n: Node :: n < nodes ==> n in s.client
  {
    s := State(Null, seq(nodes, _ => 0), seq(nodes, _ => Null), Below(nodes), seq(threads, _ => Idle));
    assert Init(s);
    InitReachable(s);
  }

  lemma InitReachable(s: State)
    requires Init(s)
    ensures Reachable(s)
  {
    assert IsRun([s]);
  }

  // ---------- What callers asked for, and what they got ----------

  /** A run with the threads and actions that make it. */
  ghost predicate IsRunBy(run: seq<State>, who: seq<nat>, acts: seq<Action>) {
    && |run| == |acts| + 1 == |who| + 1
    && Init(run[0])
    && forall i :: 0 <= i < |acts| ==> StepBy(run[i], who[i], acts[i], run[i + 1])
  }

  ghost predicate StepBy(s: State, t: nat, a: Action, s': State) { Enabled(s, t, a) && s' == Next(s, t, a) }

  datatype Request = Nothing | Add(n: Node) | Get

  /** Thread t's last call, whether the list was empty at some moment since, and the nodes its own steps handed out. */
  datatype Caller = Caller(request: Request, sawEmpty: bool, got: set<Node>)

  ghost function CallerNext(c: Caller, s: State, u: nat, a: Action, s': State, t: nat): Caller {
    if u == t && a.CallAdd? then Caller(Add(a.n), false, {})
    else if u == t && a.CallGet? then Caller(Get, s.head.Null?, {})
    else Caller(c.request, c.sawEmpty || s.head.Null? || s'.head.Null?, if u == t then c.got + (s'.client - s.client) else c.got)
  }

  ghost function CallerOf(run: seq<State>, who: seq<nat>, acts: seq<Action>, t: nat): Caller
    requires |run| == |acts| + 1 == |who| + 1
    decreases |acts|
  {
    if acts == [] then Caller(Nothing, false, {})
    else
      var n := |acts| - 1;
      CallerNext(CallerOf(run[..n + 1], who[..n], acts[..n], t), run[n], who[n], acts[n], run[n + 1], t)
  }

  /** What a finished call did: `try_get` took one node, or none and then the list was empty at some moment of the call. */
  ghost predicate Served(c: Caller) {
    match c.request
    case Get => (c.got == {} && c.sawEmpty) || (exists n :: c.got == {n})
    case _ => c.got == {}
  }

  /** How far a thread has come with the call it was given. */
  ghost predicate OnCall(p: PC, c: Caller) {
    match p
    case Idle => Served(c)
    case AddFetch(n) => c.request == Add(n) && c.got == {}
    case LinkLoad(n, k) => OnLink(n, k, c)
    case LinkNext(n, _, k) => OnLink(n, k, c)
    case LinkRefs(n, _, k) => OnLink(n, k, c)
    case LinkCas(n, _, k) => OnLink(n, k, c)
    case LinkRestore(n, _, k) => OnLink(n, k, c)
    case GetRelease(_, head) => c.request.Get? && c.got == {} && (head.Null? ==> c.sawEmpty)
    case _ => c.request.Get? && c.got == {}
  }

  /** Linking a node for an `add`, or for a `try_get` that goes on with the head it last saw. */
  ghost predicate OnLink(n: Node, k: Cont, c: Caller) {
    && c.got == {}
    && match k
       case Return => c.request == Add(n)
       case Loop(head) => c.request.Get? && (head.Null? ==> c.sawEmpty)
  }

  lemma OnCallRun(s: State, t: nat, g: Ghost, c: Caller)
    requires Inv(s, g) && Enabled(s, t, Run) && OnCall(s.pc[t], c)
    ensures t < |Next(s, t, Run).pc| && OnCall(Next(s, t, Run).pc[t], CallerNext(c, s, t, Run, Next(s, t, Run), t))
  {
    var s' := Next(s, t, Run);
    if s.pc[t].GetTaken? {
      assert RoleOk(s.pc[t], t, g.role);
      assert s'.client - s.client == {s.pc[t].h};
    } else {
      assert s'.client == s.client;
    }
  }

  lemma OnCallStep(s: State, u: nat, a: Action, g: Ghost, c: Caller, t: nat)
    requires Inv(s, g) && Enabled(s, u, a) && t < |s.pc| && OnCall(s.pc[t], c)
    ensures t < |Next(s, u, a).pc| && OnCall(Next(s, u, a).pc[t], CallerNext(c, s, u, a, Next(s, u, a), t))
  {
    if u == t && a.Run? { OnCallRun(s, t, g, c); }
  }

  lemma {:induction false} OnCallAlways(run: seq<State>, who: seq<nat>, acts: seq<Action>, t: nat) returns (g: Ghost)
    requires IsRunBy(run, who, acts) && t < |run[0].pc|
    ensures Inv(run[|acts|], g) && t < |run[|acts|].pc| && OnCall(run[|acts|].pc[t], CallerOf(run, who, acts, t))
    decreases |acts|
  {
    if acts == [] {
      g := InitInv(run[0]);
    } else {
      var n := |acts| - 1;
      BeforeLast(run, who, acts);
      g := OnCallAlways(run[..n + 1], who[..n], acts[..n], t);
      g := OnCallOn(run[n], who[n], acts[n], run[n + 1], g, CallerOf(run[..n + 1], who[..n], acts[..n], t), t);
    }
  }

  lemma OnCallOn(s: State, u: nat, a: Action, s': State, g: Ghost, c: Caller, t: nat) returns (g': Ghost)
    requires Inv(s, g) && StepBy(s, u, a, s') && t < |s.pc| && OnCall(s.pc[t], c)
    ensures Inv(s', g') && t < |s'.pc| && OnCall(s'.pc[t], CallerNext(c, s, u, a, s', t))
  {
    OnCallStep(s, u, a, g, c, t);
    StepInv(s, u, a, g);
    g' := Follow(s, u, a, g);
  }

  lemma BeforeLast(run: seq<State>, who: seq<nat>, acts: seq<Action>)
    requires IsRunBy(run, who, acts) && acts != []
    ensures IsRunBy(run[..|acts|], who[..|acts| - 1], acts[..|acts| - 1])
    ensures var n := |acts| - 1; StepBy(run[n], who[n], acts[n], run[n + 1])
  {
    var n := |acts| - 1;
    forall i | 0 <= i < n ensures StepBy(run[..n + 1][i], who[..n][i], acts[..n][i], run[..n + 1][i + 1]) {
      assert StepBy(run[i], who[i], acts[i], run[i + 1]);
    }
  }

  /**
   Every finished call, in every run: `try_get` returned one node, or none and the list was empty at some moment
   of the call; `add` returned none.
   */
  lemma CallsAreServed(run: seq<State>, who: seq<nat>, acts: seq<Action>, t: nat)
    requires IsRunBy(run, who, acts) && t < |run[0].pc|
    ensures t < |run[|acts|].pc|
    ensures run[|acts|].pc[t].Idle? ==> Served(CallerOf(run, who, acts, t))
  {
    var g := OnCallAlways(run, who, acts, t);
  }

  // ---------- A thread that runs alone ----------

  /** n steps of thread t lead from s to s'. */
  ghost predicate Alone(s: State, t: nat, n: nat, s': State)
    decreases n
  {
    if n == 0 then s' == s else Enabled(s, t, Run) && Alone(Next(s, t, Run), t, n - 1, s')
  }

  function Flagged(role: seq<Role>): (r: seq<int>)
    ensures |r| == |role| && forall n :: 0 <= n < |role| ==> r[n] == if role[n].Pending? || role[n].Preparing? then 1 else 0
  {
    seq(|role|, n requires 0 <= n < |role| => if role[n].Pending? || role[n].Preparing? then 1 else 0)
  }

  /** Flagged nodes, and one more where the thread's next steps will flag one. */
  function Flags(s: State, g: Ghost, p: PC): int {
    Sum(Flagged(g.role)) + if p.AddFetch? || p.LinkRestore? || (p.LinkCas? && p.head != s.head) then 1 else 0
  }

  /** Steps alone until the next flag is cleared, or the call ends; more when the link that was seen is out of date. */
  function Rank(s: State, p: PC): nat {
    match p
    case Idle => 0
    case AddFetch(_) => 60
    case LinkLoad(_, _) => 24
    case LinkNext(_, head, _) => if head == s.head then 23 else 52
    case LinkRefs(_, head, _) => if head == s.head then 22 else 51
    case LinkCas(_, head, _) => if head == s.head then 40 else 50
    case LinkRestore(_, head, _) => if head == s.head then 49 else 59
    case GetLoad => 12
    case GetRefs(h) => if s.head == To(h) then 11 else 30
    case GetAcquire(h, seen) => if h >= |s.refs| || s.refs[h] != seen then 13 else if s.head == To(h) then 10 else 29
    case GetNext(h) => if s.head == To(h) then 9 else 28
    case GetCas(h, _) => if s.head == To(h) then 8 else 27
    case GetTaken(_) => 7
    case GetRelease(_, head) => if head == s.head then 26 else 31
  }

  lemma FlaggedMove(role: seq<Role>, n: Node, r: Role)
    requires n < |role|
    ensures Sum(Flagged(role[n := r])) == Sum(Flagged(role)) - (if role[n].Pending? || role[n].Preparing? then 1 else 0)
                                          + (if r.Pending? || r.Preparing? then 1 else 0)
  {
    SumChange(Flagged(role), Flagged(role[n := r]), n);
  }

  /** A step alone clears a flag for good, or comes closer to the next. */
  lemma CloserLink(s: State, t: nat, g: Ghost)
    requires Inv(s, g) && Enabled(s, t, Run)
    requires s.pc[t].AddFetch? || s.pc[t].LinkLoad? || s.pc[t].LinkNext? || s.pc[t].LinkRefs? || s.pc[t].LinkCas? || s.pc[t].LinkRestore?
    ensures var s', g' := Next(s, t, Run), Follow(s, t, Run, g);
            t < |s'.pc| && (Flags(s', g', s'.pc[t]) < Flags(s, g, s.pc[t])
                            || (Flags(s', g', s'.pc[t]) == Flags(s, g, s.pc[t]) && Rank(s', s'.pc[t]) < Rank(s, s.pc[t])))
  {
    var n, s', g' := s.pc[t].n, Next(s, t, Run), Follow(s, t, Run, g);
    assert RoleOk(s.pc[t], t, g.role);
    FlaggedMove(g.role, n, g'.role[n]);
    assert g'.role == g.role[n := g'.role[n]];
  }

  lemma CloserRead(s: State, t: nat, g: Ghost)
    requires Inv(s, g) && Enabled(s, t, Run)
    requires s.pc[t].GetLoad? || s.pc[t].GetRefs? || s.pc[t].GetAcquire? || s.pc[t].GetNext?
    ensures var s' := Next(s, t, Run);
            && Follow(s, t, Run, g) == g && t < |s'.pc| && s'.head == s.head
            && !s'.pc[t].AddFetch? && !s'.pc[t].LinkRestore? && !s'.pc[t].LinkCas? && Rank(s', s'.pc[t]) < Rank(s, s.pc[t])
  {
    assert RoleOk(s.pc[t], t, g.role);
    HeadFacts(s, g);
    if !s.pc[t].GetLoad? { WordFacts(s, g, s.pc[t].h); }
  }

  lemma CloserTake(s: State, t: nat, g: Ghost)
    requires Inv(s, g) && Enabled(s, t, Run) && (s.pc[t].GetCas? || s.pc[t].GetTaken?)
    ensures var s', g' := Next(s, t, Run), Follow(s, t, Run, g);
            && t < |s'.pc| && Rank(s', s'.pc[t]) < Rank(s, s.pc[t])
            && !s'.pc[t].AddFetch? && !s'.pc[t].LinkRestore? && !s'.pc[t].LinkCas?
            && Sum(Flagged(g'.role)) == Sum(Flagged(g.role))
  {
    var g', h := Follow(s, t, Run, g), s.pc[t].h;
    assert RoleOk(s.pc[t], t, g.role);
    HeadFacts(s, g);
    FlaggedMove(g.role, h, g'.role[h]);
    assert g'.role == g.role[h := g'.role[h]];
  }

  lemma CloserRelease(s: State, t: nat, g: Ghost)
    requires Inv(s, g) && Enabled(s, t, Run) && s.pc[t].GetRelease?
    ensures var s', g' := Next(s, t, Run), Follow(s, t, Run, g);
            && t < |s'.pc| && Rank(s', s'.pc[t]) < Rank(s, s.pc[t])
            && !s'.pc[t].AddFetch? && !s'.pc[t].LinkRestore? && !s'.pc[t].LinkCas?
            && Sum(Flagged(g'.role)) == Sum(Flagged(g.role))
  {
    var g', h := Follow(s, t, Run, g), s.pc[t].h;
    assert RoleOk(s.pc[t], t, g.role);
    WordFacts(s, g, h);
    FlaggedMove(g.role, h, g'.role[h]);
    assert g'.role == g.role[h := g'.role[h]];
  }

  lemma CloserGet(s: State, t: nat, g: Ghost)
    requires Inv(s, g) && Enabled(s, t, Run) && Getting(s.pc[t])
    ensures var s', g' := Next(s, t, Run), Follow(s, t, Run, g);
            t < |s'.pc| && Flags(s', g', s'.pc[t]) == Flags(s, g, s.pc[t]) && Rank(s', s'.pc[t]) < Rank(s, s.pc[t])
  {
    if s.pc[t].GetRelease? { CloserRelease(s, t, g); }
    else if s.pc[t].GetCas? || s.pc[t].GetTaken? { CloserTake(s, t, g); }
    else { CloserRead(s, t, g); }
  }

  predicate Getting(p: PC) {
    p.GetLoad? || p.GetRefs? || p.GetAcquire? || p.GetNext? || p.GetCas? || p.GetTaken? || p.GetRelease?
  }

  lemma {:induction false} SoloFinishes(s: State, t: nat, g: Ghost) returns (n: nat, s': State, g': Ghost)
    requires Inv(s, g) && t < |s.pc|
    ensures Alone(s, t, n, s') && Inv(s', g') && t < |s'.pc| && s'.pc[t].Idle?
    decreases Flags(s, g, s.pc[t]), Rank(s, s.pc[t])
  {
    if s.pc[t].Idle? {
      n, s', g' := 0, s, g;
    } else {
      assert RoleOk(s.pc[t], t, g.role);
      if Getting(s.pc[t]) {
        CloserGet(s, t, g);
      } else {
        CloserLink(s, t, g);
      }
      SumNonNegative(Flagged(g.role));
      StepInv(s, t, Run, g);
      n, s', g' := SoloFinishes(Next(s, t, Run), t, Follow(s, t, Run, g));
      n := n + 1;
    }
  }

  /** Lock freedom: wherever the others were stopped, a thread that runs alone finishes its call. */
  lemma LockFree(s: State, t: nat) returns (n: nat, s': State)
    requires Reachable(s) && t < |s.pc|
    ensures Alone(s, t, n, s') && t < |s'.pc| && s'.pc[t].Idle?
  {
    var g := ReachableInv(s);
    var g';
    n, s', g' := SoloFinishes(s, t, g);
  }

  lemma AloneFirst(s: State, t: nat, s1: State, n: nat, s': State)
    requires Enabled(s, t, Run) && Next(s, t, Run) == s1 && Alone(s1, t, n, s')
    ensures Alone(s, t, n + 1, s')
  {
  }

  /** Nobody is under way: the chain, and the counts of its nodes. */
  lemma AtRest(s: State) returns (chain: seq<Node>)
    requires Reachable(s) && forall t :: 0 <= t < |s.pc| ==> s.pc[t] == Idle
    ensures IsChain(s, chain) && |s.refs| == |s.next|
    ensures forall n: Node :: n < |s.refs| ==> s.refs[n] == if n in chain then 1 else 0
    ensures forall n: Node :: n in s.client ==> n < |s.refs| && n !in chain
  {
    QuiescentConservation(s);
    var g := ReachableInv(s);
    chain :| IsChain(s, chain) && forall n: Node ::
                (n < |s.refs| <==> n in s.client || n in chain)
                && !(n in s.client && n in chain)
                && (n < |s.refs| ==> s.refs[n] == if n in chain then 1 else 0);
  }

  lemma HeadAtRest(s: State, chain: seq<Node>)
    requires Reachable(s) && (forall t :: 0 <= t < |s.pc| ==> s.pc[t] == Idle) && IsChain(s, chain) && chain != []
    ensures |s.refs| == |s.next| && chain[0] < |s.refs| && s.refs[chain[0]] == 1 && s.head == To(chain[0])
  {
    var c := AtRest(s);
    SameChain(s, c, chain);
  }

  /** Alone on a list with nodes, `try_get` hands out the head. */
  lemma SoloGet(s: State, t: nat, chain: seq<Node>) returns (n: nat, s': State)
    requires Reachable(s) && t < |s.pc| && forall u :: 0 <= u < |s.pc| ==> s.pc[u] == Idle
    requires IsChain(s, chain) && chain != []
    ensures Enabled(s, t, CallGet) && Alone(Next(s, t, CallGet), t, n, s')
    ensures s'.pc == s.pc && s'.client == s.client + {chain[0]} && IsChain(s', chain[1..])
  {
    HeadAtRest(s, chain);
    n, s' := GetHead(s, t, chain[0]);
    TailIsChain(s, s', chain);
  }

  lemma GetHead(s: State, t: nat, h: Node) returns (n: nat, s': State)
    requires t < |s.pc| && s.pc[t] == Idle && |s.refs| == |s.next| && h < |s.refs| && s.refs[h] == 1 && s.head == To(h)
    ensures Enabled(s, t, CallGet) && Alone(Next(s, t, CallGet), t, n, s')
    ensures s' == s.(refs := s.refs[h := 0], head := s.next[h], client := s.client + {h})
  {
    s' := s.(refs := s.refs[h := 0], head := s.next[h], client := s.client + {h});
    n := AcquireToEnd(s, t, h, s');
    GetToAcquire(s, t, h, n, s');
    n := n + 3;
  }

  /** The steps of a `try_get` that nobody disturbs: up to the reference, and from there on. */
  lemma GetToAcquire(s: State, t: nat, h: Node, n: nat, s': State)
    requires t < |s.pc| && s.pc[t] == Idle && |s.refs| == |s.next| && h < |s.refs| && s.refs[h] == 1 && s.head == To(h)
    requires Alone(Move(s, t, GetNext(h)).(refs := s.refs[h := 2]), t, n, s')
    ensures Alone(Next(s, t, CallGet), t, n + 3, s')
  {
    var s0, s1, s2 := Move(s, t, GetLoad), Move(s, t, GetRefs(h)), Move(s, t, GetAcquire(h, 1));
    var s3 := Move(s, t, GetNext(h)).(refs := s.refs[h := 2]);
    assert Next(s, t, CallGet) == s0 && Next(s0, t, Run) == s1 && Next(s1, t, Run) == s2 && Next(s2, t, Run) == s3;
    AloneFirst(s2, t, s3, n, s');
    AloneFirst(s1, t, s2, n + 1, s');
    AloneFirst(s0, t, s1, n + 2, s');
  }

  lemma AcquireToEnd(s: State, t: nat, h: Node, s': State) returns (n: nat)
    requires t < |s.pc| && s.pc[t] == Idle && |s.refs| == |s.next| && h < |s.refs| && s.refs[h] == 1 && s.head == To(h)
    requires s' == s.(refs := s.refs[h := 0], head := s.next[h], client := s.client + {h})
    ensures Alone(Move(s, t, GetNext(h)).(refs := s.refs[h := 2]), t, n, s')
  {
    var two := s.refs[h := 2];
    var s3, s4 := Move(s, t, GetNext(h)).(refs := two), Move(s, t, GetCas(h, s.next[h])).(refs := two);
    var s5 := Move(s, t, GetTaken(h)).(refs := two, head := s.next[h]);
    assert Next(s5, t, Run).pc == s.pc && Next(s5, t, Run).refs == s'.refs;
    AloneFirst(s5, t, s', 0, s');
    AloneFirst(s4, t, s5, 1, s');
    AloneFirst(s3, t, s4, 2, s');
    n := 3;
  }

  lemma TailIsChain(s: State, s': State, chain: seq<Node>)
    requires IsChain(s, chain) && chain != [] && s'.next == s.next && s'.head == s.next[chain[0]]
    ensures IsChain(s', chain[1..])
  {
    forall i | 0 <= i < |chain| - 1
      ensures chain[1..][i] < |s'.next| && s'.next[chain[1..][i]] == First(chain[1..][i + 1..])
    {
      assert chain[1..][i + 1..] == chain[i + 2..];
    }
  }

  /** Alone on an empty list, it hands out nothing. */
  lemma SoloGetEmpty(s: State, t: nat) returns (n: nat, s': State)
    requires t < |s.pc| && s.pc[t] == Idle && s.head.Null?
    ensures Enabled(s, t, CallGet) && Alone(Next(s, t, CallGet), t, n, s') && s' == s
  {
    var s0 := Move(s, t, GetLoad);
    s' := s;
    assert Next(s0, t, Run).pc == s.pc;
    AloneFirst(s0, t, s, 0, s);
    n := 1;
  }

  /** Alone, `add` puts the node in front of the list. */
  lemma SoloAdd(s: State, t: nat, x: Node, chain: seq<Node>) returns (n: nat, s': State)
    requires Reachable(s) && t < |s.pc| && forall u :: 0 <= u < |s.pc| ==> s.pc[u] == Idle
    requires IsChain(s, chain) && x in s.client
    ensures Enabled(s, t, CallAdd(x)) && Alone(Next(s, t, CallAdd(x)), t, n, s')
    ensures s'.pc == s.pc && s'.client == s.client - {x} && IsChain(s', [x] + chain)
  {
    NodeAtRest(s, chain, x);
    n, s' := AddNode(s, t, x);
    LongerChain(s, s', chain, x);
  }

  lemma NodeAtRest(s: State, chain: seq<Node>, x: Node)
    requires Reachable(s) && (forall t :: 0 <= t < |s.pc| ==> s.pc[t] == Idle) && IsChain(s, chain) && x in s.client
    ensures |s.refs| == |s.next| && x < |s.refs| && s.refs[x] == 0 && x !in chain
  {
    var c := AtRest(s);
    SameChain(s, c, chain);
  }

  lemma AddNode(s: State, t: nat, x: Node) returns (n: nat, s': State)
    requires t < |s.pc| && s.pc[t] == Idle && |s.refs| == |s.next| && x in s.client && x < |s.refs| && s.refs[x] == 0
    ensures Enabled(s, t, CallAdd(x)) && Alone(Next(s, t, CallAdd(x)), t, n, s')
    ensures s' == s.(client := s.client - {x}, refs := s.refs[x := 1], next := s.next[x := s.head], head := To(x))
  {
    s' := s.(client := s.client - {x}, refs := s.refs[x := 1], next := s.next[x := s.head], head := To(x));
    n := LinkToEnd(s, t, x, s');
    AddToLink(s, t, x, n, s');
    n := n + 2;
  }

  /** The steps of an `add` that nobody disturbs: up to the link, and from there on. */
  lemma AddToLink(s: State, t: nat, x: Node, n: nat, s': State)
    requires t < |s.pc| && s.pc[t] == Idle && |s.refs| == |s.next| && x in s.client && x < |s.refs| && s.refs[x] == 0
    requires Alone(Move(s, t, LinkNext(x, s.head, Return)).(client := s.client - {x}, refs := s.refs[x := FLAG]), t, n, s')
    ensures Alone(Next(s, t, CallAdd(x)), t, n + 2, s')
  {
    var rest, flagged := s.client - {x}, s.refs[x := FLAG];
    var s0 := Move(s, t, AddFetch(x)).(client := rest);
    var s1 := Move(s, t, LinkLoad(x, Return)).(client := rest, refs := flagged);
    var s2 := Move(s, t, LinkNext(x, s.head, Return)).(client := rest, refs := flagged);
    assert Next(s, t, CallAdd(x)) == s0 && Next(s0, t, Run) == s1 && Next(s1, t, Run) == s2;
    AloneFirst(s1, t, s2, n, s');
    AloneFirst(s0, t, s1, n + 1, s');
  }

  lemma LinkToEnd(s: State, t: nat, x: Node, s': State) returns (n: nat)
    requires t < |s.pc| && s.pc[t] == Idle && |s.refs| == |s.next| && x < |s.refs|
    requires s' == s.(client := s.client - {x}, refs := s.refs[x := 1], next := s.next[x := s.head], head := To(x))
    ensures Alone(Move(s, t, LinkNext(x, s.head, Return)).(client := s.client - {x}, refs := s.refs[x := FLAG]), t, n, s')
  {
    var rest, flagged, next := s.client - {x}, s.refs[x := FLAG], s.next[x := s.head];
    var s2 := Move(s, t, LinkNext(x, s.head, Return)).(client := rest, refs := flagged);
    var s3 := Move(s, t, LinkRefs(x, s.head, Return)).(client := rest, refs := flagged, next := next);
    var s4 := Move(s, t, LinkCas(x, s.head, Return)).(client := rest, refs := s.refs[x := 1], next := next);
    assert Next(s2, t, Run) == s3 && Next(s3, t, Run).refs == s4.refs && Next(s4, t, Run).pc == s'.pc;
    AloneFirst(s4, t, s', 0, s');
    AloneFirst(s3, t, s4, 1, s');
    AloneFirst(s2, t, s3, 2, s');
    n := 3;
  }

  lemma LongerChain(s: State, s': State, chain: seq<Node>, x: Node)
    requires IsChain(s, chain) && x < |s.next| && x !in chain && s'.next == s.next[x := s.head] && s'.head == To(x)
    ensures IsChain(s', [x] + chain)
  {
    var c := [x] + chain;
    forall i | 0 <= i < |c| ensures c[i] < |s'.next| && s'.next[c[i]] == First(c[i + 1..]) {
      if i > 0 {
        assert c[i + 1..] == chain[i..];
      } else {
        assert c[1..] == chain;
      }
    }
  }

  /** The head and the links leave no choice. */
  lemma SameChain(s: State, a: seq<Node>, b: seq<Node>)
    requires IsChain(s, a) && IsChain(s, b)
    ensures a == b
  {
    var n := if |a| < |b| then |a| else |b|;
    SamePrefix(s, a, b, n);
  }

  lemma {:induction false} SamePrefix(s: State, a: seq<Node>, b: seq<Node>, n: nat)
    requires IsChain(s, a) && IsChain(s, b) && n <= |a| && n <= |b|
    ensures a[..n] == b[..n] && First(a[n..]) == First(b[n..])
  {
    if n == 0 {
      assert a[0..] == a && b[0..] == b;
    } else {
      SamePrefix(s, a, b, n - 1);
      assert a[n - 1] == b[n - 1] by { assert First(a[n - 1..]) == To(a[n - 1]) && First(b[n - 1..]) == To(b[n - 1]); }
    }
  }
}
