/**
 The hash from threads to their implicit producers: a chain of ever larger open-addressing tables without
 deletion, probed newest first, filled with compare-and-swap while one thread at a time appends a table.

 Allocation succeeds and the thread-exit hooks are compiled out, so no slot is ever given back and no producer
 recycled.  Capacities are powers of two, so `& (capacity - 1)` is the remainder.
 */
module ProducerHash {
  import opened Arith
  import opened Options
  import opened Sums

  /** Keys are thread numbers; a slot's key is set first, its value afterwards. */
  datatype Table = Table(keys: seq<Option<nat>>, values: seq<Option<nat>>)

  /** Program points of get_or_add_implicit_producer; `main` is the thread's copy of the newest table's number. */
  datatype PC =
    | Idle
    | Probe(main: nat, table: nat, steps: nat)
    | Count(main: nat)
    | Check(main: nat, newCount: nat)
    | Acquire(main: nat, newCount: nat)
    | Reload(newCount: nat)
    | Grow(main: nat, newCount: nat)
    | Unlock(main: nat, newCount: nat)
    | Gate(main: nat, newCount: nat)
    | Refresh(newCount: nat)
    | Create(main: nat, newCount: nat)
    | Place(main: nat, steps: nat, producer: Option<nat>)
    | PlaceCas(main: nat, steps: nat, producer: Option<nat>)
    | PlaceStore(main: nat, steps: nat, producer: Option<nat>)
    | Return(producer: Option<nat>)

  /**
   `hash[t]` is the hash of thread t's id; each table's `prev` is the one before it in `tables`.
   `handed[t]` records what thread t's finished calls returned.
   */
  datatype State = State(hash: seq<nat>, tables: seq<Table>, count: nat, lock: Option<nat>, producers: nat,
                         pc: seq<PC>, handed: seq<seq<Option<nat>>>)

  function Capacity(tb: Table): nat { |tb.keys| }

  /** The fill a thread with a larger registration number may not add to: cap / 2 + cap / 4. */
  function ThreeQuarters(capacity: nat): nat { capacity / 2 + capacity / 4 }

  /** Where the probe started at hash h looks after `steps` increments. */
  function Slot(h: nat, steps: nat, capacity: nat): nat
    requires capacity > 0
  {
    (h + steps) % capacity
  }

  function EmptyTable(capacity: nat): Table {
    Table(seq(capacity, _ => None), seq(capacity, _ => None))
  }

  /** The capacity of the next table: the least of the doublings that leaves it less than half full. */
  function GrownCapacity(capacity: nat, newCount: nat): (r: nat)
    requires capacity > 0
    ensures newCount < r / 2 && capacity <= r
    ensures r == capacity || (r % 2 == 0 && r / 2 >= capacity && newCount >= r / 2 / 2)
    decreases newCount - capacity / 2
  {
    if newCount >= capacity / 2 then GrownCapacity(2 * capacity, newCount) else capacity
  }

  ghost predicate Sized(s: State) {
    && |s.tables| > 0 && |s.hash| == |s.pc| == |s.handed|
    && forall x :: 0 <= x < |s.tables| ==> |s.tables[x].keys| == |s.tables[x].values| > 0
  }

  ghost predicate Init(s: State) {
    && Sized(s) && |s.tables| == 1
    && (forall i :: 0 <= i < Capacity(s.tables[0]) ==> s.tables[0].keys[i] == None)
    && s.count == 0 && s.lock == None
    && forall t :: 0 <= t < |s.pc| ==> s.pc[t] == Idle && s.handed[t] == []
  }

  /** The tables a thread's next step reads exist. */
  predicate Placed(s: State, p: PC) {
    match p
    case Probe(main, table, _) => main < |s.tables| && table < |s.tables|
    case Check(main, _) => main < |s.tables|
    case Grow(main, _) => main < |s.tables|
    case Gate(main, _) => main < |s.tables|
    case Place(main, _, _) => main < |s.tables|
    case PlaceCas(main, _, _) => main < |s.tables|
    case PlaceStore(main, _, _) => main < |s.tables|
    case _ => true
  }

  ghost predicate Enabled(s: State, t: nat) {
    Sized(s) && t < |s.pc| && Placed(s, s.pc[t])
  }

  function Goto(s: State, t: nat, p: PC): State
    requires t < |s.pc|
  {
    s.(pc := s.pc[t := p])
  }

  /** One atomic operation of thread t; a thread between calls starts the next one. */
  ghost function Next(s: State, t: nat): State
    requires Enabled(s, t)
  {
    var last := |s.tables| - 1;
    match s.pc[t]
    case Idle => Goto(s, t, Probe(last, last, 0))
    case Probe(main, table, steps) => Goto(s, t, ProbeNext(s, t, main, table, steps))
    case Count(main) => Goto(s, t, Check(main, s.count + 1)).(count := s.count + 1)
    case Check(main, newCount) =>
      Goto(s, t, if newCount >= Capacity(s.tables[main]) / 2 then Acquire(main, newCount) else Gate(main, newCount))
    case Acquire(main, newCount) =>
      if s.lock.None? then Goto(s, t, Reload(newCount)).(lock := Some(t)) else Goto(s, t, Gate(main, newCount))
    case Reload(newCount) =>
      Goto(s, t, if newCount >= Capacity(s.tables[last]) / 2 then Grow(last, newCount) else Unlock(last, newCount))
    case Grow(main, newCount) =>
      Goto(s, t, Unlock(last + 1, newCount)).(
        tables := s.tables + [EmptyTable(GrownCapacity(2 * Capacity(s.tables[main]), newCount))])
    case Unlock(main, newCount) => Goto(s, t, Gate(main, newCount)).(lock := None)
    case Gate(main, newCount) =>
      Goto(s, t, if newCount < ThreeQuarters(Capacity(s.tables[main])) then Create(main, newCount) else Refresh(newCount))
    case Refresh(newCount) => Goto(s, t, Check(last, newCount))
    case Create(main, newCount) => Goto(s, t, Place(main, 0, Some(s.producers))).(producers := s.producers + 1)
    case Place(main, steps, producer) =>
      Goto(s, t, if KeyAt(s, t, main, steps) == None then PlaceCas(main, steps, producer)
                 else Place(main, steps + 1, producer))
    case PlaceCas(main, steps, producer) =>
      if KeyAt(s, t, main, steps) == None
      then WithKey(s, t, main, steps).(pc := s.pc[t := PlaceStore(main, steps, producer)])
      else Goto(s, t, Place(main, steps + 1, producer))
    case PlaceStore(main, steps, producer) =>
      WithValue(s, t, main, steps, producer).(pc := s.pc[t := Return(producer)])
    case Return(producer) => Goto(s, t, Idle).(handed := s.handed[t := s.handed[t] + [producer]])
  }

  function SlotOf(s: State, t: nat, x: nat, steps: nat): (i: nat)
    requires t < |s.hash| && x < |s.tables| && |s.tables[x].keys| > 0
    ensures i < |s.tables[x].keys|
  {
    Slot(s.hash[t], steps, |s.tables[x].keys|)
  }

  function KeyAt(s: State, t: nat, x: nat, steps: nat): Option<nat>
    requires t < |s.hash| && x < |s.tables| && |s.tables[x].keys| > 0
  {
    s.tables[x].keys[SlotOf(s, t, x, steps)]
  }

  function WithKey(s: State, t: nat, x: nat, steps: nat): State
    requires t < |s.hash| && x < |s.tables| && |s.tables[x].keys| > 0
  {
    var tb := s.tables[x];
    s.(tables := s.tables[x := tb.(keys := tb.keys[SlotOf(s, t, x, steps) := Some(t)])])
  }

  function WithValue(s: State, t: nat, x: nat, steps: nat, producer: Option<nat>): State
    requires t < |s.hash| && x < |s.tables| && |s.tables[x].keys| == |s.tables[x].values| > 0
  {
    var tb := s.tables[x];
    s.(tables := s.tables[x := tb.(values := tb.values[SlotOf(s, t, x, steps) := producer])])
  }

  ghost function ProbeNext(s: State, t: nat, main: nat, table: nat, steps: nat): PC
    requires Sized(s) && t < |s.pc| && main < |s.tables| && table < |s.tables|
  {
    var key := KeyAt(s, t, table, steps);
    if key == Some(t) then
      var producer := s.tables[table].values[SlotOf(s, t, table, steps)];
      if table == main then Return(producer) else Place(main, 0, producer)
    else if key == None then
      if table > 0 then Probe(main, table - 1, 0) else Count(main)
    else Probe(main, table, steps + 1)
  }

  ghost predicate Step(s: State, s': State) {
    exists t :: Enabled(s, t) && s' == Next(s, t)
  }

  ghost predicate IsRun(run: seq<State>) {
    && |run| > 0
    && Init(run[0])
    && forall i :: 0 <= i < |run| - 1 ==> Step(run[i], run[i + 1])
  }

  ghost predicate Reachable(s: State) {
    exists run :: IsRun(run) && run[|run| - 1] == s
  }

  // ---------- The invariant ----------

  /** Each thread's registration number, 0 before it counted itself, and the producer created for it. */
  datatype Ghost = Ghost(number: seq<nat>, owned: seq<Option<nat>>)

  /** Thread u's key sits in slot i of table x. */
  ghost predicate At(s: State, x: nat, i: nat, u: nat) {
    x < |s.tables| && i < |s.tables[x].keys| && s.tables[x].keys[i] == Some(u)
  }

  ghost predicate Keyed(s: State, x: nat, u: nat) { exists i: nat :: At(s, x, i, u) }

  ghost predicate Somewhere(s: State, u: nat) { exists x: nat, i: nat :: At(s, x, i, u) }

  /** The probe of hash h has only met taken slots in its first `steps` steps. */
  ghost predicate Passed(keys: seq<Option<nat>>, h: nat, steps: nat)
    requires |keys| > 0
  {
    forall j: nat :: j < steps ==> keys[Slot(h, j, |keys|)].Some?
  }

  ghost predicate Shape(s: State, g: Ghost) {
    && Sized(s) && |g.number| == |g.owned| == |s.pc|
    && (forall x, y :: 0 <= x <= y < |s.tables| ==> Capacity(s.tables[x]) <= Capacity(s.tables[y]))
    && (forall x: nat, i: nat, u: nat :: At(s, x, i, u) ==> u < |s.pc|)
    && (forall t :: 0 <= t < |s.pc| ==> Placed(s, s.pc[t]))
  }

  ghost predicate Unique(s: State) {
    forall x: nat, i: nat, j: nat, u: nat :: At(s, x, i, u) && At(s, x, j, u) ==> i == j
  }

  ghost predicate Numbers(s: State, g: Ghost) {
    && (forall u :: 0 <= u < |g.number| ==> g.number[u] <= s.count)
    && (forall u, v :: 0 <= u < v < |g.number| && g.number[u] > 0 ==> g.number[u] != g.number[v])
    && (forall u :: 0 <= u < |g.owned| && g.owned[u].Some? ==> g.owned[u].value < s.producers)
    && (forall u, v :: 0 <= u < v < |g.owned| && g.owned[u].Some? ==> g.owned[u] != g.owned[v])
  }

  /** What a taken slot tells about the thread it belongs to. */
  ghost predicate SlotOk(s: State, g: Ghost, x: nat, i: nat, u: nat)
    requires Shape(s, g) && At(s, x, i, u)
  {
    && 0 < g.number[u] < ThreeQuarters(Capacity(s.tables[x]))
    && g.owned[u].Some?
    && (s.tables[x].values[i] == g.owned[u] || (s.pc[u].PlaceStore? && s.pc[u].main == x && SlotOf(s, u, x, s.pc[u].steps) == i))
    && exists n: nat :: i == SlotOf(s, u, x, n) && Passed(s.tables[x].keys, s.hash[u], n)
  }

  ghost predicate SlotsOk(s: State, g: Ghost)
    requires Shape(s, g)
  {
    forall x: nat, i: nat, u: nat :: At(s, x, i, u) ==> SlotOk(s, g, x, i, u)
  }

  /** A thread outside registration is registered completely or not at all. */
  ghost predicate Settled(s: State, g: Ghost, t: nat)
    requires Shape(s, g) && t < |s.pc|
  {
    && (g.number[t] > 0 <==> g.owned[t].Some?)
    && (g.owned[t].Some? ==> Somewhere(s, t))
  }

  /** Numbered, but owning no producer and no slot yet. */
  ghost predicate Numbered(s: State, g: Ghost, t: nat, newCount: nat)
    requires Shape(s, g) && t < |s.pc|
  {
    g.number[t] == newCount > 0 && g.owned[t].None? && !Somewhere(s, t)
  }

  ghost predicate Placing(s: State, g: Ghost, t: nat, main: nat, steps: nat, producer: Option<nat>)
    requires Shape(s, g) && t < |s.pc| && main < |s.tables|
  {
    && producer == g.owned[t] && producer.Some? && !Keyed(s, main, t)
    && 0 < g.number[t] < ThreeQuarters(Capacity(s.tables[main]))
    && Passed(s.tables[main].keys, s.hash[t], steps)
  }

  ghost predicate ThreadOk(s: State, g: Ghost, t: nat)
    requires Shape(s, g) && t < |s.pc|
  {
    match s.pc[t]
    case Idle => Settled(s, g, t)
    case Probe(main, table, steps) =>
      && Settled(s, g, t) && table <= main
      && (forall x: nat :: table < x ==> !Keyed(s, x, t))
      && Passed(s.tables[table].keys, s.hash[t], steps)
      && (forall j: nat :: j < steps ==> KeyAt(s, t, table, j) != Some(t))
    case Count(main) => Settled(s, g, t) && !Somewhere(s, t) && main < |s.tables|
    case Check(main, newCount) => Numbered(s, g, t, newCount)
    case Acquire(main, newCount) => Numbered(s, g, t, newCount) && main < |s.tables|
    case Reload(newCount) => Numbered(s, g, t, newCount) && s.lock == Some(t)
    case Grow(main, newCount) => Numbered(s, g, t, newCount) && s.lock == Some(t) && main == |s.tables| - 1
    case Unlock(main, newCount) =>
      && Numbered(s, g, t, newCount) && s.lock == Some(t)
      && main < |s.tables| && newCount < Capacity(s.tables[main]) / 2
    case Gate(main, newCount) => Numbered(s, g, t, newCount)
    case Refresh(newCount) => Numbered(s, g, t, newCount)
    case Create(main, newCount) =>
      Numbered(s, g, t, newCount) && main < |s.tables| && newCount < ThreeQuarters(Capacity(s.tables[main]))
    case Place(main, steps, producer) => Placing(s, g, t, main, steps, producer)
    case PlaceCas(main, steps, producer) => Placing(s, g, t, main, steps, producer)
    case PlaceStore(main, steps, producer) =>
      producer == g.owned[t] && producer.Some? && g.number[t] > 0 && KeyAt(s, t, main, steps) == Some(t)
    case Return(producer) => Settled(s, g, t) && producer == g.owned[t] && producer.Some?
  }

  ghost predicate HandedOk(s: State, g: Ghost)
    requires Shape(s, g)
  {
    forall t, j :: 0 <= t < |s.handed| && 0 <= j < |s.handed[t]| ==> s.handed[t][j] == g.owned[t] && g.owned[t].Some?
  }

  ghost predicate Inv(s: State, g: Ghost) {
    && Shape(s, g) && Unique(s) && Numbers(s, g) && SlotsOk(s, g) && HandedOk(s, g)
    && forall t :: 0 <= t < |s.pc| ==> ThreadOk(s, g, t)
  }

  // ---------- Probes ----------

  /** Every slot is some step away from the start of a probe. */
  lemma Reaches(h: nat, i: nat, capacity: nat) returns (n: nat)
    requires i < capacity
    ensures n < capacity && Slot(h, n, capacity) == i
  {
    n := (i - h) % capacity;
    ModAbsorb(i - h, h, capacity);
    DivUnique(i, capacity, 0, i);
    assert h + n == n + h && i - h + h == i;
  }

  /** A probe that only met taken slots is shorter than the table while any slot is empty. */
  lemma PassedIsShort(keys: seq<Option<nat>>, h: nat, steps: nat, i: nat)
    requires i < |keys| && keys[i].None? && Passed(keys, h, steps)
    ensures steps < |keys|
  {
    var n := Reaches(h, i, |keys|);
  }

  /** Before a key is met, a probe meets only taken slots. */
  lemma NothingEmptyBefore(keys: seq<Option<nat>>, h: nat, steps: nat, n: nat, u: nat)
    requires |keys| > 0 && Passed(keys, h, n) && keys[Slot(h, n, |keys|)] == Some(u)
    requires forall j: nat :: j < steps ==> keys[Slot(h, j, |keys|)] != Some(u)
    ensures keys[Slot(h, steps, |keys|)].Some?
  {
    assert n >= steps;
  }

  /** An empty slot met on the way proves that the key is not in the table. */
  lemma EmptyMeansAbsent(s: State, g: Ghost, t: nat, x: nat, steps: nat)
    requires Shape(s, g) && Unique(s) && SlotsOk(s, g) && t < |s.pc| && x < |s.tables|
    requires forall j: nat :: j < steps ==> KeyAt(s, t, x, j) != Some(t)
    ensures Keyed(s, x, t) ==> KeyAt(s, t, x, steps).Some?
  {
    if i: nat :| At(s, x, i, t) {
      assert SlotOk(s, g, x, i, t);
      var n: nat :| i == SlotOf(s, t, x, n) && Passed(s.tables[x].keys, s.hash[t], n);
      var keys, h := s.tables[x].keys, s.hash[t];
      forall j: nat | j < steps ensures keys[Slot(h, j, |keys|)] != Some(t) {
        assert KeyAt(s, t, x, j) != Some(t);
      }
      NothingEmptyBefore(keys, h, steps, n, t);
    }
  }

  // ---------- The fill of a table ----------

  /** The keys in a table, slot by slot. */
  function Occupants(keys: seq<Option<nat>>): (r: seq<nat>)
    ensures |r| <= |keys|
    ensures forall u: nat :: u in r <==> Some(u) in keys
    ensures |r| == |keys| ==> None !in keys
  {
    if |keys| == 0 then []
    else
      var k, front := keys[|keys| - 1], keys[..|keys| - 1];
      assert keys == front + [k];
      if k.Some? then Occupants(front) + [k.value] else Occupants(front)
  }

  lemma {:induction false} OccupantsDistinct(keys: seq<Option<nat>>)
    requires forall i, j :: 0 <= i < j < |keys| && keys[i].Some? ==> keys[i] != keys[j]
    ensures var r := Occupants(keys); forall i, j :: 0 <= i < j < |r| ==> r[i] != r[j]
  {
    if |keys| > 0 {
      var k, front := keys[|keys| - 1], keys[..|keys| - 1];
      OccupantsDistinct(front);
      if k.Some? {
        forall i | 0 <= i < |front| ensures front[i] != k {
          if keys[i].Some? { assert keys[i] != keys[|keys| - 1]; }
        }
        assert k.value !in Occupants(front);
      }
    }
  }

  /** Distinct numbers below three quarters: fewer keys than that. */
  lemma FillBounded(s: State, g: Ghost, x: nat)
    requires Shape(s, g) && Unique(s) && Numbers(s, g) && SlotsOk(s, g) && x < |s.tables|
    ensures var n, cap := |Occupants(s.tables[x].keys)|, Capacity(s.tables[x]);
            n < cap && (n == 0 || n < ThreeQuarters(cap))
  {
    var keys := s.tables[x].keys;
    var r, bound := Occupants(keys), ThreeQuarters(|keys|);
    forall i, j | 0 <= i < j < |keys| && keys[i].Some? ensures keys[i] != keys[j] {
      assert At(s, x, i, keys[i].value);
      assert At(s, x, j, keys[i].value) <==> keys[j] == keys[i];
    }
    OccupantsDistinct(keys);
    forall k | 0 <= k < |r| ensures r[k] < |g.number| && 0 < g.number[r[k]] < bound {
      assert r[k] in r && Some(r[k]) in keys;
      var i: nat :| i < |keys| && keys[i] == Some(r[k]);
      assert At(s, x, i, r[k]) && SlotOk(s, g, x, i, r[k]);
    }
    if |r| > 0 {
      assert 0 < g.number[r[0]] < bound;
      var numbers := seq(|r|, k requires 0 <= k < |r| => g.number[r[k]] - 1);
      forall i, j | 0 <= i < j < |r| ensures numbers[i] != numbers[j] {
        assert r[i] != r[j];
        assert g.number[r[i]] != g.number[r[j]] by { DistinctNumbers(s, g, r[i], r[j]); }
      }
      Pigeonhole(numbers, bound - 1);
    }
  }

  lemma DistinctNumbers(s: State, g: Ghost, u: nat, v: nat)
    requires Numbers(s, g) && u < |g.number| && v < |g.number| && u != v && g.number[u] > 0
    ensures g.number[u] != g.number[v]
  {
    if v < u && g.number[v] > 0 { assert g.number[v] != g.number[u]; }
  }

  /** So some slot is empty, and every probe is shorter than the table. */
  lemma ProbeIsShort(s: State, g: Ghost, t: nat, x: nat, steps: nat)
    requires Shape(s, g) && Unique(s) && Numbers(s, g) && SlotsOk(s, g) && t < |s.pc| && x < |s.tables|
    requires Passed(s.tables[x].keys, s.hash[t], steps)
    ensures steps < Capacity(s.tables[x])
  {
    FillBounded(s, g, x);
    var keys := s.tables[x].keys;
    assert None in keys by {
      if None !in keys { AllTaken(keys); }
    }
    var i: nat :| i < |keys| && keys[i] == None;
    PassedIsShort(keys, s.hash[t], steps, i);
  }

  lemma {:induction false} AllTaken(keys: seq<Option<nat>>)
    requires None !in keys
    ensures |Occupants(keys)| == |keys|
  {
    if |keys| > 0 {
      assert keys[|keys| - 1] in keys;
      AllTaken(keys[..|keys| - 1]);
    }
  }

  // ---------- Every step keeps the invariant ----------

  function Follow(s: State, g: Ghost, t: nat): Ghost
    requires t < |s.pc| && |g.number| == |g.owned| == |s.pc|
  {
    if s.pc[t].Count? then g.(number := g.number[t := s.count + 1])
    else if s.pc[t].Create? then g.(owned := g.owned[t := Some(s.producers)])
    else g
  }

  /** Tables are appended and slots taken, by t alone; nothing is moved or given back. */
  ghost predicate Fills(s: State, s': State, t: nat)
    requires Sized(s)
  {
    && |s.tables| <= |s'.tables| && s'.hash == s.hash
    && (forall x :: 0 <= x < |s.tables| ==> |s'.tables[x].keys| == |s.tables[x].keys|)
    && (forall x, i :: 0 <= x < |s.tables| && 0 <= i < |s.tables[x].keys| && s.tables[x].keys[i].Some? ==>
          s'.tables[x].keys[i] == s.tables[x].keys[i])
    && (forall x: nat, i: nat, u: nat :: u != t && At(s', x, i, u) ==> At(s, x, i, u))
  }

  lemma StepFills(s: State, g: Ghost, t: nat)
    requires Shape(s, g) && Enabled(s, t)
    ensures Fills(s, Next(s, t), t)
    ensures var s' := Next(s, t); |s'.pc| == |s.pc| && s'.pc == s.pc[t := s'.pc[t]]
  {
    var s', p := Next(s, t), s.pc[t];
    if p.PlaceCas? && KeyAt(s, t, p.main, p.steps).None? {
      KeyFills(s, t, p.main, p.steps);
      FillsByTables(s, WithKey(s, t, p.main, p.steps), s', t);
    } else if p.PlaceStore? {
      FillsByTables(s, s, WithValue(s, t, p.main, p.steps, p.producer), t);
      FillsByTables(s, WithValue(s, t, p.main, p.steps, p.producer), s', t);
    } else if p.Grow? {
      EmptyFills(s, s', t);
    } else {
      FillsByTables(s, s, s', t);
    }
  }

  lemma KeyFills(s: State, t: nat, x: nat, steps: nat)
    requires Sized(s) && t < |s.hash| && x < |s.tables| && KeyAt(s, t, x, steps).None?
    ensures Fills(s, WithKey(s, t, x, steps), t)
  {
    var s' := WithKey(s, t, x, steps);
    forall y: nat, i: nat, u: nat | u != t && At(s', y, i, u) ensures At(s, y, i, u) {}
  }

  lemma EmptyFills(s: State, s': State, t: nat)
    requires Sized(s) && s'.hash == s.hash
    requires |s'.tables| == |s.tables| + 1 && s'.tables[..|s.tables|] == s.tables
    requires s'.tables[|s.tables|] == EmptyTable(Capacity(s'.tables[|s.tables|]))
    ensures Fills(s, s', t)
  {
    forall y: nat, i: nat, u: nat | u != t && At(s', y, i, u) ensures At(s, y, i, u) {
      assert y < |s.tables| ==> s'.tables[y] == s'.tables[..|s.tables|][y];
    }
  }

  lemma FillsByTables(s: State, m: State, s': State, t: nat)
    requires Sized(s) && Fills(s, m, t) && s'.hash == m.hash && |s'.tables| == |m.tables|
    requires forall x :: 0 <= x < |m.tables| ==> s'.tables[x].keys == m.tables[x].keys
    ensures Fills(s, s', t)
  {
    forall y: nat, i: nat, u: nat | u != t && At(s', y, i, u) ensures At(s, y, i, u) {
      assert At(m, y, i, u);
    }
  }

  lemma StepSized(s: State, g: Ghost, t: nat)
    requires Inv(s, g) && Enabled(s, t)
    ensures Sized(Next(s, t)) && |Follow(s, g, t).number| == |Follow(s, g, t).owned| == |Next(s, t).pc|
    ensures forall x, y :: 0 <= x <= y < |Next(s, t).tables| ==>
              Capacity(Next(s, t).tables[x]) <= Capacity(Next(s, t).tables[y])
  {
    assert ThreadOk(s, g, t);
  }

  lemma StepPlaced(s: State, g: Ghost, t: nat)
    requires Inv(s, g) && Enabled(s, t)
    ensures Placed(Next(s, t), Next(s, t).pc[t])
  {
    assert ThreadOk(s, g, t);
  }

  lemma OthersPlaced(s: State, g: Ghost, t: nat, u: nat)
    requires Inv(s, g) && Enabled(s, t) && u < |s.pc| && u != t
    ensures Placed(Next(s, t), Next(s, t).pc[u])
  {
    StepFills(s, g, t);
    assert Placed(s, s.pc[u]);
  }

  lemma StepShape(s: State, g: Ghost, t: nat)
    requires Inv(s, g) && Enabled(s, t)
    ensures Shape(Next(s, t), Follow(s, g, t))
  {
    StepSized(s, g, t);
    StepFills(s, g, t);
    forall u | 0 <= u < |Next(s, t).pc| ensures Placed(Next(s, t), Next(s, t).pc[u]) {
      if u == t { StepPlaced(s, g, t); } else { OthersPlaced(s, g, t, u); }
    }
    forall x: nat, i: nat, u: nat | At(Next(s, t), x, i, u) ensures u < |Next(s, t).pc| {
      if u != t { assert At(s, x, i, u); }
    }
  }

  lemma StepUnique(s: State, g: Ghost, t: nat)
    requires Inv(s, g) && Enabled(s, t)
    ensures Unique(Next(s, t))
  {
    var s' := Next(s, t);
    StepFills(s, g, t);
    assert ThreadOk(s, g, t);
    forall x: nat, i: nat, j: nat, u: nat | At(s', x, i, u) && At(s', x, j, u) ensures i == j {
      if u != t || !s.pc[t].PlaceCas? || x != s.pc[t].main {
        assert At(s, x, i, u) && At(s, x, j, u);
      } else {
        if At(s, x, i, u) { assert Keyed(s, x, u); }
        if At(s, x, j, u) { assert Keyed(s, x, u); }
      }
    }
  }

  lemma StepNumbers(s: State, g: Ghost, t: nat)
    requires Inv(s, g) && Enabled(s, t)
    ensures Numbers(Next(s, t), Follow(s, g, t))
  {
  }

  lemma StepHanded(s: State, g: Ghost, t: nat)
    requires Inv(s, g) && Enabled(s, t) && Shape(Next(s, t), Follow(s, g, t))
    ensures HandedOk(Next(s, t), Follow(s, g, t))
  {
    assert ThreadOk(s, g, t);
  }

  lemma PassedStays(s: State, s': State, t: nat, x: nat, h: nat, steps: nat)
    requires Sized(s) && Fills(s, s', t) && x < |s.tables| && Passed(s.tables[x].keys, h, steps)
    ensures |s'.tables[x].keys| > 0 && Passed(s'.tables[x].keys, h, steps)
  {
  }

  lemma StepSlots(s: State, g: Ghost, t: nat)
    requires Inv(s, g) && Enabled(s, t) && Shape(Next(s, t), Follow(s, g, t))
    ensures SlotsOk(Next(s, t), Follow(s, g, t))
  {
    var s', g' := Next(s, t), Follow(s, g, t);
    StepFills(s, g, t);
    forall x: nat, i: nat, u: nat | At(s', x, i, u) ensures SlotOk(s', g', x, i, u) {
      if At(s, x, i, u) { OldSlot(s, g, t, x, i, u); } else { NewSlot(s, g, t, x, i); }
    }
  }

  lemma OldSlot(s: State, g: Ghost, t: nat, x: nat, i: nat, u: nat)
    requires Inv(s, g) && Enabled(s, t) && Shape(Next(s, t), Follow(s, g, t))
    requires At(s, x, i, u) && At(Next(s, t), x, i, u)
    ensures SlotOk(Next(s, t), Follow(s, g, t), x, i, u)
  {
    var s' := Next(s, t);
    StepFills(s, g, t);
    assert SlotOk(s, g, x, i, u) && ThreadOk(s, g, t);
    assert Somewhere(s, u);
    var n: nat :| i == SlotOf(s, u, x, n) && Passed(s.tables[x].keys, s.hash[u], n);
    PassedStays(s, s', t, x, s.hash[u], n);
    assert i == SlotOf(s', u, x, n);
  }

  lemma NewSlot(s: State, g: Ghost, t: nat, x: nat, i: nat)
    requires Inv(s, g) && Enabled(s, t) && Shape(Next(s, t), Follow(s, g, t))
    requires !At(s, x, i, t) && At(Next(s, t), x, i, t)
    ensures SlotOk(Next(s, t), Follow(s, g, t), x, i, t)
  {
    var s' := Next(s, t);
    StepFills(s, g, t);
    assert ThreadOk(s, g, t);
    assert s.pc[t].PlaceCas? && s.pc[t].main == x;
    PassedStays(s, s', t, x, s.hash[t], s.pc[t].steps);
    assert i == SlotOf(s', t, x, s.pc[t].steps);
  }

  /** What other threads rely on is not disturbed. */
  lemma OtherOk(s: State, g: Ghost, s': State, g': Ghost, t: nat, u: nat)
    requires Shape(s, g) && Shape(s', g') && Fills(s, s', t) && u < |s.pc| == |s'.pc| && u != t && ThreadOk(s, g, u)
    requires s'.pc[u] == s.pc[u] && g'.number[u] == g.number[u] && g'.owned[u] == g.owned[u]
    requires s.lock == Some(u) ==> s'.lock == Some(u) && |s'.tables| == |s.tables|
    ensures ThreadOk(s', g', u)
  {
    if Somewhere(s, u) {
      var x: nat, i: nat :| At(s, x, i, u);
      assert At(s', x, i, u);
    }
    if x: nat, i: nat :| At(s', x, i, u) { assert At(s, x, i, u); }
    forall x: nat | Keyed(s', x, u) ensures Keyed(s, x, u) {
      var i: nat :| At(s', x, i, u);
      assert At(s, x, i, u);
    }
    match s.pc[u]
    case Probe(main, table, steps) =>
      PassedStays(s, s', t, table, s.hash[u], steps);
      forall j: nat | j < steps ensures KeyAt(s', u, table, j) != Some(u) {
        assert KeyAt(s, u, table, j) != Some(u) && KeyAt(s, u, table, j).Some?;
      }
    case Place(main, steps, _) => PassedStays(s, s', t, main, s.hash[u], steps);
    case PlaceCas(main, steps, _) => PassedStays(s, s', t, main, s.hash[u], steps);
    case PlaceStore(main, steps, _) => assert KeyAt(s', u, main, steps) == Some(u);
    case _ =>
  }

  lemma StepOthers(s: State, g: Ghost, t: nat, u: nat)
    requires Inv(s, g) && Enabled(s, t) && Shape(Next(s, t), Follow(s, g, t)) && u < |s.pc| && u != t
    ensures ThreadOk(Next(s, t), Follow(s, g, t), u)
  {
    StepFills(s, g, t);
    assert ThreadOk(s, g, t) && ThreadOk(s, g, u);
    OtherOk(s, g, Next(s, t), Follow(s, g, t), t, u);
  }

  /** While a table does not change, neither do the places of a key. */
  lemma SameTables(s: State, s': State, u: nat)
    requires s'.tables == s.tables
    ensures Somewhere(s, u) <==> Somewhere(s', u)
    ensures forall x: nat :: Keyed(s, x, u) <==> Keyed(s', x, u)
  {
    forall x: nat, i: nat ensures At(s, x, i, u) <==> At(s', x, i, u) {}
    forall x: nat ensures Keyed(s, x, u) <==> Keyed(s', x, u) {
      if i: nat :| At(s, x, i, u) { assert At(s', x, i, u); }
      if i: nat :| At(s', x, i, u) { assert At(s, x, i, u); }
    }
    if x: nat, i: nat :| At(s, x, i, u) { assert At(s', x, i, u); }
    if x: nat, i: nat :| At(s', x, i, u) { assert At(s, x, i, u); }
  }

  /** A probe step finds the thread's own producer, or moves on over a slot that is neither empty nor its own. */
  lemma ProbeKeeps(s: State, g: Ghost, t: nat)
    requires Inv(s, g) && Enabled(s, t) && s.pc[t].Probe? && Shape(Next(s, t), Follow(s, g, t))
    ensures ThreadOk(Next(s, t), Follow(s, g, t), t)
  {
    var s', p := Next(s, t), s.pc[t];
    assert ThreadOk(s, g, t);
    SameTables(s, s', t);
    var key, i := KeyAt(s, t, p.table, p.steps), SlotOf(s, t, p.table, p.steps);
    if key == Some(t) {
      assert At(s, p.table, i, t) && SlotOk(s, g, p.table, i, t);
      if p.table < p.main { assert !Keyed(s, p.main, t); }
      assert Capacity(s.tables[p.table]) <= Capacity(s.tables[p.main]);
    } else if key == None {
      EmptyMeansAbsent(s, g, t, p.table, p.steps);
      forall x: nat | p.table <= x ensures !Keyed(s, x, t) {}
      if p.table == 0 {
        if x: nat, j: nat :| At(s, x, j, t) { assert Keyed(s, x, t); }
      }
    } else {
      assert s'.pc[t] == Probe(p.main, p.table, p.steps + 1);
      forall j: nat | j < p.steps + 1 ensures KeyAt(s', t, p.table, j) != Some(t) && KeyAt(s', t, p.table, j).Some? {
        if j < p.steps { assert KeyAt(s, t, p.table, j) != Some(t); }
      }
    }
  }

  lemma RegisterKeeps(s: State, g: Ghost, t: nat)
    requires Inv(s, g) && Enabled(s, t) && Shape(Next(s, t), Follow(s, g, t))
    requires var p := s.pc[t];
             p.Idle? || p.Count? || p.Check? || p.Acquire? || p.Reload? || p.Unlock? || p.Gate? || p.Refresh? || p.Return?
    ensures ThreadOk(Next(s, t), Follow(s, g, t), t)
  {
    assert ThreadOk(s, g, t);
    SameTables(s, Next(s, t), t);
    if s.pc[t].Idle? {
      forall x: nat | |s.tables| - 1 < x ensures !Keyed(s, x, t) {}
    }
  }

  lemma GrowKeeps(s: State, g: Ghost, t: nat)
    requires Inv(s, g) && Enabled(s, t) && s.pc[t].Grow? && Shape(Next(s, t), Follow(s, g, t))
    ensures ThreadOk(Next(s, t), Follow(s, g, t), t)
  {
    var s' := Next(s, t);
    assert ThreadOk(s, g, t);
    if x: nat, i: nat :| At(s', x, i, t) {
      assert At(s, x, i, t);
    }
  }

  lemma PlaceKeeps(s: State, g: Ghost, t: nat)
    requires Inv(s, g) && Enabled(s, t) && Shape(Next(s, t), Follow(s, g, t))
    requires s.pc[t].Create? || s.pc[t].Place? || s.pc[t].PlaceCas? || s.pc[t].PlaceStore?
    ensures ThreadOk(Next(s, t), Follow(s, g, t), t)
  {
    var s', p := Next(s, t), s.pc[t];
    assert ThreadOk(s, g, t);
    match p
    case Create(main, _) =>
      SameTables(s, s', t);
      if i: nat :| At(s, main, i, t) { assert Somewhere(s, t); }
    case Place(main, steps, _) => SameTables(s, s', t);
    case PlaceCas(main, steps, _) =>
      if KeyAt(s, t, main, steps).Some? { SameTables(s, s', t); }
    case PlaceStore(main, steps, _) =>
      assert At(s', main, SlotOf(s, t, main, steps), t);
  }

  lemma StepInv(s: State, g: Ghost, t: nat)
    requires Inv(s, g) && Enabled(s, t)
    ensures Inv(Next(s, t), Follow(s, g, t))
  {
    var s', g' := Next(s, t), Follow(s, g, t);
    StepShape(s, g, t);
    StepUnique(s, g, t);
    StepNumbers(s, g, t);
    StepHanded(s, g, t);
    StepSlots(s, g, t);
    forall u | 0 <= u < |s'.pc| ensures ThreadOk(s', g', u) {
      if u != t {
        StepOthers(s, g, t, u);
      } else if s.pc[t].Probe? {
        ProbeKeeps(s, g, t);
      } else if s.pc[t].Grow? {
        GrowKeeps(s, g, t);
      } else if s.pc[t].Create? || s.pc[t].Place? || s.pc[t].PlaceCas? || s.pc[t].PlaceStore? {
        PlaceKeeps(s, g, t);
      } else {
        RegisterKeeps(s, g, t);
      }
    }
  }

  lemma InitInv(s: State, g: Ghost)
    requires Init(s) && g == Ghost(seq(|s.pc|, _ => 0), seq(|s.pc|, _ => None))
    ensures Inv(s, g)
  {
    forall x: nat, i: nat, u: nat ensures !At(s, x, i, u) {}
  }

  lemma {:induction false} RunInv(run: seq<State>, s': State)
    requires IsRun(run) && s' == run[|run| - 1]
    ensures exists g :: Inv(s', g)
  {
    if |run| == 1 {
      InitInv(s', Ghost(seq(|s'.pc|, _ => 0), seq(|s'.pc|, _ => None)));
    } else {
      var s := run[|run| - 2];
      RunInv(run[..|run| - 1], s);
      assert Step(s, run[|run| - 2 + 1]);
      var g :| Inv(s, g);
      var t :| Enabled(s, t) && s' == Next(s, t);
      StepInv(s, g, t);
    }
  }

  lemma ReachableInv(s: State) returns (g: Ghost)
    requires Reachable(s)
    ensures Inv(s, g)
  {
    var run :| IsRun(run) && run[|run| - 1] == s;
    RunInv(run, s);
    g :| Inv(s, g);
  }

  // ---------- What the hash promises ----------

  /** A thread gets the same producer on every call, two threads never share one, and no call comes back empty. */
  lemma SameProducerIffSameThread(s: State, t: nat, i: nat, u: nat, j: nat)
    requires Reachable(s) && t < |s.handed| && u < |s.handed| && i < |s.handed[t]| && j < |s.handed[u]|
    ensures s.handed[t][i].Some?
    ensures s.handed[t][i] == s.handed[u][j] <==> t == u
  {
    var g := ReachableInv(s);
    assert s.handed[t][i] == g.owned[t] && s.handed[u][j] == g.owned[u];
  }

  /** No table is ever three quarters full, nor full: lazy copies and late insertions into old tables included. */
  lemma TablesStayOpen(s: State, x: nat)
    requires Reachable(s) && x < |s.tables|
    ensures var n, cap := |Occupants(s.tables[x].keys)|, Capacity(s.tables[x]);
            n < cap && (n == 0 || n < ThreeQuarters(cap))
  {
    var g := ReachableInv(s);
    FillBounded(s, g, x);
  }

  /** So every probe loop, in a lookup or an insertion, ends before it has been once around the table. */
  lemma ProbeLoopsEnd(s: State, t: nat)
    requires Reachable(s) && t < |s.pc|
    ensures Placed(s, s.pc[t])
    ensures s.pc[t].Probe? ==> s.pc[t].steps < Capacity(s.tables[s.pc[t].table])
    ensures s.pc[t].Place? || s.pc[t].PlaceCas? ==> s.pc[t].steps < Capacity(s.tables[s.pc[t].main])
  {
    var g := ReachableInv(s);
    assert ThreadOk(s, g, t);
    match s.pc[t]
    case Probe(_, table, steps) => ProbeIsShort(s, g, t, table, steps);
    case Place(main, steps, _) => ProbeIsShort(s, g, t, main, steps);
    case PlaceCas(main, steps, _) => ProbeIsShort(s, g, t, main, steps);
    case _ =>
  }

  /** Every thread can always take its next step. */
  lemma NeverStuck(s: State, t: nat)
    requires Reachable(s) && t < |s.pc|
    ensures Enabled(s, t)
  {
    var g := ReachableInv(s);
  }

  /** A thread that a call has served finds its key: it is never numbered, and never given a producer, again. */
  lemma ServedOnce(s: State, t: nat)
    requires Reachable(s) && t < |s.handed| && |s.handed[t]| > 0
    ensures t < |s.pc|
    ensures s.pc[t].Idle? || s.pc[t].Probe? || s.pc[t].Place? || s.pc[t].PlaceCas? || s.pc[t].PlaceStore? || s.pc[t].Return?
  {
    var g := ReachableInv(s);
    assert ThreadOk(s, g, t) && s.handed[t][0] == g.owned[t];
  }

  // ---------- A thread that runs alone ----------

  /** The lock is with a thread that is growing the chain. */
  ghost predicate LockHeld(s: State) {
    s.lock.Some? ==> s.lock.value < |s.pc| && (s.pc[s.lock.value].Reload? || s.pc[s.lock.value].Grow? || s.pc[s.lock.value].Unlock?)
  }

  lemma LockHeldStep(s: State, g: Ghost, t: nat)
    requires Inv(s, g) && Enabled(s, t) && LockHeld(s)
    ensures LockHeld(Next(s, t))
  {
    assert ThreadOk(s, g, t);
  }

  lemma {:induction false} RunLock(run: seq<State>, s': State) returns (g: Ghost)
    requires IsRun(run) && s' == run[|run| - 1]
    ensures Inv(s', g) && LockHeld(s')
  {
    if |run| == 1 {
      g := Ghost(seq(|s'.pc|, _ => 0), seq(|s'.pc|, _ => None));
      InitInv(s', g);
    } else {
      var s := run[|run| - 2];
      g := RunLock(run[..|run| - 1], s);
      assert Step(s, run[|run| - 2 + 1]);
      var t :| Enabled(s, t) && s' == Next(s, t);
      LockHeldStep(s, g, t);
      StepInv(s, g, t);
      g := Follow(s, g, t);
    }
  }

  /** n steps of thread t lead from s to s'. */
  ghost predicate Alone(s: State, t: nat, n: nat, s': State)
    decreases n
  {
    if n == 0 then s' == s else Enabled(s, t) && Alone(Next(s, t), t, n - 1, s')
  }

  /** How far the call is from its end: stages in order, and within the probe loops what is left of the tables. */
  function Stage(s: State, p: PC): nat {
    match p
    case Idle => 0
    case Return(_) => 1
    case PlaceStore(_, _, _) => 2
    case PlaceCas(_, _, _) => 3
    case Place(_, _, _) => 3
    case Create(_, _) => 4
    case Gate(main, newCount) => if main < |s.tables| && newCount < ThreeQuarters(Capacity(s.tables[main])) then 5 else 12
    case Unlock(_, _) => 6
    case Grow(_, _) => 7
    case Reload(_) => 8
    case Acquire(_, _) => 9
    case Check(_, _) => 10
    case Refresh(_) => 11
    case Count(_) => 13
    case Probe(_, _, _) => 14
  }

  function TablesLeft(p: PC): nat { if p.Probe? then p.table else 0 }

  function SlotsLeft(s: State, p: PC): int {
    match p
    case Probe(_, table, steps) => if table < |s.tables| then Capacity(s.tables[table]) - steps else 0
    case Place(main, steps, _) => if main < |s.tables| then 2 * (Capacity(s.tables[main]) - steps) + 1 else 0
    case PlaceCas(main, steps, _) => if main < |s.tables| then 2 * (Capacity(s.tables[main]) - steps) else 0
    case _ => 0
  }

  lemma SlotsLeftNat(s: State, g: Ghost, t: nat)
    requires Inv(s, g) && t < |s.pc|
    ensures SlotsLeft(s, s.pc[t]) >= 0
  {
    assert ThreadOk(s, g, t);
    match s.pc[t]
    case Probe(_, table, steps) => ProbeIsShort(s, g, t, table, steps);
    case Place(main, steps, _) => ProbeIsShort(s, g, t, main, steps);
    case PlaceCas(main, steps, _) => ProbeIsShort(s, g, t, main, steps);
    case _ =>
  }

  ghost predicate Closer(s: State, t: nat, s': State) {
    t < |s.pc| && t < |s'.pc| &&
    var p, p' := s.pc[t], s'.pc[t];
    || Stage(s', p') < Stage(s, p)
    || (Stage(s', p') == Stage(s, p) && TablesLeft(p') < TablesLeft(p))
    || (Stage(s', p') == Stage(s, p) && TablesLeft(p') == TablesLeft(p) && SlotsLeft(s', p') < SlotsLeft(s, p))
  }

  lemma ProbeCloser(s: State, g: Ghost, t: nat)
    requires Inv(s, g) && Enabled(s, t) && (s.pc[t].Probe? || s.pc[t].Place? || s.pc[t].PlaceCas? || s.pc[t].PlaceStore? || s.pc[t].Return?)
    ensures Closer(s, t, Next(s, t))
  {
    assert ThreadOk(s, g, t);
  }

  lemma RegisterCloser(s: State, g: Ghost, t: nat)
    requires Inv(s, g) && LockHeld(s) && Enabled(s, t) && (s.lock.None? || s.lock == Some(t))
    requires !s.pc[t].Idle? && !(s.pc[t].Probe? || s.pc[t].Place? || s.pc[t].PlaceCas? || s.pc[t].PlaceStore? || s.pc[t].Return?)
    ensures Closer(s, t, Next(s, t))
  {
    assert ThreadOk(s, g, t);
  }

  /** What the end of the call records. */
  lemma HandsOver(s: State, t: nat)
    requires Enabled(s, t) && !s.pc[t].Idle?
    ensures |Next(s, t).handed| == |s.handed| && |Next(s, t).pc| == |s.pc|
    ensures Next(s, t).lock == s.lock || Next(s, t).lock.None? || Next(s, t).lock == Some(t)
    ensures Next(s, t).pc[t].Idle? <==> s.pc[t].Return?
    ensures Next(s, t).handed == if s.pc[t].Return? then s.handed[t := s.handed[t] + [s.pc[t].producer]] else s.handed
  {
  }

  lemma {:induction false} SoloFinishes(s: State, g: Ghost, t: nat) returns (n: nat, s': State)
    requires Inv(s, g) && LockHeld(s) && t < |s.pc| && !s.pc[t].Idle? && (s.lock.None? || s.lock == Some(t))
    ensures Alone(s, t, n, s') && t < |s'.pc| && s'.pc[t].Idle?
    ensures exists p: nat :: s'.handed == s.handed[t := s.handed[t] + [Some(p)]]
    decreases Stage(s, s.pc[t]), TablesLeft(s.pc[t]), SlotsLeft(s, s.pc[t])
  {
    var next := Next(s, t);
    StepInv(s, g, t);
    LockHeldStep(s, g, t);
    HandsOver(s, t);
    SlotsLeftNat(s, g, t);
    if s.pc[t].Return? {
      n, s' := 0, next;
      assert ThreadOk(s, g, t);
      assert s'.handed == s.handed[t := s.handed[t] + [Some(s.pc[t].producer.value)]];
    } else {
      if s.pc[t].Probe? || s.pc[t].Place? || s.pc[t].PlaceCas? || s.pc[t].PlaceStore? {
        ProbeCloser(s, g, t);
      } else {
        RegisterCloser(s, g, t);
      }
      SlotsLeftNat(next, Follow(s, g, t), t);
      n, s' := SoloFinishes(next, Follow(s, g, t), t);
    }
    n := n + 1;
  }

  /**
   Unless another thread holds the resize lock, a thread that runs alone from any point of any run ends its call,
   and the call hands it a producer: its first call, which registers it, included.
   */
  lemma SoloCall(s: State, t: nat) returns (n: nat, s': State)
    requires Reachable(s) && t < |s.pc| && (s.lock.None? || s.lock == Some(t))
    ensures Alone(s, t, n, s') && t < |s'.pc| && s'.pc[t].Idle? && t < |s.handed|
    ensures exists p: nat :: s'.handed == s.handed[t := s.handed[t] + [Some(p)]]
  {
    var g := ReachableLock(s);
    if s.pc[t].Idle? {
      n, s' := SoloFromIdle(s, g, t);
    } else {
      n, s' := SoloFinishes(s, g, t);
    }
  }

  lemma ReachableLock(s: State) returns (g: Ghost)
    requires Reachable(s)
    ensures Inv(s, g) && LockHeld(s)
  {
    var run :| IsRun(run) && run[|run| - 1] == s;
    g := RunLock(run, s);
  }

  lemma SoloFromIdle(s: State, g: Ghost, t: nat) returns (n: nat, s': State)
    requires Inv(s, g) && LockHeld(s) && t < |s.pc| && s.pc[t].Idle? && (s.lock.None? || s.lock == Some(t))
    ensures Alone(s, t, n, s') && t < |s'.pc| && s'.pc[t].Idle? && t < |s.handed|
    ensures exists p: nat :: s'.handed == s.handed[t := s.handed[t] + [Some(p)]]
  {
    StepInv(s, g, t);
    LockHeldStep(s, g, t);
    n, s' := SoloFinishes(Next(s, t), Follow(s, g, t), t);
    n := n + 1;
  }

  /** Runs start with any number of threads, with any hashes, and any table. */
  lemma Starts(hash: seq<nat>, capacity: nat) returns (s: State)
    requires capacity > 0
    ensures Reachable(s) && s.hash == hash && |s.pc| == |hash| && |s.tables| == 1 && Capacity(s.tables[0]) == capacity
  {
    s := State(hash, [EmptyTable(capacity)], 0, None, 0, seq(|hash|, _ => Idle), seq(|hash|, _ => []));
    assert IsRun([s]);
  }
}
