/**
 The circular block index of an implicit producer: one producer inserts, rewinds and doubles it, any number
 of consumers look blocks up through a (header, tail) snapshot and free blocks in any order.

 Blocks are numbered in the order of their start indices; block b starts at index b * size, of which the
 program sees the 64-bit word.  Capacities are powers of two, so `& (capacity - 1)` is the remainder.
 */
module BlockIndex {
  import opened Arith
  import opened Options

  const WORD: int := 0x1_0000_0000_0000_0000
  const HALF: int := 0x8000_0000_0000_0000
  const INVALID: int := 1                       // INVALID_BLOCK_BASE

  /** BlockIndexHeader; `index` holds entry numbers in place of pointers. */
  datatype Header = Header(capacity: nat, tail: nat, index: seq<nat>)

  /** The producer inserts a block, then gives it memory; when that fails it unwinds what it has not published. */
  datatype Producer = Ready | KeyStored | Inserted | Unwinding

  /**
   A consumer holding elements of blocks k..last, claimed before it loads the header: it looks block k up
   through a (header, tail) snapshot and then walks on, one position per block.
   */
  datatype Consumer =
    | Idle
    | LoadHeader(k: nat, last: nat)
    | LoadTail(k: nat, last: nat, h: nat)
    | LoadKey(k: nat, last: nat, h: nat, tail: nat)
    | Locate(k: nat, last: nat, h: nat, tail: nat, tailBase: int)
    | Found(k: nat, last: nat, h: nat, pos: nat)

  /**
   `headers` in the order they were published, the last one current; `keys` and `values` of all entries.
   `next` blocks are inserted, the first `published` of them visible to consumers, `freed` dequeued.
   */
  datatype State = State(size: nat, headers: seq<Header>, keys: seq<int>, values: seq<Option<nat>>,
                         producer: Producer, next: nat, published: nat, freed: set<nat>, consumers: seq<Consumer>)

  datatype Action =
    | StoreKey | StoreTail | SetValue | Publish | GiveUp | ClearValue | Rewind | NewHeader
    | Claim(t: nat, k: nat, last: nat) | Run(t: nat) | Leave(t: nat) | Free(t: nat)

  /** The word stored as block b's key. */
  function Key(size: nat, b: int): int { (b * size) % WORD }

  function Current(s: State): Header
    requires |s.headers| > 0
  {
    s.headers[|s.headers| - 1]
  }

  function Prev(h: Header): nat
    requires h.capacity > 0
  {
    (h.tail + h.capacity - 1) % h.capacity
  }

  function NewTail(h: Header): nat
    requires h.capacity > 0
  {
    (h.tail + 1) % h.capacity
  }

  ghost predicate HeaderOk(h: Header, entries: nat) {
    && h.capacity > 0 && |h.index| == h.capacity && h.tail < h.capacity
    && forall i :: 0 <= i < h.capacity ==> h.index[i] < entries
  }

  ghost predicate Sized(s: State) {
    && |s.headers| > 0 && |s.keys| == |s.values|
    && s.size >= 2 && WORD % s.size == 0
    && forall h :: 0 <= h < |s.headers| ==> HeaderOk(s.headers[h], |s.keys|)
  }

  ghost predicate Init(s: State) {
    && Sized(s)
    && |s.headers| == 1
    && s.headers[0].tail == s.headers[0].capacity - 1
    && s.headers[0].capacity * s.size < HALF && |s.keys| == s.headers[0].capacity
    && (forall i :: 0 <= i < |s.keys| ==> s.headers[0].index[i] == i && s.keys[i] == INVALID && s.values[i] == None)
    && s.producer == Ready && s.next == s.published == 0 && s.freed == {}
    && (forall t :: 0 <= t < |s.consumers| ==> s.consumers[t].Idle?)
  }

  /** The entry at the tail of the current header. */
  function TailEntry(s: State): nat
    requires |s.headers| > 0 && Current(s).tail < |Current(s).index|
  {
    Current(s).index[Current(s).tail]
  }

  /** The entry the next insertion would use. */
  function NextEntry(s: State): nat
    requires |s.headers| > 0 && Current(s).capacity > 0 && |Current(s).index| == Current(s).capacity
  {
    Current(s).index[NewTail(Current(s))]
  }

  /** insert_block_index_entry's test for room. */
  predicate Usable(s: State, e: nat)
    requires e < |s.keys| && e < |s.values|
  {
    s.keys[e] == INVALID || s.values[e].None?
  }

  /** The block is published and not yet completely dequeued. */
  predicate Live(s: State, k: nat) { k < s.published && k !in s.freed }

  predicate Holds(c: Consumer, k: nat) { !c.Idle? && c.k <= k <= c.last }

  ghost predicate Enabled(s: State, a: Action) {
    Sized(s) && match a
    case StoreKey => s.producer.Ready? && Usable(s, NextEntry(s))
    case NewHeader => s.producer.Ready? && !Usable(s, NextEntry(s)) && 2 * Current(s).capacity * s.size < HALF
    case StoreTail => s.producer.KeyStored?
    case SetValue => s.producer.Inserted?
    case Publish => s.producer.Ready? && s.published < s.next
    case GiveUp => (s.producer.Inserted? || s.producer.Ready?) && s.published < s.next
    case ClearValue => s.producer.Unwinding? && s.values[TailEntry(s)].Some?
    case Rewind => s.producer.Unwinding? && s.values[TailEntry(s)].None? && s.published < s.next
    case Claim(t, k, last) =>
      t < |s.consumers| && s.consumers[t].Idle? && k <= last && forall j :: k <= j <= last ==> Live(s, j)
    case Run(t) =>
      t < |s.consumers| && !s.consumers[t].Idle? && !s.consumers[t].Found? && SnapshotOk(s, s.consumers[t])
    case Leave(t) => t < |s.consumers| && s.consumers[t].Found? && SnapshotOk(s, s.consumers[t])
    case Free(t) =>
      && t < |s.consumers| && s.consumers[t].Found? && SnapshotOk(s, s.consumers[t])
      && FoundEntry(s, s.consumers[t]) < |s.values|
      && forall u :: 0 <= u < |s.consumers| && u != t ==> !Holds(s.consumers[u], s.consumers[t].k)
  }

  /** The places a consumer's next step reads exist. */
  predicate SnapshotOk(s: State, c: Consumer) {
    match c
    case LoadTail(_, _, h) => h < |s.headers|
    case LoadKey(_, _, h, tail) => h < |s.headers| && tail < |s.headers[h].index| && s.headers[h].index[tail] < |s.keys|
    case Locate(_, _, h, _, _) => h < |s.headers| && s.size > 0 && s.headers[h].capacity > 0
    case Found(_, _, h, pos) => h < |s.headers| && pos < |s.headers[h].index| && s.headers[h].capacity > 0
    case _ => true
  }

  /** The entry a finished lookup leads to. */
  function FoundEntry(s: State, c: Consumer): nat
    requires c.Found? && SnapshotOk(s, c)
  {
    s.headers[c.h].index[c.pos]
  }

  /** The word difference read as a signed number. */
  function Signed(x: int): int { if x % WORD < HALF then x % WORD else x % WORD - WORD }

  /** C++ division of the byte offset by the block size, which rounds toward zero. */
  function Quotient(x: int, d: nat): int
    requires d > 0
  {
    if x >= 0 then x / d else -((-x) / d)
  }

  /** get_block_index_index_for_index, after the loads. */
  function IndexIndex(size: nat, h: Header, tail: nat, base: int, tailBase: int): nat
    requires size > 0 && h.capacity > 0
  {
    (tail + Quotient(Signed(base - tailBase), size)) % h.capacity
  }

  function SetConsumer(s: State, t: nat, c: Consumer): State
    requires t < |s.consumers|
  {
    s.(consumers := s.consumers[t := c])
  }

  function WithTail(s: State, tail: nat): State
    requires |s.headers| > 0
  {
    s.(headers := s.headers[|s.headers| - 1 := Current(s).(tail := tail)])
  }

  /** new_block_index: the old entries in ring order, then as many fresh ones. */
  function Doubled(h: Header, entries: nat): (r: Header)
    requires h.capacity > 0 && |h.index| == h.capacity
    ensures r.capacity == 2 * h.capacity == |r.index| && r.tail == h.capacity - 1
    ensures forall i :: 0 <= i < h.capacity ==> r.index[i] == h.index[(h.tail + 1 + i) % h.capacity]
    ensures forall i :: h.capacity <= i < 2 * h.capacity ==> r.index[i] == entries + i - h.capacity
  {
    Header(2 * h.capacity, h.capacity - 1,
           seq(2 * h.capacity, i requires 0 <= i < 2 * h.capacity =>
             if i < h.capacity then h.index[(h.tail + 1 + i) % h.capacity] else entries + i - h.capacity))
  }

  ghost function Next(s: State, a: Action): State
    requires Enabled(s, a)
  {
    match a
    case StoreKey => s.(keys := s.keys[NextEntry(s) := Key(s.size, s.next)], producer := KeyStored)
    case StoreTail => WithTail(s, NewTail(Current(s))).(producer := Inserted, next := s.next + 1)
    case SetValue => s.(values := s.values[TailEntry(s) := Some(if s.next > 0 then s.next - 1 else 0)], producer := Ready)
    case Publish => s.(published := s.next)
    case GiveUp => s.(producer := Unwinding)
    case ClearValue => s.(values := s.values[TailEntry(s) := None])
    case Rewind =>
      WithTail(s, Prev(Current(s))).(next := s.next - 1, producer := if s.next - 1 == s.published then Ready else Unwinding)
    case NewHeader =>
      s.(headers := s.headers + [Doubled(Current(s), |s.keys|)],
         keys := s.keys + seq(Current(s).capacity, _ => INVALID),
         values := s.values + seq(Current(s).capacity, _ => None))
    case Claim(t, k, last) => SetConsumer(s, t, LoadHeader(k, last))
    case Run(t) =>
      (match s.consumers[t]
       case LoadHeader(k, last) => SetConsumer(s, t, LoadTail(k, last, |s.headers| - 1))
       case LoadTail(k, last, h) => SetConsumer(s, t, LoadKey(k, last, h, s.headers[h].tail))
       case LoadKey(k, last, h, tail) => SetConsumer(s, t, Locate(k, last, h, tail, s.keys[s.headers[h].index[tail]]))
       case Locate(k, last, h, tail, tailBase) =>
         SetConsumer(s, t, Found(k, last, h, IndexIndex(s.size, s.headers[h], tail, Key(s.size, k), tailBase))))
    case Leave(t) => SetConsumer(s, t, WalkOn(s, s.consumers[t]))
    case Free(t) =>
      SetConsumer(s, t, WalkOn(s, s.consumers[t])).(
        values := s.values[FoundEntry(s, s.consumers[t]) := None], freed := s.freed + {s.consumers[t].k})
  }

  /** To the next held block, at the next position of the same header. */
  function WalkOn(s: State, c: Consumer): Consumer
    requires c.Found? && SnapshotOk(s, c)
  {
    if c.k < c.last then Found(c.k + 1, c.last, c.h, (c.pos + 1) % s.headers[c.h].capacity) else Idle
  }

  ghost predicate Step(s: State, s': State) {
    exists a :: Enabled(s, a) && s' == Next(s, a)
  }

  ghost predicate IsRun(run: seq<State>) {
    && |run| > 0
    && Init(run[0])
    && forall i :: 0 <= i < |run| - 1 ==> Step(run[i], run[i + 1])
  }

  ghost predicate Reachable(s: State) {
    exists run :: IsRun(run) && run[|run| - 1] == s
  }

  // ---------- The arithmetic of a lookup ----------

  /** Read as a signed number, the difference of two keys is the byte distance of their blocks. */
  lemma SignedDistance(size: nat, k: int, t: int)
    requires -HALF < (k - t) * size < HALF
    ensures Signed(Key(size, k) - Key(size, t)) == (k - t) * size
  {
    var x, y, z := (k - t) * size, k * size, t * size;
    assert y - z == x;
    SignedIs(y, z);
  }

  lemma SignedIs(y: int, z: int)
    requires -HALF < y - z < HALF
    ensures Signed(y % WORD - z % WORD) == y - z
  {
    ModShift(y - z, WORD, z / WORD - y / WORD);
  }

  lemma QuotientExact(n: int, d: nat)
    requires d > 0
    ensures Quotient(n * d, d) == n
  {
    if n >= 0 {
      MulSign(n, d);
      DivUnique(n * d, d, n, 0);
    } else {
      MulSign(-n, d);
      assert -(n * d) == (-n) * d;
      DivUnique((-n) * d, d, -n, 0);
    }
  }

  lemma MulSign(n: int, d: nat)
    requires n >= 0
    ensures n * d >= 0
  {
  }

  /**
   The signed division on words recovers the block distance whenever it is below half the word range: also
   when an index wrapped between the two keys.
   */
  lemma DistanceRecovered(size: nat, k: int, t: int)
    requires size > 0 && -HALF < (k - t) * size < HALF
    ensures Quotient(Signed(Key(size, k) - Key(size, t)), size) == k - t
  {
    SignedDistance(size, k, t);
    QuotientExact(k - t, size);
  }

  lemma WithinHalf(n: int, cap: nat, size: nat)
    requires 0 <= cap + n && n <= 0 && cap * size < HALF
    ensures -HALF < n * size <= 0
  {
    assert n * size == -((-n) * size);
    assert cap * size == (-n) * size + (cap + n) * size;
    MulSign(-n, size);
    MulSign(cap + n, size);
  }

  /** No key is ever mistaken for the invalid one. */
  lemma {:induction false} KeyIsValid(size: nat, b: nat)
    requires size >= 2 && WORD % size == 0
    ensures Key(size, b) != INVALID
  {
    var q, m := (b * size) / WORD, WORD / size;
    assert WORD == m * size;
    assert b * size == q * WORD + Key(size, b);
    assert Key(size, b) == b * size - q * (m * size) == (b - q * m) * size;
    if Key(size, b) == 1 {
      if b - q * m >= 1 { MulAtLeast(b - q * m, size); }
    }
  }

  // ---------- The invariant ----------

  /**
   Entries still carry the keys of blocks lo <= b < |ent|, block b in entry ent[b].  A superseded header h
   stopped at block tops[h] with its tail at block tails[h]; shifts[h] turns blocks into positions of h.
   at[t] is the block consumer t's tail snapshot stands for.
   */
  datatype Ghost = Ghost(lo: nat, ent: seq<nat>, tops: seq<nat>, tails: seq<int>, shifts: seq<int>, at: seq<int>)

  function Pos(s: State, g: Ghost, h: nat, b: int): nat
    requires h < |s.headers| && h < |g.shifts| && s.headers[h].capacity > 0
  {
    (b + g.shifts[h]) % s.headers[h].capacity
  }

  /** One past the last block keyed while h was current. */
  function Top(s: State, g: Ghost, h: nat): nat
    requires h < |s.headers|
  {
    if h < |g.tops| then g.tops[h] else |g.ent|
  }

  /** The block at h's tail. */
  function TailBlock(s: State, g: Ghost, h: nat): int
    requires h < |s.headers|
  {
    if h < |g.tails| then g.tails[h] else s.next - 1
  }

  ghost predicate Window(s: State, g: Ghost)
    requires Sized(s)
  {
    && |g.tops| == |g.tails| == |s.headers| - 1 && |g.shifts| == |s.headers| && |g.at| == |s.consumers|
    && g.lo <= s.published <= s.next <= |g.ent|
    && |g.ent| - g.lo <= Current(s).capacity
    && (s.producer.KeyStored? ==> s.next < |g.ent|)
    && (s.producer.Inserted? || s.producer.Unwinding? ==> s.published < s.next)
    && (forall b :: g.lo <= b < |g.ent| ==> g.ent[b] < |s.keys|)
    && (forall b, b' :: g.lo <= b < b' < |g.ent| ==> g.ent[b] != g.ent[b'])
    && (forall k :: k in s.freed ==> k < s.published)
    && (forall k: nat :: k < g.lo ==> k in s.freed)
  }

  /** Header h still places every keyed block it knew at its own position. */
  ghost predicate Ring(s: State, g: Ghost, h: nat)
    requires Sized(s) && Window(s, g) && h < |s.headers|
  {
    var hd := s.headers[h];
    && hd.capacity * s.size < HALF
    && Top(s, g, h) <= |g.ent| && Top(s, g, h) <= g.lo + hd.capacity
    && -1 <= TailBlock(s, g, h) < Top(s, g, h)
    && hd.tail == Pos(s, g, h, TailBlock(s, g, h))
    && (forall i, j :: 0 <= i < j < hd.capacity ==> hd.index[i] != hd.index[j])
    && (forall b :: g.lo <= b < Top(s, g, h) ==> hd.index[Pos(s, g, h, b)] == g.ent[b])
  }

  ghost predicate Rings(s: State, g: Ghost)
    requires Sized(s) && Window(s, g)
  {
    forall h :: 0 <= h < |s.headers| ==> Ring(s, g, h)
  }

  ghost predicate KeysOk(s: State, g: Ghost)
    requires Sized(s) && Window(s, g)
  {
    forall b :: g.lo <= b < |g.ent| ==> s.keys[g.ent[b]] == Key(s.size, b)
  }

  /** Whether block b's pointer is stored. */
  ghost predicate ValueOk(s: State, b: nat, v: Option<nat>) {
    if b < s.published then v == if b in s.freed then None else Some(b)
    else if b >= s.next then v == None
    else if b < s.next - 1 then v == Some(b)
    else match s.producer
         case Ready => v == Some(b)
         case KeyStored => v == Some(b)
         case Inserted => v == None
         case Unwinding => v == None || v == Some(b)
  }

  ghost predicate ValuesOk(s: State, g: Ghost)
    requires Sized(s) && Window(s, g)
  {
    && (forall b :: g.lo <= b < |g.ent| ==> ValueOk(s, b, s.values[g.ent[b]]))
    && (forall e :: 0 <= e < |s.values| && s.values[e].Some? ==> exists b :: g.lo <= b < |g.ent| && g.ent[b] == e)
  }

  ghost predicate ConsumerOk(s: State, g: Ghost, t: nat)
    requires Sized(s) && Window(s, g) && t < |s.consumers|
  {
    var c := s.consumers[t];
    && (!c.Idle? ==> c.k <= c.last && forall j :: c.k <= j <= c.last ==> Live(s, j))
    && match c
       case LoadTail(_, last, h) => h < |s.headers| && last <= TailBlock(s, g, h)
       case LoadKey(_, last, h, tail) => h < |s.headers| && last <= g.at[t] < Top(s, g, h) && tail == Pos(s, g, h, g.at[t])
       case Locate(_, last, h, tail, tailBase) =>
         h < |s.headers| && last <= g.at[t] < Top(s, g, h) && tail == Pos(s, g, h, g.at[t]) && tailBase == Key(s.size, g.at[t])
       case Found(k, last, h, pos) => h < |s.headers| && last < Top(s, g, h) && pos == Pos(s, g, h, k)
       case _ => true
  }

  ghost predicate Inv(s: State, g: Ghost) {
    && Sized(s) && Window(s, g) && Rings(s, g) && KeysOk(s, g) && ValuesOk(s, g)
    && forall t :: 0 <= t < |s.consumers| ==> ConsumerOk(s, g, t)
  }

  // ---------- Positions ----------

  /** The entry the producer will use next sits at the position of block `next`. */
  lemma NextPosition(s: State, g: Ghost)
    requires Inv(s, g)
    ensures NewTail(Current(s)) == Pos(s, g, |s.headers| - 1, s.next)
    ensures Current(s).tail == Pos(s, g, |s.headers| - 1, s.next - 1)
  {
    var h := |s.headers| - 1;
    assert Ring(s, g, h);
    ModAbsorb(s.next - 1 + g.shifts[h], 1, Current(s).capacity);
  }

  lemma TailIsLastInserted(s: State, g: Ghost)
    requires Inv(s, g) && s.published < s.next
    ensures TailEntry(s) == g.ent[s.next - 1]
  {
    NextPosition(s, g);
    assert Ring(s, g, |s.headers| - 1);
  }

  // ---------- The producer's next entry ----------

  /** Fewer entries are keyed than the ring holds, or the ring is full of them. */
  ghost predicate Full(s: State, g: Ghost)
    requires Sized(s)
  {
    |g.ent| - g.lo == Current(s).capacity
  }

  /** Blocks at distinct positions of the current header have distinct entries. */
  lemma EntryElsewhere(s: State, g: Ghost, b: nat)
    requires Inv(s, g) && s.next == |g.ent| && g.lo <= b < |g.ent| && s.next < b + Current(s).capacity
    ensures g.ent[b] != NextEntry(s)
  {
    var h := |s.headers| - 1;
    assert Ring(s, g, h);
    NextPosition(s, g);
    RemaindersDiffer(b + g.shifts[h], s.next + g.shifts[h], Current(s).capacity);
  }

  /** A full ring's next entry is that of the oldest keyed block. */
  lemma FullMeetsOldest(s: State, g: Ghost)
    requires Inv(s, g) && s.next == |g.ent| && Full(s, g)
    ensures NextEntry(s) == g.ent[g.lo]
  {
    var h := |s.headers| - 1;
    assert Ring(s, g, h);
    NextPosition(s, g);
    ModPlus(g.lo + g.shifts[h], Current(s).capacity);
  }

  /** A block keyed before and rewound gets its entry back. */
  lemma RewoundEntry(s: State, g: Ghost)
    requires Inv(s, g) && s.next < |g.ent|
    ensures NextEntry(s) == g.ent[s.next]
  {
    NextPosition(s, g);
    assert Ring(s, g, |s.headers| - 1);
  }

  /** An entry found usable belongs to no block that is still keyed, except to one that is freed and oldest. */
  lemma NextIsFree(s: State, g: Ghost)
    requires Inv(s, g) && s.producer.Ready? && Usable(s, NextEntry(s)) && s.next == |g.ent|
    ensures s.values[NextEntry(s)] == None
    ensures Full(s, g) ==> g.lo in s.freed
    ensures forall b :: (if Full(s, g) then g.lo + 1 else g.lo) <= b < |g.ent| ==> g.ent[b] != NextEntry(s)
  {
    var lo := if Full(s, g) then g.lo + 1 else g.lo;
    forall b | lo <= b < |g.ent| ensures g.ent[b] != NextEntry(s) {
      EntryElsewhere(s, g, b);
    }
    if Full(s, g) {
      FullMeetsOldest(s, g);
      KeyIsValid(s.size, g.lo);
    }
  }

  /** The index is doubled only when every entry of the ring is in use by an inserted block. */
  lemma NoRoomMeansFull(s: State, g: Ghost)
    requires Inv(s, g) && s.producer.Ready? && !Usable(s, NextEntry(s))
    ensures s.next == |g.ent| && Full(s, g)
  {
    var e := NextEntry(s);
    if s.next < |g.ent| {
      RewoundEntry(s, g);
    } else if !Full(s, g) {
      forall b | g.lo <= b < |g.ent| ensures g.ent[b] != e {
        EntryElsewhere(s, g, b);
      }
    }
  }

  // ---------- Every step keeps the invariant ----------

  function Follow(s: State, g: Ghost, a: Action): Ghost
    requires |s.headers| > 0 && Current(s).capacity > 0 && |Current(s).index| == Current(s).capacity
    requires a.Run? ==> a.t < |s.consumers| && |g.at| == |s.consumers|
    requires a.Run? && s.consumers[a.t].LoadTail? ==> s.consumers[a.t].h < |s.headers|
  {
    match a
    case StoreKey =>
      if s.next < |g.ent| then g
      else g.(lo := if |g.ent| - g.lo == Current(s).capacity then g.lo + 1 else g.lo, ent := g.ent + [NextEntry(s)])
    case NewHeader =>
      g.(tops := g.tops + [|g.ent|], tails := g.tails + [s.next - 1], shifts := g.shifts + [Current(s).capacity - s.next])
    case Run(t) =>
      if s.consumers[t].LoadTail? then g.(at := g.at[t := TailBlock(s, g, s.consumers[t].h)]) else g
    case _ => g
  }

  /** What a producer step leaves to the consumers: their headers, positions and blocks. */
  ghost predicate Serves(s: State, g: Ghost, s': State, g': Ghost)
    requires Sized(s) && Window(s, g) && Sized(s') && Window(s', g')
  {
    && s'.consumers == s.consumers && g'.at == g.at && s'.size == s.size
    && s'.published >= s.published && s'.freed == s.freed
    && |s.headers| <= |s'.headers|
    && forall h :: 0 <= h < |s.headers| ==>
         && s'.headers[h].capacity == s.headers[h].capacity && g'.shifts[h] == g.shifts[h]
         && Top(s', g', h) >= Top(s, g, h)
         && (TailBlock(s', g', h) >= TailBlock(s, g, h) || TailBlock(s', g', h) >= s.published - 1)
  }

  lemma ConsumersServed(s: State, g: Ghost, s': State, g': Ghost, t: nat)
    requires Sized(s) && Window(s, g) && Sized(s') && Window(s', g') && Serves(s, g, s', g')
    requires t < |s.consumers| && ConsumerOk(s, g, t)
    ensures ConsumerOk(s', g', t)
  {
    var c := s.consumers[t];
    if !c.Idle? {
      forall j | c.k <= j <= c.last ensures Live(s', j) {
        assert Live(s, j);
      }
      assert Live(s, c.last);
    }
  }

  lemma StoreKeyInv(s: State, g: Ghost)
    requires Inv(s, g) && Enabled(s, StoreKey)
    ensures Inv(Next(s, StoreKey), Follow(s, g, StoreKey))
  {
    var s', g' := Next(s, StoreKey), Follow(s, g, StoreKey);
    StoreKeyWindow(s, g);
    StoreKeyRings(s, g);
    StoreKeyValues(s, g);
    forall t | 0 <= t < |s.consumers| ensures ConsumerOk(s', g', t) {
      ConsumersServed(s, g, s', g', t);
    }
  }

  lemma StoreKeyWindow(s: State, g: Ghost)
    requires Inv(s, g) && Enabled(s, StoreKey)
    ensures Sized(Next(s, StoreKey)) && Window(Next(s, StoreKey), Follow(s, g, StoreKey))
    ensures KeysOk(Next(s, StoreKey), Follow(s, g, StoreKey))
  {
    var s', g' := Next(s, StoreKey), Follow(s, g, StoreKey);
    if s.next < |g.ent| {
      RewoundEntry(s, g);
      assert s'.keys == s.keys;
    } else {
      NextIsFree(s, g);
    }
  }

  lemma StoreKeyRings(s: State, g: Ghost)
    requires Inv(s, g) && Enabled(s, StoreKey)
    requires Sized(Next(s, StoreKey)) && Window(Next(s, StoreKey), Follow(s, g, StoreKey))
    ensures Rings(Next(s, StoreKey), Follow(s, g, StoreKey))
  {
    var s', g' := Next(s, StoreKey), Follow(s, g, StoreKey);
    NextPosition(s, g);
    forall h | 0 <= h < |s.headers| ensures Ring(s', g', h) {
      StoreKeyRing(s, g, s', g', h);
    }
  }

  lemma StoreKeyRing(s: State, g: Ghost, s': State, g': Ghost, h: nat)
    requires Sized(s) && Window(s, g) && Sized(s') && Window(s', g') && h < |s.headers| && Ring(s, g, h)
    requires s'.headers == s.headers && s'.size == s.size && s'.next == s.next
    requires g' == g.(lo := g'.lo, ent := g'.ent) && g'.lo >= g.lo
    requires g'.ent == g.ent || (g'.ent == g.ent + [NextEntry(s)] && s.next == |g.ent|)
    requires NewTail(Current(s)) == Pos(s, g, |s.headers| - 1, s.next)
    ensures Ring(s', g', h)
  {
    forall b | g'.lo <= b < Top(s', g', h) ensures s.headers[h].index[Pos(s', g', h, b)] == g'.ent[b] {
      if b < |g.ent| { assert s.headers[h].index[Pos(s, g, h, b)] == g.ent[b]; }
    }
  }

  lemma StoreKeyValues(s: State, g: Ghost)
    requires Inv(s, g) && Enabled(s, StoreKey)
    requires Sized(Next(s, StoreKey)) && Window(Next(s, StoreKey), Follow(s, g, StoreKey))
    ensures ValuesOk(Next(s, StoreKey), Follow(s, g, StoreKey))
  {
    var s', g' := Next(s, StoreKey), Follow(s, g, StoreKey);
    if s.next == |g.ent| {
      NextIsFree(s, g);
      if Full(s, g) { FullMeetsOldest(s, g); }
    }
    forall b | g'.lo <= b < |g'.ent| ensures ValueOk(s', b, s'.values[g'.ent[b]]) {
      if b < |g.ent| { assert ValueOk(s, b, s.values[g.ent[b]]); }
    }
    forall e | 0 <= e < |s'.values| && s'.values[e].Some? ensures exists b :: g'.lo <= b < |g'.ent| && g'.ent[b] == e {
      var b :| g.lo <= b < |g.ent| && g.ent[b] == e;
      assert g'.ent[b] == e;
    }
  }

  /** StoreTail, SetValue, Publish, GiveUp, ClearValue and Rewind leave the ghost witness alone. */
  ghost predicate KeepsGhost(a: Action) {
    a.StoreTail? || a.SetValue? || a.Publish? || a.GiveUp? || a.ClearValue? || a.Rewind?
  }

  lemma ProducerWindow(s: State, g: Ghost, a: Action)
    requires Inv(s, g) && KeepsGhost(a) && Enabled(s, a)
    ensures Sized(Next(s, a)) && Window(Next(s, a), g) && KeysOk(Next(s, a), g)
  {
    var s' := Next(s, a);
    forall h | 0 <= h < |s.headers| ensures HeaderOk(s'.headers[h], |s'.keys|) {
      assert HeaderOk(s.headers[h], |s.keys|);
    }
  }

  /** The tail moves by one position as the number of inserted blocks moves by one. */
  lemma TailFollows(s: State, g: Ghost, a: Action)
    requires Inv(s, g) && KeepsGhost(a) && Enabled(s, a)
    requires Sized(Next(s, a)) && Window(Next(s, a), g)
    ensures Current(Next(s, a)).tail == Pos(s, g, |s.headers| - 1, Next(s, a).next - 1)
  {
    NextPosition(s, g);
    if a.Rewind? {
      var x, cap := s.next - 1 + g.shifts[|s.headers| - 1], Current(s).capacity;
      ModAbsorb(x, cap - 1, cap);
      ModPlus(x - 1, cap);
    }
  }

  lemma ProducerRings(s: State, g: Ghost, a: Action)
    requires Inv(s, g) && KeepsGhost(a) && Enabled(s, a)
    requires Sized(Next(s, a)) && Window(Next(s, a), g)
    ensures Rings(Next(s, a), g)
  {
    var s' := Next(s, a);
    TailFollows(s, g, a);
    forall h | 0 <= h < |s.headers| ensures Ring(s', g, h) {
      assert Ring(s, g, h);
    }
  }

  lemma ProducerValues(s: State, g: Ghost, a: Action)
    requires Inv(s, g) && KeepsGhost(a) && Enabled(s, a)
    requires Sized(Next(s, a)) && Window(Next(s, a), g)
    ensures ValuesOk(Next(s, a), g)
  {
    var s' := Next(s, a);
    if s.published < s.next { TailIsLastInserted(s, g); }
    forall b | g.lo <= b < |g.ent| ensures ValueOk(s', b, s'.values[g.ent[b]]) {
      assert ValueOk(s, b, s.values[g.ent[b]]);
    }
  }

  lemma ProducerInv(s: State, g: Ghost, a: Action)
    requires Inv(s, g) && KeepsGhost(a) && Enabled(s, a)
    ensures Inv(Next(s, a), g)
  {
    ProducerWindow(s, g, a);
    ProducerRings(s, g, a);
    ProducerValues(s, g, a);
    forall t | 0 <= t < |s.consumers| ensures ConsumerOk(Next(s, a), g, t) {
      ConsumersServed(s, g, Next(s, a), g, t);
    }
  }

  lemma DoubledOk(h: Header, entries: nat)
    requires HeaderOk(h, entries)
    requires forall i, j :: 0 <= i < j < h.capacity ==> h.index[i] != h.index[j]
    ensures HeaderOk(Doubled(h, entries), entries + h.capacity)
    ensures var d := Doubled(h, entries); forall i, j :: 0 <= i < j < d.capacity ==> d.index[i] != d.index[j]
  {
    var d := Doubled(h, entries);
    forall i, j | 0 <= i < j < d.capacity ensures d.index[i] != d.index[j] {
      if j < h.capacity {
        RemaindersDiffer(h.tail + 1 + i, h.tail + 1 + j, h.capacity);
      }
    }
  }

  /** Re-based at the old tail, a block at offset `back` behind it keeps its entry. */
  lemma DoubledPlace(h: Header, entries: nat, shift: int, next: int, b: int)
    requires HeaderOk(h, entries) && h.tail == (next - 1 + shift) % h.capacity
    requires next - h.capacity <= b < next
    ensures (b + h.capacity - next) % (2 * h.capacity) == b + h.capacity - next
    ensures Doubled(h, entries).index[b + h.capacity - next] == h.index[(b + shift) % h.capacity]
  {
    var i := b + h.capacity - next;
    DivUnique(i, 2 * h.capacity, 0, i);
    ModAbsorb(next - 1 + shift, 1 + i, h.capacity);
    ModPlus(b + shift, h.capacity);
    assert next - 1 + shift + 1 + i == b + shift + h.capacity;
  }

  lemma NewHeaderShape(s: State, g: Ghost)
    requires Inv(s, g) && Enabled(s, NewHeader)
    ensures s.next == |g.ent| && Full(s, g)
    ensures Sized(Next(s, NewHeader)) && Window(Next(s, NewHeader), Follow(s, g, NewHeader))
  {
    NoRoomMeansFull(s, g);
    var last := |s.headers| - 1;
    assert Ring(s, g, last);
    DoubledOk(Current(s), |s.keys|);
    var s' := Next(s, NewHeader);
    forall h | 0 <= h < |s'.headers| ensures HeaderOk(s'.headers[h], |s'.keys|) {
      if h <= last { assert HeaderOk(s.headers[h], |s.keys|); }
    }
  }

  lemma NewHeaderRings(s: State, g: Ghost)
    requires Inv(s, g) && Enabled(s, NewHeader)
    requires Sized(Next(s, NewHeader)) && Window(Next(s, NewHeader), Follow(s, g, NewHeader))
    ensures Rings(Next(s, NewHeader), Follow(s, g, NewHeader))
  {
    var s', g' := Next(s, NewHeader), Follow(s, g, NewHeader);
    forall h | 0 <= h < |s'.headers| ensures Ring(s', g', h) {
      if h < |s.headers| { OldRing(s, g, h); } else { DoubledRing(s, g); }
    }
  }

  lemma OldRing(s: State, g: Ghost, h: nat)
    requires Inv(s, g) && Enabled(s, NewHeader) && h < |s.headers|
    requires Sized(Next(s, NewHeader)) && Window(Next(s, NewHeader), Follow(s, g, NewHeader))
    ensures Ring(Next(s, NewHeader), Follow(s, g, NewHeader), h)
  {
    assert Ring(s, g, h);
  }

  lemma DoubledFits(h: Header, entries: nat, shift: int, lo: nat, ent: seq<nat>)
    requires HeaderOk(h, entries) && h.tail == (|ent| - 1 + shift) % h.capacity
    requires lo <= |ent| == lo + h.capacity
    requires forall b :: lo <= b < |ent| ==> h.index[(b + shift) % h.capacity] == ent[b]
    ensures var d, shift' := Doubled(h, entries), h.capacity - |ent|;
            && d.tail == (|ent| - 1 + shift') % d.capacity
            && forall b :: lo <= b < |ent| ==> d.index[(b + shift') % d.capacity] == ent[b]
  {
    var d, shift' := Doubled(h, entries), h.capacity - |ent|;
    DoubledPlace(h, entries, shift, |ent|, |ent| - 1);
    forall b | lo <= b < |ent| ensures d.index[(b + shift') % d.capacity] == ent[b] {
      DoubledPlace(h, entries, shift, |ent|, b);
      assert b + shift' == b + h.capacity - |ent|;
    }
  }

  lemma DoubledRing(s: State, g: Ghost)
    requires Inv(s, g) && Enabled(s, NewHeader)
    requires Sized(Next(s, NewHeader)) && Window(Next(s, NewHeader), Follow(s, g, NewHeader))
    ensures Ring(Next(s, NewHeader), Follow(s, g, NewHeader), |s.headers|)
  {
    var s', g', last := Next(s, NewHeader), Follow(s, g, NewHeader), |s.headers| - 1;
    var hd := Current(s);
    assert s.next == |g.ent| && |g.ent| - g.lo == hd.capacity by { NewHeaderShape(s, g); }
    assert hd.tail == (s.next - 1 + g.shifts[last]) % hd.capacity by { NextPosition(s, g); }
    CurrentRing(s, g);
    DoubledIsRing(s', g', hd, |s.keys|, g.shifts[last]);
  }

  lemma CurrentRing(s: State, g: Ghost)
    requires Sized(s) && Window(s, g) && Rings(s, g)
    ensures var hd, last := Current(s), |s.headers| - 1;
            && HeaderOk(hd, |s.keys|)
            && (forall i, j :: 0 <= i < j < hd.capacity ==> hd.index[i] != hd.index[j])
            && (forall b :: g.lo <= b < |g.ent| ==> hd.index[(b + g.shifts[last]) % hd.capacity] == g.ent[b])
  {
    var last := |s.headers| - 1;
    assert Ring(s, g, last);
    assert forall b :: g.lo <= b < |g.ent| ==> Current(s).index[Pos(s, g, last, b)] == g.ent[b];
  }

  lemma DoubledIsRing(s': State, g': Ghost, hd: Header, entries: nat, shift: int)
    requires Sized(s') && Window(s', g')
    requires HeaderOk(hd, entries) && Current(s') == Doubled(hd, entries)
    requires g'.shifts[|s'.headers| - 1] == hd.capacity - |g'.ent|
    requires s'.next == |g'.ent| == g'.lo + hd.capacity && hd.tail == (s'.next - 1 + shift) % hd.capacity
    requires 2 * hd.capacity * s'.size < HALF
    requires forall i, j :: 0 <= i < j < hd.capacity ==> hd.index[i] != hd.index[j]
    requires forall b :: g'.lo <= b < |g'.ent| ==> hd.index[(b + shift) % hd.capacity] == g'.ent[b]
    ensures Ring(s', g', |s'.headers| - 1)
  {
    DoubledOk(hd, entries);
    DoubledFits(hd, entries, shift, g'.lo, g'.ent);
  }

  lemma NewHeaderInv(s: State, g: Ghost)
    requires Inv(s, g) && Enabled(s, NewHeader)
    ensures Inv(Next(s, NewHeader), Follow(s, g, NewHeader))
  {
    var s', g' := Next(s, NewHeader), Follow(s, g, NewHeader);
    NewHeaderShape(s, g);
    NewHeaderRings(s, g);
    forall b | g.lo <= b < |g.ent| ensures ValueOk(s', b, s'.values[g'.ent[b]]) {
      assert ValueOk(s, b, s.values[g.ent[b]]);
    }
    forall t | 0 <= t < |s.consumers| ensures ConsumerOk(s', g', t) {
      ConsumersServed(s, g, s', g', t);
    }
  }

  /** From its snapshot, a consumer's arithmetic lands on the position of the block it looks up. */
  lemma LookupLands(s: State, g: Ghost, t: nat)
    requires Inv(s, g) && t < |s.consumers| && s.consumers[t].Locate?
    ensures SnapshotOk(s, s.consumers[t])
    ensures var c := s.consumers[t];
            IndexIndex(s.size, s.headers[c.h], c.tail, Key(s.size, c.k), c.tailBase) == Pos(s, g, c.h, c.k)
  {
    var c := s.consumers[t];
    assert ConsumerOk(s, g, t) && Ring(s, g, c.h) && Live(s, c.k);
    LandsOn(s.size, s.headers[c.h], g.shifts[c.h], c.k, g.at[t], c.tail, c.tailBase);
  }

  lemma LandsOn(size: nat, h: Header, shift: int, k: nat, b: int, tail: nat, tailBase: int)
    requires size > 0 && h.capacity > 0 && h.capacity * size < HALF && k <= b < k + h.capacity
    requires tail == (b + shift) % h.capacity && tailBase == Key(size, b)
    ensures IndexIndex(size, h, tail, Key(size, k), tailBase) == (k + shift) % h.capacity
  {
    WithinHalf(k - b, h.capacity, size);
    DistanceRecovered(size, k, b);
    ModAbsorb(b + shift, k - b, h.capacity);
    assert b + shift + (k - b) == k + shift;
  }

  /** What a step does to the consumers alone leaves the index as it was. */
  lemma IndexUntouched(s: State, g: Ghost, consumers: seq<Consumer>, at: seq<int>)
    requires Sized(s) && Window(s, g) && |at| == |consumers|
    ensures var s', g' := s.(consumers := consumers), g.(at := at);
            && Sized(s') && Window(s', g')
            && (Rings(s, g) ==> Rings(s', g'))
            && (KeysOk(s, g) ==> KeysOk(s', g'))
            && (ValuesOk(s, g) ==> ValuesOk(s', g'))
  {
    var s', g' := s.(consumers := consumers), g.(at := at);
    assert Current(s') == Current(s);
    assert Sized(s') && Window(s', g');
    if Rings(s, g) {
      forall h | 0 <= h < |s.headers| ensures Ring(s', g', h) {
        assert Ring(s, g, h);
      }
    }
    if ValuesOk(s, g) {
      forall b | g.lo <= b < |g.ent| ensures ValueOk(s', b, s'.values[g.ent[b]]) {
        assert ValueOk(s, b, s.values[g.ent[b]]);
      }
    }
  }

  lemma ConsumerShape(s: State, g: Ghost, a: Action)
    requires Sized(s) && |g.at| == |s.consumers| && (a.Claim? || a.Run? || a.Leave?) && Enabled(s, a)
    ensures var s', g' := Next(s, a), Follow(s, g, a);
            s' == s.(consumers := s'.consumers) && g' == g.(at := g'.at) && |s'.consumers| == |g'.at| == |s.consumers|
  {
  }

  lemma ConsumerKeepsIndex(s: State, g: Ghost, a: Action)
    requires Sized(s) && Window(s, g) && Rings(s, g) && KeysOk(s, g) && ValuesOk(s, g)
    requires (a.Claim? || a.Run? || a.Leave?) && Enabled(s, a)
    ensures Sized(Next(s, a)) && Window(Next(s, a), Follow(s, g, a))
    ensures Rings(Next(s, a), Follow(s, g, a)) && KeysOk(Next(s, a), Follow(s, g, a)) && ValuesOk(Next(s, a), Follow(s, g, a))
  {
    ConsumerShape(s, g, a);
    IndexUntouched(s, g, Next(s, a).consumers, Follow(s, g, a).at);
  }

  lemma ConsumerInv(s: State, g: Ghost, a: Action)
    requires Inv(s, g) && (a.Claim? || a.Run? || a.Leave?) && Enabled(s, a)
    ensures Inv(Next(s, a), Follow(s, g, a))
  {
    var s', g' := Next(s, a), Follow(s, g, a);
    ConsumerKeepsIndex(s, g, a);
    forall t | 0 <= t < |s.consumers| ensures ConsumerOk(s', g', t) {
      if t == a.t { ConsumerMoves(s, g, a); } else { OthersStay(s, g, a, t); }
    }
  }

  lemma OthersStay(s: State, g: Ghost, a: Action, t: nat)
    requires Inv(s, g) && (a.Claim? || a.Run? || a.Leave?) && Enabled(s, a)
    requires Sized(Next(s, a)) && Window(Next(s, a), Follow(s, g, a)) && t < |s.consumers| && t != a.t
    ensures ConsumerOk(Next(s, a), Follow(s, g, a), t)
  {
    var s', g', c := Next(s, a), Follow(s, g, a), s.consumers[t];
    assert ConsumerOk(s, g, t);
    if !c.Idle? {
      forall j | c.k <= j <= c.last ensures Live(s', j) {
        assert Live(s, j);
      }
    }
  }

  lemma HeldStayLive(s: State, g: Ghost, a: Action)
    requires Inv(s, g) && (a.Claim? || a.Run? || a.Leave?) && Enabled(s, a)
    ensures var c, s' := s.consumers[a.t], Next(s, a);
            forall j :: (if a.Claim? then a.k else c.k) <= j <= (if a.Claim? then a.last else c.last) && Live(s, j) ==> Live(s', j)
  {
  }

  lemma ConsumerMoves(s: State, g: Ghost, a: Action)
    requires Inv(s, g) && (a.Claim? || a.Run? || a.Leave?) && Enabled(s, a)
    requires Sized(Next(s, a)) && Window(Next(s, a), Follow(s, g, a))
    ensures ConsumerOk(Next(s, a), Follow(s, g, a), a.t)
  {
    var c := s.consumers[a.t];
    assert ConsumerOk(s, g, a.t);
    HeldStayLive(s, g, a);
    assert Live(s, if a.Claim? then a.last else c.last);
    if c.Locate? {
      LookupLands(s, g, a.t);
    } else if c.Found? {
      ModAbsorb(c.k + g.shifts[c.h], 1, s.headers[c.h].capacity);
    }
    if c.LoadKey? || c.LoadTail? || c.Locate? { assert Ring(s, g, c.h); }
  }

  /** A finished lookup leads to the entry of its own block. */
  lemma FoundIsOwn(s: State, g: Ghost, t: nat)
    requires Inv(s, g) && t < |s.consumers| && s.consumers[t].Found?
    ensures SnapshotOk(s, s.consumers[t])
    ensures g.lo <= s.consumers[t].k < |g.ent| && FoundEntry(s, s.consumers[t]) == g.ent[s.consumers[t].k]
  {
    var c := s.consumers[t];
    assert ConsumerOk(s, g, t) && Ring(s, g, c.h) && Live(s, c.k);
  }

  lemma FreeInv(s: State, g: Ghost, t: nat)
    requires Inv(s, g) && Enabled(s, Free(t))
    ensures Inv(Next(s, Free(t)), g)
  {
    var s', c := Next(s, Free(t)), s.consumers[t];
    FoundIsOwn(s, g, t);
    assert ConsumerOk(s, g, t) && Live(s, c.k);
    forall h | 0 <= h < |s.headers| ensures Ring(s', g, h) {
      assert Ring(s, g, h);
    }
    forall b | g.lo <= b < |g.ent| ensures ValueOk(s', b, s'.values[g.ent[b]]) {
      assert ValueOk(s, b, s.values[g.ent[b]]);
    }
    forall u | 0 <= u < |s.consumers| ensures ConsumerOk(s', g, u) {
      FreeConsumers(s, g, t, u);
    }
  }

  /** The freed block is held by nobody else, so every other consumer's blocks stay live. */
  lemma FreeConsumers(s: State, g: Ghost, t: nat, u: nat)
    requires Inv(s, g) && Enabled(s, Free(t)) && u < |s.consumers|
    requires Sized(Next(s, Free(t))) && Window(Next(s, Free(t)), g)
    ensures ConsumerOk(Next(s, Free(t)), g, u)
  {
    var s', c, d := Next(s, Free(t)), s.consumers[t], s.consumers[u];
    assert ConsumerOk(s, g, u);
    if u == t {
      ModAbsorb(c.k + g.shifts[c.h], 1, s.headers[c.h].capacity);
      forall j | c.k + 1 <= j <= c.last ensures Live(s', j) {
        assert Live(s, j);
      }
    } else if !d.Idle? {
      assert !Holds(d, c.k);
      forall j | d.k <= j <= d.last ensures Live(s', j) {
        assert Live(s, j);
      }
    }
  }

  lemma StepInv(s: State, g: Ghost, a: Action)
    requires Inv(s, g) && Enabled(s, a)
    ensures Inv(Next(s, a), Follow(s, g, a))
  {
    match a
    case StoreKey => StoreKeyInv(s, g);
    case NewHeader => NewHeaderInv(s, g);
    case Claim(_, _, _) => ConsumerInv(s, g, a);
    case Run(_) => ConsumerInv(s, g, a);
    case Leave(_) => ConsumerInv(s, g, a);
    case Free(t) => FreeInv(s, g, t);
    case _ => ProducerInv(s, g, a);
  }

  lemma InitInv(s: State)
    requires Init(s)
    ensures Inv(s, Ghost(0, [], [], [], [0], seq(|s.consumers|, _ => 0)))
  {
    var g := Ghost(0, [], [], [], [0], seq(|s.consumers|, _ => 0));
    var cap := s.headers[0].capacity;
    assert Pos(s, g, 0, -1) == cap - 1 by {
      ModPlus(-1, cap);
      DivUnique(cap - 1, cap, 0, cap - 1);
    }
    assert Ring(s, g, 0);
  }

  lemma {:induction false} RunInv(run: seq<State>, s': State)
    requires IsRun(run) && s' == run[|run| - 1]
    ensures exists g :: Inv(s', g)
  {
    if |run| == 1 {
      InitInv(run[0]);
    } else {
      var s := run[|run| - 2];
      RunInv(run[..|run| - 1], s);
      assert Step(s, run[|run| - 2 + 1]);
      var g :| Inv(s, g);
      var a :| Enabled(s, a) && s' == Next(s, a);
      StepInv(s, g, a);
    }
  }

  // ---------- What the index promises ----------

  /**
   Whatever snapshot it took, however often the index was doubled, rewound or wrapped around meanwhile, a
   consumer that finished its lookup holds the entry keyed with its own block, and the block is there.
   */
  lemma LookupIsRight(s: State, t: nat)
    requires Reachable(s) && t < |s.consumers| && s.consumers[t].Found?
    ensures SnapshotOk(s, s.consumers[t])
    ensures var e := FoundEntry(s, s.consumers[t]);
            && e < |s.keys| == |s.values|
            && s.keys[e] == Key(s.size, s.consumers[t].k) && s.values[e] == Some(s.consumers[t].k)
  {
    var run :| IsRun(run) && run[|run| - 1] == s;
    RunInv(run, s);
    var g :| Inv(s, g);
    FoundIsOwn(s, g, t);
    var k := s.consumers[t].k;
    assert ConsumerOk(s, g, t) && Live(s, k) && ValueOk(s, k, s.values[g.ent[k]]);
  }

  /** A consumer is never stopped on the way: each place its next step reads exists. */
  lemma LookupNeverStuck(s: State, t: nat)
    requires Reachable(s) && t < |s.consumers| && !s.consumers[t].Idle? && !s.consumers[t].Found?
    ensures Enabled(s, Run(t))
  {
    var run :| IsRun(run) && run[|run| - 1] == s;
    RunInv(run, s);
    var g :| Inv(s, g);
    var c := s.consumers[t];
    assert ConsumerOk(s, g, t);
    if c.LoadKey? { assert Ring(s, g, c.h); }
  }

  /** After a doubling the retried insertion finds an entry never used before, as the source asserts. */
  lemma DoublingMakesRoom(s: State, s': State)
    requires Reachable(s) && Enabled(s, NewHeader) && s' == Next(s, NewHeader)
    ensures Sized(s') && NextEntry(s') < |s'.keys| && s'.keys[NextEntry(s')] == INVALID
  {
    var run :| IsRun(run) && run[|run| - 1] == s;
    RunInv(run, s);
    var g :| Inv(s, g);
    NewHeaderShape(s, g);
    DoubledNext(Current(s), |s.keys|);
    assert Current(s') == Doubled(Current(s), |s.keys|);
  }

  lemma DoubledNext(h: Header, entries: nat)
    requires HeaderOk(h, entries)
    ensures var d := Doubled(h, entries); NewTail(d) == h.capacity && d.index[h.capacity] == entries
  {
    DivUnique(h.capacity, 2 * h.capacity, 0, h.capacity);
  }

  /** An insertion finds room exactly when the block one whole ring earlier is freed, or was never there. */
  lemma RoomIffOldestFreed(s: State)
    requires Reachable(s) && s.producer.Ready?
    ensures Sized(s) && NextEntry(s) < |s.keys|
    ensures Usable(s, NextEntry(s)) <==> s.next < Current(s).capacity || s.next - Current(s).capacity in s.freed
  {
    var run :| IsRun(run) && run[|run| - 1] == s;
    RunInv(run, s);
    var g :| Inv(s, g);
    RoomIff(s, g);
  }

  lemma RoomIff(s: State, g: Ghost)
    requires Inv(s, g) && s.producer.Ready?
    ensures Usable(s, NextEntry(s)) <==> s.next < Current(s).capacity || s.next - Current(s).capacity in s.freed
  {
    if s.next == |g.ent| && Full(s, g) {
      FullMeetsOldest(s, g);
      KeyIsValid(s.size, g.lo);
      assert ValueOk(s, g.lo, s.values[g.ent[g.lo]]);
    } else if !Usable(s, NextEntry(s)) {
      NoRoomMeansFull(s, g);
    }
  }

  // ---------- Operations that run alone ----------

  /** The actions lead from s to s'. */
  ghost predicate Path(s: State, acts: seq<Action>, s': State)
    decreases |acts|
  {
    if acts == [] then s' == s else Enabled(s, acts[0]) && Path(Next(s, acts[0]), acts[1..], s')
  }

  lemma PathFirst(s: State, a: Action, acts: seq<Action>, s': State)
    requires Enabled(s, a) && Path(Next(s, a), acts, s')
    ensures Path(s, [a] + acts, s')
  {
    assert ([a] + acts)[1..] == acts;
  }

  lemma ReachableInv(s: State) returns (g: Ghost)
    requires Reachable(s)
    ensures Inv(s, g)
  {
    var run :| IsRun(run) && run[|run| - 1] == s;
    RunInv(run, s);
    g :| Inv(s, g);
  }

  lemma Extended(run: seq<State>, s': State)
    requires IsRun(run) && Step(run[|run| - 1], s')
    ensures Reachable(s')
  {
    var r := run + [s'];
    forall i | 0 <= i < |r| - 1 ensures Step(r[i], r[i + 1]) {
      if i < |run| - 1 { assert r[i] == run[i] && r[i + 1] == run[i + 1]; }
    }
    assert IsRun(r) && r[|r| - 1] == s';
  }

  lemma ReachableStep(s: State, a: Action) returns (s': State)
    requires Reachable(s) && Enabled(s, a)
    ensures s' == Next(s, a) && Reachable(s') && Sized(s')
  {
    s' := Next(s, a);
    var run :| IsRun(run) && run[|run| - 1] == s;
    Extended(run, s');
    var g := ReachableInv(s');
  }

  /** What the producer's actions do to its own counters. */
  ghost predicate Counters(s: State, a: Action, s': State) {
    && s'.freed == s.freed && s'.consumers == s.consumers && s'.size == s.size
    && match a
       case StoreKey => s'.producer.KeyStored? && s'.next == s.next && s'.published == s.published
       case StoreTail => s'.producer.Inserted? && s'.next == s.next + 1 && s'.published == s.published
       case SetValue => s'.producer.Ready? && s'.next == s.next && s'.published == s.published
       case Publish => s'.producer == s.producer && s'.next == s.next == s'.published
       case GiveUp => s'.producer.Unwinding? && s'.next == s.next && s'.published == s.published
       case ClearValue => s'.producer == s.producer && s'.next == s.next && s'.published == s.published
       case Rewind =>
         && s'.next == s.next - 1 && s'.published == s.published
         && (s'.producer.Ready? <==> s'.next == s'.published) && (!s'.producer.Ready? ==> s'.producer.Unwinding?)
       case NewHeader => s'.producer == s.producer && s'.next == s.next && s'.published == s.published
       case _ => false
  }

  predicate ProducerAction(a: Action) { !a.Claim? && !a.Run? && !a.Leave? && !a.Free? }

  lemma ProducerCounters(s: State, a: Action)
    requires Enabled(s, a) && ProducerAction(a)
    ensures Counters(s, a, Next(s, a))
  {
  }

  /** With room, an insertion that nobody interrupts adds the next block and shows it to the consumers. */
  lemma InsertPublishes(s: State) returns (acts: seq<Action>, s': State)
    requires Reachable(s) && Sized(s) && s.producer.Ready? && s.published == s.next
    requires s.next < Current(s).capacity || s.next - Current(s).capacity in s.freed
    ensures |acts| == 4 && Path(s, acts, s') && Reachable(s')
    ensures s'.producer.Ready? && s'.next == s'.published == s.next + 1 && s'.freed == s.freed && s'.consumers == s.consumers
    ensures Live(s', s.next)
  {
    RoomIffOldestFreed(s);
    NextIsNew(s);
    var s1 := ProducerMoves(s, StoreKey);
    acts, s' := InsertRest(s1);
    PathFirst(s, StoreKey, acts, s');
    acts := [StoreKey] + acts;
  }

  lemma InsertRest(s: State) returns (acts: seq<Action>, s': State)
    requires Reachable(s) && Sized(s) && s.producer.KeyStored?
    ensures |acts| == 3 && Path(s, acts, s') && Reachable(s')
    ensures s'.producer.Ready? && s'.next == s'.published == s.next + 1 && s'.freed == s.freed && s'.consumers == s.consumers
  {
    var s1 := ProducerMoves(s, StoreTail);
    acts, s' := PublishRest(s1);
    PathFirst(s, StoreTail, acts, s');
    acts := [StoreTail] + acts;
  }

  lemma PublishRest(s: State) returns (acts: seq<Action>, s': State)
    requires Reachable(s) && Sized(s) && s.producer.Inserted?
    ensures |acts| == 2 && Path(s, acts, s') && Reachable(s')
    ensures s'.producer.Ready? && s'.next == s'.published == s.next && s'.freed == s.freed && s'.consumers == s.consumers
  {
    var g := ReachableInv(s);
    var s1 := ProducerMoves(s, SetValue);
    s' := ProducerMoves(s1, Publish);
    acts := [];
    PathFirst(s1, Publish, acts, s');
    acts := [Publish] + acts;
    PathFirst(s, SetValue, acts, s');
    acts := [SetValue] + acts;
  }

  lemma NextIsNew(s: State)
    requires Reachable(s)
    ensures s.next !in s.freed
  {
    var g := ReachableInv(s);
  }

  lemma ProducerMoves(s: State, a: Action) returns (s': State)
    requires Reachable(s) && Enabled(s, a) && ProducerAction(a)
    ensures s' == Next(s, a) && Reachable(s') && Sized(s') && Counters(s, a, s')
  {
    s' := ReachableStep(s, a);
    ProducerCounters(s, a);
  }

  /** Without room, but below the size limit, a doubling makes room and the insertion then goes through. */
  lemma DoublingInserts(s: State) returns (acts: seq<Action>, s': State)
    requires Reachable(s) && Sized(s) && s.producer.Ready? && s.published == s.next
    requires !(s.next < Current(s).capacity || s.next - Current(s).capacity in s.freed) && 2 * Current(s).capacity * s.size < HALF
    ensures |acts| == 5 && Path(s, acts, s') && Reachable(s')
    ensures s'.producer.Ready? && s'.next == s'.published == s.next + 1 && s'.freed == s.freed && Live(s', s.next)
  {
    RoomIffOldestFreed(s);
    var s1 := ProducerMoves(s, NewHeader);
    DoublingMakesRoom(s, s1);
    RoomIffOldestFreed(s1);
    acts, s' := InsertPublishes(s1);
    PathFirst(s, NewHeader, acts, s');
    acts := [NewHeader] + acts;
  }

  lemma ClearsTail(s: State)
    requires Enabled(s, ClearValue) && Sized(Next(s, ClearValue))
    ensures var s' := Next(s, ClearValue); TailEntry(s') < |s'.values| && s'.values[TailEntry(s')].None?
  {
  }

  /** An insertion given up is unwound: what was inserted and not published is taken back, and nothing else. */
  lemma {:induction false} UnwindFinishes(s: State) returns (acts: seq<Action>, s': State)
    requires Reachable(s) && Sized(s) && s.producer.Unwinding? && s.published < s.next
    ensures Path(s, acts, s') && Reachable(s')
    ensures s'.producer.Ready? && s'.next == s'.published == s.published && s'.freed == s.freed && s'.consumers == s.consumers
    decreases s.next, s.values[TailEntry(s)].Some?
  {
    if s.values[TailEntry(s)].Some? {
      var s1 := ProducerMoves(s, ClearValue);
      ClearsTail(s);
      acts, s' := UnwindFinishes(s1);
      PathFirst(s, ClearValue, acts, s');
      acts := [ClearValue] + acts;
    } else {
      var s1 := ProducerMoves(s, Rewind);
      if s1.producer.Ready? {
        acts, s' := [], s1;
      } else {
        acts, s' := UnwindFinishes(s1);
      }
      PathFirst(s, Rewind, acts, s');
      acts := [Rewind] + acts;
    }
  }

  /** From the failed insertion on. */
  lemma GiveUpFinishes(s: State) returns (acts: seq<Action>, s': State)
    requires Reachable(s) && Sized(s) && (s.producer.Inserted? || s.producer.Ready?) && s.published < s.next
    ensures Path(s, acts, s') && Reachable(s')
    ensures s'.producer.Ready? && s'.next == s'.published == s.published && s'.freed == s.freed && s'.consumers == s.consumers
  {
    var s1 := ProducerMoves(s, GiveUp);
    acts, s' := UnwindFinishes(s1);
    PathFirst(s, GiveUp, acts, s');
    acts := [GiveUp] + acts;
  }

  /** What a consumer's own steps do to it. */
  lemma ConsumerGoesOn(s: State, t: nat)
    requires Enabled(s, Run(t))
    ensures var c, c' := s.consumers[t], Next(s, Run(t)).consumers[t];
            && !c'.Idle? && c'.k == c.k && c'.last == c.last
            && (c.LoadHeader? ==> c'.LoadTail?) && (c.LoadTail? ==> c'.LoadKey?) && (c.LoadKey? ==> c'.Locate?) && (c.Locate? ==> c'.Found?)
            && Next(s, Run(t)).freed == s.freed && Next(s, Run(t)).published == s.published
            && forall u :: 0 <= u < |s.consumers| && u != t ==> Next(s, Run(t)).consumers[u] == s.consumers[u]
  {
  }

  function LookupLeft(c: Consumer): nat {
    match c
    case LoadHeader(_, _) => 4
    case LoadTail(_, _, _) => 3
    case LoadKey(_, _, _, _) => 2
    case Locate(_, _, _, _, _) => 1
    case _ => 0
  }

  /** A consumer left alone finds the entry of its first block, within four steps. */
  lemma {:induction false} LookupFinishes(s: State, t: nat) returns (acts: seq<Action>, s': State)
    requires Reachable(s) && Sized(s) && t < |s.consumers| && !s.consumers[t].Idle?
    ensures |acts| == LookupLeft(s.consumers[t]) && Path(s, acts, s') && Reachable(s') && Sized(s')
    ensures s'.freed == s.freed && s'.published == s.published && |s'.consumers| == |s.consumers|
    ensures forall u :: 0 <= u < |s.consumers| && u != t ==> s'.consumers[u] == s.consumers[u]
    ensures var c := s'.consumers[t];
            && c.Found? && c.k == s.consumers[t].k && c.last == s.consumers[t].last && SnapshotOk(s', c)
            && FoundEntry(s', c) < |s'.values| && s'.values[FoundEntry(s', c)] == Some(c.k)
    decreases LookupLeft(s.consumers[t])
  {
    if s.consumers[t].Found? {
      acts, s' := [], s;
      LookupIsRight(s, t);
    } else {
      LookupNeverStuck(s, t);
      ConsumerGoesOn(s, t);
      var s1 := ReachableStep(s, Run(t));
      acts, s' := LookupFinishes(s1, t);
      PathFirst(s, Run(t), acts, s');
      acts := [Run(t)] + acts;
    }
  }

  /** A consumer that holds its blocks alone frees them one by one, each found at its own entry. */
  lemma {:induction false} ConsumeFinishes(s: State, t: nat) returns (acts: seq<Action>, s': State)
    requires Reachable(s) && Sized(s) && t < |s.consumers| && s.consumers[t].Found?
    requires forall u :: 0 <= u < |s.consumers| && u != t ==> s.consumers[u].Idle?
    ensures Path(s, acts, s') && Reachable(s') && t < |s'.consumers| && s'.consumers[t].Idle?
    ensures forall b: nat :: b in s'.freed <==> b in s.freed || s.consumers[t].k <= b <= s.consumers[t].last
    decreases s.consumers[t].last - s.consumers[t].k
  {
    var c := s.consumers[t];
    var s1 := FreesOne(s, t);
    if c.k < c.last {
      acts, s' := ConsumeFinishes(s1, t);
    } else {
      acts, s' := [], s1;
    }
    PathFirst(s, Free(t), acts, s');
    acts := [Free(t)] + acts;
  }

  lemma FreesOne(s: State, t: nat) returns (s': State)
    requires Reachable(s) && Sized(s) && t < |s.consumers| && s.consumers[t].Found?
    requires forall u :: 0 <= u < |s.consumers| && u != t ==> s.consumers[u].Idle?
    ensures Enabled(s, Free(t)) && s' == Next(s, Free(t)) && Reachable(s') && Sized(s')
    ensures s.consumers[t].k <= s.consumers[t].last && FreedOne(s, t, s')
  {
    LookupIsRight(s, t);
    HeldInOrder(s, t);
    s' := ReachableStep(s, Free(t));
    FreeGoesOn(s, t);
  }

  ghost predicate FreedOne(s: State, t: nat, s': State)
    requires t < |s.consumers| && s.consumers[t].Found?
  {
    var c := s.consumers[t];
    && s'.freed == s.freed + {c.k} && |s'.consumers| == |s.consumers|
    && (forall u :: 0 <= u < |s.consumers| && u != t ==> s'.consumers[u] == s.consumers[u])
    && (c.k < c.last ==> s'.consumers[t].Found? && s'.consumers[t].k == c.k + 1 && s'.consumers[t].last == c.last)
    && (c.k >= c.last ==> s'.consumers[t].Idle?)
  }

  lemma HeldInOrder(s: State, t: nat)
    requires Reachable(s) && t < |s.consumers| && !s.consumers[t].Idle?
    ensures s.consumers[t].k <= s.consumers[t].last
  {
    var g := ReachableInv(s);
    assert ConsumerOk(s, g, t);
  }

  lemma FreeGoesOn(s: State, t: nat)
    requires Enabled(s, Free(t))
    ensures FreedOne(s, t, Next(s, Free(t)))
  {
  }

  /** From claim to end: a consumer that works alone dequeues exactly the live blocks it claims. */
  lemma ClaimFinishes(s: State, t: nat, k: nat, last: nat) returns (acts: seq<Action>, s': State)
    requires Reachable(s) && Sized(s) && t < |s.consumers| && forall u :: 0 <= u < |s.consumers| ==> s.consumers[u].Idle?
    requires k <= last && forall j :: k <= j <= last ==> Live(s, j)
    ensures Path(s, acts, s') && Reachable(s') && t < |s'.consumers| && s'.consumers[t].Idle?
    ensures forall b: nat :: b in s'.freed <==> b in s.freed || k <= b <= last
  {
    var s1 := ReachableStep(s, Claim(t, k, last));
    var looks, s2 := LookupFinishes(s1, t);
    var frees;
    frees, s' := ConsumeFinishes(s2, t);
    PathJoin(s1, looks, s2, frees, s');
    PathFirst(s, Claim(t, k, last), looks + frees, s');
    acts := [Claim(t, k, last)] + (looks + frees);
  }

  lemma {:induction false} PathJoin(s: State, acts: seq<Action>, m: State, rest: seq<Action>, s': State)
    requires Path(s, acts, m) && Path(m, rest, s')
    ensures Path(s, acts + rest, s')
    decreases |acts|
  {
    if acts == [] {
      assert acts + rest == rest;
    } else {
      PathJoin(Next(s, acts[0]), acts[1..], m, rest, s');
      assert (acts + rest)[1..] == acts[1..] + rest;
    }
  }

  /** A consumer between dequeues may claim any live blocks, whatever the others are doing. */
  lemma ClaimAnytime(s: State, t: nat, k: nat, last: nat)
    requires Reachable(s) && t < |s.consumers| && s.consumers[t].Idle? && k <= last && forall j :: k <= j <= last ==> Live(s, j)
    ensures Enabled(s, Claim(t, k, last))
  {
    var g := ReachableInv(s);
  }

  /** Runs start with any number of consumers, any block size and any ring. */
  lemma Starts(size: nat, capacity: nat, threads: nat) returns (s: State)
    requires size >= 2 && WORD % size == 0 && capacity > 0 && capacity * size < HALF
    ensures Reachable(s) && s.size == size && |s.consumers| == threads && |s.headers| == 1 && s.headers[0].capacity == capacity
  {
    s := State(size, [Header(capacity, capacity - 1, seq(capacity, i => i))], seq(capacity, _ => INVALID),
               seq(capacity, _ => None), Ready, 0, 0, {}, seq(threads, _ => Idle));
    assert HeaderOk(s.headers[0], |s.keys|);
    assert IsRun([s]);
  }
}
