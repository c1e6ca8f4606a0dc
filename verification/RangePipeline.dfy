/**
 The double-pass range pipeline: a coordinator fills a few buffers with buckets, every visitor reads every
 bucket in step, and the last visitor of a bucket hands its buffer back, or keeps it for the second pass.

 Future f stands for bucket f % buckets of pass f / buckets.  `open` counts the releases of the visitors'
 barrier (its generation): a thread waits before bucket f until the barrier has been released f + 1 times.
 */
module RangePipeline {
  import opened Options
  import opened Sums

  type Buf = nat
  /** keep: KEEP_REUSE_BUFFER_NUM front buffers cached for pass two; recycle: the others. */
  datatype Config = Config(visitors: nat, buckets: nat, keep: nat, recycle: nat) {
    predicate Valid() {
      visitors >= 1 && recycle >= 1 && buckets > keep + recycle
    }
    function Buffers(): nat { keep + recycle }
    function Futures(): nat { 2 * buckets }
  }

  datatype Content = Junk | Full(bucket: nat)

  datatype Coordinator =
    | Take                   // pop a free buffer, or take a cached one
    | Filling(buf: Buf)      // inside ReadBucketToBuffer
    | Publishing(buf: Buf)   // promise.set_value

  datatype Visitor =
    | Before(f: nat)                 // not yet at the barrier before future f
    | Waiting(f: nat)                // called Wait
    | Fetching(f: nat)               // future.get, or the cached buffer
    | Visiting(f: nat, buf: Buf)
    | Counting(f: nat, buf: Buf)     // ++bucket_consumed_num_[f]
    | Recycling(f: nat, buf: Buf)    // this was the last visitor

  /** `pub` holds the values of the promises set so far, in order. */
  datatype State = State(free: seq<Buf>, content: seq<Content>, pub: seq<Buf>, cached: seq<Option<Buf>>,
                         consumed: seq<nat>, coord: Coordinator, open: nat, visitor: seq<Visitor>)

  datatype Action = Coord | Release | Visit(t: nat)

  // ---------- The program ----------

  ghost predicate Init(c: Config, s: State) {
    && c.Valid()
    && |s.free| == c.Buffers() && (forall i :: 0 <= i < |s.free| ==> s.free[i] == i)
    && |s.content| == c.Buffers() && (forall b :: 0 <= b < |s.content| ==> s.content[b] == Junk)
    && s.pub == [] && s.coord == Take && s.open == 0
    && |s.cached| == c.keep && (forall i :: 0 <= i < c.keep ==> s.cached[i] == None)
    && |s.consumed| == c.Futures() && (forall f :: 0 <= f < |s.consumed| ==> s.consumed[f] == 0)
    && |s.visitor| == c.visitors && (forall t :: 0 <= t < |s.visitor| ==> s.visitor[t] == Before(0))
  }

  /** The second-pass future of a cached bucket. */
  predicate FromCache(c: Config, f: nat) { c.buckets <= f < c.buckets + c.keep }

  predicate Enabled(c: Config, s: State, a: Action) {
    match a
    case Coord =>
      |s.pub| < c.Futures() && (s.coord.Take? && !FromCache(c, |s.pub|) ==> s.free != [])
    case Release =>
      && s.open < c.Futures()
      && forall t :: 0 <= t < |s.visitor| ==> s.visitor[t] == Waiting(s.open)
    case Visit(t) =>
      && t < |s.visitor|
      && match s.visitor[t]
         case Before(f) => f < c.Futures()
         case Waiting(f) => f < s.open
         case Fetching(f) => FromCache(c, f) || f < |s.pub|
         case _ => true
  }

  /** Shapes every reachable state has, so that a step never indexes outside a table. */
  predicate Defined(c: Config, s: State, a: Action) {
    && |s.cached| == c.keep && c.buckets > 0
    && match a
       case Coord =>
         (match s.coord
          case Take => FromCache(c, |s.pub|) ==> s.cached[|s.pub| - c.buckets].Some?
          case Filling(b) => b < |s.content|
          case Publishing(_) => true)
       case Release => true
       case Visit(t) =>
         t < |s.visitor| &&
         (match s.visitor[t]
          case Fetching(f) => FromCache(c, f) ==> s.cached[f - c.buckets].Some?
          case Counting(f, _) => f < |s.consumed|
          case _ => true)
  }

  function CoordNext(c: Config, s: State): State
    requires Enabled(c, s, Coord) && Defined(c, s, Coord)
  {
    match s.coord
    case Take =>
      if FromCache(c, |s.pub|) then s.(coord := Publishing(s.cached[|s.pub| - c.buckets].value))
      else s.(coord := Filling(s.free[0]), free := s.free[1..],
              content := if s.free[0] < |s.content| then s.content[s.free[0] := Junk] else s.content)
    case Filling(b) => s.(coord := Publishing(b), content := s.content[b := Full(|s.pub| % c.buckets)])
    case Publishing(b) => s.(coord := Take, pub := s.pub + [b])
  }

  function VisitNext(c: Config, s: State, t: nat): State
    requires Enabled(c, s, Visit(t)) && Defined(c, s, Visit(t))
  {
    match s.visitor[t]
    case Before(f) => s.(visitor := s.visitor[t := Waiting(f)])
    case Waiting(f) => s.(visitor := s.visitor[t := Fetching(f)])
    case Fetching(f) =>
      s.(visitor := s.visitor[t := Visiting(f, if FromCache(c, f) then s.cached[f - c.buckets].value else s.pub[f])])
    case Visiting(f, b) => s.(visitor := s.visitor[t := Counting(f, b)])
    case Counting(f, b) =>
      var order := s.consumed[f] + 1;
      s.(consumed := s.consumed[f := order],
         visitor := s.visitor[t := if order == c.visitors then Recycling(f, b) else Before(f + 1)])
    case Recycling(f, b) =>
      if f < c.keep then s.(cached := s.cached[f := Some(b)], visitor := s.visitor[t := Before(f + 1)])
      else s.(free := s.free + [b], visitor := s.visitor[t := Before(f + 1)])
  }

  function Next(c: Config, s: State, a: Action): State
    requires Enabled(c, s, a) && Defined(c, s, a)
  {
    match a
    case Coord => CoordNext(c, s)
    case Release => s.(open := s.open + 1)
    case Visit(t) => VisitNext(c, s, t)
  }

  ghost predicate Step(c: Config, s: State, s': State) {
    exists a :: Enabled(c, s, a) && Defined(c, s, a) && s' == Next(c, s, a)
  }

  ghost predicate IsRun(c: Config, run: seq<State>) {
    && |run| > 0
    && Init(c, run[0])
    && forall i :: 0 <= i < |run| - 1 ==> Step(c, run[i], run[i + 1])
  }

  ghost predicate Reachable(c: Config, s: State) {
    exists run :: IsRun(c, run) && run[|run| - 1] == s
  }

  // ---------- The invariant ----------

  /** Where a buffer is: exactly one of these. */
  datatype Place = InQueue | WithCoordinator | Published(f: nat) | Cached(i: nat)

  /** `recycled` futures have been read by all visitors and their buffers handed back. */
  datatype Ghost = Ghost(place: seq<Place>, recycled: nat)

  /** The visitor has counted itself for future f. */
  predicate Passed(v: Visitor, f: nat) { (v.Recycling? && v.f == f) || v.f > f }

  function Passes(vs: seq<Visitor>, f: nat): (r: seq<int>)
    ensures |r| == |vs| && forall t :: 0 <= t < |vs| ==> r[t] == if Passed(vs[t], f) then 1 else 0
  {
    seq(|vs|, t requires 0 <= t < |vs| => if Passed(vs[t], f) then 1 else 0)
  }

  ghost predicate Shape(c: Config, s: State, g: Ghost) {
    && c.Valid()
    && |s.content| == |g.place| == c.Buffers()
    && |s.cached| == c.keep && |s.consumed| == c.Futures() && |s.visitor| == c.visitors
    && |s.pub| <= c.Futures() && s.open <= c.Futures()
    && (g.recycled == s.open || g.recycled + 1 == s.open)
    && (g.recycled <= |s.pub| || (FromCache(c, |s.pub|) && g.recycled <= c.buckets + c.keep))
    && (forall i :: 0 <= i < c.keep && i < g.recycled ==> s.cached[i].Some?)
  }

  /** Visitors march in step: all are in the open stage or on their way to the next. */
  ghost predicate InStep(s: State, g: Ghost, v: Visitor) {
    match v
    case Before(f) => f == s.open
    case Waiting(f) => f == s.open || (f + 1 == s.open && g.recycled == f)
    case Fetching(f) => f + 1 == s.open && g.recycled == f
    case Visiting(f, _) => f + 1 == s.open && g.recycled == f
    case Counting(f, _) => f + 1 == s.open && g.recycled == f
    case Recycling(f, _) => f + 1 == s.open && g.recycled == f
  }

  ghost predicate March(c: Config, s: State, g: Ghost)
    requires Shape(c, s, g)
  {
    && (forall t :: 0 <= t < |s.visitor| ==> InStep(s, g, s.visitor[t]))
    && (forall t :: 0 <= t < |s.visitor| && s.visitor[t].Waiting? ==> s.visitor[t].f < c.Futures())
    && (forall f :: s.open <= f < c.Futures() ==> s.consumed[f] == 0)
    && (s.open > 0 ==> s.consumed[s.open - 1] == Sum(Passes(s.visitor, s.open - 1)))
    && (g.recycled < s.open ==> exists t :: 0 <= t < |s.visitor| && s.visitor[t].f == g.recycled)
    && (forall t, u :: 0 <= t < |s.visitor| && 0 <= u < |s.visitor| && s.visitor[t].Recycling? && u != t ==>
          s.visitor[u].f == s.open)
  }

  /** The buffer a visitor reads from is the one of its future. */
  ghost predicate ReadsRight(c: Config, s: State, v: Visitor) {
    (v.Visiting? || v.Counting? || v.Recycling?) ==>
      if FromCache(c, v.f) then v.f - c.buckets < |s.cached| && s.cached[v.f - c.buckets] == Some(v.buf)
      else v.f < |s.pub| && s.pub[v.f] == v.buf
  }

  ghost predicate Readers(c: Config, s: State) {
    forall t :: 0 <= t < |s.visitor| ==> ReadsRight(c, s, s.visitor[t])
  }

  /** Future f's buffer is out with the visitors (cached buckets of pass two are accounted to the cache). */
  predicate Live(c: Config, s: State, g: Ghost, f: nat) { g.recycled <= f < |s.pub| && !FromCache(c, f) }

  /** Cache slot i is set and its second-pass use is not over. */
  predicate Kept(c: Config, g: Ghost, i: nat) { i < c.keep && i < g.recycled <= c.buckets + i }

  ghost predicate Places(c: Config, s: State, g: Ghost)
    requires Shape(c, s, g)
  {
    && (forall i, j :: 0 <= i < j < |s.free| ==> s.free[i] != s.free[j])
    && (forall b: Buf :: b in s.free <==> b < |g.place| && g.place[b] == InQueue)
    && CoordPlace(c, s, g)
    && (forall f :: 0 <= f < |s.pub| && Live(c, s, g, f) ==> s.pub[f] < |g.place| && g.place[s.pub[f]] == Published(f))
    && (forall i :: 0 <= i < c.keep && Kept(c, g, i) ==>
          s.cached[i].Some? && s.cached[i].value < |g.place| && g.place[s.cached[i].value] == Cached(i))
    && (forall b :: 0 <= b < |g.place| ==> PlaceBacked(c, s, g, b))
  }

  ghost predicate CoordPlace(c: Config, s: State, g: Ghost)
    requires Shape(c, s, g)
  {
    match s.coord
    case Take => true
    case Filling(b) => |s.pub| < c.Futures() && !FromCache(c, |s.pub|) && b < |g.place| && g.place[b] == WithCoordinator
    case Publishing(b) =>
      if FromCache(c, |s.pub|) then s.cached[|s.pub| - c.buckets] == Some(b)
      else |s.pub| < c.Futures() && b < |g.place| && g.place[b] == WithCoordinator
  }

  ghost predicate PlaceBacked(c: Config, s: State, g: Ghost, b: nat)
    requires Shape(c, s, g) && b < |g.place|
  {
    match g.place[b]
    case InQueue => true
    case WithCoordinator => !s.coord.Take? && s.coord.buf == b && !FromCache(c, |s.pub|)
    case Published(f) => f < |s.pub| && Live(c, s, g, f) && s.pub[f] == b
    case Cached(i) => Kept(c, g, i) && s.cached[i] == Some(b)
  }

  /** Contents: published and cached buffers hold their buckets. */
  ghost predicate Contents(c: Config, s: State, g: Ghost)
    requires Shape(c, s, g)
  {
    forall b :: 0 <= b < |g.place| ==>
      match g.place[b]
      case InQueue => true
      case WithCoordinator => s.coord.Publishing? ==> s.content[b] == Full(|s.pub| % c.buckets)
      case Published(f) => s.content[b] == Full(f % c.buckets)
      case Cached(i) => s.content[b] == Full(i)
  }

  ghost predicate Inv(c: Config, s: State, g: Ghost) {
    && Shape(c, s, g) && March(c, s, g) && Readers(c, s) && Places(c, s, g) && Contents(c, s, g)
    && FrontReady(c, s, g)
  }

  /** The coordinator reaches the cached futures only after the front buffers were cached. */
  ghost predicate FrontReady(c: Config, s: State, g: Ghost) { |s.pub| >= c.buckets ==> g.recycled >= c.keep }

  ghost function Follow(c: Config, s: State, a: Action, g: Ghost): Ghost
    requires Enabled(c, s, a)
  {
    match a
    case Release => g
    case Coord =>
      (match s.coord
       case Take => if FromCache(c, |s.pub|) || s.free[0] >= |g.place| then g else g.(place := g.place[s.free[0] := WithCoordinator])
       case Filling(_) => g
       case Publishing(b) => if FromCache(c, |s.pub|) || b >= |g.place| then g else g.(place := g.place[b := Published(|s.pub|)]))
    case Visit(t) =>
      (match s.visitor[t]
       case Recycling(f, b) =>
         if b >= |g.place| then g
         else Ghost(g.place[b := if f < c.keep then Cached(f) else InQueue], f + 1)
       case _ => g)
  }

  // ---------- The coordinator ----------

  /** The coordinator does not disturb the visitors' march. */
  lemma MarchUndisturbed(c: Config, s: State, g: Ghost, s': State, g': Ghost)
    requires Shape(c, s, g) && March(c, s, g) && Shape(c, s', g')
    requires s'.visitor == s.visitor && s'.consumed == s.consumed && s'.open == s.open && g'.recycled == g.recycled
    ensures March(c, s', g')
  {
    forall t | 0 <= t < |s'.visitor| ensures InStep(s', g', s'.visitor[t]) {
      assert InStep(s, g, s.visitor[t]);
    }
  }

  lemma CoordDefined(c: Config, s: State, g: Ghost)
    requires Inv(c, s, g) && Enabled(c, s, Coord)
    ensures Defined(c, s, Coord)
    ensures s.coord.Take? && !FromCache(c, |s.pub|) ==>
              s.free != [] && s.free[0] < |g.place| && g.place[s.free[0]] == InQueue
    ensures !s.coord.Take? && !FromCache(c, |s.pub|) ==> s.coord.buf < |g.place| && g.place[s.coord.buf] == WithCoordinator
  {
    if s.coord.Take? && !FromCache(c, |s.pub|) { assert s.free[0] in s.free; }
  }

  lemma CoordShape(c: Config, s: State, g: Ghost)
    requires Inv(c, s, g) && Enabled(c, s, Coord) && Defined(c, s, Coord)
    ensures Shape(c, Next(c, s, Coord), Follow(c, s, Coord, g))
    ensures FrontReady(c, Next(c, s, Coord), Follow(c, s, Coord, g))
    ensures Readers(c, Next(c, s, Coord))
  {
    CoordDefined(c, s, g);
    var s' := Next(c, s, Coord);
    if s.coord.Publishing? && |s.pub| + 1 == c.buckets { FrontIsCached(c, s, g); }
    forall t | 0 <= t < |s.visitor| ensures ReadsRight(c, s', s'.visitor[t]) {
      assert ReadsRight(c, s, s.visitor[t]);
    }
  }

  lemma QueuePop(free: seq<Buf>, place: seq<Place>, x: Buf)
    requires free != [] && free[0] < |place|
    requires forall i, j :: 0 <= i < j < |free| ==> free[i] != free[j]
    requires forall b: Buf :: b in free <==> b < |place| && place[b] == InQueue
    ensures x in free[1..] <==> x < |place| && place[free[0] := WithCoordinator][x] == InQueue
  {
    if x in free && x != free[0] {
      var i :| 0 <= i < |free| && free[i] == x;
      assert free[1..][i - 1] == x;
    }
  }

  lemma TakePlaces(c: Config, s: State, g: Ghost)
    requires Inv(c, s, g) && Enabled(c, s, Coord) && s.coord.Take? && !FromCache(c, |s.pub|)
    requires Defined(c, s, Coord) && Shape(c, Next(c, s, Coord), Follow(c, s, Coord, g))
    ensures Places(c, Next(c, s, Coord), Follow(c, s, Coord, g))
  {
    CoordDefined(c, s, g);
    var s', g' := Next(c, s, Coord), Follow(c, s, Coord, g);
    assert s' == s.(coord := Filling(s.free[0]), free := s.free[1..], content := s'.content);
    forall x: Buf ensures x in s'.free <==> x < |g'.place| && g'.place[x] == InQueue {
      QueuePop(s.free, g.place, x);
    }
    forall x | 0 <= x < |g'.place| ensures PlaceBacked(c, s', g', x) {
      assert PlaceBacked(c, s, g, x);
    }
  }

  lemma CachedTakePlaces(c: Config, s: State, g: Ghost)
    requires Inv(c, s, g) && Enabled(c, s, Coord) && s.coord.Take? && FromCache(c, |s.pub|)
    requires Defined(c, s, Coord) && Shape(c, Next(c, s, Coord), g)
    ensures Places(c, Next(c, s, Coord), g) && Contents(c, Next(c, s, Coord), g)
  {
    var s' := Next(c, s, Coord);
    assert s' == s.(coord := Publishing(s.cached[|s.pub| - c.buckets].value));
    forall x | 0 <= x < |g.place| ensures PlaceBacked(c, s', g, x) && g.place[x] != WithCoordinator {
      assert PlaceBacked(c, s, g, x);
    }
  }

  lemma TakeContents(c: Config, s: State, g: Ghost)
    requires Inv(c, s, g) && Enabled(c, s, Coord) && s.coord.Take? && !FromCache(c, |s.pub|)
    requires Defined(c, s, Coord) && Shape(c, Next(c, s, Coord), Follow(c, s, Coord, g))
    ensures Contents(c, Next(c, s, Coord), Follow(c, s, Coord, g))
  {
    CoordDefined(c, s, g);
  }

  lemma FillPlaces(c: Config, s: State, g: Ghost)
    requires Inv(c, s, g) && Enabled(c, s, Coord) && s.coord.Filling?
    requires Defined(c, s, Coord) && Shape(c, Next(c, s, Coord), g)
    ensures Places(c, Next(c, s, Coord), g) && Contents(c, Next(c, s, Coord), g)
  {
    var s' := Next(c, s, Coord);
    assert s' == s.(coord := Publishing(s.coord.buf), content := s'.content);
    forall x | 0 <= x < |g.place| ensures PlaceBacked(c, s', g, x) && (g.place[x] == WithCoordinator ==> x == s.coord.buf) {
      assert PlaceBacked(c, s, g, x);
    }
  }

  lemma PublishPlaces(c: Config, s: State, g: Ghost)
    requires Inv(c, s, g) && Enabled(c, s, Coord) && s.coord.Publishing?
    requires Defined(c, s, Coord) && Shape(c, Next(c, s, Coord), Follow(c, s, Coord, g))
    ensures Places(c, Next(c, s, Coord), Follow(c, s, Coord, g))
  {
    CoordDefined(c, s, g);
    var s', g' := Next(c, s, Coord), Follow(c, s, Coord, g);
    assert s' == s.(coord := Take, pub := s.pub + [s.coord.buf]);
    forall x | 0 <= x < |g'.place| ensures PlaceBacked(c, s', g', x) {
      assert PlaceBacked(c, s, g, x);
    }
  }

  lemma PublishContents(c: Config, s: State, g: Ghost)
    requires Inv(c, s, g) && Enabled(c, s, Coord) && s.coord.Publishing?
    requires Defined(c, s, Coord) && Shape(c, Next(c, s, Coord), Follow(c, s, Coord, g))
    ensures Contents(c, Next(c, s, Coord), Follow(c, s, Coord, g))
  {
    CoordDefined(c, s, g);
    forall x | 0 <= x < |g.place| ensures g.place[x].WithCoordinator? ==> x == s.coord.buf && !FromCache(c, |s.pub|) {
      assert PlaceBacked(c, s, g, x);
    }
  }

  lemma CoordStep(c: Config, s: State, g: Ghost)
    requires Inv(c, s, g) && Enabled(c, s, Coord)
    ensures Defined(c, s, Coord) && Inv(c, Next(c, s, Coord), Follow(c, s, Coord, g))
  {
    CoordDefined(c, s, g);
    CoordShape(c, s, g);
    MarchUndisturbed(c, s, g, Next(c, s, Coord), Follow(c, s, Coord, g));
    match s.coord
    case Take =>
      if FromCache(c, |s.pub|) { CachedTakePlaces(c, s, g); } else { TakePlaces(c, s, g); TakeContents(c, s, g); }
    case Filling(_) => FillPlaces(c, s, g);
    case Publishing(_) => PublishPlaces(c, s, g); PublishContents(c, s, g);
  }

  /** Before the last bucket of pass one can be published, the visitors must have handed back the front buffers. */
  lemma FrontIsCached(c: Config, s: State, g: Ghost)
    requires Inv(c, s, g) && s.coord.Publishing? && |s.pub| + 1 == c.buckets
    ensures g.recycled >= c.keep
  {
    if g.recycled < c.keep {
      var out := seq(c.buckets, j requires 0 <= j < c.buckets =>
        if j < g.recycled then s.cached[j].value else if j < |s.pub| then s.pub[j] else s.coord.buf);
      forall j | 0 <= j < c.buckets
        ensures out[j] < |g.place|
        ensures g.place[out[j]] == if j < g.recycled then Cached(j) else if j < |s.pub| then Published(j) else WithCoordinator
      {
        if j < g.recycled { assert Kept(c, g, j); }
        else if j < |s.pub| { assert Live(c, s, g, j); }
      }
      Pigeonhole(out, c.Buffers());
    }
  }

  // ---------- The visitors ----------

  lemma PlacesUndisturbed(c: Config, s: State, g: Ghost, s': State)
    requires Shape(c, s, g) && Places(c, s, g) && Contents(c, s, g) && Shape(c, s', g)
    requires s'.free == s.free && s'.coord == s.coord && s'.pub == s.pub && s'.cached == s.cached && s'.content == s.content
    ensures Places(c, s', g) && Contents(c, s', g)
  {
    assert CoordPlace(c, s', g) <==> CoordPlace(c, s, g);
    forall x | 0 <= x < |g.place| ensures PlaceBacked(c, s', g, x) {
      assert PlaceBacked(c, s, g, x);
    }
  }

  /** The future being fetched is available: published, or cached. */
  lemma VisitDefined(c: Config, s: State, g: Ghost, t: nat)
    requires Inv(c, s, g) && Enabled(c, s, Visit(t))
    ensures Defined(c, s, Visit(t))
    ensures s.visitor[t].f <= s.open <= c.Futures()
    ensures !s.visitor[t].Before? && !s.visitor[t].Waiting? ==> s.visitor[t].f == g.recycled && g.recycled + 1 == s.open
  {
    assert InStep(s, g, s.visitor[t]) && ReadsRight(c, s, s.visitor[t]);
  }

  /** Steps that stay within the stage. */
  lemma StayReaders(c: Config, s: State, g: Ghost, t: nat)
    requires Inv(c, s, g) && Enabled(c, s, Visit(t)) && Defined(c, s, Visit(t))
    requires !s.visitor[t].Counting? && !s.visitor[t].Recycling?
    ensures Readers(c, Next(c, s, Visit(t)))
  {
    var s' := Next(c, s, Visit(t));
    forall u | 0 <= u < |s'.visitor| ensures ReadsRight(c, s', s'.visitor[u]) {
      assert ReadsRight(c, s, s.visitor[u]);
    }
  }

  lemma MarchStay(c: Config, s: State, g: Ghost, t: nat, v: Visitor)
    requires Shape(c, s, g) && March(c, s, g) && t < |s.visitor|
    requires v.f == s.visitor[t].f && !v.Recycling? && !s.visitor[t].Recycling?
    requires InStep(s, g, v) && (v.Waiting? ==> v.f < c.Futures())
    ensures March(c, s.(visitor := s.visitor[t := v]), g)
  {
    var s' := s.(visitor := s.visitor[t := v]);
    forall u | 0 <= u < |s'.visitor| ensures InStep(s', g, s'.visitor[u]) {
      assert InStep(s, g, s.visitor[u]);
    }
    SamePasses(s.visitor, t, v, s.open - 1);
    if u :| 0 <= u < |s.visitor| && s.visitor[u].f == g.recycled {
      assert s'.visitor[u].f == g.recycled;
    }
  }

  lemma SamePasses(vs: seq<Visitor>, t: nat, v: Visitor, f: int)
    requires t < |vs| && v.f == vs[t].f && !v.Recycling? && !vs[t].Recycling?
    ensures f >= 0 ==> Passes(vs[t := v], f) == Passes(vs, f)
  {
  }

  lemma StayStep(c: Config, s: State, g: Ghost, t: nat)
    requires Inv(c, s, g) && Enabled(c, s, Visit(t)) && Defined(c, s, Visit(t))
    requires !s.visitor[t].Counting? && !s.visitor[t].Recycling?
    ensures March(c, Next(c, s, Visit(t)), g)
  {
    VisitDefined(c, s, g, t);
    assert InStep(s, g, s.visitor[t]);
    var v := Next(c, s, Visit(t)).visitor[t];
    assert Next(c, s, Visit(t)) == s.(visitor := s.visitor[t := v]);
    MarchStay(c, s, g, t, v);
  }

  /** When all others have passed, only t can still be in the stage; otherwise someone else is left in it. */
  lemma LastOrNot(c: Config, s: State, g: Ghost, t: nat)
    requires Inv(c, s, g) && Enabled(c, s, Visit(t)) && s.visitor[t].Counting?
    requires s.visitor[t].f == g.recycled && g.recycled + 1 == s.open
    ensures s.consumed[g.recycled] + 1 == c.visitors ==>
              forall u :: 0 <= u < |s.visitor| && u != t ==> Passed(s.visitor[u], g.recycled)
    ensures s.consumed[g.recycled] + 1 != c.visitors ==>
              exists u :: 0 <= u < |s.visitor| && u != t && !Passed(s.visitor[u], g.recycled)
  {
    var f := g.recycled;
    var p := Passes(s.visitor, f);
    var q := p[t := 1];
    SumUpdate(p, t, 1);
    SumAtMost(q, 1);
    if s.consumed[f] + 1 == c.visitors {
      forall u | 0 <= u < |s.visitor| && u != t ensures Passed(s.visitor[u], f) { assert q[u] == 1; }
    } else if forall u :: 0 <= u < |s.visitor| && u != t ==> Passed(s.visitor[u], f) {
      SumConstant(q, 1);
    }
  }

  lemma CountReaders(c: Config, s: State, g: Ghost, t: nat)
    requires Inv(c, s, g) && Enabled(c, s, Visit(t)) && Defined(c, s, Visit(t)) && s.visitor[t].Counting?
    ensures Readers(c, Next(c, s, Visit(t)))
  {
    var s' := Next(c, s, Visit(t));
    forall u | 0 <= u < |s'.visitor| ensures ReadsRight(c, s', s'.visitor[u]) {
      assert ReadsRight(c, s, s.visitor[u]);
    }
  }

  /** While somebody is counting, nobody is recycling yet. */
  lemma NobodyRecycles(c: Config, s: State, g: Ghost, t: nat)
    requires Inv(c, s, g) && t < |s.visitor| && s.visitor[t].Counting?
    ensures forall u :: 0 <= u < |s.visitor| ==> !s.visitor[u].Recycling? && InStep(s, g, s.visitor[u])
    ensures forall u :: 0 <= u < |s.visitor| ==> s.visitor[u].f == g.recycled || s.visitor[u].f == s.open
  {
    forall u | 0 <= u < |s.visitor|
      ensures !s.visitor[u].Recycling? && InStep(s, g, s.visitor[u])
      ensures s.visitor[u].f == g.recycled || s.visitor[u].f == s.open
    {
      assert InStep(s, g, s.visitor[t]) && InStep(s, g, s.visitor[u]);
    }
  }

  lemma CountStep(c: Config, s: State, g: Ghost, t: nat)
    requires Inv(c, s, g) && Enabled(c, s, Visit(t)) && Defined(c, s, Visit(t)) && s.visitor[t].Counting?
    ensures March(c, Next(c, s, Visit(t)), g)
  {
    CountMoves(c, s, g, t);
    LastOrNot(c, s, g, t);
    NobodyRecycles(c, s, g, t);
    var v := Next(c, s, Visit(t)).visitor[t];
    if v.Recycling? { LastCounts(c, s, g, t, v); } else { OneCounts(c, s, g, t, v); }
  }

  /** What being counted changes. */
  lemma CountMoves(c: Config, s: State, g: Ghost, t: nat)
    requires Inv(c, s, g) && Enabled(c, s, Visit(t)) && Defined(c, s, Visit(t)) && s.visitor[t].Counting?
    ensures s.visitor[t].f == g.recycled && g.recycled + 1 == s.open && g.recycled < |s.consumed|
    ensures var s', order := Next(c, s, Visit(t)), s.consumed[g.recycled] + 1;
            && t < |s'.visitor| && s' == s.(consumed := s.consumed[g.recycled := order], visitor := s.visitor[t := s'.visitor[t]])
            && s'.visitor[t] == (if order == c.visitors then Recycling(g.recycled, s.visitor[t].buf) else Before(s.open))
            && Sum(Passes(s.visitor[t := s'.visitor[t]], g.recycled)) == order
  {
    VisitDefined(c, s, g, t);
    var v := Next(c, s, Visit(t)).visitor[t];
    SumChange(Passes(s.visitor, g.recycled), Passes(s.visitor[t := v], g.recycled), t);
  }

  /** The last to be counted stays in the stage, to hand the buffer back. */
  lemma LastCounts(c: Config, s: State, g: Ghost, t: nat, v: Visitor)
    requires Shape(c, s, g) && March(c, s, g) && t < |s.visitor| && v.Recycling? && v.f == g.recycled
    requires g.recycled + 1 == s.open
    requires forall u :: 0 <= u < |s.visitor| && u != t ==> Passed(s.visitor[u], g.recycled) && !s.visitor[u].Recycling?
    requires Sum(Passes(s.visitor[t := v], g.recycled)) == s.consumed[g.recycled] + 1
    ensures March(c, s.(consumed := s.consumed[g.recycled := s.consumed[g.recycled] + 1], visitor := s.visitor[t := v]), g)
  {
    var s' := s.(consumed := s.consumed[g.recycled := s.consumed[g.recycled] + 1], visitor := s.visitor[t := v]);
    forall u | 0 <= u < |s'.visitor| ensures InStep(s', g, s'.visitor[u]) {
      assert InStep(s, g, s.visitor[u]);
    }
    assert s'.visitor[t].f == g.recycled;
  }

  /** Anyone else moves on, and leaves somebody in the stage. */
  lemma OneCounts(c: Config, s: State, g: Ghost, t: nat, v: Visitor)
    requires Shape(c, s, g) && March(c, s, g) && t < |s.visitor| && v == Before(s.open)
    requires g.recycled + 1 == s.open
    requires forall u :: 0 <= u < |s.visitor| ==> !s.visitor[u].Recycling?
    requires forall u :: 0 <= u < |s.visitor| ==> s.visitor[u].f == g.recycled || s.visitor[u].f == s.open
    requires exists u :: 0 <= u < |s.visitor| && u != t && !Passed(s.visitor[u], g.recycled)
    requires Sum(Passes(s.visitor[t := v], g.recycled)) == s.consumed[g.recycled] + 1
    ensures March(c, s.(consumed := s.consumed[g.recycled := s.consumed[g.recycled] + 1], visitor := s.visitor[t := v]), g)
  {
    var s' := s.(consumed := s.consumed[g.recycled := s.consumed[g.recycled] + 1], visitor := s.visitor[t := v]);
    forall u | 0 <= u < |s'.visitor| ensures InStep(s', g, s'.visitor[u]) {
      assert InStep(s, g, s.visitor[u]);
    }
    var u :| 0 <= u < |s.visitor| && u != t && !Passed(s.visitor[u], g.recycled);
    assert s'.visitor[u].f == g.recycled;
  }

  lemma RecycleMarch(c: Config, s: State, g: Ghost, t: nat)
    requires Inv(c, s, g) && Enabled(c, s, Visit(t)) && Defined(c, s, Visit(t)) && s.visitor[t].Recycling?
    requires Shape(c, Next(c, s, Visit(t)), Follow(c, s, Visit(t), g)) && s.visitor[t].buf < |g.place|
    ensures March(c, Next(c, s, Visit(t)), Follow(c, s, Visit(t), g)) && Readers(c, Next(c, s, Visit(t)))
  {
    VisitDefined(c, s, g, t);
    var s', g' := Next(c, s, Visit(t)), Follow(c, s, Visit(t), g);
    forall u | 0 <= u < |s'.visitor| ensures InStep(s', g', s'.visitor[u]) && ReadsRight(c, s', s'.visitor[u]) {
      assert InStep(s, g, s.visitor[u]) && ReadsRight(c, s, s.visitor[u]);
    }
    SumChange(Passes(s.visitor, g.recycled), Passes(s'.visitor, g.recycled), t);
  }

  /** The last visitor's buffer is the one accounted to its future, or to its cache slot. */
  lemma RecyclePlace(c: Config, s: State, g: Ghost, t: nat)
    requires Inv(c, s, g) && Enabled(c, s, Visit(t)) && s.visitor[t].Recycling?
    ensures var f, b := s.visitor[t].f, s.visitor[t].buf;
            && f == g.recycled && b < |g.place|
            && g.place[b] == (if FromCache(c, f) then Cached(f - c.buckets) else Published(f))
            && (if FromCache(c, f) then Kept(c, g, f - c.buckets) else Live(c, s, g, f))
  {
    VisitDefined(c, s, g, t);
    assert ReadsRight(c, s, s.visitor[t]);
    var f := s.visitor[t].f;
    if FromCache(c, f) { assert Kept(c, g, f - c.buckets); } else { assert Live(c, s, g, f); }
  }

  lemma RecycleShape(c: Config, s: State, g: Ghost, t: nat)
    requires Inv(c, s, g) && Enabled(c, s, Visit(t)) && Defined(c, s, Visit(t)) && s.visitor[t].Recycling?
    ensures Shape(c, Next(c, s, Visit(t)), Follow(c, s, Visit(t), g))
    ensures FrontReady(c, Next(c, s, Visit(t)), Follow(c, s, Visit(t), g))
  {
    RecyclePlace(c, s, g, t);
    VisitDefined(c, s, g, t);
    assert ReadsRight(c, s, s.visitor[t]);
  }

  lemma RecycleBacked(c: Config, s: State, g: Ghost, t: nat, x: nat)
    requires Inv(c, s, g) && Enabled(c, s, Visit(t)) && Defined(c, s, Visit(t)) && s.visitor[t].Recycling?
    requires Shape(c, Next(c, s, Visit(t)), Follow(c, s, Visit(t), g)) && x < |g.place|
    ensures PlaceBacked(c, Next(c, s, Visit(t)), Follow(c, s, Visit(t), g), x)
    ensures x in s.free ==> x != s.visitor[t].buf
  {
    RecyclePlace(c, s, g, t);
    assert PlaceBacked(c, s, g, x);
  }

  lemma RecycleCache(c: Config, s: State, g: Ghost, t: nat, i: nat)
    requires Inv(c, s, g) && Enabled(c, s, Visit(t)) && Defined(c, s, Visit(t)) && s.visitor[t].Recycling?
    requires Shape(c, Next(c, s, Visit(t)), Follow(c, s, Visit(t), g))
    requires i < c.keep && Kept(c, Follow(c, s, Visit(t), g), i)
    ensures var s', g' := Next(c, s, Visit(t)), Follow(c, s, Visit(t), g);
            s'.cached[i].Some? && s'.cached[i].value < |g'.place| && g'.place[s'.cached[i].value] == Cached(i)
  {
    RecyclePlace(c, s, g, t);
    if i != s.visitor[t].f { assert Kept(c, g, i); }
  }

  lemma RecycleLive(c: Config, s: State, g: Ghost, t: nat, f: nat)
    requires Inv(c, s, g) && Enabled(c, s, Visit(t)) && Defined(c, s, Visit(t)) && s.visitor[t].Recycling?
    requires Shape(c, Next(c, s, Visit(t)), Follow(c, s, Visit(t), g))
    requires f < |s.pub| && Live(c, Next(c, s, Visit(t)), Follow(c, s, Visit(t), g), f)
    ensures var s', g' := Next(c, s, Visit(t)), Follow(c, s, Visit(t), g);
            s'.pub == s.pub && s.pub[f] < |g'.place| && g'.place[s.pub[f]] == Published(f)
  {
    RecyclePlace(c, s, g, t);
    assert Live(c, s, g, f);
  }

  /** The queue after a hand-back that gives the buffer to p. */
  lemma RecycleQueue(free: seq<Buf>, place: seq<Place>, b: Buf, p: Place, x: Buf)
    requires b < |place| && place[b] != InQueue
    requires forall y: Buf :: y in free <==> y < |place| && place[y] == InQueue
    ensures b !in free
    ensures var free' := if p == InQueue then free + [b] else free;
            x in free' <==> x < |place| && place[b := p][x] == InQueue
  {
  }

  lemma RecycleFree(c: Config, s: State, g: Ghost, t: nat)
    requires Inv(c, s, g) && Enabled(c, s, Visit(t)) && Defined(c, s, Visit(t)) && s.visitor[t].Recycling?
    ensures var s', g' := Next(c, s, Visit(t)), Follow(c, s, Visit(t), g);
            && (forall i, j :: 0 <= i < j < |s'.free| ==> s'.free[i] != s'.free[j])
            && (forall x: Buf :: x in s'.free <==> x < |g'.place| && g'.place[x] == InQueue)
  {
    RecyclePlace(c, s, g, t);
    var s', g' := Next(c, s, Visit(t)), Follow(c, s, Visit(t), g);
    var f, b := s.visitor[t].f, s.visitor[t].buf;
    var p := if f < c.keep then Cached(f) else InQueue;
    assert g'.place == g.place[b := p] && s'.free == if p == InQueue then s.free + [b] else s.free;
    forall x: Buf ensures x in s'.free <==> x < |g'.place| && g'.place[x] == InQueue {
      RecycleQueue(s.free, g.place, b, p, x);
    }
    RecycleQueue(s.free, g.place, b, p, b);
  }

  lemma RecyclePlaces(c: Config, s: State, g: Ghost, t: nat)
    requires Inv(c, s, g) && Enabled(c, s, Visit(t)) && Defined(c, s, Visit(t)) && s.visitor[t].Recycling?
    requires Shape(c, Next(c, s, Visit(t)), Follow(c, s, Visit(t), g))
    ensures Places(c, Next(c, s, Visit(t)), Follow(c, s, Visit(t), g))
  {
    RecyclePlace(c, s, g, t);
    RecycleFree(c, s, g, t);
    var s', g' := Next(c, s, Visit(t)), Follow(c, s, Visit(t), g);
    RecycleCoord(c, s, g, t);
    forall x | 0 <= x < |g'.place| ensures PlaceBacked(c, s', g', x) { RecycleBacked(c, s, g, t, x); }
    forall f | 0 <= f < |s'.pub| && Live(c, s', g', f)
      ensures s'.pub[f] < |g'.place| && g'.place[s'.pub[f]] == Published(f)
    { RecycleLive(c, s, g, t, f); }
    forall i | 0 <= i < c.keep && Kept(c, g', i)
      ensures s'.cached[i].Some? && s'.cached[i].value < |g'.place| && g'.place[s'.cached[i].value] == Cached(i)
    { RecycleCache(c, s, g, t, i); }
  }

  lemma RecycleCoord(c: Config, s: State, g: Ghost, t: nat)
    requires Inv(c, s, g) && Enabled(c, s, Visit(t)) && Defined(c, s, Visit(t)) && s.visitor[t].Recycling?
    requires Shape(c, Next(c, s, Visit(t)), Follow(c, s, Visit(t), g))
    ensures CoordPlace(c, Next(c, s, Visit(t)), Follow(c, s, Visit(t), g))
  {
    RecyclePlace(c, s, g, t);
  }

  lemma SmallRemainder(f: nat, d: nat)
    requires f < d
    ensures f % d == f
  {
  }

  lemma RecycleContents(c: Config, s: State, g: Ghost, t: nat)
    requires Inv(c, s, g) && Enabled(c, s, Visit(t)) && Defined(c, s, Visit(t)) && s.visitor[t].Recycling?
    requires Shape(c, Next(c, s, Visit(t)), Follow(c, s, Visit(t), g))
    ensures Contents(c, Next(c, s, Visit(t)), Follow(c, s, Visit(t), g))
  {
    RecyclePlace(c, s, g, t);
    var s', g' := Next(c, s, Visit(t)), Follow(c, s, Visit(t), g);
    var f, b := s.visitor[t].f, s.visitor[t].buf;
    assert s'.content == s.content && s'.pub == s.pub && s'.coord == s.coord;
    assert g'.place == g.place[b := if f < c.keep then Cached(f) else InQueue];
    if f < c.keep { SmallRemainder(f, c.buckets); }
  }

  lemma RecycleStep(c: Config, s: State, g: Ghost, t: nat)
    requires Inv(c, s, g) && Enabled(c, s, Visit(t)) && s.visitor[t].Recycling?
    ensures Defined(c, s, Visit(t)) && Inv(c, Next(c, s, Visit(t)), Follow(c, s, Visit(t), g))
  {
    VisitDefined(c, s, g, t);
    RecyclePlace(c, s, g, t);
    RecycleShape(c, s, g, t);
    RecycleMarch(c, s, g, t);
    RecyclePlaces(c, s, g, t);
    RecycleContents(c, s, g, t);
  }

  lemma PlainStep(c: Config, s: State, g: Ghost, t: nat)
    requires Inv(c, s, g) && Enabled(c, s, Visit(t)) && !s.visitor[t].Recycling?
    ensures Defined(c, s, Visit(t)) && Inv(c, Next(c, s, Visit(t)), g)
  {
    VisitDefined(c, s, g, t);
    if s.visitor[t].Counting? {
      CountStep(c, s, g, t);
      CountReaders(c, s, g, t);
    } else {
      StayStep(c, s, g, t);
      StayReaders(c, s, g, t);
    }
    PlacesUndisturbed(c, s, g, Next(c, s, Visit(t)));
  }

  lemma VisitStep(c: Config, s: State, g: Ghost, t: nat)
    requires Inv(c, s, g) && Enabled(c, s, Visit(t))
    ensures Defined(c, s, Visit(t)) && Inv(c, Next(c, s, Visit(t)), Follow(c, s, Visit(t), g))
  {
    if s.visitor[t].Recycling? { RecycleStep(c, s, g, t); } else { PlainStep(c, s, g, t); }
  }

  lemma ReleaseStep(c: Config, s: State, g: Ghost)
    requires Inv(c, s, g) && Enabled(c, s, Release)
    ensures Defined(c, s, Release) && Inv(c, Next(c, s, Release), g)
  {
    var s' := Next(c, s, Release);
    assert g.recycled == s.open;
    forall t | 0 <= t < |s.visitor| ensures InStep(s', g, s'.visitor[t]) && s'.visitor[t].f == g.recycled {
      assert InStep(s, g, s.visitor[t]);
    }
    SumConstant(Passes(s'.visitor, s.open), 0);
    assert s'.visitor[0].f == g.recycled;
    PlacesUndisturbed(c, s, g, s');
    forall t | 0 <= t < |s.visitor| ensures ReadsRight(c, s', s'.visitor[t]) {
      assert ReadsRight(c, s, s.visitor[t]);
    }
  }

  lemma StepInv(c: Config, s: State, a: Action, g: Ghost)
    requires Inv(c, s, g) && Enabled(c, s, a)
    ensures Defined(c, s, a) && Inv(c, Next(c, s, a), Follow(c, s, a, g))
  {
    match a
    case Coord => CoordStep(c, s, g);
    case Release => ReleaseStep(c, s, g);
    case Visit(t) => VisitStep(c, s, g, t);
  }

  lemma InitInv(c: Config, s: State) returns (g: Ghost)
    requires Init(c, s)
    ensures Inv(c, s, g)
  {
    g := Ghost(seq(c.Buffers(), _ => InQueue), 0);
    forall b: Buf ensures b in s.free <==> b < |g.place| && g.place[b] == InQueue {
      if b < |g.place| { assert s.free[b] == b; }
    }
  }

  lemma {:induction false} RunInv(c: Config, run: seq<State>) returns (g: Ghost)
    requires IsRun(c, run)
    ensures Inv(c, run[|run| - 1], g)
  {
    if |run| == 1 {
      g := InitInv(c, run[0]);
    } else {
      g := RunInv(c, run[..|run| - 1]);
      var s := run[|run| - 2];
      assert Step(c, s, run[|run| - 2 + 1]);
      var a :| Enabled(c, s, a) && Defined(c, s, a) && run[|run| - 1] == Next(c, s, a);
      StepInv(c, s, a, g);
      g := Follow(c, s, a, g);
    }
  }

  lemma ReachableInv(c: Config, s: State) returns (g: Ghost)
    requires Reachable(c, s)
    ensures Inv(c, s, g)
  {
    var run :| IsRun(c, run) && run[|run| - 1] == s;
    g := RunInv(c, run);
  }

  // ---------- What every run guarantees ----------

  /** The buffer in a visitor's hands is accounted to its future or to its cache slot. */
  lemma HeldPlace(c: Config, s: State, g: Ghost, t: nat)
    requires Inv(c, s, g) && t < |s.visitor|
    requires s.visitor[t].Visiting? || s.visitor[t].Counting? || s.visitor[t].Recycling?
    ensures var f, b := s.visitor[t].f, s.visitor[t].buf;
            b < |g.place| && g.place[b] == if FromCache(c, f) then Cached(f - c.buckets) else Published(f)
  {
    assert InStep(s, g, s.visitor[t]) && ReadsRight(c, s, s.visitor[t]);
    var f := s.visitor[t].f;
    if FromCache(c, f) { assert Kept(c, g, f - c.buckets); } else { assert Live(c, s, g, f); }
  }

  lemma SecondPassBucket(c: Config, f: nat)
    requires c.Valid() && FromCache(c, f)
    ensures f % c.buckets == f - c.buckets
  {
    assert (f - c.buckets) % c.buckets == f - c.buckets;
  }

  /** A visitor reads from the buffer that holds its bucket, in both passes, until the last visitor is done. */
  lemma VisitorsSeeTheirBucket(c: Config, s: State, t: nat)
    requires Reachable(c, s) && t < |s.visitor| && s.visitor[t].Visiting?
    ensures s.visitor[t].buf < |s.content| && c.buckets > 0
    ensures s.content[s.visitor[t].buf] == Full(s.visitor[t].f % c.buckets)
  {
    var g := ReachableInv(c, s);
    HeldPlace(c, s, g, t);
    if FromCache(c, s.visitor[t].f) { SecondPassBucket(c, s.visitor[t].f); }
  }

  /** A buffer being filled is not in the queue and no visitor holds it, before or after counting itself. */
  lemma FilledBufferIsPrivate(c: Config, s: State, t: nat)
    requires Reachable(c, s) && s.coord.Filling? && t < |s.visitor|
    ensures s.coord.buf !in s.free
    ensures s.visitor[t].Visiting? || s.visitor[t].Counting? || s.visitor[t].Recycling? ==> s.visitor[t].buf != s.coord.buf
  {
    var g := ReachableInv(c, s);
    if s.visitor[t].Visiting? || s.visitor[t].Counting? || s.visitor[t].Recycling? { HeldPlace(c, s, g, t); }
  }

  /**
   Once the visitors are past bucket i < keep of pass one, and until the last of them is past it in pass two,
   cache slot i holds a buffer with bucket i.
   */
  lemma CachedFrontSurvives(c: Config, s: State, i: nat, t: nat)
    requires Reachable(c, s) && i < c.keep && i + 1 < s.open
    requires t < |s.visitor| && s.visitor[t].f <= c.buckets + i
    ensures i < |s.cached| && s.cached[i].Some? && s.cached[i].value < |s.content|
    ensures s.content[s.cached[i].value] == Full(i)
    ensures s.cached[i].value !in s.free && (s.coord.Filling? ==> s.coord.buf != s.cached[i].value)
  {
    var g := ReachableInv(c, s);
    assert InStep(s, g, s.visitor[t]);
    assert Kept(c, g, i);
  }

  // ---------- Where the buffers are ----------

  /** The oldest future whose buffer has not been handed back: the open one, unless all visitors are past it. */
  ghost function Oldest(s: State): int {
    if exists t :: 0 <= t < |s.visitor| && s.visitor[t].f + 1 == s.open then s.open - 1 else s.open
  }

  /** In the coordinator's hands, to be filled and published. */
  ghost predicate InHand(c: Config, s: State, b: Buf) { !s.coord.Take? && s.coord.buf == b && !FromCache(c, |s.pub|) }

  /** Published for future f, which not all visitors have handed back. */
  ghost predicate OutFor(c: Config, s: State, b: Buf, f: nat) {
    Oldest(s) <= f < |s.pub| && !FromCache(c, f) && s.pub[f] == b
  }

  /** In cache slot i, from the end of its first pass to the end of its second. */
  ghost predicate CachedAs(c: Config, s: State, b: Buf, i: nat) {
    i < c.keep && i < |s.cached| && i < Oldest(s) <= c.buckets + i && s.cached[i] == Some(b)
  }

  ghost predicate Out(c: Config, s: State, b: Buf) { exists f :: OutFor(c, s, b, f) }
  ghost predicate InCache(c: Config, s: State, b: Buf) { exists i :: CachedAs(c, s, b, i) }

  /**
   Every buffer is in exactly one place: the free queue, the coordinator's hands, out with the visitors, or the
   cache.  It is there once: the queue has no duplicate, and no buffer is out for two futures or in two slots.
   */
  lemma EveryBufferInOnePlace(c: Config, s: State, b: Buf)
    requires Reachable(c, s) && b < c.Buffers()
    ensures (if b in s.free then 1 else 0) + (if InHand(c, s, b) then 1 else 0)
            + (if Out(c, s, b) then 1 else 0) + (if InCache(c, s, b) then 1 else 0) == 1
    ensures forall i, j :: 0 <= i < j < |s.free| ==> s.free[i] != s.free[j]
    ensures forall f, h :: OutFor(c, s, b, f) && OutFor(c, s, b, h) ==> f == h
    ensures forall i, j :: CachedAs(c, s, b, i) && CachedAs(c, s, b, j) ==> i == j
  {
    var g := ReachableInv(c, s);
    OldestIsRecycled(c, s, g);
    forall f | OutFor(c, s, b, f) ensures g.place[b] == Published(f) { assert Live(c, s, g, f); }
    forall i | CachedAs(c, s, b, i) ensures g.place[b] == Cached(i) { assert Kept(c, g, i); }
    HandIsPlace(c, s, g, b);
    assert PlaceBacked(c, s, g, b);
    match g.place[b]
    case Published(f) => assert OutFor(c, s, b, f);
    case Cached(i) => assert CachedAs(c, s, b, i);
    case _ =>
  }

  lemma HandIsPlace(c: Config, s: State, g: Ghost, b: Buf)
    requires Inv(c, s, g) && b < c.Buffers()
    ensures InHand(c, s, b) <==> g.place[b] == WithCoordinator
  {
    assert PlaceBacked(c, s, g, b);
  }

  lemma OldestIsRecycled(c: Config, s: State, g: Ghost)
    requires Inv(c, s, g)
    ensures Oldest(s) == g.recycled
  {
    if g.recycled == s.open {
      forall t | 0 <= t < |s.visitor| ensures s.visitor[t].f + 1 != s.open { assert InStep(s, g, s.visitor[t]); }
    }
  }

  ghost predicate Finished(c: Config, s: State) {
    |s.pub| == c.Futures() && forall t :: 0 <= t < |s.visitor| ==> s.visitor[t] == Before(c.Futures())
  }

  /** If the coordinator is blocked on an empty queue, some published bucket is still with the visitors. */
  lemma SomethingLive(c: Config, s: State, g: Ghost) returns (f: nat)
    requires Inv(c, s, g) && s.coord.Take? && s.free == []
    ensures f < |s.pub| && Live(c, s, g, f)
  {
    if forall b :: 0 <= b < |g.place| ==> g.place[b].Cached? {
      var slots := seq(|g.place|, b requires 0 <= b < |g.place| => g.place[b].i);
      forall b | 0 <= b < |slots| ensures slots[b] < c.keep && s.cached[slots[b]] == Some(b) {
        assert PlaceBacked(c, s, g, b);
      }
      Pigeonhole(slots, c.keep);
      assert false;
    }
    var b :| 0 <= b < |g.place| && !g.place[b].Cached?;
    assert PlaceBacked(c, s, g, b);
    assert b !in s.free;
    f := g.place[b].f;
  }

  /** A visitor waiting for a future is waiting for the coordinator, which can move. */
  lemma FetchNotStuck(c: Config, s: State, g: Ghost, t: nat)
    requires Inv(c, s, g) && t < |s.visitor| && s.visitor[t].Fetching?
    ensures Enabled(c, s, Visit(t)) || Enabled(c, s, Coord)
  {
    assert InStep(s, g, s.visitor[t]);
    if !Enabled(c, s, Visit(t)) && s.coord.Take? && s.free == [] {
      var f := SomethingLive(c, s, g);
    }
  }

  /** No reachable state is stuck before both passes are over for everyone. */
  lemma NoDeadlock(c: Config, s: State)
    requires Reachable(c, s) && !Finished(c, s)
    ensures exists a :: Enabled(c, s, a) && Defined(c, s, a)
  {
    var g := ReachableInv(c, s);
    var a := SomeMove(c, s, g);
    StepInv(c, s, a, g);
  }

  lemma SomeMove(c: Config, s: State, g: Ghost) returns (a: Action)
    requires Inv(c, s, g) && !Finished(c, s)
    ensures Enabled(c, s, a)
  {
    if t :| 0 <= t < |s.visitor| && s.visitor[t].Fetching? {
      FetchNotStuck(c, s, g, t);
      a := if Enabled(c, s, Visit(t)) then Visit(t) else Coord;
    } else if t :| 0 <= t < |s.visitor| && Enabled(c, s, Visit(t)) {
      a := Visit(t);
    } else {
      assert forall t :: 0 <= t < |s.visitor| ==> !Enabled(c, s, Visit(t));
      if s.open < c.Futures() {
        forall t | 0 <= t < |s.visitor| ensures s.visitor[t] == Waiting(s.open) {
          assert InStep(s, g, s.visitor[t]);
          assert !Enabled(c, s, Visit(t));
        }
        a := Release;
      } else {
        ThroughIsFinished(c, s, g);
        assert false;
      }
    }
  }

  /** Once the last bucket is open to all, a state in which no visitor can move is the end of both passes. */
  lemma ThroughIsFinished(c: Config, s: State, g: Ghost)
    requires Inv(c, s, g) && s.open == c.Futures()
    requires forall t :: 0 <= t < |s.visitor| ==> !Enabled(c, s, Visit(t)) && !s.visitor[t].Fetching?
    ensures Finished(c, s)
  {
    forall t | 0 <= t < |s.visitor| ensures s.visitor[t] == Before(c.Futures()) {
      assert InStep(s, g, s.visitor[t]);
      assert !Enabled(c, s, Visit(t));
    }
  }

  // ---------- Every run finishes, and every visitor visits everything ----------

  /** The visitor is done with visiting future f. */
  predicate Past(v: Visitor, f: nat) { v.f > f || (v.f == f && (v.Counting? || v.Recycling?)) }

  lemma PastByVisiting(c: Config, s: State, a: Action, t: nat, f: nat)
    requires Enabled(c, s, a) && Defined(c, s, a) && t < |s.visitor|
    ensures |Next(c, s, a).visitor| == |s.visitor|
    ensures Past(Next(c, s, a).visitor[t], f) ==> Past(s.visitor[t], f) || (s.visitor[t].Visiting? && s.visitor[t].f == f)
  {
  }

  /** At some point of the run, visitor t was visiting future f. */
  ghost predicate VisitedIn(run: seq<State>, t: nat, f: nat) { exists i: nat :: VisitedAt(run, t, f, i) }

  ghost predicate VisitedAt(run: seq<State>, t: nat, f: nat, i: nat) {
    i < |run| && t < |run[i].visitor| && run[i].visitor[t].Visiting? && run[i].visitor[t].f == f
  }

  lemma VisitedMore(run: seq<State>, n: nat, t: nat, f: nat)
    requires n <= |run| && VisitedIn(run[..n], t, f)
    ensures VisitedIn(run, t, f)
  {
    var i: nat :| VisitedAt(run[..n], t, f, i);
    assert VisitedAt(run, t, f, i);
  }

  /** No visitor gets past a bucket, in either pass, without having visited it. */
  lemma {:induction false} NothingSkipped(c: Config, run: seq<State>, t: nat, f: nat)
    requires IsRun(c, run) && t < |run[|run| - 1].visitor| && Past(run[|run| - 1].visitor[t], f)
    ensures VisitedIn(run, t, f)
  {
    if |run| > 1 {
      var n := |run| - 1;
      var s := run[n - 1];
      assert Step(c, s, run[n - 1 + 1]);
      var a :| Enabled(c, s, a) && Defined(c, s, a) && run[n] == Next(c, s, a);
      SameVisitors(c, s, a);
      PastByVisiting(c, s, a, t, f);
      if Past(s.visitor[t], f) {
        NothingSkipped(c, run[..n], t, f);
        VisitedMore(run, n, t, f);
      } else {
        assert VisitedAt(run, t, f, n - 1);
      }
    }
  }

  lemma SameVisitors(c: Config, s: State, a: Action)
    requires Enabled(c, s, a) && Defined(c, s, a)
    ensures |Next(c, s, a).visitor| == |s.visitor|
  {
  }

  /** How far a visitor and the coordinator have come. */
  function VisitorRank(v: Visitor): nat {
    match v
    case Before(f) => 6 * f
    case Waiting(f) => 6 * f + 1
    case Fetching(f) => 6 * f + 2
    case Visiting(f, _) => 6 * f + 3
    case Counting(f, _) => 6 * f + 4
    case Recycling(f, _) => 6 * f + 5
  }

  function CoordRank(s: State): nat {
    3 * |s.pub| + (match s.coord case Take => 0 case Filling(_) => 1 case Publishing(_) => 2)
  }

  function VisitorRanks(vs: seq<Visitor>): (r: seq<int>)
    ensures |r| == |vs| && forall t :: 0 <= t < |vs| ==> r[t] == VisitorRank(vs[t])
  {
    seq(|vs|, t requires 0 <= t < |vs| => VisitorRank(vs[t]))
  }

  function Progress(s: State): int { Sum(VisitorRanks(s.visitor)) + CoordRank(s) + s.open }

  lemma EveryStepProgresses(c: Config, s: State, a: Action)
    requires Enabled(c, s, a) && Defined(c, s, a)
    ensures Progress(Next(c, s, a)) > Progress(s)
  {
    if a.Visit? {
      SumChange(VisitorRanks(s.visitor), VisitorRanks(Next(c, s, a).visitor), a.t);
    }
  }

  /** What Progress is when both passes are over. */
  function FullProgress(c: Config): int { (6 * c.Futures() + 5) * c.visitors + 3 * c.Futures() + 2 + c.Futures() }

  lemma ProgressBound(c: Config, s: State, g: Ghost)
    requires Inv(c, s, g)
    ensures 0 <= Progress(s) <= FullProgress(c)
  {
    forall t | 0 <= t < |s.visitor| ensures VisitorRank(s.visitor[t]) <= 6 * c.Futures() + 5 {
      assert InStep(s, g, s.visitor[t]);
    }
    SumAtMost(VisitorRanks(s.visitor), 6 * c.Futures() + 5);
    SumNonNegative(VisitorRanks(s.visitor));
  }

  lemma {:induction false} ProgressOfRun(c: Config, run: seq<State>)
    requires IsRun(c, run)
    ensures Progress(run[|run| - 1]) >= |run| - 1
  {
    if |run| == 1 {
      SumNonNegative(VisitorRanks(run[0].visitor));
    } else {
      ProgressOfRun(c, run[..|run| - 1]);
      var s := run[|run| - 2];
      assert Step(c, s, run[|run| - 2 + 1]);
      var a :| Enabled(c, s, a) && Defined(c, s, a) && run[|run| - 1] == Next(c, s, a);
      EveryStepProgresses(c, s, a);
    }
  }

  predicate Able(c: Config, s: State, a: Action) { Enabled(c, s, a) && Defined(c, s, a) }

  ghost predicate Over(c: Config, s: State) { forall a :: !Able(c, s, a) }

  /**
   No run goes on for ever, and one that cannot go on has finished: so however it is scheduled, the pipeline ends
   with every visitor having visited every bucket in both passes.
   */
  lemma EveryRunFinishes(c: Config, run: seq<State>)
    requires IsRun(c, run)
    ensures |run| <= FullProgress(c) + 1
    ensures Over(c, run[|run| - 1]) ==>
              Finished(c, run[|run| - 1]) && forall t: nat, f: nat :: t < c.visitors && f < c.Futures() ==> VisitedIn(run, t, f)
  {
    var s := run[|run| - 1];
    var g := RunInv(c, run);
    ProgressOfRun(c, run);
    ProgressBound(c, s, g);
    if Over(c, s) {
      assert Reachable(c, s);
      if !Finished(c, s) {
        NoDeadlock(c, s);
        var a :| Enabled(c, s, a) && Defined(c, s, a);
        assert Able(c, s, a);
      }
      forall t: nat, f: nat | t < c.visitors && f < c.Futures() ensures VisitedIn(run, t, f) {
        assert s.visitor[t] == Before(c.Futures());
        NothingSkipped(c, run, t, f);
      }
    }
  }

  /** Who waits, and for what: nobody else does. */
  lemma OnlyTheseWait(c: Config, s: State, t: nat)
    requires Reachable(c, s) && t < |s.visitor|
    ensures !Enabled(c, s, Visit(t)) <==>
              var v := s.visitor[t];
              || (v.Before? && v.f == c.Futures())
              || (v.Waiting? && v.f >= s.open)
              || (v.Fetching? && !FromCache(c, v.f) && v.f >= |s.pub|)
    ensures !Enabled(c, s, Coord) <==>
              |s.pub| == c.Futures() || (s.coord.Take? && !FromCache(c, |s.pub|) && s.free == [])
  {
    var g := ReachableInv(c, s);
    assert InStep(s, g, s.visitor[t]);
  }

  /** Runs start for every configuration. */
  lemma Starts(c: Config) returns (s: State)
    requires c.Valid()
    ensures Reachable(c, s)
  {
    s := State(seq(c.Buffers(), i => i), seq(c.Buffers(), _ => Junk), [], seq(c.keep, _ => None),
               seq(c.Futures(), _ => 0), Take, 0, seq(c.visitors, _ => Before(0)));
    assert IsRun(c, [s]);
  }
}
