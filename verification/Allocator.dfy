/**
 The boundary-tag heap: one segment tiled by chunks and the top, whose heads and feet agree, no two free
 chunks side by side, and every free chunk in exactly one of a small bin, a tree bin or the designated victim.

 Addresses and sizes are in bytes.  `limit` is where the top ends.
 */
module Allocator {
  import opened Arith
  import opened Options
  import opened TreeBins

  const MIN_CHUNK: nat := 32                // MIN_CHUNK_SIZE
  const ALIGN: nat := 16                    // SPP_MALLOC_ALIGNMENT
  const NSMALLBINS: nat := 32
  const MAX_REQUEST: nat := 0xFFFF_FF80
  const MAX_SMALL_REQUEST: nat := 232

  /** A chunk's head word: its size and the two in-use bits. */
  datatype Head = Head(size: nat, cinuse: bool, pinuse: bool)

  /** A chunk as the specification sees it. */
  datatype Cell = Cell(addr: nat, size: nat, used: bool)

  // ---------- The tiling ----------

  ghost predicate Sized(c: Cell) { c.size >= MIN_CHUNK && c.size % ALIGN == 0 }

  /** The chunks follow one another from base to end. */
  ghost predicate Tiled(cells: seq<Cell>, base: nat, end: nat) {
    && (forall i :: 0 <= i < |cells| ==> Sized(cells[i]))
    && (if cells == [] then base == end
        else cells[0].addr == base && cells[|cells| - 1].addr + cells[|cells| - 1].size == end)
    && forall i :: 0 <= i < |cells| - 1 ==> cells[i].addr + cells[i].size == cells[i + 1].addr
  }

  /** No two free chunks side by side, and none next to the top. */
  ghost predicate Coalesced(cells: seq<Cell>) {
    && (forall i :: 0 <= i < |cells| - 1 ==> cells[i].used || cells[i + 1].used)
    && (cells != [] ==> cells[|cells| - 1].used)
  }

  ghost function Chunks(cells: seq<Cell>, used: bool): set<Chunk> {
    set i | 0 <= i < |cells| && cells[i].used == used :: Chunk(cells[i].addr, cells[i].size)
  }

  /** Whether the chunk before position i is in use; before the first there is none. */
  predicate PrevUsed(cells: seq<Cell>, i: nat)
    requires i <= |cells|
  {
    i == 0 || cells[i - 1].used
  }

  /** Heads and feet say what the tiling is. */
  ghost predicate TagOk(head: seq<Head>, feet: seq<nat>, cells: seq<Cell>, i: nat)
    requires i < |cells|
  {
    var c := cells[i];
    && c.addr + c.size < |head| == |feet|
    && head[c.addr] == Head(c.size, c.used, PrevUsed(cells, i))
    && (!c.used ==> feet[c.addr + c.size] == c.size)
  }

  ghost predicate Tags(head: seq<Head>, feet: seq<nat>, cells: seq<Cell>, top: nat, topSize: nat) {
    && |head| == |feet| == top + topSize + 1
    && (forall i {:trigger TagOk(head, feet, cells, i)} :: 0 <= i < |cells| ==> TagOk(head, feet, cells, i))
    && head[top] == Head(topSize, false, true)
  }

  ghost predicate Laid(head: seq<Head>, feet: seq<nat>, cells: seq<Cell>, base: nat, top: nat, topSize: nat) {
    Tiled(cells, base, top) && Coalesced(cells) && Tags(head, feet, cells, top, topSize)
  }

  /** Distance grows along the tiling. */
  lemma {:induction false} AddrBefore(cells: seq<Cell>, base: nat, end: nat, i: nat, j: nat)
    requires Tiled(cells, base, end) && i < j < |cells|
    ensures cells[i].addr + cells[i].size <= cells[j].addr
    decreases j
  {
    if j > i + 1 { AddrBefore(cells, base, end, i, j - 1); }
  }

  lemma AddrInside(cells: seq<Cell>, base: nat, end: nat, i: nat)
    requires Tiled(cells, base, end) && i < |cells|
    ensures base <= cells[i].addr && cells[i].addr + cells[i].size <= end
  {
    if i > 0 { AddrBefore(cells, base, end, 0, i); }
    if i < |cells| - 1 { AddrBefore(cells, base, end, i, |cells| - 1); }
  }

  /** An address names one chunk. */
  lemma SameAddr(cells: seq<Cell>, base: nat, end: nat, i: nat, j: nat)
    requires Tiled(cells, base, end) && i < |cells| && j < |cells| && cells[i].addr == cells[j].addr
    ensures i == j
  {
    if i < j { AddrBefore(cells, base, end, i, j); }
    if j < i { AddrBefore(cells, base, end, j, i); }
  }

  // ---------- Changing the tiling ----------

  /** The bytes of n chunks from position a on. */
  function Total(cells: seq<Cell>, a: nat, n: nat): nat
    requires a + n <= |cells|
  {
    if n == 0 then 0 else Total(cells, a, n - 1) + cells[a + n - 1].size
  }

  lemma {:induction false} TotalEnd(cells: seq<Cell>, base: nat, end: nat, a: nat, n: nat)
    requires Tiled(cells, base, end) && 0 < n && a + n <= |cells|
    ensures cells[a].addr + Total(cells, a, n) == cells[a + n - 1].addr + cells[a + n - 1].size
    ensures Total(cells, a, n) >= MIN_CHUNK && Total(cells, a, n) % ALIGN == 0
  {
    var last := cells[a + n - 1];
    assert Sized(last) && Total(cells, a, n) == Total(cells, a, n - 1) + last.size;
    if n > 1 {
      TotalEnd(cells, base, end, a, n - 1);
      assert cells[a + n - 2].addr + cells[a + n - 2].size == last.addr;
    }
  }

  /** n chunks from position a on become one. */
  function Merged(cells: seq<Cell>, a: nat, n: nat, used: bool): (r: seq<Cell>)
    requires 0 < n && a + n <= |cells|
    ensures |r| == |cells| - n + 1
  {
    seq(|cells| - n + 1, i requires 0 <= i < |cells| - n + 1 =>
      if i < a then cells[i]
      else if i == a then Cell(cells[a].addr, Total(cells, a, n), used)
      else cells[i + n - 1])
  }

  /** The chunk at position a becomes a used one of size nb and a free rest. */
  function Split(cells: seq<Cell>, a: nat, nb: nat): (r: seq<Cell>)
    requires a < |cells| && nb <= cells[a].size
    ensures |r| == |cells| + 1
  {
    seq(|cells| + 1, i requires 0 <= i < |cells| + 1 =>
      if i < a then cells[i]
      else if i == a then Cell(cells[a].addr, nb, true)
      else if i == a + 1 then Cell(cells[a].addr + nb, cells[a].size - nb, false)
      else cells[i - 1])
  }

  lemma MergedTiled(cells: seq<Cell>, base: nat, end: nat, a: nat, n: nat, used: bool)
    requires Tiled(cells, base, end) && 0 < n && a + n <= |cells|
    ensures Tiled(Merged(cells, a, n, used), base, end)
  {
    var r := Merged(cells, a, n, used);
    TotalEnd(cells, base, end, a, n);
    forall i | 0 <= i < |r| ensures Sized(r[i]) {
      assert i != a ==> Sized(cells[if i < a then i else i + n - 1]);
    }
    forall i | 0 <= i < |r| - 1 ensures r[i].addr + r[i].size == r[i + 1].addr {
      if i != a {
        var j := if i < a then i else i + n - 1;
        assert cells[j].addr + cells[j].size == cells[j + 1].addr;
      }
    }
  }

  lemma SplitSized(c: Cell, nb: nat)
    requires Sized(c) && MIN_CHUNK <= nb && nb + MIN_CHUNK <= c.size && nb % ALIGN == 0
    ensures Sized(Cell(c.addr, nb, true)) && Sized(Cell(c.addr + nb, c.size - nb, false))
  {
  }

  lemma SplitTiled(cells: seq<Cell>, base: nat, end: nat, a: nat, nb: nat)
    requires Tiled(cells, base, end) && a < |cells| && MIN_CHUNK <= nb && nb + MIN_CHUNK <= cells[a].size && nb % ALIGN == 0
    ensures Tiled(Split(cells, a, nb), base, end)
  {
    var r := Split(cells, a, nb);
    SplitSized(cells[a], nb);
    forall i | 0 <= i < |r| - 1 ensures r[i].addr + r[i].size == r[i + 1].addr {
      if i > a + 1 { assert cells[i - 1].addr + cells[i - 1].size == cells[i].addr; }
    }
  }

  /** The chunks of one kind among n from position a on. */
  ghost function Pieces(cells: seq<Cell>, a: nat, n: nat, used: bool): set<Chunk>
    requires a + n <= |cells|
  {
    set i | a <= i < a + n && cells[i].used == used :: Chunk(cells[i].addr, cells[i].size)
  }

  lemma PieceOutside(cells: seq<Cell>, base: nat, end: nat, a: nat, n: nat, used: bool, i: nat)
    requires Tiled(cells, base, end) && a + n <= |cells| && i < |cells| && !(a <= i < a + n)
    ensures Chunk(cells[i].addr, cells[i].size) !in Pieces(cells, a, n, used)
  {
    forall j | a <= j < a + n ensures cells[j].addr != cells[i].addr {
      if cells[j].addr == cells[i].addr { SameAddr(cells, base, end, i, j); }
    }
  }

  /** The chunks of one kind after a merge. */
  ghost function AfterMerge(cells: seq<Cell>, a: nat, n: nat, used: bool, u: bool): set<Chunk>
    requires 0 < n && a + n <= |cells|
  {
    Chunks(cells, u) - Pieces(cells, a, n, u) + if u == used then {Chunk(cells[a].addr, Total(cells, a, n))} else {}
  }

  lemma MergedChunks(cells: seq<Cell>, base: nat, end: nat, a: nat, n: nat, used: bool, u: bool)
    requires Tiled(cells, base, end) && 0 < n && a + n <= |cells|
    ensures Chunks(Merged(cells, a, n, used), u) == AfterMerge(cells, a, n, used, u)
  {
    var r := Merged(cells, a, n, used);
    forall c | c in Chunks(r, u) ensures c in AfterMerge(cells, a, n, used, u) {
      var i :| 0 <= i < |r| && r[i].used == u && c == Chunk(r[i].addr, r[i].size);
      FromMerged(cells, base, end, a, n, used, i);
    }
    forall c | c in AfterMerge(cells, a, n, used, u) ensures c in Chunks(r, u) {
      ToMerged(cells, a, n, used, u, c);
    }
  }

  lemma FromMerged(cells: seq<Cell>, base: nat, end: nat, a: nat, n: nat, used: bool, i: nat)
    requires Tiled(cells, base, end) && 0 < n && a + n <= |cells| && i < |cells| - n + 1
    ensures var c := Merged(cells, a, n, used)[i]; Chunk(c.addr, c.size) in AfterMerge(cells, a, n, used, c.used)
  {
    if i != a {
      var j := if i < a then i else i + n - 1;
      PieceOutside(cells, base, end, a, n, cells[j].used, j);
    }
  }

  lemma ToMerged(cells: seq<Cell>, a: nat, n: nat, used: bool, u: bool, c: Chunk)
    requires 0 < n && a + n <= |cells| && c in AfterMerge(cells, a, n, used, u)
    ensures c in Chunks(Merged(cells, a, n, used), u)
  {
    var r := Merged(cells, a, n, used);
    if c in Chunks(cells, u) - Pieces(cells, a, n, u) {
      var i :| 0 <= i < |cells| && cells[i].used == u && c == Chunk(cells[i].addr, cells[i].size);
      assert r[if i < a then i else i - (n - 1)] == cells[i];
    } else {
      assert r[a] == Cell(c.addr, c.size, u);
    }
  }

  ghost function AfterSplit(cells: seq<Cell>, a: nat, nb: nat, u: bool): set<Chunk>
    requires a < |cells| && nb <= cells[a].size
  {
    var c := cells[a];
    if u then Chunks(cells, true) + {Chunk(c.addr, nb)}
    else Chunks(cells, false) - {Chunk(c.addr, c.size)} + {Chunk(c.addr + nb, c.size - nb)}
  }

  lemma SplitChunks(cells: seq<Cell>, base: nat, end: nat, a: nat, nb: nat, u: bool)
    requires Tiled(cells, base, end) && a < |cells| && nb <= cells[a].size && !cells[a].used
    ensures Chunks(Split(cells, a, nb), u) == AfterSplit(cells, a, nb, u)
  {
    var r := Split(cells, a, nb);
    forall c | c in Chunks(r, u) ensures c in AfterSplit(cells, a, nb, u) {
      var i :| 0 <= i < |r| && r[i].used == u && c == Chunk(r[i].addr, r[i].size);
      FromSplit(cells, base, end, a, nb, i);
    }
    forall c | c in AfterSplit(cells, a, nb, u) ensures c in Chunks(r, u) {
      ToSplit(cells, a, nb, u, c);
    }
  }

  lemma FromSplit(cells: seq<Cell>, base: nat, end: nat, a: nat, nb: nat, i: nat)
    requires Tiled(cells, base, end) && a < |cells| && nb <= cells[a].size && !cells[a].used && i < |cells| + 1
    ensures var c := Split(cells, a, nb)[i]; Chunk(c.addr, c.size) in AfterSplit(cells, a, nb, c.used)
  {
    if i < a || i > a + 1 {
      var j := if i < a then i else i - 1;
      if cells[j].addr == cells[a].addr { SameAddr(cells, base, end, j, a); }
    }
  }

  lemma ToSplit(cells: seq<Cell>, a: nat, nb: nat, u: bool, c: Chunk)
    requires a < |cells| && nb <= cells[a].size && !cells[a].used && c in AfterSplit(cells, a, nb, u)
    ensures c in Chunks(Split(cells, a, nb), u)
  {
    var r, s := Split(cells, a, nb), cells[a];
    if c == (if u then Chunk(s.addr, nb) else Chunk(s.addr + nb, s.size - nb)) {
      assert r[if u then a else a + 1] == Cell(c.addr, c.size, u);
    } else {
      var i :| 0 <= i < |cells| && cells[i].used == u && c == Chunk(cells[i].addr, cells[i].size);
      assert r[if i < a then i else i + 1] == cells[i];
    }
  }

  // ---------- What the header writes leave ----------

  /** Everything below p and from beyond q on is as it was. */
  ghost predicate SameOutside(was: seq<Head>, now: seq<Head>, p: nat, q: nat) {
    |now| == |was| && forall x :: 0 <= x < |was| && (x < p || x > q) ==> now[x] == was[x]
  }

  ghost predicate SameFeet(was: seq<nat>, now: seq<nat>, p: nat, q: nat) {
    |now| == |was| && forall x :: 0 <= x < |was| && (x <= p || x > q) ==> now[x] == was[x]
  }

  /** A free chunk written over n chunks, in front of a used one. */
  lemma MergedTags(head: seq<Head>, feet: seq<nat>, cells: seq<Cell>, base: nat, top: nat, topSize: nat,
                   a: nat, n: nat, head': seq<Head>, feet': seq<nat>)
    requires Tiled(cells, base, top) && Tags(head, feet, cells, top, topSize) && 0 < n && a + n < |cells|
    requires PrevUsed(cells, a) && cells[a + n].used
    requires var p, q := cells[a].addr, cells[a + n].addr;
             && SameOutside(head, head', p, q) && SameFeet(feet, feet', p, q) && p < |head| && q < |head|
             && head'[p] == Head(Total(cells, a, n), false, true)
             && head'[q] == Head(cells[a + n].size, true, false) && feet'[q] == Total(cells, a, n)
    ensures Tags(head', feet', Merged(cells, a, n, false), top, topSize)
  {
    var r := Merged(cells, a, n, false);
    forall i | 0 <= i < |r| ensures TagOk(head', feet', r, i) {
      if i < a {
        TagBefore(head, feet, cells, base, top, topSize, a, i, head', feet');
        KeptTag(head', feet', cells, a, n, i);
      } else if i > a + 1 {
        TagAfter(head, feet, cells, base, top, topSize, a + n, i + n - 1, head', feet');
        KeptTag(head', feet', cells, a, n, i);
      } else {
        MergedTag(head, feet, cells, base, top, topSize, a, n, head', feet');
      }
    }
    AddrInside(cells, base, top, a + n);
  }

  lemma KeptTag(head: seq<Head>, feet: seq<nat>, cells: seq<Cell>, a: nat, n: nat, i: nat)
    requires 0 < n && a + n <= |cells| && i < |cells| - n + 1 && (i < a || i > a + 1)
    requires TagOk(head, feet, cells, if i < a then i else i + n - 1)
    ensures TagOk(head, feet, Merged(cells, a, n, false), i)
  {
  }

  /** The merged chunk itself and the one after it. */
  lemma MergedTag(head: seq<Head>, feet: seq<nat>, cells: seq<Cell>, base: nat, top: nat, topSize: nat,
                  a: nat, n: nat, head': seq<Head>, feet': seq<nat>)
    requires Tiled(cells, base, top) && Tags(head, feet, cells, top, topSize) && 0 < n && a + n < |cells|
    requires PrevUsed(cells, a) && cells[a + n].used && |head'| == |head| && |feet'| == |feet|
    requires var p, q := cells[a].addr, cells[a + n].addr;
             && p < |head| && q < |head| && feet'[q] == Total(cells, a, n)
             && head'[p] == Head(Total(cells, a, n), false, true)
             && head'[q] == Head(cells[a + n].size, true, false)
    ensures TagOk(head', feet', Merged(cells, a, n, false), a)
    ensures TagOk(head', feet', Merged(cells, a, n, false), a + 1)
  {
    TotalEnd(cells, base, top, a, n);
    assert TagOk(head, feet, cells, a + n);
  }

  lemma TagBefore(head: seq<Head>, feet: seq<nat>, cells: seq<Cell>, base: nat, top: nat, topSize: nat,
                  a: nat, i: nat, head': seq<Head>, feet': seq<nat>)
    requires Tiled(cells, base, top) && Tags(head, feet, cells, top, topSize) && i < a < |cells|
    requires |head'| == |head| && |feet'| == |feet|
    requires forall x :: 0 <= x < |head| && x < cells[a].addr ==> head'[x] == head[x]
    requires forall x :: 0 <= x < |feet| && x <= cells[a].addr ==> feet'[x] == feet[x]
    ensures TagOk(head', feet', cells, i)
  {
    assert TagOk(head, feet, cells, i);
    AddrBefore(cells, base, top, i, a);
  }

  lemma TagAfter(head: seq<Head>, feet: seq<nat>, cells: seq<Cell>, base: nat, top: nat, topSize: nat,
                 b: nat, j: nat, head': seq<Head>, feet': seq<nat>)
    requires Tiled(cells, base, top) && Tags(head, feet, cells, top, topSize) && b < j < |cells|
    requires |head'| == |head| && |feet'| == |feet|
    requires forall x :: 0 <= x < |head| && x > cells[b].addr ==> head'[x] == head[x]
    requires forall x :: 0 <= x < |feet| && x > cells[b].addr ==> feet'[x] == feet[x]
    ensures TagOk(head', feet', cells, j)
  {
    assert TagOk(head, feet, cells, j);
    AddrBefore(cells, base, top, b, j);
  }

  /** The chunks from position a on join the top. */
  lemma TopTags(head: seq<Head>, feet: seq<nat>, cells: seq<Cell>, base: nat, top: nat, topSize: nat,
                a: nat, head': seq<Head>, p: nat, topSize': nat)
    requires Tiled(cells, base, top) && Tags(head, feet, cells, top, topSize)
    requires a < |cells| && p == cells[a].addr && p + topSize' == top + topSize
    requires |head'| == |head| && (forall x :: 0 <= x < p ==> head'[x] == head[x]) && head'[p] == Head(topSize', false, true)
    ensures Tags(head', feet, cells[..a], p, topSize') && Tiled(cells[..a], base, p)
  {
    AddrInside(cells, base, top, a);
    forall i | 0 <= i < a ensures TagOk(head', feet, cells[..a], i) {
      assert TagOk(head, feet, cells, i);
      AddrBefore(cells, base, top, i, a);
    }
  }

  /** A chunk split off the bottom of the top. */
  lemma ExtendTags(head: seq<Head>, feet: seq<nat>, cells: seq<Cell>, base: nat, top: nat, topSize: nat,
                   nb: nat, head': seq<Head>)
    requires Tiled(cells, base, top) && Tags(head, feet, cells, top, topSize) && Coalesced(cells)
    requires nb < topSize && Sized(Cell(top, nb, true))
    requires head' == head[top + nb := Head(topSize - nb, false, true)][top := Head(nb, true, true)]
    ensures var r := cells + [Cell(top, nb, true)];
            Tags(head', feet, r, top + nb, topSize - nb) && Tiled(r, base, top + nb) && Coalesced(r)
  {
    var r := cells + [Cell(top, nb, true)];
    forall i | 0 <= i < |r| ensures TagOk(head', feet, r, i) {
      if i < |cells| {
        assert TagOk(head, feet, cells, i);
        AddrInside(cells, base, top, i);
      }
    }
  }

  /** A free chunk taken whole. */
  lemma TakenTags(head: seq<Head>, feet: seq<nat>, cells: seq<Cell>, base: nat, top: nat, topSize: nat,
                  a: nat, head': seq<Head>)
    requires Tiled(cells, base, top) && Tags(head, feet, cells, top, topSize) && Coalesced(cells)
    requires a < |cells| && !cells[a].used
    requires a + 1 < |cells| && cells[a + 1].addr < |head|
    requires head' == head[cells[a].addr := Head(cells[a].size, true, true)][cells[a + 1].addr := head[cells[a + 1].addr].(pinuse := true)]
    ensures Tags(head', feet, Merged(cells, a, 1, true), top, topSize)
  {
    var r := Merged(cells, a, 1, true);
    TotalEnd(cells, base, top, a, 1);
    AddrInside(cells, base, top, a + 1);
    forall i | 0 <= i < |r| ensures TagOk(head', feet, r, i) {
      if i < a {
        TagBefore(head, feet, cells, base, top, topSize, a, i, head', feet);
      } else if i > a + 1 {
        TagAfter(head, feet, cells, base, top, topSize, a + 1, i, head', feet);
      } else {
        assert TagOk(head, feet, cells, i);
      }
    }
  }

  /** A free chunk split into a used one and a free rest. */
  lemma SplitTags(head: seq<Head>, feet: seq<nat>, cells: seq<Cell>, base: nat, top: nat, topSize: nat,
                  a: nat, nb: nat, head': seq<Head>, feet': seq<nat>)
    requires Tiled(cells, base, top) && Tags(head, feet, cells, top, topSize) && Coalesced(cells)
    requires a < |cells| && !cells[a].used && 0 < nb < cells[a].size
    requires a + 1 < |cells| && cells[a + 1].addr < |head|
    requires var p, rest := cells[a].addr, cells[a].size - nb;
             && head' == head[p := Head(nb, true, true)][p + nb := Head(rest, false, true)]
             && feet' == feet[p + cells[a].size := rest]
    ensures Tags(head', feet', Split(cells, a, nb), top, topSize)
  {
    var r := Split(cells, a, nb);
    AddrInside(cells, base, top, a + 1);
    forall i | 0 <= i < |r| ensures TagOk(head', feet', r, i) {
      if i < a {
        TagBefore(head, feet, cells, base, top, topSize, a, i, head', feet');
        KeptSplitTag(head', feet', cells, a, nb, i);
      } else if i > a + 2 {
        TagAfter(head, feet, cells, base, top, topSize, a + 1, i - 1, head', feet');
        KeptSplitTag(head', feet', cells, a, nb, i);
      } else {
        NewSplitTags(head, feet, cells, base, top, topSize, a, nb, head', feet');
      }
    }
  }

  /** The tags of the two pieces, and of the chunk after them. */
  lemma NewSplitTags(head: seq<Head>, feet: seq<nat>, cells: seq<Cell>, base: nat, top: nat, topSize: nat,
                     a: nat, nb: nat, head': seq<Head>, feet': seq<nat>)
    requires Tiled(cells, base, top) && Tags(head, feet, cells, top, topSize) && Coalesced(cells)
    requires a + 1 < |cells| && !cells[a].used && 0 < nb < cells[a].size && cells[a + 1].addr < |head|
    requires var p, rest := cells[a].addr, cells[a].size - nb;
             && head' == head[p := Head(nb, true, true)][p + nb := Head(rest, false, true)]
             && feet' == feet[p + cells[a].size := rest]
    ensures TagOk(head', feet', Split(cells, a, nb), a) && TagOk(head', feet', Split(cells, a, nb), a + 1)
    ensures TagOk(head', feet', Split(cells, a, nb), a + 2)
  {
    AddrInside(cells, base, top, a + 1);
    assert TagOk(head, feet, cells, a) && TagOk(head, feet, cells, a + 1);
    assert cells[a].addr + cells[a].size == cells[a + 1].addr;
  }

  lemma KeptSplitTag(head: seq<Head>, feet: seq<nat>, cells: seq<Cell>, a: nat, nb: nat, i: nat)
    requires a < |cells| && nb <= cells[a].size && i < |cells| + 1 && (i < a || i > a + 2)
    requires TagOk(head, feet, cells, if i < a then i else i - 1)
    ensures TagOk(head, feet, Split(cells, a, nb), i)
  {
  }

  lemma MergedCoalesced(cells: seq<Cell>, a: nat, n: nat, used: bool)
    requires Coalesced(cells) && 0 < n && a + n <= |cells| && PrevUsed(cells, a)
    requires !used ==> a + n < |cells| && cells[a + n].used
    ensures Coalesced(Merged(cells, a, n, used))
  {
  }

  lemma SplitCoalesced(cells: seq<Cell>, a: nat, nb: nat)
    requires Coalesced(cells) && a + 1 < |cells| && nb <= cells[a].size && !cells[a].used
    ensures Coalesced(Split(cells, a, nb))
  {
  }

  lemma TopChunks(cells: seq<Cell>, base: nat, end: nat, a: nat, u: bool)
    requires Tiled(cells, base, end) && a <= |cells|
    ensures Chunks(cells[..a], u) == Chunks(cells, u) - Pieces(cells, a, |cells| - a, u)
  {
    forall i | 0 <= i < a ensures Chunk(cells[i].addr, cells[i].size) !in Pieces(cells, a, |cells| - a, u) {
      PieceOutside(cells, base, end, a, |cells| - a, u, i);
    }
    forall i | 0 <= i < a && cells[i].used == u ensures Chunk(cells[i].addr, cells[i].size) in Chunks(cells[..a], u) {
      assert cells[..a][i] == cells[i];
    }
  }

  lemma ExtendChunks(cells: seq<Cell>, c: Cell, u: bool)
    ensures Chunks(cells + [c], u) == Chunks(cells, u) + if c.used == u then {Chunk(c.addr, c.size)} else {}
  {
    var r := cells + [c];
    assert r[|cells|] == c;
    forall i | 0 <= i < |cells| ensures r[i] == cells[i] {}
  }

  /** The chunk a merge makes was in no bin before. */
  lemma MergedIsNew(cells: seq<Cell>, base: nat, end: nat, a: nat, n: nat, s: nat)
    requires Tiled(cells, base, end) && 0 < n && a + n <= |cells|
    ensures Chunk(cells[a].addr, s) !in Chunks(cells, false) - Pieces(cells, a, n, false)
  {
    if Chunk(cells[a].addr, s) in Chunks(cells, false) {
      var i :| 0 <= i < |cells| && !cells[i].used && Chunk(cells[a].addr, s) == Chunk(cells[i].addr, cells[i].size);
      SameAddr(cells, base, end, i, a);
    }
  }

  lemma IndexOf(cells: seq<Cell>, u: bool, c: Chunk) returns (i: nat)
    requires c in Chunks(cells, u)
    ensures i < |cells| && cells[i] == Cell(c.addr, c.size, u)
  {
    i :| i < |cells| && cells[i].used == u && c == Chunk(cells[i].addr, cells[i].size);
  }

  lemma FreeNotUsed(cells: seq<Cell>, base: nat, end: nat, i: nat, s: nat)
    requires Tiled(cells, base, end) && i < |cells| && !cells[i].used
    ensures Chunk(cells[i].addr, s) !in Chunks(cells, true)
  {
    forall j | 0 <= j < |cells| && cells[j].used ensures cells[j].addr != cells[i].addr {
      if cells[j].addr == cells[i].addr { SameAddr(cells, base, end, i, j); }
    }
  }

  /** A free chunk is followed by a used one, inside the tiling. */
  lemma AfterFree(head: seq<Head>, feet: seq<nat>, cells: seq<Cell>, base: nat, top: nat, topSize: nat, i: nat)
    requires Tiled(cells, base, top) && Coalesced(cells) && Tags(head, feet, cells, top, topSize)
    requires i < |cells| && !cells[i].used
    ensures i + 1 < |cells| && cells[i + 1].used && cells[i + 1].addr == cells[i].addr + cells[i].size < |head|
    ensures PrevUsed(cells, i)
  {
    AddrInside(cells, base, top, i);
  }

  /** The rest of a split starts where no chunk started before. */
  lemma RestIsNew(cells: seq<Cell>, base: nat, end: nat, i: nat, nb: nat, s: nat)
    requires Tiled(cells, base, end) && i < |cells| && 0 < nb < cells[i].size
    ensures forall j :: 0 <= j < |cells| ==> cells[j].addr != cells[i].addr + nb
    ensures Chunk(cells[i].addr + nb, s) !in Chunks(cells, false)
  {
    forall j | 0 <= j < |cells| ensures cells[j].addr != cells[i].addr + nb {
      if j < i { AddrBefore(cells, base, end, j, i); } else if j > i { AddrBefore(cells, base, end, i, j); }
    }
  }

  // ---------- The bins ----------

  ghost function SmallSet(small: seq<seq<nat>>): set<Chunk> {
    set i, x | 0 <= i < |small| && x in small[i] :: Chunk(x, 8 * i)
  }

  ghost function BinSet(small: seq<seq<nat>>, trees: seq<Tree>): set<Chunk> { SmallSet(small) + Binned(trees) }

  ghost predicate BinsGood(small: seq<seq<nat>>, trees: seq<Tree>) {
    && |small| == NSMALLBINS && BinsOk(trees)
    && forall i :: 0 <= i < NSMALLBINS ==> Distinct(small[i])
  }

  /** insert_chunk. */
  function PutSmall(small: seq<seq<nat>>, p: nat, s: nat): seq<seq<nat>>
    requires s / 8 < |small|
  {
    small[s / 8 := [p] + small[s / 8]]
  }

  /** unlink_chunk. */
  function TakeSmall(small: seq<seq<nat>>, p: nat, s: nat): seq<seq<nat>>
    requires s / 8 < |small|
  {
    small[s / 8 := Without(small[s / 8], p)]
  }

  lemma TreesAreLarge(trees: seq<Tree>, c: Chunk)
    requires BinsOk(trees) && c in Binned(trees)
    ensures 256 <= c.size < 0x100_0000_0000
  {
    var i :| 0 <= i < |trees| && c in Items(trees[i]);
    assert BinOk(trees[i], i);
  }

  lemma PutSmallOk(small: seq<seq<nat>>, trees: seq<Tree>, p: nat, s: nat)
    requires BinsGood(small, trees) && s < 256 && s % 8 == 0 && Chunk(p, s) !in BinSet(small, trees)
    ensures BinsGood(PutSmall(small, p, s), trees)
    ensures BinSet(PutSmall(small, p, s), trees) == BinSet(small, trees) + {Chunk(p, s)}
  {
    var i, small' := s / 8, PutSmall(small, p, s);
    assert Chunk(p, 8 * i) !in SmallSet(small);
    DistinctCons(p, small[i]);
    forall c | c in SmallSet(small) + {Chunk(p, s)} ensures c in SmallSet(small') {
      if c == Chunk(p, s) {
        assert p in small'[i];
      } else {
        var j, x :| 0 <= j < |small| && x in small[j] && c == Chunk(x, 8 * j);
        assert x in small'[j];
      }
    }
  }

  lemma TakeSmallOk(small: seq<seq<nat>>, trees: seq<Tree>, p: nat, s: nat)
    requires BinsGood(small, trees) && s < 256 && Chunk(p, s) in BinSet(small, trees)
    ensures s % 8 == 0 && p in small[s / 8]
    ensures BinsGood(TakeSmall(small, p, s), trees)
    ensures BinSet(TakeSmall(small, p, s), trees) == BinSet(small, trees) - {Chunk(p, s)}
  {
    if Chunk(p, s) in Binned(trees) { TreesAreLarge(trees, Chunk(p, s)); }
    var k, y :| 0 <= k < |small| && y in small[k] && Chunk(p, s) == Chunk(y, 8 * k);
    var i, small' := s / 8, TakeSmall(small, p, s);
    WithoutItems(small[i], p);
    forall c | c in SmallSet(small) - {Chunk(p, s)} ensures c in SmallSet(small') {
      var j, x :| 0 <= j < |small| && x in small[j] && c == Chunk(x, 8 * j);
      assert x in small'[j];
    }
    forall c | c in SmallSet(small') ensures c in SmallSet(small) - {Chunk(p, s)} {
      var j, x :| 0 <= j < |small'| && x in small'[j] && c == Chunk(x, 8 * j);
      assert x in small[j];
    }
  }

  // ---------- Where the free chunks are ----------

  ghost function DvSet(dv: nat, dvSize: nat): set<Chunk> { if dvSize == 0 then {} else {Chunk(dv, dvSize)} }

  /** Every free chunk is in exactly one place; the loose ones are in the hands of the running operation. */
  ghost predicate Placed(free: set<Chunk>, binned: set<Chunk>, dv: nat, dvSize: nat, loose: set<Chunk>) {
    && free == binned + DvSet(dv, dvSize) + loose
    && binned !! DvSet(dv, dvSize) && loose !! binned + DvSet(dv, dvSize)
    && (dvSize == 0 <==> dv == 0)
  }

  /** pad_request. */
  function PadRequest(bytes: nat): nat { (bytes + 8 + 15) / 16 * 16 }

  /** A chunk of n bytes may serve the request: it is a chunk, and holds the bytes and the size word. */
  predicate Serves(n: nat, bytes: nat) { n >= MIN_CHUNK && n % ALIGN == 0 && n >= bytes + 8 }

  /** The least size that serves the request. */
  ghost predicate LeastFor(nb: nat, bytes: nat) {
    Serves(nb, bytes) && forall n: nat :: Serves(n, bytes) ==> nb <= n
  }

  function Ceiling(bytes: nat): nat { if bytes <= MIN_CHUNK - 8 then MIN_CHUNK else bytes + 7 + ALIGN }

  /** request2size: the least chunk size that serves, which is less than 16 bytes more than what is needed. */
  function ChunkFor(bytes: nat): (nb: nat)
    ensures LeastFor(nb, bytes) && nb >= MIN_CHUNK && nb % ALIGN == 0 && nb >= bytes + 8
    ensures nb <= Ceiling(bytes)
    ensures bytes <= MAX_SMALL_REQUEST <==> nb < 256
  {
    PadIsLeast(bytes);
    if bytes < MIN_CHUNK - 8 - 1 then MIN_CHUNK else PadRequest(bytes)
  }

  /** Rounding up gives the least multiple. */
  lemma PadIsLeast(bytes: nat)
    ensures PadRequest(bytes) % ALIGN == 0 && bytes + 8 <= PadRequest(bytes) < bytes + 8 + ALIGN
    ensures forall n: nat :: n % ALIGN == 0 && n >= bytes + 8 ==> PadRequest(bytes) <= n
  {
    var q := (bytes + 23) / 16;
    assert PadRequest(bytes) == 16 * q;
    forall n: nat | n % ALIGN == 0 && n >= bytes + 8 ensures PadRequest(bytes) <= n {
      assert n == 16 * (n / 16);
    }
  }

  // ---------- The heap ----------

  class Heap {
    const base: nat
    const limit: nat
    var head: array<Head>
    var feet: array<nat>                  // the word before a chunk: its predecessor's size, when that is free
    var top: nat
    var topSize: nat
    var dv: nat
    var dvSize: nat
    var small: seq<seq<nat>>
    var trees: seq<Tree>
    ghost var cells: seq<Cell>

    /** Chunks tile the segment below the top, and heads and feet agree. */
    ghost predicate Tidy()
      reads this, head, feet
    {
      && 0 < base && limit < 0x100_0000_0000 && top + topSize == limit && topSize > 0
      && Laid(head[..], feet[..], cells, base, top, topSize)
      && BinsGood(small, trees)
    }

    ghost predicate Holding(loose: set<Chunk>)
      reads this, head, feet
    {
      Tidy() && Placed(Chunks(cells, false), BinSet(small, trees), dv, dvSize, loose)
    }

    ghost predicate Valid()
      reads this, head, feet
    {
      Holding({})
    }

    ghost function Used(): set<Chunk>
      reads this
    {
      Chunks(cells, true)
    }

    ghost function FreeSet(): set<Chunk>
      reads this
    {
      Chunks(cells, false)
    }

    constructor (base: nat, limit: nat)
      requires 0 < base < limit < 0x100_0000_0000
      ensures Valid() && Used() == {} && FreeSet() == {} && top == base && topSize == limit - base
      ensures this.base == base && this.limit == limit && fresh(head) && fresh(feet)
    {
      this.base, this.limit := base, limit;
      head := new Head[limit + 1](x requires 0 <= x < limit + 1 => if x == base then Head(limit - base, false, true) else Head(0, false, false));
      feet := new nat[limit + 1](_ => 0);
      top, topSize, dv, dvSize := base, limit - base, 0, 0;
      small, trees := seq(NSMALLBINS, _ => []), seq(NTREEBINS, _ => Nil);
      cells := [];
    }

    /** insert_chunk. */
    method InsertChunk(p: nat, s: nat, ghost loose: set<Chunk>)
      requires Holding(loose) && Chunk(p, s) in loose
      modifies `small, `trees
      ensures Holding(loose - {Chunk(p, s)})
    {
      LooseShape(p, s, loose);
      if s < 256 {
        PutSmallOk(small, trees, p, s);
        small := PutSmall(small, p, s);
      } else {
        InsertLargeOk(trees, p, s);
        trees := InsertLarge(trees, p, s);
      }
    }

    lemma LooseShape(p: nat, s: nat, loose: set<Chunk>)
      requires Holding(loose) && Chunk(p, s) in loose
      ensures MIN_CHUNK <= s < 0x100_0000_0000 && s % ALIGN == 0 && Chunk(p, s) !in BinSet(small, trees)
    {
      var i :| 0 <= i < |cells| && !cells[i].used && Chunk(p, s) == Chunk(cells[i].addr, cells[i].size);
      AddrInside(cells, base, top, i);
      assert Sized(cells[i]);
    }

    /** unlink_chunk. */
    method UnlinkChunk(p: nat, s: nat, ghost loose: set<Chunk>)
      requires Holding(loose) && Chunk(p, s) in BinSet(small, trees)
      modifies `small, `trees
      ensures Holding(loose + {Chunk(p, s)})
    {
      if s < 256 {
        TakeSmallOk(small, trees, p, s);
        small := TakeSmall(small, p, s);
      } else {
        UnlinkLargeOk(trees, p, s);
        NotSmall(p, s);
        trees := UnlinkLarge(trees, p, s);
      }
    }

    method UnlinkOne(p: nat, s: nat)
      requires Valid() && Chunk(p, s) in BinSet(small, trees)
      modifies `small, `trees
      ensures Holding({Chunk(p, s)})
    {
      UnlinkChunk(p, s, {});
      assert {} + {Chunk(p, s)} == {Chunk(p, s)};
    }

    lemma NotSmall(p: nat, s: nat)
      requires BinsGood(small, trees) && s >= 256
      ensures Chunk(p, s) !in SmallSet(small)
    {
    }

    /** set_inuse_and_pinuse on a free chunk. */
    method TakeWhole(p: nat, s: nat, ghost loose: set<Chunk>)
      requires Holding(loose) && Chunk(p, s) in loose
      modifies head, `cells
      ensures Holding(loose - {Chunk(p, s)}) && Used() == old(Used()) + {Chunk(p, s)}
      ensures Chunk(p, s) !in old(Used())
    {
      ghost var a := IndexOf(cells, false, Chunk(p, s));
      FreeNotUsed(cells, base, top, a, s);
      ghost var was := head[..];
      AfterFree(was, feet[..], cells, base, top, topSize, a);
      AddrInside(cells, base, top, a);
      head[p] := Head(s, true, true);
      head[p + s] := head[p + s].(pinuse := true);
      TakenTags(was, feet[..], cells, base, top, topSize, a, head[..]);
      MergedTiled(cells, base, top, a, 1, true);
      MergedCoalesced(cells, a, 1, true);
      TakenChunks(cells, base, top, a);
      cells := Merged(cells, a, 1, true);
    }

    /** The first nb bytes are taken, the rest becomes a free chunk. */
    method SplitFrom(p: nat, s: nat, nb: nat, ghost loose: set<Chunk>)
      requires Holding(loose) && Chunk(p, s) in loose
      requires MIN_CHUNK <= nb && nb % ALIGN == 0 && nb + MIN_CHUNK <= s
      modifies head, feet, `cells
      ensures Holding(loose - {Chunk(p, s)} + {Chunk(p + nb, s - nb)})
      ensures Used() == old(Used()) + {Chunk(p, nb)} && Chunk(p, nb) !in old(Used())
    {
      ghost var a := IndexOf(cells, false, Chunk(p, s));
      FreeNotUsed(cells, base, top, a, nb);
      ghost var was, wasFeet := head[..], feet[..];
      AfterFree(was, wasFeet, cells, base, top, topSize, a);
      AddrInside(cells, base, top, a);
      head[p] := Head(nb, true, true);
      head[p + nb] := Head(s - nb, false, true);
      feet[p + s] := s - nb;
      SplitLaid(was, wasFeet, cells, base, top, topSize, a, nb, head[..], feet[..]);
      PlacedSwap(FreeSet(), BinSet(small, trees), dv, dvSize, loose, {Chunk(p, s)}, Chunk(p + nb, s - nb));
      cells := Split(cells, a, nb);
    }

    /** The only loose chunk is used whole. */
    method TakeAll(p: nat, s: nat)
      requires Holding({Chunk(p, s)})
      modifies head, `cells
      ensures Valid() && Used() == old(Used()) + {Chunk(p, s)} && Chunk(p, s) !in old(Used())
    {
      TakeWhole(p, s, {Chunk(p, s)});
      assert {Chunk(p, s)} - {Chunk(p, s)} == {};
    }

    /** The only loose chunk is split. */
    method SplitOne(p: nat, s: nat, nb: nat)
      requires Holding({Chunk(p, s)}) && MIN_CHUNK <= nb && nb % ALIGN == 0 && nb + MIN_CHUNK <= s
      modifies head, feet, `cells
      ensures Holding({Chunk(p + nb, s - nb)})
      ensures Used() == old(Used()) + {Chunk(p, nb)} && Chunk(p, nb) !in old(Used())
    {
      SplitFrom(p, s, nb, {Chunk(p, s)});
      assert {Chunk(p, s)} - {Chunk(p, s)} + {Chunk(p + nb, s - nb)} == {Chunk(p + nb, s - nb)};
    }

    /** replace_dv: the old victim, known to be small, goes to its bin. */
    method ReplaceDv(p: nat, s: nat, ghost loose: set<Chunk>)
      requires Holding(loose) && Chunk(p, s) in loose && dvSize < 256
      modifies `small, `dv, `dvSize
      ensures Holding(loose - {Chunk(p, s)}) && dv == p && dvSize == s
    {
      LooseShape(p, s, loose);
      NewDv(p, s, loose);
      if dvSize != 0 {
        DvShape(loose);
        PutSmallOk(small, trees, dv, dvSize);
        small := PutSmall(small, dv, dvSize);
      }
      dv, dvSize := p, s;
    }

    lemma NewDv(p: nat, s: nat, loose: set<Chunk>)
      requires Holding(loose) && Chunk(p, s) in loose
      ensures p > 0 && s > 0
    {
      var i := IndexOf(cells, false, Chunk(p, s));
      AddrInside(cells, base, top, i);
      assert Sized(cells[i]);
    }

    lemma DvShape(loose: set<Chunk>)
      requires Holding(loose) && dvSize != 0
      ensures MIN_CHUNK <= dvSize && dvSize % ALIGN == 0 && Chunk(dv, dvSize) in FreeSet()
    {
      var i := IndexOf(cells, false, Chunk(dv, dvSize));
      assert Sized(cells[i]);
    }

    /** The victim is taken in hand. */
    method DropDv()
      requires Valid() && dvSize != 0
      modifies `dv, `dvSize
      ensures Holding({Chunk(old(dv), old(dvSize))}) && dvSize == 0
    {
      dv, dvSize := 0, 0;
    }

    /** Splits a chunk in hand; the rest goes to its bin. */
    method SplitToBin(p: nat, s: nat, nb: nat)
      requires Holding({Chunk(p, s)}) && MIN_CHUNK <= nb && nb % ALIGN == 0 && nb + MIN_CHUNK <= s
      modifies head, feet, `cells, `small, `trees
      ensures Valid() && Used() == old(Used()) + {Chunk(p, nb)} && Chunk(p, nb) !in old(Used())
    {
      ghost var r := Chunk(p + nb, s - nb);
      SplitOne(p, s, nb);
      assert {r} - {r} == {};
      InsertChunk(p + nb, s - nb, {r});
    }

    /** Splits a chunk in hand; the rest becomes the victim. */
    method SplitToDv(p: nat, s: nat, nb: nat)
      requires Holding({Chunk(p, s)}) && MIN_CHUNK <= nb && nb % ALIGN == 0 && nb + MIN_CHUNK <= s && dvSize < 256
      modifies head, feet, `cells, `small, `dv, `dvSize
      ensures Valid() && Used() == old(Used()) + {Chunk(p, nb)} && Chunk(p, nb) !in old(Used())
      ensures dv == p + nb && dvSize == s - nb
    {
      ghost var r := Chunk(p + nb, s - nb);
      SplitOne(p, s, nb);
      assert {r} - {r} == {};
      ReplaceDv(p + nb, s - nb, {r});
    }

    /** A binned chunk that fits is unlinked and used whole, or split with the rest becoming the victim. */
    method UseForSmall(p: nat, s: nat, nb: nat)
      requires Valid() && Chunk(p, s) in BinSet(small, trees) && dvSize < nb <= s && nb < 256
      requires MIN_CHUNK <= nb && nb % ALIGN == 0
      modifies this, head, feet
      ensures Valid() && Got(p, if s - nb < MIN_CHUNK then s else nb, nb, old(Used()))
      ensures head == old(head) && feet == old(feet) && top == old(top) && topSize == old(topSize)
      ensures if s - nb < MIN_CHUNK then dv == old(dv) && dvSize == old(dvSize) else dv == p + nb && dvSize == s - nb
    {
      UnlinkOne(p, s);
      if s - nb < MIN_CHUNK {
        TakeAll(p, s);
      } else {
        SplitToDv(p, s, nb);
      }
    }

    /** tmalloc_large's use of what it found: the rest goes to a bin. */
    method UseForLarge(p: nat, s: nat, nb: nat)
      requires Valid() && Chunk(p, s) in BinSet(small, trees) && nb <= s && MIN_CHUNK <= nb && nb % ALIGN == 0
      modifies this, head, feet
      ensures Valid() && Got(p, if s - nb < MIN_CHUNK then s else nb, nb, old(Used()))
      ensures head == old(head) && feet == old(feet) && top == old(top) && topSize == old(topSize)
      ensures dv == old(dv) && dvSize == old(dvSize)
    {
      UnlinkOne(p, s);
      if s - nb < MIN_CHUNK {
        TakeAll(p, s);
      } else {
        SplitToBin(p, s, nb);
      }
    }

    /** The victim serves the request: split when the rest makes a chunk, used up otherwise. */
    method UseDv(nb: nat) returns (p: nat)
      requires Valid() && MIN_CHUNK <= nb <= dvSize && nb % ALIGN == 0
      modifies this, head, feet
      ensures Valid() && p == old(dv)
      ensures Got(p, if old(dvSize) - nb < MIN_CHUNK then old(dvSize) else nb, nb, old(Used()))
      ensures head == old(head) && feet == old(feet) && top == old(top) && topSize == old(topSize)
      ensures if old(dvSize) - nb < MIN_CHUNK then dvSize == 0 else dv == p + nb && dvSize == old(dvSize) - nb
    {
      p := dv;
      var s := dvSize;
      DropDv();
      if s - nb >= MIN_CHUNK {
        SplitToDv(p, s, nb);
      } else {
        TakeAll(p, s);
      }
    }

    /** Cut from the bottom of the top. */
    method UseTop(nb: nat) returns (p: nat)
      requires Valid() && MIN_CHUNK <= nb < topSize && nb % ALIGN == 0
      modifies this, head
      ensures Valid() && p == old(top) && Got(p, nb, nb, old(Used()))
      ensures head == old(head) && feet == old(feet) && top == old(top) + nb
      ensures dv == old(dv) && dvSize == old(dvSize)
    {
      p := top;
      ghost var was, c := head[..], Cell(top, nb, true);
      TopIsNew(cells, base, top, nb);
      head[top + nb] := Head(topSize - nb, false, true);
      head[top] := Head(nb, true, true);
      ExtendTags(was, feet[..], cells, base, top, topSize, nb, head[..]);
      ExtendChunks(cells, c, true);
      ExtendChunks(cells, c, false);
      topSize, top, cells := topSize - nb, top + nb, cells + [c];
    }

    /** A chunk of at least nb bytes, and less than a minimal chunk more, is newly in use. */
    ghost predicate Got(p: nat, s: nat, nb: nat, before: set<Chunk>)
      reads this
    {
      nb <= s < nb + MIN_CHUNK && Chunk(p, s) !in before && Used() == before + {Chunk(p, s)}
    }

    /** Address p is that of a smallest chunk of the pool that is at least nb. */
    ghost predicate Best(pool: set<Chunk>, p: nat, nb: nat) {
      exists c :: c in pool && c.addr == p && BestFit(pool, nb, Some(c))
    }

    /** The lowest non-empty small bin from i on. */
    method NextSmall(from: nat) returns (i: nat)
      requires BinsGood(small, trees) && from <= NSMALLBINS
      ensures from <= i <= NSMALLBINS && (i < NSMALLBINS ==> small[i] != [])
      ensures forall j :: from <= j < i ==> small[j] == []
    {
      i := from;
      while i < NSMALLBINS && small[i] == []
        invariant from <= i <= NSMALLBINS && forall j :: from <= j < i ==> small[j] == []
      {
        i := i + 1;
      }
    }

    /** The small path of malloc up to the victim: an exact or next fit, then the next bin, then the trees. */
    method MallocSmall(nb: nat) returns (mem: Option<nat>, ghost s: nat)
      requires Valid() && MIN_CHUNK <= nb <= 240 && nb % ALIGN == 0
      modifies this, head, feet
      ensures Valid() && head == old(head) && feet == old(feet) && top == old(top) && topSize == old(topSize)
      ensures mem.Some? ==> Got(mem.value, s, nb, old(Used())) && Best(old(FreeSet()), mem.value, nb)
      ensures mem.None? ==> Used() == old(Used()) && FreeSet() == old(FreeSet()) && dv == old(dv) && dvSize == old(dvSize)
      ensures mem.None? && dvSize < nb ==> forall c :: c in FreeSet() ==> c.size < nb
      ensures mem.None? ==> NoOther(FreeSet(), dv, nb)
    {
      var idx := nb / 8;
      if small[idx] != [] || small[idx + 1] != [] {
        var p;
        p, s := FromExact(nb, if small[idx] != [] then idx else idx + 1);
        mem := Some(p);
      } else if nb > dvSize {
        NothingExact(nb);
        mem, s := MallocBinned(nb);
      } else {
        NothingExact(nb);
        mem, s := None, 0;
      }
    }

    /** With its own bin empty, only the victim may be an exact fit. */
    lemma NothingExact(nb: nat)
      requires Valid() && nb <= 240 && small[nb / 8] == []
      ensures NoOther(FreeSet(), dv, nb)
    {
      forall c | c in FreeSet() && c.size == nb ensures c.addr == dv {
        if c in SmallSet(small) {
          var j, x :| 0 <= j < |small| && x in small[j] && c == Chunk(x, 8 * j);
        } else if c in Binned(trees) {
          TreesAreLarge(trees, c);
        }
      }
    }

    /** The first chunk of the request's own small bin, or of the one after it, is taken whole. */
    method FromExact(nb: nat, i: nat) returns (p: nat, ghost s: nat)
      requires Valid() && MIN_CHUNK <= nb <= 240 && nb % ALIGN == 0
      requires nb / 8 <= i <= nb / 8 + 1 && small[i] != [] && forall j :: nb / 8 <= j < i ==> small[j] == []
      modifies this, head, feet
      ensures Valid() && head == old(head) && feet == old(feet) && top == old(top) && topSize == old(topSize)
      ensures Got(p, s, nb, old(Used())) && Best(old(FreeSet()), p, nb)
    {
      p := small[i][0];
      FirstSmallIsBest(nb, i, p);
      BinFits(nb, i);
      s := 8 * i;
      TakeExact(p, 8 * i);
    }

    /** When the victim is too small: the next non-empty small bin, or the smallest chunk of the trees. */
    method MallocBinned(nb: nat) returns (mem: Option<nat>, ghost s: nat)
      requires Valid() && MIN_CHUNK <= nb <= 240 && nb % ALIGN == 0 && dvSize < nb
      requires small[nb / 8] == [] && small[nb / 8 + 1] == []
      modifies this, head, feet
      ensures Valid() && head == old(head) && feet == old(feet) && top == old(top) && topSize == old(topSize)
      ensures mem.Some? ==> Got(mem.value, s, nb, old(Used())) && Best(old(FreeSet()), mem.value, nb)
      ensures mem.None? ==> Used() == old(Used()) && FreeSet() == old(FreeSet()) && dv == old(dv) && dvSize == old(dvSize)
      ensures mem.None? ==> forall c :: c in FreeSet() ==> c.size < nb
    {
      var i := NextSmall(nb / 8 + 1);
      if i < NSMALLBINS {
        var p;
        p, s := FromSmall(nb, i);
        mem := Some(p);
      } else {
        mem, s := FromTrees(nb);
      }
    }

    /** The next non-empty small bin serves the request. */
    method FromSmall(nb: nat, i: nat) returns (p: nat, ghost s: nat)
      requires Valid() && MIN_CHUNK <= nb <= 240 && nb % ALIGN == 0 && dvSize < nb
      requires nb / 8 <= i < NSMALLBINS && small[i] != [] && forall j :: nb / 8 <= j < i ==> small[j] == []
      modifies this, head, feet
      ensures Valid() && head == old(head) && feet == old(feet) && top == old(top) && topSize == old(topSize)
      ensures Got(p, s, nb, old(Used())) && Best(old(FreeSet()), p, nb)
    {
      p := small[i][0];
      FirstSmallIsBest(nb, i, p);
      BinFits(nb, i);
      s := if 8 * i - nb < MIN_CHUNK then 8 * i else nb;
      UseForSmall(p, 8 * i, nb);
    }

    /** tmalloc_small: the smallest chunk of the trees serves the request. */
    method FromTrees(nb: nat) returns (mem: Option<nat>, ghost s: nat)
      requires Valid() && MIN_CHUNK <= nb <= 240 && nb % ALIGN == 0 && dvSize < nb
      requires forall j :: nb / 8 <= j < NSMALLBINS ==> small[j] == []
      modifies this, head, feet
      ensures Valid() && head == old(head) && feet == old(feet) && top == old(top) && topSize == old(topSize)
      ensures mem.Some? ==> Got(mem.value, s, nb, old(Used())) && Best(old(FreeSet()), mem.value, nb)
      ensures mem.None? ==> Used() == old(Used()) && FreeSet() == old(FreeSet()) && dv == old(dv) && dvSize == old(dvSize)
      ensures mem.None? ==> forall c :: c in FreeSet() ==> c.size < nb
    {
      var t := NextBin(trees, 0);
      if t == |trees| {
        NothingSmall(nb);
        return None, 0;
      }
      var v := FindSmall(trees, nb);
      LeastTreeIsBest(nb, v);
      s := if v.size - nb < MIN_CHUNK then v.size else nb;
      UseForSmall(v.addr, v.size, nb);
      mem := Some(v.addr);
    }

    method TakeExact(p: nat, s: nat)
      requires Valid() && Chunk(p, s) in BinSet(small, trees) && s < 256
      modifies this, head, feet
      ensures Valid() && Used() == old(Used()) + {Chunk(p, s)} && Chunk(p, s) !in old(Used())
      ensures head == old(head) && feet == old(feet) && top == old(top) && topSize == old(topSize)
    {
      UnlinkOne(p, s);
      TakeAll(p, s);
    }

    /** Small bins hold one size each; an odd one is empty, since sizes are multiples of ALIGN. */
    lemma SmallChunk(i: nat, p: nat)
      requires Valid() && i < |small| && p in small[i]
      ensures Chunk(p, 8 * i) in BinSet(small, trees) && (8 * i) % ALIGN == 0
    {
      assert Chunk(p, 8 * i) in SmallSet(small);
      var a := IndexOf(cells, false, Chunk(p, 8 * i));
      assert Sized(cells[a]);
    }

    /** The first non-empty small bin from nb's own on holds a best fit, unless the victim fits better. */
    lemma FirstSmallIsBest(nb: nat, i: nat, p: nat)
      requires Valid() && nb % ALIGN == 0 && nb / 8 <= i < |small| && p in small[i]
      requires forall j :: nb / 8 <= j < i ==> small[j] == []
      requires i <= nb / 8 + 1 || dvSize < nb
      ensures Chunk(p, 8 * i) in BinSet(small, trees) && Best(FreeSet(), p, nb)
    {
      SmallChunk(i, p);
      BinFits(nb, i);
      forall c | c in FreeSet() && c.size >= nb ensures 8 * i <= c.size {
        if c in SmallSet(small) {
          var j, x :| 0 <= j < |small| && x in small[j] && c == Chunk(x, 8 * j);
        } else if c in Binned(trees) {
          TreesAreLarge(trees, c);
        } else {
          var a := IndexOf(cells, false, c);
          assert Sized(cells[a]);
        }
      }
      assert BestFit(FreeSet(), nb, Some(Chunk(p, 8 * i)));
    }

    /** With no small chunk that fits, the smallest of the trees is the best fit. */
    lemma LeastTreeIsBest(nb: nat, v: Chunk)
      requires Valid() && dvSize < nb && BestFit(Binned(trees), nb, Some(v))
      requires forall i :: nb / 8 <= i < NSMALLBINS ==> small[i] == []
      ensures v in FreeSet() && Best(FreeSet(), v.addr, nb)
    {
      forall c | c in SmallSet(small) ensures c.size < nb {
        var i, x :| 0 <= i < |small| && x in small[i] && c == Chunk(x, 8 * i);
        assert i < nb / 8;
      }
      assert BestFit(FreeSet(), nb, Some(v));
    }

    lemma NothingSmall(nb: nat)
      requires Valid() && nb <= 240 && dvSize < nb
      requires forall i :: nb / 8 <= i < NSMALLBINS ==> small[i] == []
      requires forall i :: 0 <= i < |trees| ==> trees[i].Nil?
      ensures forall c :: c in FreeSet() ==> c.size < nb
    {
      assert Binned(trees) == {};
      forall c | c in FreeSet() ensures c.size < nb {
        if c in SmallSet(small) {
          var i, x :| 0 <= i < |small| && x in small[i] && c == Chunk(x, 8 * i);
          assert i < nb / 8;
        }
      }
    }

    /** tmalloc_large: the best fit in the trees, unless the victim fits better. */
    method MallocLarge(nb: nat) returns (mem: Option<nat>, ghost s: nat)
      requires Valid() && 256 <= nb < 0x100_0000_0000 && nb % ALIGN == 0
      modifies this, head, feet
      ensures Valid() && head == old(head) && feet == old(feet) && top == old(top) && topSize == old(topSize)
      ensures mem.Some? ==> Got(mem.value, s, nb, old(Used())) && Best(old(FreeSet()), mem.value, nb)
      ensures mem.None? ==> Used() == old(Used()) && FreeSet() == old(FreeSet()) && dv == old(dv) && dvSize == old(dvSize)
      ensures mem.None? && dvSize < nb ==> forall c :: c in FreeSet() ==> c.size < nb
      ensures mem.None? && dvSize >= nb ==> forall c :: c in FreeSet() && c.size >= nb ==> dvSize <= c.size
    {
      var v := FindLarge(trees, nb);
      if v.Some? {
        TreesAreLarge(trees, v.value);
        DvBelowWord();
        if v.value.size - nb < Rem(dvSize, nb) {
          BeatsDv(nb, v.value);
          UseForLarge(v.value.addr, v.value.size, nb);
          return Some(v.value.addr), if v.value.size - nb < MIN_CHUNK then v.value.size else nb;
        }
        TooSmallDv(dvSize, nb);
        DvBeats(nb, v.value);
      } else {
        NothingLarge(nb);
      }
      return None, 0;
    }

    lemma DvBelowWord()
      requires Valid()
      ensures dvSize < 0x100_0000_0000
    {
      if dvSize != 0 {
        var i := IndexOf(cells, false, Chunk(dv, dvSize));
        AddrInside(cells, base, top, i);
      }
    }

    /** A tree's best fit that leaves less than the victim would is the best of all. */
    lemma BeatsDv(nb: nat, v: Chunk)
      requires Valid() && 256 <= nb < 0x100_0000_0000 && BestFit(Binned(trees), nb, Some(v))
      requires v.size - nb < Rem(dvSize, nb)
      ensures Best(FreeSet(), v.addr, nb)
    {
      DvBelowWord();
      if dvSize >= nb { DivUnique(dvSize - nb, WORD, 0, dvSize - nb); }
      assert BestFit(FreeSet(), nb, Some(v));
    }

    lemma DvBeats(nb: nat, v: Chunk)
      requires Valid() && 256 <= nb <= dvSize && BestFit(Binned(trees), nb, Some(v)) && v.size - nb >= Rem(dvSize, nb)
      ensures forall c :: c in FreeSet() && c.size >= nb ==> dvSize <= c.size
    {
      DvBelowWord();
      DivUnique(dvSize - nb, WORD, 0, dvSize - nb);
    }

    lemma NothingLarge(nb: nat)
      requires Valid() && 256 <= nb && BestFit(Binned(trees), nb, None)
      ensures dvSize < nb ==> forall c :: c in FreeSet() ==> c.size < nb
      ensures forall c :: c in FreeSet() && c.size >= nb ==> dvSize <= c.size
    {
    }

    /**
     malloc.  With nb the least chunk size that serves the request: it returns a chunk of nb bytes or up to a
     minimal chunk more, cut from a best fit; a small request without an exact fit may instead take the victim;
     the top serves when nothing free is large enough; and only when the top is not either, malloc fails.
     */
    method Malloc(bytes: nat) returns (mem: Option<nat>, ghost s: nat, ghost nb: nat)
      requires Valid()
      modifies this, head, feet
      ensures Valid() && head == old(head) && feet == old(feet) && LeastFor(nb, bytes)
      ensures mem.Some? ==> Got(mem.value, s, nb, old(Used())) && bytes < MAX_REQUEST
      ensures mem.Some? ==> bytes + 8 <= s < Ceiling(bytes) + MIN_CHUNK
      ensures mem.Some? ==> || Best(old(FreeSet()), mem.value, nb)
                            || (nb < 256 && mem.value == old(dv) && nb <= old(dvSize) && NoOther(old(FreeSet()), old(dv), nb))
                            || (mem.value == old(top) && nb < old(topSize) && forall c :: c in old(FreeSet()) ==> c.size < nb)
      ensures mem.None? ==> Used() == old(Used()) && FreeSet() == old(FreeSet())
      ensures mem.None? <==> bytes >= MAX_REQUEST || (old(topSize) <= nb && forall c :: c in old(FreeSet()) ==> c.size < nb)
    {
      var need := ChunkFor(bytes);
      nb := need;
      if bytes >= MAX_REQUEST { return None, 0, nb; }
      if bytes <= MAX_SMALL_REQUEST {
        mem, s := MallocSmall(need);
      } else {
        mem, s := MallocLarge(need);
      }
      if mem.None? { mem, s := MallocRest(need); }
    }

    /** The end of malloc, when bins and trees do not serve: the victim, else the top. */
    method MallocRest(nb: nat) returns (mem: Option<nat>, ghost s: nat)
      requires Valid() && MIN_CHUNK <= nb && nb % ALIGN == 0
      requires dvSize < nb ==> forall c :: c in FreeSet() ==> c.size < nb
      requires nb >= 256 && dvSize >= nb ==> forall c :: c in FreeSet() && c.size >= nb ==> dvSize <= c.size
      requires nb < 256 ==> NoOther(FreeSet(), dv, nb)
      modifies this, head, feet
      ensures Valid() && head == old(head) && feet == old(feet)
      ensures mem.Some? ==> Got(mem.value, s, nb, old(Used()))
      ensures mem.Some? ==> || Best(old(FreeSet()), mem.value, nb)
                            || (nb < 256 && mem.value == old(dv) && nb <= old(dvSize) && NoOther(old(FreeSet()), old(dv), nb))
                            || (mem.value == old(top) && nb < old(topSize) && forall c :: c in old(FreeSet()) ==> c.size < nb)
      ensures mem.None? ==> Used() == old(Used()) && FreeSet() == old(FreeSet())
      ensures mem.None? <==> old(topSize) <= nb && forall c :: c in old(FreeSet()) ==> c.size < nb
    {
      if nb <= dvSize {
        s := if dvSize - nb < MIN_CHUNK then dvSize else nb;
        if nb >= 256 { DvIsBest(nb); }
        DvIsFree();
        var p := UseDv(nb);
        mem := Some(p);
      } else if nb < topSize {
        var p := UseTop(nb);
        mem, s := Some(p), nb;
      } else {
        mem, s := None, 0;
      }
    }

    lemma DvIsFree()
      requires Valid() && dvSize > 0
      ensures Chunk(dv, dvSize) in FreeSet()
    {
    }

    /** No free chunk of exactly this size, except at the given address. */
    ghost predicate NoOther(pool: set<Chunk>, p: nat, nb: nat) {
      forall c :: c in pool && c.size == nb ==> c.addr == p
    }

    lemma DvIsBest(nb: nat)
      requires Valid() && 0 < nb <= dvSize && forall c :: c in FreeSet() && c.size >= nb ==> dvSize <= c.size
      ensures Best(FreeSet(), dv, nb)
    {
      assert BestFit(FreeSet(), nb, Some(Chunk(dv, dvSize)));
    }

    /** What a free in progress holds: chunks a to a + n - 1, of which the last is the one being freed. */
    ghost predicate Pending(p: nat, q: nat, psize: nat, a: nat, n: nat, loose: set<Chunk>)
      reads this, head, feet
    {
      && Holding(loose) && 0 < n && a + n <= |cells| && q == cells[a].addr && psize == Total(cells, a, n)
      && PrevUsed(cells, a) && cells[a + n - 1].used && cells[a + n - 1].addr == p
      && Pieces(cells, a, n, true) == {Chunk(p, cells[a + n - 1].size)}
      && Pieces(cells, a, n, false) == loose + (if q == dv then DvSet(dv, dvSize) else {})
    }

    /** Writes one free chunk over n chunks in front of a used one. */
    method WriteFree(q: nat, s: nat, next: nat, clear: bool, ghost a: nat, ghost n: nat)
      requires Tidy() && 0 < n && a + n < |cells| && PrevUsed(cells, a) && cells[a + n].used
      requires q == cells[a].addr && s == Total(cells, a, n) && next == cells[a + n].addr
      requires clear || !cells[a + n - 1].used
      modifies head, feet, `cells
      ensures Tidy() && q + s == next && 0 < q && 0 < s
      ensures Used() == old(Used()) - Pieces(old(cells), a, n, true)
      ensures FreeSet() == old(FreeSet()) - Pieces(old(cells), a, n, false) + {Chunk(q, s)}
      ensures Chunk(q, s) !in old(FreeSet()) - Pieces(old(cells), a, n, false)
    {
      ghost var was, wasFeet := head[..], feet[..];
      RunEnds(was, wasFeet, cells, base, top, topSize, a, n);
      if clear { head[next] := head[next].(pinuse := false); }
      head[q] := Head(s, false, true);
      feet[q + s] := s;
      MergedLaid(was, wasFeet, cells, base, top, topSize, a, n, head[..], feet[..]);
      cells := Merged(cells, a, n, false);
    }

    /** The freed run becomes a binned chunk. */
    method FinishBin(p: nat, q: nat, s: nat, next: nat, clear: bool, ghost a: nat, ghost n: nat, ghost loose: set<Chunk>)
      requires Holding(loose) && 0 < n && a + n < |cells| && PrevUsed(cells, a) && cells[a + n].used
      requires q == cells[a].addr && s == Total(cells, a, n) && next == cells[a + n].addr
      requires clear || !cells[a + n - 1].used
      requires Pieces(cells, a, n, false) == loose
      modifies this, head, feet
      ensures Valid() && head == old(head) && feet == old(feet)
      ensures Used() == old(Used()) - Pieces(old(cells), a, n, true)
    {
      ghost var free, c := FreeSet(), Chunk(q, s);
      WriteFree(q, s, next, clear, a, n);
      PlacedSwap(free, BinSet(small, trees), dv, dvSize, loose, loose, c);
      assert loose - loose + {c} == {c} && {c} - {c} == {};
      InsertChunk(q, s, {c});
    }

    /** The freed run contains the victim, and becomes it. */
    method FinishDv(q: nat, s: nat, next: nat, clear: bool, ghost a: nat, ghost n: nat, ghost loose: set<Chunk>)
      requires Holding(loose) && 0 < n && a + n < |cells| && PrevUsed(cells, a) && cells[a + n].used
      requires q == cells[a].addr && s == Total(cells, a, n) && next == cells[a + n].addr
      requires clear || !cells[a + n - 1].used
      requires Pieces(cells, a, n, false) == loose + DvSet(dv, dvSize)
      modifies this, head, feet
      ensures Valid() && head == old(head) && feet == old(feet)
      ensures Used() == old(Used()) - Pieces(old(cells), a, n, true)
    {
      ghost var free := FreeSet();
      WriteFree(q, s, next, clear, a, n);
      PlacedNewDv(free, BinSet(small, trees), dv, dvSize, loose, Chunk(q, s));
      dv, dvSize := q, s;
    }

    /** The freed run ends at the top, and joins it. */
    method FinishTop(q: nat, s: nat, ghost a: nat, ghost n: nat, ghost loose: set<Chunk>)
      requires Holding(loose) && 0 < n && a + n == |cells| && PrevUsed(cells, a)
      requires q == cells[a].addr && s == Total(cells, a, n)
      requires Pieces(cells, a, n, false) == loose + (if q == dv then DvSet(dv, dvSize) else {})
      modifies this, head
      ensures Valid() && head == old(head) && feet == old(feet)
      ensures Used() == old(Used()) - Pieces(old(cells), a, n, true)
    {
      ghost var was := head[..];
      TotalEnd(cells, base, top, a, n);
      AddrInside(cells, base, top, a);
      head[q] := Head(topSize + s, false, true);
      TopTags(was, feet[..], cells, base, top, topSize, a, head[..], q, topSize + s);
      TopChunks(cells, base, top, a, true);
      TopChunks(cells, base, top, a, false);
      PlacedLess(FreeSet(), BinSet(small, trees), dv, dvSize, loose);
      topSize, top, cells := topSize + s, q, cells[..a];
      if q == dv { dv, dvSize := 0, 0; }
    }

    /** A free chunk at the victim's address is the victim; any other one in nobody's hands is binned. */
    lemma WhichPlace(i: nat, loose: set<Chunk>)
      requires Holding(loose) && i < |cells| && !cells[i].used
      ensures var c := Chunk(cells[i].addr, cells[i].size);
              && (c.addr == dv ==> DvSet(dv, dvSize) == {c})
              && (c.addr != dv && c !in loose ==> c in BinSet(small, trees))
    {
      var c := Chunk(cells[i].addr, cells[i].size);
      assert c in FreeSet();
      if c.addr == dv {
        AddrInside(cells, base, top, i);
        var j := IndexOf(cells, false, Chunk(dv, dvSize));
        SameAddr(cells, base, top, i, j);
      }
    }

    lemma Alone(i: nat)
      requires Valid() && i < |cells| && cells[i].used && PrevUsed(cells, i)
      ensures Pending(cells[i].addr, cells[i].addr, cells[i].size, i, 1, {})
    {
      assert Total(cells, i, 1) == Total(cells, i, 0) + cells[i].size;
      PiecesNext(cells, i, 0, true);
      PiecesNext(cells, i, 0, false);
      assert Pieces(cells, i, 0, true) == {} && Pieces(cells, i, 0, false) == {};
      NotDv(i);
    }

    lemma NotDv(i: nat)
      requires Valid() && i < |cells| && cells[i].used
      ensures cells[i].addr != dv
    {
      AddrInside(cells, base, top, i);
      if cells[i].addr == dv {
        var j := IndexOf(cells, false, Chunk(dv, dvSize));
        SameAddr(cells, base, top, i, j);
      }
    }

    lemma WithPrev(i: nat)
      requires Tidy() && i < |cells| && cells[i].used && !PrevUsed(cells, i)
      ensures PrevUsed(cells, i - 1) && cells[i - 1].addr + cells[i - 1].size == cells[i].addr
      ensures Total(cells, i - 1, 2) == cells[i - 1].size + cells[i].size
      ensures Pieces(cells, i - 1, 2, true) == {Chunk(cells[i].addr, cells[i].size)}
      ensures Pieces(cells, i - 1, 2, false) == {Chunk(cells[i - 1].addr, cells[i - 1].size)}
    {
      assert Total(cells, i - 1, 1) == Total(cells, i - 1, 0) + cells[i - 1].size;
      assert Total(cells, i - 1, 2) == Total(cells, i - 1, 1) + cells[i].size;
      assert Pieces(cells, i - 1, 0, true) == {} && Pieces(cells, i - 1, 0, false) == {};
      PiecesNext(cells, i - 1, 0, true);
      PiecesNext(cells, i - 1, 1, true);
      PiecesNext(cells, i - 1, 0, false);
      PiecesNext(cells, i - 1, 1, false);
    }

    /** free, and dispose_chunk on a chunk in use: the chunk joins its free neighbours, the victim or the top. */
    method Free(p: nat)
      requires Valid() && exists s :: Chunk(p, s) in Used()
      modifies this, head, feet
      ensures Valid() && head == old(head) && feet == old(feet)
      ensures exists s :: Chunk(p, s) in old(Used()) && Used() == old(Used()) - {Chunk(p, s)}
    {
      ghost var s0 :| Chunk(p, s0) in Used();
      ghost var i := IndexOf(cells, true, Chunk(p, s0));
      assert TagOk(head[..], feet[..], cells, i);
      if head[p].pinuse {
        Alone(i);
        FreeForward(p, p, head[p].size, i, 1, {});
      } else {
        FreeBack(p, head[p].size, i);
      }
    }

    /** The chunk before is free: the run starts there. */
    method FreeBack(p: nat, psize: nat, ghost i: nat)
      requires Valid() && i < |cells| && cells[i] == Cell(p, psize, true) && !PrevUsed(cells, i) && p < feet.Length
      modifies this, head, feet
      ensures Valid() && head == old(head) && feet == old(feet)
      ensures Used() == old(Used()) - {Chunk(p, psize)}
    {
      FootOf(i);
      var prevsize := feet[p];
      var q := p - prevsize;
      if q == dv {
        BackDv(i);
        FreeForward(p, q, psize + prevsize, i - 1, 2, {});
      } else {
        FreeBackBinned(p, q, psize, prevsize, i);
      }
    }

    method FreeBackBinned(p: nat, q: nat, psize: nat, prevsize: nat, ghost i: nat)
      requires Valid() && i < |cells| && cells[i] == Cell(p, psize, true) && !PrevUsed(cells, i)
      requires cells[i - 1] == Cell(q, prevsize, false) && q != dv && Chunk(q, prevsize) in BinSet(small, trees)
      modifies this, head, feet
      ensures Valid() && head == old(head) && feet == old(feet)
      ensures Used() == old(Used()) - Pieces(old(cells), i - 1, 2, true)
    {
      UnlinkOne(q, prevsize);
      BackBinned(i);
      FreeForward(p, q, psize + prevsize, i - 1, 2, {Chunk(q, prevsize)});
    }

    /** The foot of a free chunk leads back to its head. */
    lemma FootOf(i: nat)
      requires Valid() && i < |cells| && !PrevUsed(cells, i)
      ensures cells[i].addr < feet.Length && feet[cells[i].addr] == cells[i - 1].size
      ensures cells[i - 1].addr + cells[i - 1].size == cells[i].addr
      ensures cells[i - 1].addr != dv ==> Chunk(cells[i - 1].addr, cells[i - 1].size) in BinSet(small, trees)
      ensures cells[i].used ==> Pieces(cells, i - 1, 2, true) == {Chunk(cells[i].addr, cells[i].size)}
    {
      assert TagOk(head[..], feet[..], cells, i - 1);
      WhichPlace(i - 1, {});
      if cells[i].used { WithPrev(i); }
    }

    lemma BackDv(i: nat)
      requires Valid() && i < |cells| && cells[i].used && !PrevUsed(cells, i) && cells[i - 1].addr == dv
      ensures Pending(cells[i].addr, dv, cells[i - 1].size + cells[i].size, i - 1, 2, {})
    {
      WithPrev(i);
      WhichPlace(i - 1, {});
    }

    lemma BackBinned(i: nat)
      requires i < |cells| && cells[i].used && !PrevUsed(cells, i) && cells[i - 1].addr != dv
      requires Holding({Chunk(cells[i - 1].addr, cells[i - 1].size)})
      ensures Pending(cells[i].addr, cells[i - 1].addr, cells[i - 1].size + cells[i].size, i - 1, 2,
                      {Chunk(cells[i - 1].addr, cells[i - 1].size)})
    {
      WithPrev(i);
    }

    /** The second half: what the chunk after the run is decides where the run goes. */
    method FreeForward(p: nat, q: nat, psize: nat, ghost a: nat, ghost n: nat, ghost loose: set<Chunk>)
      requires Pending(p, q, psize, a, n, loose)
      modifies this, head, feet
      ensures Valid() && head == old(head) && feet == old(feet)
      ensures Used() == old(Used()) - Pieces(old(cells), a, n, true)
    {
      var next := q + psize;
      After(a, n);
      if head[next].cinuse {
        if q == dv { FinishDv(q, psize, next, true, a, n, loose); } else { FinishBin(p, q, psize, next, true, a, n, loose); }
      } else if next == top {
        FinishTop(q, psize, a, n, loose);
      } else {
        FreeNext(p, q, psize, next, a, n, loose);
      }
    }

    /** The word after the run is the head of the next chunk, or of the top. */
    lemma After(a: nat, n: nat)
      requires Tidy() && 0 < n && a + n <= |cells|
      ensures var next := cells[a].addr + Total(cells, a, n);
              && next < head.Length
              && (a + n < |cells| ==> next == cells[a + n].addr < top && head[next].cinuse == cells[a + n].used
                                      && head[next].size == cells[a + n].size)
              && (a + n == |cells| ==> next == top && !head[next].cinuse)
    {
      TotalEnd(cells, base, top, a, n);
      if a + n < |cells| {
        AddrInside(cells, base, top, a + n);
        assert Sized(cells[a + n]) && TagOk(head[..], feet[..], cells, a + n);
      }
    }

    /** The run is followed by a free chunk: the victim, or a binned one. */
    method FreeNext(p: nat, q: nat, psize: nat, next: nat, ghost a: nat, ghost n: nat, ghost loose: set<Chunk>)
      requires Pending(p, q, psize, a, n, loose)
      requires a + n < |cells| && !cells[a + n].used && next == cells[a + n].addr == q + psize && next < head.Length
      requires head[next].size == cells[a + n].size
      modifies this, head, feet
      ensures Valid() && head == old(head) && feet == old(feet)
      ensures Used() == old(Used()) - Pieces(old(cells), a, n, true)
    {
      NextRun(a, n, loose);
      var nsize := head[next].size;
      if next == dv {
        FinishDv(q, psize + nsize, next + nsize, false, a, n + 1, loose);
      } else {
        FreeUnlinked(p, q, psize, next, nsize, a, n, loose);
      }
    }

    method FreeUnlinked(p: nat, q: nat, psize: nat, next: nat, nsize: nat, ghost a: nat, ghost n: nat, ghost loose: set<Chunk>)
      requires Pending(p, q, psize, a, n, loose) && a + n + 1 < |cells|
      requires cells[a + n] == Cell(next, nsize, false) && cells[a + n + 1].used && cells[a + n + 1].addr == next + nsize
      requires Chunk(next, nsize) in BinSet(small, trees) && Total(cells, a, n + 1) == psize + nsize
      requires Pieces(cells, a, n + 1, true) == Pieces(cells, a, n, true)
      requires Pieces(cells, a, n + 1, false) == Pieces(cells, a, n, false) + {Chunk(next, nsize)}
      modifies this, head, feet
      ensures Valid() && head == old(head) && feet == old(feet)
      ensures Used() == old(Used()) - Pieces(old(cells), a, n, true)
    {
      JoinedPieces(q, a, n, loose, Chunk(next, nsize));
      UnlinkChunk(next, nsize, loose);
      FreeBoth(p, q, psize + nsize, next + nsize, a, n, loose + {Chunk(next, nsize)});
    }

    lemma JoinedPieces(q: nat, a: nat, n: nat, loose: set<Chunk>, c: Chunk)
      requires a + n + 1 < |cells|
      requires Pieces(cells, a, n, false) == loose + (if q == dv then DvSet(dv, dvSize) else {})
      requires Pieces(cells, a, n + 1, false) == Pieces(cells, a, n, false) + {c}
      ensures Pieces(cells, a, n + 1, false) == loose + {c} + (if q == dv then DvSet(dv, dvSize) else {})
    {
    }

    method FreeBoth(p: nat, q: nat, s: nat, end: nat, ghost a: nat, ghost n: nat, ghost loose: set<Chunk>)
      requires Holding(loose) && 0 < n && a + n + 1 < |cells| && PrevUsed(cells, a)
      requires !cells[a + n].used && cells[a + n + 1].used
      requires q == cells[a].addr && s == Total(cells, a, n + 1) && end == cells[a + n + 1].addr
      requires Pieces(cells, a, n + 1, false) == loose + (if q == dv then DvSet(dv, dvSize) else {})
      modifies this, head, feet
      ensures Valid() && head == old(head) && feet == old(feet)
      ensures Used() == old(Used()) - Pieces(old(cells), a, n + 1, true)
    {
      if q == dv {
        FinishDv(q, s, end, false, a, n + 1, loose);
      } else {
        FinishBin(p, q, s, end, false, a, n + 1, loose);
      }
    }

    /** What the run is when the free chunk after it joins. */
    lemma NextRun(a: nat, n: nat, loose: set<Chunk>)
      requires Holding(loose) && 0 < n && a + n < |cells| && !cells[a + n].used
      ensures var c := Chunk(cells[a + n].addr, cells[a + n].size);
              && a + n + 1 < |cells| && cells[a + n + 1].used && cells[a + n + 1].addr == c.addr + c.size
              && Total(cells, a, n + 1) == Total(cells, a, n) + c.size
              && Pieces(cells, a, n + 1, true) == Pieces(cells, a, n, true)
              && Pieces(cells, a, n + 1, false) == Pieces(cells, a, n, false) + {c}
              && c !in Pieces(cells, a, n, false) && cells[a].addr != c.addr
              && (c.addr == dv ==> DvSet(dv, dvSize) == {c})
              && (c.addr != dv && c !in loose ==> c in BinSet(small, trees))
    {
      AfterFree(head[..], feet[..], cells, base, top, topSize, a + n);
      WhichPlace(a + n, loose);
      PiecesNext(cells, a, n, true);
      PiecesNext(cells, a, n, false);
      PieceOutside(cells, base, top, a, n, false, a + n);
      RunEnds(head[..], feet[..], cells, base, top, topSize, a, n);
    }

    // ---------- What the heap promises ----------

    /** Chunks, in use or free, never overlap, and lie between the base and the top. */
    lemma NoOverlap(c: Chunk, d: Chunk)
      requires Valid() && c in Used() + FreeSet() && d in Used() + FreeSet() && c != d
      ensures c.addr + c.size <= d.addr || d.addr + d.size <= c.addr
      ensures base <= c.addr && c.addr + c.size <= top
    {
      var i := IndexOf(cells, c in Used(), c);
      var j := IndexOf(cells, d in Used(), d);
      AddrInside(cells, base, top, i);
      if i < j { AddrBefore(cells, base, top, i, j); } else if j < i { AddrBefore(cells, base, top, j, i); }
    }

    /** A free chunk is in a small bin, in a tree, or the victim: in one of them only. */
    lemma OnePlace(c: Chunk)
      requires Valid() && c in FreeSet()
      ensures (if c in SmallSet(small) then 1 else 0) + (if c in Binned(trees) then 1 else 0)
              + (if c == Chunk(dv, dvSize) && dvSize > 0 then 1 else 0) == 1
    {
      if c in Binned(trees) {
        TreesAreLarge(trees, c);
        NotSmall(c.addr, c.size);
      }
    }

    /** Two free chunks never touch, and none touches the top. */
    lemma FreeApart(c: Chunk, d: Chunk)
      requires Valid() && c in FreeSet() && d in FreeSet()
      ensures c.addr + c.size != d.addr && c.addr + c.size < top
    {
      var i := IndexOf(cells, false, c);
      var j := IndexOf(cells, false, d);
      AfterFree(head[..], feet[..], cells, base, top, topSize, i);
      AddrInside(cells, base, top, i + 1);
      assert Sized(cells[i + 1]);
      if cells[i + 1].addr == d.addr { SameAddr(cells, base, top, i + 1, j); }
    }

    /** No byte of the segment is lost. */
    lemma AllBytes()
      requires Valid()
      ensures Total(cells, 0, |cells|) + topSize == limit - base
    {
      if |cells| > 0 { TotalEnd(cells, base, top, 0, |cells|); }
    }
  }

  lemma RunEnds(head: seq<Head>, feet: seq<nat>, cells: seq<Cell>, base: nat, top: nat, topSize: nat, a: nat, n: nat)
    requires Laid(head, feet, cells, base, top, topSize) && 0 < n && a + n < |cells|
    ensures base <= cells[a].addr && cells[a].addr + Total(cells, a, n) == cells[a + n].addr < |head| && Total(cells, a, n) > 0
    ensures head[cells[a + n].addr] == Head(cells[a + n].size, cells[a + n].used, cells[a + n - 1].used)
  {
    TotalEnd(cells, base, top, a, n);
    AddrInside(cells, base, top, a);
    AddrInside(cells, base, top, a + n);
    assert TagOk(head, feet, cells, a + n);
  }

  lemma MergedLaid(head: seq<Head>, feet: seq<nat>, cells: seq<Cell>, base: nat, top: nat, topSize: nat,
                   a: nat, n: nat, head': seq<Head>, feet': seq<nat>)
    requires Laid(head, feet, cells, base, top, topSize) && 0 < n && a + n < |cells|
    requires PrevUsed(cells, a) && cells[a + n].used
    requires var p, q := cells[a].addr, cells[a + n].addr;
             && SameOutside(head, head', p, q) && SameFeet(feet, feet', p, q) && p < |head| && q < |head|
             && head'[p] == Head(Total(cells, a, n), false, true)
             && head'[q] == Head(cells[a + n].size, true, false) && feet'[q] == Total(cells, a, n)
    ensures var r, c := Merged(cells, a, n, false), Chunk(cells[a].addr, Total(cells, a, n));
            && Laid(head', feet', r, base, top, topSize)
            && Chunks(r, true) == Chunks(cells, true) - Pieces(cells, a, n, true)
            && Chunks(r, false) == Chunks(cells, false) - Pieces(cells, a, n, false) + {c}
            && c !in Chunks(cells, false) - Pieces(cells, a, n, false)
  {
    MergedTags(head, feet, cells, base, top, topSize, a, n, head', feet');
    MergedTiled(cells, base, top, a, n, false);
    MergedCoalesced(cells, a, n, false);
    MergedChunks(cells, base, top, a, n, false, true);
    MergedChunks(cells, base, top, a, n, false, false);
    MergedIsNew(cells, base, top, a, n, Total(cells, a, n));
  }

  /** A victim too small for the request leaves a remainder larger than any real one, as a word. */
  lemma TooSmallDv(dvSize: nat, nb: nat)
    requires nb < 0x100_0000_0000
    ensures dvSize < nb ==> Rem(dvSize, nb) > 0x100_0000_0000
  {
    if dvSize < nb { DivUnique(dvSize - nb, WORD, -1, dvSize - nb + WORD); }
  }

  /** A bin from nb's own on holds chunks of at least nb, and the first two hold none that could be split. */
  lemma BinFits(nb: nat, i: nat)
    requires nb % ALIGN == 0 && nb / 8 <= i
    ensures nb <= 8 * i && (i <= nb / 8 + 1 ==> 8 * i <= nb + 8)
  {
    var k := nb / ALIGN;
    assert nb == 16 * k;
  }

  lemma TopIsNew(cells: seq<Cell>, base: nat, top: nat, s: nat)
    requires Tiled(cells, base, top)
    ensures Chunk(top, s) !in Chunks(cells, true)
  {
    forall j | 0 <= j < |cells| ensures cells[j].addr != top {
      AddrInside(cells, base, top, j);
      assert Sized(cells[j]);
    }
  }

  lemma SplitLaid(head: seq<Head>, feet: seq<nat>, cells: seq<Cell>, base: nat, top: nat, topSize: nat,
                  a: nat, nb: nat, head': seq<Head>, feet': seq<nat>)
    requires Laid(head, feet, cells, base, top, topSize) && a + 1 < |cells| && !cells[a].used
    requires MIN_CHUNK <= nb && nb % ALIGN == 0 && nb + MIN_CHUNK <= cells[a].size && cells[a + 1].addr < |head|
    requires var p, rest := cells[a].addr, cells[a].size - nb;
             && head' == head[p := Head(nb, true, true)][p + nb := Head(rest, false, true)]
             && feet' == feet[p + cells[a].size := rest]
    ensures Laid(head', feet', Split(cells, a, nb), base, top, topSize)
    ensures var c, r := cells[a], Split(cells, a, nb);
            && Chunk(c.addr + nb, c.size - nb) !in Chunks(cells, false)
            && Chunks(r, true) == Chunks(cells, true) + {Chunk(c.addr, nb)}
            && Chunks(r, false) == Chunks(cells, false) - {Chunk(c.addr, c.size)} + {Chunk(c.addr + nb, c.size - nb)}
  {
    SplitTags(head, feet, cells, base, top, topSize, a, nb, head', feet');
    SplitTiled(cells, base, top, a, nb);
    SplitCoalesced(cells, a, nb);
    SplitChunks(cells, base, top, a, nb, true);
    SplitChunks(cells, base, top, a, nb, false);
    RestIsNew(cells, base, top, a, nb, cells[a].size - nb);
  }

  lemma PlacedNewDv(free: set<Chunk>, binned: set<Chunk>, dv: nat, dvSize: nat, loose: set<Chunk>, c: Chunk)
    requires Placed(free, binned, dv, dvSize, loose) && c !in free - (loose + DvSet(dv, dvSize)) && c.addr > 0 && c.size > 0
    ensures Placed(free - (loose + DvSet(dv, dvSize)) + {c}, binned, c.addr, c.size, {})
  {
  }

  lemma PlacedLess(free: set<Chunk>, binned: set<Chunk>, dv: nat, dvSize: nat, loose: set<Chunk>)
    requires Placed(free, binned, dv, dvSize, loose)
    ensures Placed(free - loose, binned, dv, dvSize, {})
    ensures Placed(free - (loose + DvSet(dv, dvSize)), binned, 0, 0, {})
  {
  }

  lemma PiecesNext(cells: seq<Cell>, a: nat, n: nat, used: bool)
    requires a + n < |cells|
    ensures var c := cells[a + n];
            Pieces(cells, a, n + 1, used) == Pieces(cells, a, n, used) + if c.used == used then {Chunk(c.addr, c.size)} else {}
  {
    forall c | c in Pieces(cells, a, n + 1, used)
      ensures c in Pieces(cells, a, n, used) || (cells[a + n].used == used && c == Chunk(cells[a + n].addr, cells[a + n].size))
    {
    }
  }

  /** Loose chunks give way to a new loose one. */
  lemma PlacedSwap(free: set<Chunk>, binned: set<Chunk>, dv: nat, dvSize: nat, loose: set<Chunk>,
                   gone: set<Chunk>, c: Chunk)
    requires Placed(free, binned, dv, dvSize, loose) && gone <= loose && c !in free - gone
    ensures Placed(free - gone + {c}, binned, dv, dvSize, loose - gone + {c})
  {
  }

  lemma TakenChunks(cells: seq<Cell>, base: nat, end: nat, a: nat)
    requires Tiled(cells, base, end) && a < |cells| && !cells[a].used
    ensures var r, c := Merged(cells, a, 1, true), Chunk(cells[a].addr, cells[a].size);
            Chunks(r, true) == Chunks(cells, true) + {c} && Chunks(r, false) == Chunks(cells, false) - {c}
  {
    MergedChunks(cells, base, end, a, 1, true, true);
    MergedChunks(cells, base, end, a, 1, true, false);
    assert Total(cells, a, 1) == Total(cells, a, 0) + cells[a].size;
    assert Pieces(cells, a, 1, true) == {};
    assert Pieces(cells, a, 1, false) == {Chunk(cells[a].addr, cells[a].size)} by {
      assert cells[a].used == false;
    }
  }
}
