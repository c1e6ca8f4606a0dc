/**
 Skip_list: sorted linked lists on several levels, refining a map from int to string.

 The level a new node draws at random is a parameter.  Keys may equal those of the two sentinels.
 */
module SkipList {
  import opened Options

  const MIN: int := -0x8000_0000            // numeric_limits<int>::min(), the head's key
  const MAX: int := 0x7FFF_FFFF             // numeric_limits<int>::max(), NIL's key

  // ---------- The list on values: keys and heights from head to NIL ----------

  /** n is the first position after i whose node is on level l. */
  ghost predicate IsNext(heights: seq<nat>, l: nat, i: nat, n: nat) {
    && i < n < |heights| && heights[n] > l
    && forall m :: i < m < n ==> heights[m] <= l
  }

  ghost predicate Increasing(keys: seq<int>) {
    forall i, j :: 0 < i < j < |keys| - 1 ==> keys[i] < keys[j]
  }

  /** Sentinels on every level, and between them strictly increasing keys. */
  ghost predicate Shape(keys: seq<int>, heights: seq<nat>, maxLevel: nat) {
    && |keys| == |heights| >= 2 && maxLevel >= 1
    && keys[0] == MIN && keys[|keys| - 1] == MAX && heights[0] == maxLevel && heights[|heights| - 1] == maxLevel
    && (forall i :: 0 <= i < |keys| ==> MIN <= keys[i] <= MAX && 1 <= heights[i] <= maxLevel)
    && Increasing(keys)
  }

  /** p is where the search for k leaves level l: the next node there is not below k. */
  ghost predicate PredAt(keys: seq<int>, heights: seq<nat>, l: nat, p: nat, k: int)
    requires |keys| == |heights|
  {
    && p < |keys| - 1 && heights[p] > l && (p == 0 || keys[p] < k)
    && exists n: nat :: IsNext(heights, l, p, n) && keys[n] >= k
  }

  /** Between the predecessor on level l and the one on level 0, no node is on level l. */
  lemma PredsNest(keys: seq<int>, heights: seq<nat>, maxLevel: nat, l: nat, p: nat, q: nat, k: int)
    requires Shape(keys, heights, maxLevel) && PredAt(keys, heights, l, p, k) && PredAt(keys, heights, 0, q, k)
    ensures p <= q && keys[q + 1] >= k
    ensures forall i :: p < i <= q ==> heights[i] <= l
  {
    var n: nat :| IsNext(heights, l, p, n) && keys[n] >= k;
    var m: nat :| IsNext(heights, 0, q, m) && keys[m] >= k;
    assert heights[q + 1] >= 1 && m == q + 1;
    assert n > q;
  }

  function InsertedAt<T>(s: seq<T>, pos: nat, x: T): seq<T>
    requires pos <= |s|
  {
    seq(|s| + 1, i requires 0 <= i <= |s| => if i < pos then s[i] else if i == pos then x else s[i - 1])
  }

  function RemovedAt<T>(s: seq<T>, pos: nat): seq<T>
    requires pos < |s|
  {
    seq(|s| - 1, i requires 0 <= i < |s| - 1 => if i < pos then s[i] else s[i + 1])
  }

  lemma ShapeInserted(keys: seq<int>, heights: seq<nat>, maxLevel: nat, pos: nat, k: int, h: nat)
    requires Shape(keys, heights, maxLevel) && MIN <= k <= MAX && 1 <= h <= maxLevel
    requires 0 < pos < |keys| && (pos == 1 || keys[pos - 1] < k) && (pos == |keys| - 1 || k < keys[pos])
    ensures Shape(InsertedAt<int>(keys, pos, k), InsertedAt<nat>(heights, pos, h), maxLevel)
  {
    IncreasingInserted(keys, pos, k);
  }

  lemma IncreasingInserted(keys: seq<int>, pos: nat, k: int)
    requires Increasing(keys) && 0 < pos < |keys|
    requires (pos == 1 || keys[pos - 1] < k) && (pos == |keys| - 1 || k < keys[pos])
    ensures Increasing(InsertedAt<int>(keys, pos, k))
  {
    var keys' := InsertedAt<int>(keys, pos, k);
    forall i, j | 0 < i < j < |keys'| - 1 ensures keys'[i] < keys'[j] {
      if i == pos {
        assert keys'[j] == keys[j - 1] >= keys[pos];
      } else if j == pos {
        assert keys'[i] == keys[i] <= keys[pos - 1];
      }
    }
  }

  lemma ShapeRemoved(keys: seq<int>, heights: seq<nat>, maxLevel: nat, pos: nat)
    requires Shape(keys, heights, maxLevel) && 0 < pos < |keys| - 1
    ensures Shape(RemovedAt<int>(keys, pos), RemovedAt<nat>(heights, pos), maxLevel)
  {
  }

  /** Neighbours on a level after a node of height h was inserted. */
  lemma NextInserted(heights: seq<nat>, pos: nat, h: nat, l: nat, i: nat, n: nat)
    requires IsNext(heights, l, i, n) && pos < |heights|
    ensures n < pos ==> IsNext(InsertedAt<nat>(heights, pos, h), l, i, n)
    ensures pos <= i ==> IsNext(InsertedAt<nat>(heights, pos, h), l, i + 1, n + 1)
    ensures i < pos <= n ==> IsNext(InsertedAt<nat>(heights, pos, h), l, pos, n + 1)
    ensures i < pos <= n && l < h ==> IsNext(InsertedAt<nat>(heights, pos, h), l, i, pos)
    ensures i < pos <= n && l >= h ==> IsNext(InsertedAt<nat>(heights, pos, h), l, i, n + 1)
  {
  }

  /** Neighbours on a level after a node was removed. */
  lemma NextRemoved(heights: seq<nat>, pos: nat, l: nat, i: nat, n: nat)
    requires IsNext(heights, l, i, n) && pos < |heights|
    ensures n < pos ==> IsNext(RemovedAt<nat>(heights, pos), l, i, n)
    ensures pos < i ==> IsNext(RemovedAt<nat>(heights, pos), l, i - 1, n - 1)
    ensures i < pos < n ==> IsNext(RemovedAt<nat>(heights, pos), l, i, n - 1)
    ensures n == pos ==> forall m: nat :: IsNext(heights, l, pos, m) ==> IsNext(RemovedAt<nat>(heights, pos), l, i, m - 1)
  {
  }

  // ---------- Links ----------

  class Node {
    const key: int
    var value: string
    var forward: seq<Node?>

    constructor (key: int, value: string, level: nat)
      ensures this.key == key && this.value == value && forward == seq(level, _ => null)
    {
      this.key, this.value, this.forward := key, value, seq(level, _ => null);
    }
  }

  /** The pointer leads to the next node of level l after position i. */
  ghost predicate LinkOk(order: seq<Node>, heights: seq<nat>, i: nat, l: nat, link: Node?)
    requires |order| == |heights|
  {
    exists n: nat :: IsNext(heights, l, i, n) && link == order[n]
  }

  ghost predicate Distinct(order: seq<Node>) {
    forall i, j :: 0 <= i < j < |order| ==> order[i] != order[j]
  }

  ghost predicate Linked(order: seq<Node>, forwards: seq<seq<Node?>>, heights: seq<nat>) {
    && |order| == |forwards| == |heights| > 0
    && (forall i :: 0 <= i < |order| ==> |forwards[i]| == heights[i])
    && forall i: nat, l: nat {:trigger LinkOk(order, heights, i, l, forwards[i][l])} ::
         i < |order| - 1 && l < heights[i] ==> LinkOk(order, heights, i, l, forwards[i][l])
  }

  /** Sorted on every level, each a sublist of the one below, from head to NIL. */
  ghost predicate Good(order: seq<Node>, forwards: seq<seq<Node?>>, keys: seq<int>, heights: seq<nat>, maxLevel: nat) {
    && Shape(keys, heights, maxLevel) && |order| == |keys|
    && Linked(order, forwards, heights) && Distinct(order)
  }

  ghost predicate PredsAre(order: seq<Node>, keys: seq<int>, heights: seq<nat>, maxLevel: nat, k: int,
                           at: seq<nat>, preds: seq<Node>)
    requires |order| == |keys| == |heights|
  {
    && |preds| == |at| == maxLevel >= 1
    && forall l {:trigger PredAt(keys, heights, l, at[l], k)} ::
         0 <= l < maxLevel ==> PredAt(keys, heights, l, at[l], k) && preds[l] == order[at[l]]
  }

  /** Node i's pointers once the splicing loop did h levels. */
  ghost predicate SplicedNode(node: Node, was: seq<Node?>, now: seq<Node?>, preds: seq<Node>, target: seq<Node?>, h: nat)
    requires h <= |preds| && h <= |target|
  {
    && |now| == |was|
    && forall l :: 0 <= l < |was| ==> now[l] == if l < h && node == preds[l] then target[l] else was[l]
  }

  ghost predicate Spliced(order: seq<Node>, was: seq<seq<Node?>>, now: seq<seq<Node?>>,
                          preds: seq<Node>, target: seq<Node?>, h: nat)
  {
    && |order| == |was| == |now| && h <= |preds| && h <= |target|
    && forall i {:trigger SplicedNode(order[i], was[i], now[i], preds, target, h)} ::
         0 <= i < |order| ==> SplicedNode(order[i], was[i], now[i], preds, target, h)
  }

  /** `link` is what node i of the new list holds on level l after the insertion at pos. */
  lemma InsertLink(order: seq<Node>, heights: seq<nat>, pos: nat, p: nat, h: nat, node: Node, i: nat, l: nat, link: Node?)
    requires |order| == |heights| && p < pos < |order| && heights[p] > l
    requires forall i :: p < i < pos ==> heights[i] <= l
    requires i < |order| && l < InsertedAt<nat>(heights, pos, h)[i]
    requires if i == p && l < h then link == node && exists n: nat :: IsNext(heights, l, p, n)
             else LinkOk(order, heights, if i == pos then p else if i > pos then i - 1 else i, l, link)
    ensures LinkOk(InsertedAt<Node>(order, pos, node), InsertedAt<nat>(heights, pos, h), i, l, link)
  {
    var j := if i == pos then p else if i > pos then i - 1 else i;
    var n: nat :| IsNext(heights, l, j, n) && ((i == p && l < h) || link == order[n]);
    NextInserted(heights, pos, h, l, j, n);
    var n' := if n < pos then n else if i == p && l < h then pos else n + 1;
    assert InsertedAt<Node>(order, pos, node)[n'] == link;
    assert IsNext(InsertedAt<nat>(heights, pos, h), l, i, n');
  }

  /** `link` is what node i of the shorter list holds on level l after the removal at pos. */
  lemma EraseLink(order: seq<Node>, heights: seq<nat>, pos: nat, p: nat, i: nat, l: nat, link: Node?)
    requires |order| == |heights| && p < pos < |order| - 1 && heights[p] > l
    requires forall i :: p < i < pos ==> heights[i] <= l
    requires i < |order| - 2 && l < RemovedAt<nat>(heights, pos)[i]
    requires LinkOk(order, heights, if i == p && l < heights[pos] then pos else if i >= pos then i + 1 else i, l, link)
    ensures LinkOk(RemovedAt<Node>(order, pos), RemovedAt<nat>(heights, pos), i, l, link)
  {
    var j := if i == p && l < heights[pos] then pos else if i >= pos then i + 1 else i;
    var n: nat :| IsNext(heights, l, j, n) && link == order[n];
    if i == p && l < heights[pos] {
      assert IsNext(heights, l, p, pos);
      NextRemoved(heights, pos, l, p, pos);
    } else {
      NextRemoved(heights, pos, l, j, n);
    }
    var n' := if n < pos then n else n - 1;
    assert RemovedAt<Node>(order, pos)[n'] == link;
    assert IsNext(RemovedAt<nat>(heights, pos), l, i, n');
  }

  /** On every level below h, the new node. */
  function Pointing(node: Node, h: nat): (r: seq<Node?>)
    ensures |r| == h && forall l :: 0 <= l < h ==> r[l] == node
  {
    seq(h, _ => node)
  }

  /** One pointer after the splicing loop. */
  lemma SplicedLink(order: seq<Node>, was: seq<seq<Node?>>, now: seq<seq<Node?>>,
                    preds: seq<Node>, target: seq<Node?>, h: nat, p: nat, j: nat, l: nat)
    requires Distinct(order) && Spliced(order, was, now, preds, target, h)
    requires l < |preds| && p < |order| && preds[l] == order[p] && j < |order| && l < |was[j]|
    ensures l < |now[j]| && now[j][l] == if l < h && j == p then target[l] else was[j][l]
  {
    assert order[j] == preds[l] <==> j == p;
    assert SplicedNode(order[j], was[j], now[j], preds, target, h);
  }

  /** p is the place on level l where the list is cut open before position pos. */
  ghost predicate Site(order: seq<Node>, heights: seq<nat>, pos: nat, l: nat, p: nat, pred: Node)
    requires |order| == |heights|
  {
    && p < pos < |order| && heights[p] > l && pred == order[p]
    && forall i :: p < i < pos ==> heights[i] <= l
  }

  ghost predicate Sites(order: seq<Node>, heights: seq<nat>, pos: nat, at: seq<nat>, preds: seq<Node>)
    requires |order| == |heights|
  {
    && |at| == |preds| && (forall i :: 0 <= i < |heights| ==> heights[i] <= |at|)
    && forall l {:trigger Site(order, heights, pos, l, at[l], preds[l])} ::
         0 <= l < |at| ==> Site(order, heights, pos, l, at[l], preds[l])
  }

  lemma PredsAreSites(order: seq<Node>, keys: seq<int>, heights: seq<nat>, maxLevel: nat, k: int,
                      at: seq<nat>, preds: seq<Node>)
    requires |order| == |keys| && Shape(keys, heights, maxLevel)
    requires PredsAre(order, keys, heights, maxLevel, k, at, preds)
    ensures Sites(order, heights, at[0] + 1, at, preds)
    ensures at[0] + 1 < |keys| && keys[at[0] + 1] >= k && (at[0] == 0 || keys[at[0]] < k)
  {
    assert PredAt(keys, heights, 0, at[0], k);
    PredsNest(keys, heights, maxLevel, 0, at[0], at[0], k);
    forall l | 0 <= l < |at| ensures Site(order, heights, at[0] + 1, l, at[l], preds[l]) {
      assert PredAt(keys, heights, l, at[l], k);
      PredsNest(keys, heights, maxLevel, l, at[l], at[0], k);
    }
  }

  lemma InsertLinkedAt(order: seq<Node>, was: seq<seq<Node?>>, now: seq<seq<Node?>>, heights: seq<nat>, pos: nat,
                       p: nat, preds: seq<Node>, node: Node, nf: seq<Node?>, target: seq<Node?>, i: nat, l: nat)
    requires Linked(order, was, heights) && Distinct(order)
    requires Spliced(order, was, now, preds, target, |nf|)
    requires l < |preds| && Site(order, heights, pos, l, p, preds[l])
    requires l < |nf| ==> target[l] == node && l < |was[p]| && nf[l] == was[p][l]
    requires i < |order| && l < InsertedAt<nat>(heights, pos, |nf|)[i]
    ensures l < |InsertedAt<seq<Node?>>(now, pos, nf)[i]|
    ensures LinkOk(InsertedAt<Node>(order, pos, node), InsertedAt<nat>(heights, pos, |nf|), i, l, InsertedAt<seq<Node?>>(now, pos, nf)[i][l])
  {
    assert LinkOk(order, heights, p, l, was[p][l]);
    if i != pos {
      var j := if i > pos then i - 1 else i;
      SplicedLink(order, was, now, preds, target, |nf|, p, j, l);
      assert LinkOk(order, heights, j, l, was[j][l]);
      assert InsertedAt<seq<Node?>>(now, pos, nf)[i] == now[j];
    }
    InsertLink(order, heights, pos, p, |nf|, node, i, l, InsertedAt<seq<Node?>>(now, pos, nf)[i][l]);
  }

  lemma EraseLinkedAt(order: seq<Node>, was: seq<seq<Node?>>, now: seq<seq<Node?>>, heights: seq<nat>, pos: nat,
                      p: nat, preds: seq<Node>, i: nat, l: nat)
    requires Linked(order, was, heights) && Distinct(order) && pos < |order| - 1
    requires Spliced(order, was, now, preds, was[pos], heights[pos])
    requires l < |preds| && Site(order, heights, pos, l, p, preds[l])
    requires i < |order| - 2 && l < RemovedAt<nat>(heights, pos)[i]
    ensures l < |RemovedAt<seq<Node?>>(now, pos)[i]|
    ensures LinkOk(RemovedAt<Node>(order, pos), RemovedAt<nat>(heights, pos), i, l, RemovedAt<seq<Node?>>(now, pos)[i][l])
  {
    var j := if i >= pos then i + 1 else i;
    SplicedLink(order, was, now, preds, was[pos], heights[pos], p, j, l);
    assert LinkOk(order, heights, j, l, was[j][l]);
    assert l < heights[pos] ==> LinkOk(order, heights, pos, l, was[pos][l]);
    assert RemovedAt<seq<Node?>>(now, pos)[i] == now[j];
    EraseLink(order, heights, pos, p, i, l, RemovedAt<seq<Node?>>(now, pos)[i][l]);
  }

  /** Pointers stay as many per node as the node is high. */
  lemma SplicedHeights(order: seq<Node>, was: seq<seq<Node?>>, now: seq<seq<Node?>>, heights: seq<nat>,
                       preds: seq<Node>, target: seq<Node?>, h: nat)
    requires Linked(order, was, heights) && Spliced(order, was, now, preds, target, h)
    ensures |now| == |heights| && forall i :: 0 <= i < |now| ==> |now[i]| == heights[i]
  {
    forall i | 0 <= i < |now| ensures |now[i]| == heights[i] {
      assert SplicedNode(order[i], was[i], now[i], preds, target, h);
    }
  }

  lemma InsertedHeights(now: seq<seq<Node?>>, heights: seq<nat>, pos: nat, nf: seq<Node?>, maxLevel: nat)
    requires |now| == |heights| && pos <= |now| && |nf| <= maxLevel
    requires forall i :: 0 <= i < |now| ==> |now[i]| == heights[i] <= maxLevel
    ensures var now', heights' := InsertedAt<seq<Node?>>(now, pos, nf), InsertedAt<nat>(heights, pos, |nf|);
            |now'| == |heights'| == |now| + 1 && forall i :: 0 <= i < |now'| ==> |now'[i]| == heights'[i] <= maxLevel
  {
  }

  lemma InsertLinked(order: seq<Node>, was: seq<seq<Node?>>, now: seq<seq<Node?>>, heights: seq<nat>, pos: nat,
                     at: seq<nat>, preds: seq<Node>, node: Node, nf: seq<Node?>, target: seq<Node?>)
    requires Linked(order, was, heights) && Distinct(order) && pos < |order| && |nf| <= |preds|
    requires Sites(order, heights, pos, at, preds)
    requires Spliced(order, was, now, preds, target, |nf|)
    requires TakenOver(nf, was, at, |nf|) && forall l :: 0 <= l < |nf| ==> target[l] == node
    ensures Linked(InsertedAt<Node>(order, pos, node), InsertedAt<seq<Node?>>(now, pos, nf), InsertedAt<nat>(heights, pos, |nf|))
  {
    var order', now', heights' := InsertedAt<Node>(order, pos, node), InsertedAt<seq<Node?>>(now, pos, nf), InsertedAt<nat>(heights, pos, |nf|);
    SplicedHeights(order, was, now, heights, preds, target, |nf|);
    InsertedHeights(now, heights, pos, nf, |preds|);
    forall i: nat, l: nat | i < |order'| - 1 && l < heights'[i] ensures LinkOk(order', heights', i, l, now'[i][l]) {
      assert Site(order, heights, pos, l, at[l], preds[l]);
      InsertLinkedAt(order, was, now, heights, pos, at[l], preds, node, nf, target, i, l);
    }
  }

  lemma EraseLinked(order: seq<Node>, was: seq<seq<Node?>>, now: seq<seq<Node?>>, heights: seq<nat>, pos: nat,
                    at: seq<nat>, preds: seq<Node>)
    requires Linked(order, was, heights) && Distinct(order) && pos < |order| - 1
    requires Sites(order, heights, pos, at, preds)
    requires Spliced(order, was, now, preds, was[pos], heights[pos])
    ensures Linked(RemovedAt<Node>(order, pos), RemovedAt<seq<Node?>>(now, pos), RemovedAt<nat>(heights, pos))
  {
    var order', now', heights' := RemovedAt<Node>(order, pos), RemovedAt<seq<Node?>>(now, pos), RemovedAt<nat>(heights, pos);
    SplicedHeights(order, was, now, heights, preds, was[pos], heights[pos]);
    forall i: nat, l: nat | i < |order'| - 1 && l < heights'[i] ensures LinkOk(order', heights', i, l, now'[i][l]) {
      assert heights'[i] == if i < pos then heights[i] else heights[i + 1];
      assert Site(order, heights, pos, l, at[l], preds[l]);
      EraseLinkedAt(order, was, now, heights, pos, at[l], preds, i, l);
    }
  }

  // ---------- The map ----------

  /** The nodes between the sentinels hold exactly the map. */
  ghost predicate MapsTo(keys: seq<int>, values: seq<string>, contents: map<int, string>) {
    && |keys| == |values|
    && (forall i :: 0 < i < |keys| - 1 ==> keys[i] in contents && contents[keys[i]] == values[i])
    && (forall k :: k in contents ==> exists i :: 0 < i < |keys| - 1 && keys[i] == k)
  }

  lemma MapsInserted(keys: seq<int>, values: seq<string>, contents: map<int, string>, pos: nat, k: int, v: string)
    requires MapsTo(keys, values, contents) && 0 < pos < |keys| && k !in contents
    ensures MapsTo(InsertedAt<int>(keys, pos, k), InsertedAt<string>(values, pos, v), contents[k := v])
  {
    var keys', c := InsertedAt<int>(keys, pos, k), contents[k := v];
    forall k' | k' in c ensures exists i :: 0 < i < |keys'| - 1 && keys'[i] == k' {
      if k' == k {
        assert keys'[pos] == k';
      } else {
        var i :| 0 < i < |keys| - 1 && keys[i] == k';
        assert keys'[if i >= pos then i + 1 else i] == k';
      }
    }
  }

  lemma MapsRemoved(keys: seq<int>, values: seq<string>, contents: map<int, string>, pos: nat)
    requires Increasing(keys) && MapsTo(keys, values, contents) && 0 < pos < |keys| - 1
    ensures MapsTo(RemovedAt<int>(keys, pos), RemovedAt<string>(values, pos), contents - {keys[pos]})
  {
    var keys' := RemovedAt<int>(keys, pos);
    forall i | 0 < i < |keys'| - 1 ensures keys'[i] != keys[pos] {
      if i >= pos { assert keys[pos] < keys[i + 1]; } else { assert keys[i] < keys[pos]; }
    }
    forall k | k in contents - {keys[pos]} ensures exists i :: 0 < i < |keys'| - 1 && keys'[i] == k {
      var i :| 0 < i < |keys| - 1 && keys[i] == k;
      assert keys'[if i > pos then i - 1 else i] == k;
    }
  }

  /** The node after the level-0 predecessor is the one with the key, if any is. */
  lemma FoundOrAbsent(keys: seq<int>, heights: seq<nat>, maxLevel: nat, values: seq<string>, contents: map<int, string>,
                      k: int, q: nat)
    requires Shape(keys, heights, maxLevel) && MapsTo(keys, values, contents) && PredAt(keys, heights, 0, q, k)
    ensures q + 1 < |keys| && IsNext(heights, 0, q, q + 1)
    ensures k in contents <==> q + 1 < |keys| - 1 && keys[q + 1] == k
  {
    PredsNest(keys, heights, maxLevel, 0, q, q, k);
  }

  // ---------- The list on the heap ----------

  ghost function Forwards(order: seq<Node>): (f: seq<seq<Node?>>)
    reads order
    ensures |f| == |order| && forall i :: 0 <= i < |order| ==> f[i] == order[i].forward
  {
    seq(|order|, i requires 0 <= i < |order| reads order => order[i].forward)
  }

  ghost function Values(order: seq<Node>): (v: seq<string>)
    reads order
    ensures |v| == |order| && forall i :: 0 <= i < |order| ==> v[i] == order[i].value
  {
    seq(|order|, i requires 0 <= i < |order| reads order => order[i].value)
  }

  lemma InsertedContents(order: seq<Node>, pos: nat, node: Node)
    requires pos <= |order|
    ensures Forwards(InsertedAt<Node>(order, pos, node)) == InsertedAt<seq<Node?>>(Forwards(order), pos, node.forward)
    ensures Values(InsertedAt<Node>(order, pos, node)) == InsertedAt<string>(Values(order), pos, node.value)
  {
  }

  lemma RemovedContents(order: seq<Node>, pos: nat)
    requires pos < |order|
    ensures Forwards(RemovedAt<Node>(order, pos)) == RemovedAt<seq<Node?>>(Forwards(order), pos)
    ensures Values(RemovedAt<Node>(order, pos)) == RemovedAt<string>(Values(order), pos)
  {
  }

  lemma InsertedMembers(order: seq<Node>, pos: nat, node: Node)
    requires pos <= |order|
    ensures forall n :: n in InsertedAt<Node>(order, pos, node) ==> n in order || n == node
  {
  }

  lemma RemovedMembers(order: seq<Node>, pos: nat)
    requires pos < |order|
    ensures forall n :: n in RemovedAt<Node>(order, pos) ==> n in order
  {
  }

  lemma KeysInserted(order: seq<Node>, keys: seq<int>, pos: nat, node: Node)
    requires |order| == |keys| && pos <= |order| && forall i :: 0 <= i < |order| ==> order[i].key == keys[i]
    ensures var order', keys' := InsertedAt<Node>(order, pos, node), InsertedAt<int>(keys, pos, node.key);
            forall i :: 0 <= i < |order'| ==> order'[i].key == keys'[i]
  {
  }

  /** The whole invariant, on values. */
  ghost predicate Inv(order: seq<Node>, forwards: seq<seq<Node?>>, values: seq<string>, keys: seq<int>, heights: seq<nat>,
                      contents: map<int, string>, maxLevel: nat, head: Node, nil: Node)
  {
    && Good(order, forwards, keys, heights, maxLevel)
    && order[0] == head && order[|order| - 1] == nil
    && (forall i :: 0 <= i < |order| ==> order[i].key == keys[i])
    && MapsTo(keys, values, contents)
  }

  class List {
    const maxLevel: nat
    const head: Node
    const nil: Node
    ghost var order: seq<Node>            // head, the nodes in list order, NIL
    ghost var keys: seq<int>
    ghost var heights: seq<nat>
    ghost var contents: map<int, string>

    ghost predicate Valid()
      reads this, order
    {
      Inv(order, Forwards(order), Values(order), keys, heights, contents, maxLevel, head, nil)
    }

    constructor (maxLevel: nat)
      requires maxLevel >= 1
      ensures Valid() && contents == map[] && fresh(order) && this.maxLevel == maxLevel
    {
      this.maxLevel := maxLevel;
      var h := new Node(MIN, "head", maxLevel);
      var n := new Node(MAX, "NIL", maxLevel);
      h.forward := seq(maxLevel, _ => n);
      head, nil := h, n;
      order, keys, heights, contents := [h, n], [MIN, MAX], [maxLevel, maxLevel], map[];
      new;
      OnlySentinels(order, Forwards(order), maxLevel);
    }

    /** The last node of each level whose key is below the searched one, or the head. */
    method Predecessors(k: int) returns (preds: seq<Node>)
      requires Valid() && MIN <= k <= MAX
      ensures exists at :: PredsAre(order, keys, heights, maxLevel, k, at, preds)
    {
      preds := seq(maxLevel, _ => head);
      ghost var at: seq<nat> := seq(maxLevel, _ => 0);
      var x := head;
      ghost var xi: nat := 0;
      var i := maxLevel;
      while i > 0
        invariant 0 <= i <= maxLevel == |preds| == |at|
        invariant xi < |order| - 1 && x == order[xi] && (xi == 0 || keys[xi] < k) && heights[xi] >= i
        invariant forall l :: i <= l < maxLevel ==> PredAt(keys, heights, l, at[l], k) && preds[l] == order[at[l]]
      {
        i := i - 1;
        x, xi := Advance(k, i, x, xi);
        preds, at := preds[i := x], at[i := xi];
      }
      assert PredsAre(order, keys, heights, maxLevel, k, at, preds);
    }

    /** Walks along level i while the next key is below k. */
    method Advance(k: int, i: nat, start: Node, ghost from: nat) returns (x: Node, ghost xi: nat)
      requires Valid() && MIN <= k <= MAX
      requires from < |order| - 1 && start == order[from] && (from == 0 || keys[from] < k) && heights[from] > i
      ensures PredAt(keys, heights, i, xi, k) && x == order[xi]
    {
      x, xi := start, from;
      ghost var n := NextOf(xi, i);
      while x.forward[i].key < k
        invariant xi < |order| - 1 && x == order[xi] && (xi == 0 || keys[xi] < k) && heights[xi] > i
        invariant IsNext(heights, i, xi, n) && x.forward[i] == order[n]
        decreases |order| - xi
      {
        x, xi := x.forward[i], n;
        n := NextOf(xi, i);
      }
    }

    lemma NextOf(i: nat, l: nat) returns (n: nat)
      requires Valid() && i < |order| - 1 && l < heights[i]
      ensures IsNext(heights, l, i, n) && |order[i].forward| == heights[i] && order[i].forward[l] == order[n]
      ensures order[n].key == keys[n] && (n == |order| - 1 ==> keys[n] == MAX) && |order| == |keys| == |heights|
    {
      assert LinkOk(order, heights, i, l, Forwards(order)[i][l]);
      n :| IsNext(heights, l, i, n) && order[i].forward[l] == order[n];
    }

    method Find(k: int) returns (r: Option<string>)
      requires Valid() && MIN <= k <= MAX
      ensures r == if k in contents then Some(contents[k]) else None
    {
      var x := head;
      ghost var xi: nat := 0;
      var i := maxLevel;
      while i > 0
        invariant 0 <= i <= maxLevel && xi < |order| - 1 && x == order[xi] && (xi == 0 || keys[xi] < k) && heights[xi] >= i
        invariant i == 0 ==> PredAt(keys, heights, 0, xi, k)
      {
        i := i - 1;
        x, xi := Advance(k, i, x, xi);
      }
      x := After(k, x, xi);
      r := if x.key == k && x != nil then Some(x.value) else None;
    }

    /** The candidate: the node after the level-0 predecessor. */
    method After(k: int, pred: Node, ghost q: nat) returns (node: Node)
      requires Valid() && PredAt(keys, heights, 0, q, k) && pred == order[q]
      ensures q + 1 < |order| && node == order[q + 1] && |pred.forward| > 0 && node == pred.forward[0]
      ensures k in contents <==> node.key == k && node != nil
      ensures node != nil ==> q + 1 < |order| - 1
    {
      FoundOrAbsent(keys, heights, maxLevel, Values(order), contents, k, q);
      ghost var n := NextOf(q, 0);
      assert heights[q + 1] >= 1;
      node := pred.forward[0];
    }

    /** Gives an existing key its new value; otherwise splices in a node of the drawn level. */
    method Insert(k: int, v: string, level: nat)
      requires Valid() && MIN <= k <= MAX && 1 <= level <= maxLevel
      modifies this, order
      ensures Valid() && contents == old(contents)[k := v]
      ensures forall n :: n in order ==> n in old(order) || fresh(n)
      ensures k in old(contents) ==> order == old(order) && keys == old(keys) && heights == old(heights)
      ensures k !in old(contents) ==> exists pos :: Grown(old(keys), old(heights), pos, k, level)
    {
      var preds := Predecessors(k);
      ghost var at :| PredsAre(order, keys, heights, maxLevel, k, at, preds);
      assert PredAt(keys, heights, 0, at[0], k);
      var next := After(k, preds[0], at[0]);
      if next.key == k && next != nil {
        assert k in contents;
        Reassign(at[0] + 1, next, v);
      } else {
        assert k !in contents;
        InsertNew(k, v, level, preds, at);
      }
    }

    /** The keys and heights now are the former ones with key k on `level` levels at position pos. */
    ghost predicate Grown(keys0: seq<int>, heights0: seq<nat>, pos: nat, k: int, level: nat)
      reads this
    {
      && 0 < pos < |keys0| == |heights0|
      && keys == InsertedAt<int>(keys0, pos, k) && heights == InsertedAt<nat>(heights0, pos, level)
    }

    /** And with the node of key k at position pos gone. */
    ghost predicate Shrunk(keys0: seq<int>, heights0: seq<nat>, pos: nat, k: int)
      reads this
    {
      && 0 < pos < |keys0| - 1 && |heights0| == |keys0| && keys0[pos] == k
      && keys == RemovedAt<int>(keys0, pos) && heights == RemovedAt<nat>(heights0, pos)
    }

    method InsertNew(k: int, v: string, level: nat, preds: seq<Node>, ghost at: seq<nat>)
      requires Valid() && MIN <= k <= MAX && 1 <= level <= maxLevel && k !in contents
      requires PredsAre(order, keys, heights, maxLevel, k, at, preds) && at[0] + 1 < |order|
      modifies this, order
      ensures Valid() && contents == old(contents)[k := v]
      ensures forall n :: n in order ==> n in old(order) || fresh(n)
      ensures exists pos :: Grown(old(keys), old(heights), pos, k, level)
    {
      var node := new Node(k, v, level);
      InsertedMembers(order, at[0] + 1, node);
      SpliceIn(node, preds, at, k);
      assert Grown(old(keys), old(heights), at[0] + 1, k, level);
    }

    method Reassign(ghost i: nat, node: Node, v: string)
      requires Valid() && 0 < i < |order| - 1 && node == order[i]
      modifies `contents, node`value
      ensures Valid() && contents == old(contents)[node.key := v]
    {
      ghost var f, vals := Forwards(order), Values(order)[i := v];
      MapsReassigned(keys, Values(order), contents, i, v);
      node.value := v;
      contents := contents[node.key := v];
      assert Forwards(order) == f && Values(order) == vals;
    }

    method SpliceIn(node: Node, preds: seq<Node>, ghost at: seq<nat>, k: int)
      requires Valid() && MIN <= k <= MAX && k !in contents
      requires PredsAre(order, keys, heights, maxLevel, k, at, preds) && at[0] + 1 < |order|
      requires node !in order && node.key == k && 1 <= |node.forward| <= maxLevel
      modifies `order, `keys, `heights, `contents, node`forward, order`forward
      ensures Valid() && contents == old(contents)[k := node.value]
      ensures order == InsertedAt<Node>(old(order), at[0] + 1, node) && keys == InsertedAt<int>(old(keys), at[0] + 1, k)
      ensures heights == InsertedAt<nat>(old(heights), at[0] + 1, old(|node.forward|))
    {
      SpliceNode(node, preds, at, k);
      Adopt(InsertedAt<Node>(order, at[0] + 1, node), InsertedAt<int>(keys, at[0] + 1, k),
            InsertedAt<nat>(heights, at[0] + 1, |node.forward|), contents[k := node.value]);
    }

    method SpliceNode(node: Node, preds: seq<Node>, ghost at: seq<nat>, k: int)
      requires Valid() && MIN <= k <= MAX && k !in contents
      requires PredsAre(order, keys, heights, maxLevel, k, at, preds) && at[0] + 1 < |order|
      requires node !in order && node.key == k && 1 <= |node.forward| <= maxLevel
      modifies node`forward, order`forward
      ensures |node.forward| == old(|node.forward|)
      ensures var pos, order' := at[0] + 1, InsertedAt<Node>(order, at[0] + 1, node);
              Inv(order', Forwards(order'), Values(order'), InsertedAt<int>(keys, pos, k),
                  InsertedAt<nat>(heights, pos, |node.forward|), contents[k := node.value], maxLevel, head, nil)
    {
      ghost var was, vals := Forwards(order), Values(order);
      PredsAreSites(order, keys, heights, maxLevel, k, at, preds);
      Relink(node, preds, at, at[0] + 1);
      assert Values(order) == vals;
      InsertedInv(was, node, k, at, preds);
    }

    lemma InsertedInv(was: seq<seq<Node?>>, node: Node, k: int, at: seq<nat>, preds: seq<Node>)
      requires Inv(order, was, Values(order), keys, heights, contents, maxLevel, head, nil) && MIN <= k <= MAX
      requires PredsAre(order, keys, heights, maxLevel, k, at, preds) && at[0] + 1 < |order|
      requires node !in order && node.key == k && k !in contents && 1 <= |node.forward| <= maxLevel
      requires TakenOver(node.forward, was, at, |node.forward|)
      requires Spliced(order, was, Forwards(order), preds, Pointing(node, |node.forward|), |node.forward|)
      ensures var pos, order' := at[0] + 1, InsertedAt<Node>(order, at[0] + 1, node);
              Inv(order', Forwards(order'), Values(order'), InsertedAt<int>(keys, pos, k),
                  InsertedAt<nat>(heights, pos, |node.forward|), contents[k := node.value], maxLevel, head, nil)
    {
      InsertEffect(order, was, Forwards(order), Values(order), keys, heights, contents, maxLevel, head, nil,
                   k, node.value, at, preds, node, node.forward);
      InsertedContents(order, at[0] + 1, node);
    }

    /** The ghost description follows the pointers. */
    ghost method Adopt(order': seq<Node>, keys': seq<int>, heights': seq<nat>, contents': map<int, string>)
      requires Inv(order', Forwards(order'), Values(order'), keys', heights', contents', maxLevel, head, nil)
      modifies `order, `keys, `heights, `contents
      ensures Valid() && contents == contents' && order == order' && keys == keys' && heights == heights'
    {
      order, keys, heights, contents := order', keys', heights', contents';
    }

    /** Level by level, the new node takes over its predecessor's pointer and the predecessor points to it. */
    method Relink(node: Node, preds: seq<Node>, ghost at: seq<nat>, ghost pos: nat)
      requires Linked(order, Forwards(order), heights) && Distinct(order) && node !in order
      requires Sites(order, heights, pos, at, preds) && |node.forward| <= |preds|
      modifies node`forward, order`forward
      ensures |node.forward| == old(|node.forward|)
      ensures Spliced(order, old(Forwards(order)), Forwards(order), preds, Pointing(node, |node.forward|), |node.forward|)
      ensures TakenOver(node.forward, old(Forwards(order)), at, |node.forward|)
    {
      ghost var was := Forwards(order);
      var h := |node.forward|;
      ghost var target := Pointing(node, h);
      var i := 0;
      while i < h
        invariant 0 <= i <= h == |node.forward|
        invariant Spliced(order, was, Forwards(order), preds, target, i)
        invariant TakenOver(node.forward, was, at, i)
      {
        assert Site(order, heights, pos, i, at[i], preds[i]);
        RelinkOne(node, preds[i], i, was, preds, target, at, pos);
        i := i + 1;
      }
    }

    method RelinkOne(node: Node, pred: Node, i: nat, ghost was: seq<seq<Node?>>, ghost preds: seq<Node>,
                     ghost target: seq<Node?>, ghost at: seq<nat>, ghost pos: nat)
      requires Linked(order, was, heights) && Distinct(order) && node !in order
      requires Sites(order, heights, pos, at, preds) && i < |preds| && pred == preds[i]
      requires i < |target| == |node.forward| && target[i] == node
      requires Spliced(order, was, Forwards(order), preds, target, i) && TakenOver(node.forward, was, at, i)
      modifies node`forward, pred`forward
      ensures |node.forward| == old(|node.forward|)
      ensures Spliced(order, was, Forwards(order), preds, target, i + 1) && TakenOver(node.forward, was, at, i + 1)
    {
      ghost var before, p := Forwards(order), at[i];
      assert Site(order, heights, pos, i, p, pred);
      SplicedLink(order, was, before, preds, target, i, p, p, i);
      SplicedOne(order, was, before, preds, target, i, p);
      node.forward := node.forward[i := pred.forward[i]];
      assert TakenOver(node.forward, was, at, i + 1);
      PointTo(pred, i, node, p);
    }

    method PointTo(pred: Node, i: nat, node: Node?, ghost p: nat)
      requires Distinct(order) && p < |order| && pred == order[p] && i < |pred.forward|
      modifies pred`forward
      ensures Forwards(order) == old(Forwards(order))[p := old(Forwards(order))[p][i := node]]
    {
      pred.forward := pred.forward[i := node];
    }

    /** Unlinks the node with the key from every level it is on. */
    method Erase(k: int)
      requires Valid() && MIN <= k <= MAX
      modifies this, order
      ensures Valid() && contents == old(contents) - {k}
      ensures k !in old(contents) ==> order == old(order) && keys == old(keys) && heights == old(heights)
      ensures k in old(contents) ==> exists pos :: Shrunk(old(keys), old(heights), pos, k)
      ensures forall n :: n in order ==> n in old(order)
    {
      var preds := Predecessors(k);
      ghost var at :| PredsAre(order, keys, heights, maxLevel, k, at, preds);
      assert PredAt(keys, heights, 0, at[0], k);
      var node := After(k, preds[0], at[0]);
      if node.key == k && node != nil {
        EraseFound(node, preds, at, k);
        assert Shrunk(old(keys), old(heights), at[0] + 1, k);
      } else {
        assert contents - {k} == contents;
      }
    }

    method EraseFound(node: Node, preds: seq<Node>, ghost at: seq<nat>, k: int)
      requires Valid() && PredsAre(order, keys, heights, maxLevel, k, at, preds)
      requires at[0] + 1 < |order| - 1 && node == order[at[0] + 1] && node.key == k
      modifies this, order
      ensures Valid() && contents == old(contents) - {k}
      ensures forall n :: n in order ==> n in old(order)
      ensures keys == RemovedAt<int>(old(keys), at[0] + 1) && heights == RemovedAt<nat>(old(heights), at[0] + 1)
    {
      RemovedMembers(order, at[0] + 1);
      CutOut(node, preds, at, k);
    }

    method CutOut(node: Node, preds: seq<Node>, ghost at: seq<nat>, k: int)
      requires Valid() && PredsAre(order, keys, heights, maxLevel, k, at, preds)
      requires at[0] + 1 < |order| - 1 && node == order[at[0] + 1] && node.key == k
      modifies `order, `keys, `heights, `contents, order`forward
      ensures Valid() && contents == old(contents) - {k}
      ensures order == RemovedAt<Node>(old(order), at[0] + 1)
      ensures keys == RemovedAt<int>(old(keys), at[0] + 1) && heights == RemovedAt<nat>(old(heights), at[0] + 1)
    {
      CutNode(node, preds, at, k);
      Adopt(RemovedAt<Node>(order, at[0] + 1), RemovedAt<int>(keys, at[0] + 1), RemovedAt<nat>(heights, at[0] + 1),
            contents - {k});
    }

    method CutNode(node: Node, preds: seq<Node>, ghost at: seq<nat>, k: int)
      requires Valid() && PredsAre(order, keys, heights, maxLevel, k, at, preds)
      requires at[0] + 1 < |order| - 1 && node == order[at[0] + 1] && node.key == k
      modifies order`forward
      ensures var pos, order' := at[0] + 1, RemovedAt<Node>(order, at[0] + 1);
              Inv(order', Forwards(order'), Values(order'), RemovedAt<int>(keys, pos), RemovedAt<nat>(heights, pos),
                  contents - {k}, maxLevel, head, nil)
    {
      ghost var was, vals := Forwards(order), Values(order);
      PredsAreSites(order, keys, heights, maxLevel, k, at, preds);
      Unlink(node, preds, at, at[0] + 1);
      assert Values(order) == vals;
      RemovedInv(was, k, at, preds);
    }

    lemma RemovedInv(was: seq<seq<Node?>>, k: int, at: seq<nat>, preds: seq<Node>)
      requires Inv(order, was, Values(order), keys, heights, contents, maxLevel, head, nil)
      requires PredsAre(order, keys, heights, maxLevel, k, at, preds)
      requires at[0] + 1 < |order| - 1 && keys[at[0] + 1] == k
      requires Spliced(order, was, Forwards(order), preds, was[at[0] + 1], heights[at[0] + 1])
      ensures var pos, order' := at[0] + 1, RemovedAt<Node>(order, at[0] + 1);
              Inv(order', Forwards(order'), Values(order'), RemovedAt<int>(keys, pos), RemovedAt<nat>(heights, pos),
                  contents - {k}, maxLevel, head, nil)
    {
      EraseEffect(order, was, Forwards(order), Values(order), keys, heights, contents, maxLevel, head, nil, k, at, preds);
      RemovedContents(order, at[0] + 1);
    }

    method Unlink(node: Node, preds: seq<Node>, ghost at: seq<nat>, ghost pos: nat)
      requires Linked(order, Forwards(order), heights) && Distinct(order)
      requires Sites(order, heights, pos, at, preds) && pos < |order| - 1 && node == order[pos]
      modifies order`forward
      ensures Spliced(order, old(Forwards(order)), Forwards(order), preds, old(node.forward), old(|node.forward|))
    {
      ghost var was, target := Forwards(order), node.forward;
      var i := 0;
      while i < |node.forward|
        invariant 0 <= i <= |node.forward| && node.forward == target
        invariant Spliced(order, was, Forwards(order), preds, target, i)
      {
        assert Site(order, heights, pos, i, at[i], preds[i]);
        UnlinkOne(node, preds[i], i, was, preds, target, at, pos);
        i := i + 1;
      }
    }

    method UnlinkOne(node: Node, pred: Node, i: nat, ghost was: seq<seq<Node?>>, ghost preds: seq<Node>,
                     ghost target: seq<Node?>, ghost at: seq<nat>, ghost pos: nat)
      requires Linked(order, was, heights) && Distinct(order)
      requires Sites(order, heights, pos, at, preds) && pos < |order| && node == order[pos]
      requires i < |preds| && pred == preds[i] && i < |target| && node.forward == target
      requires Spliced(order, was, Forwards(order), preds, target, i)
      modifies pred`forward
      ensures Spliced(order, was, Forwards(order), preds, target, i + 1) && node.forward == target
    {
      ghost var before, p := Forwards(order), at[i];
      assert Site(order, heights, pos, i, p, pred);
      SplicedLink(order, was, before, preds, target, i, p, p, i);
      SplicedOne(order, was, before, preds, target, i, p);
      PointTo(pred, i, node.forward[i], p);
    }
  }

  /** The first i pointers of the new node are those its predecessors had. */
  ghost predicate TakenOver(nf: seq<Node?>, was: seq<seq<Node?>>, at: seq<nat>, i: nat) {
    && i <= |nf| && i <= |at|
    && forall l :: 0 <= l < i ==> at[l] < |was| && l < |was[at[l]]| && nf[l] == was[at[l]][l]
  }

  lemma SplicedOne(order: seq<Node>, was: seq<seq<Node?>>, before: seq<seq<Node?>>,
                   preds: seq<Node>, target: seq<Node?>, i: nat, p: nat)
    requires Distinct(order) && Spliced(order, was, before, preds, target, i) && i < |target| && i < |preds|
    requires p < |order| && preds[i] == order[p] && i < |before[p]|
    ensures Spliced(order, was, before[p := before[p][i := target[i]]], preds, target, i + 1)
  {
    var now := before[p := before[p][i := target[i]]];
    forall j | 0 <= j < |order| ensures SplicedNode(order[j], was[j], now[j], preds, target, i + 1) {
      assert order[j] == preds[i] <==> j == p;
      assert SplicedNode(order[j], was[j], before[j], preds, target, i);
    }
  }

  lemma InsertEffect(order: seq<Node>, was: seq<seq<Node?>>, now: seq<seq<Node?>>, values: seq<string>, keys: seq<int>,
                     heights: seq<nat>, contents: map<int, string>, maxLevel: nat, head: Node, nil: Node,
                     k: int, v: string, at: seq<nat>, preds: seq<Node>, node: Node, nf: seq<Node?>)
    requires Inv(order, was, values, keys, heights, contents, maxLevel, head, nil) && MIN <= k <= MAX
    requires node !in order && node.key == k && k !in contents
    requires PredsAre(order, keys, heights, maxLevel, k, at, preds) && 1 <= |nf| <= maxLevel
    requires TakenOver(nf, was, at, |nf|) && Spliced(order, was, now, preds, Pointing(node, |nf|), |nf|)
    ensures var pos := at[0] + 1;
            && pos <= |order| == |now| == |values| == |keys| == |heights|
            && Inv(InsertedAt<Node>(order, pos, node), InsertedAt<seq<Node?>>(now, pos, nf), InsertedAt<string>(values, pos, v),
                   InsertedAt<int>(keys, pos, k), InsertedAt<nat>(heights, pos, |nf|), contents[k := v], maxLevel, head, nil)
  {
    assert at[0] + 1 < |keys| by { PredsAreSites(order, keys, heights, maxLevel, k, at, preds); }
    KeysInserted(order, keys, at[0] + 1, node);
    MapsInserted(keys, values, contents, at[0] + 1, k, v);
    assert at[0] + 1 < |keys| - 1 ==> keys[at[0] + 1] in contents;
    InsertGood(order, was, now, keys, heights, maxLevel, k, at, preds, node, nf);
  }

  lemma EraseEffect(order: seq<Node>, was: seq<seq<Node?>>, now: seq<seq<Node?>>, values: seq<string>, keys: seq<int>,
                    heights: seq<nat>, contents: map<int, string>, maxLevel: nat, head: Node, nil: Node,
                    k: int, at: seq<nat>, preds: seq<Node>)
    requires Inv(order, was, values, keys, heights, contents, maxLevel, head, nil)
    requires PredsAre(order, keys, heights, maxLevel, k, at, preds)
    requires at[0] + 1 < |order| - 1 && keys[at[0] + 1] == k
    requires Spliced(order, was, now, preds, was[at[0] + 1], heights[at[0] + 1])
    ensures var pos := at[0] + 1;
            && |order| == |now| == |values|
            && Inv(RemovedAt<Node>(order, pos), RemovedAt<seq<Node?>>(now, pos), RemovedAt<string>(values, pos), RemovedAt<int>(keys, pos),
                   RemovedAt<nat>(heights, pos), contents - {k}, maxLevel, head, nil)
  {
    PredsAreSites(order, keys, heights, maxLevel, k, at, preds);
    MapsRemoved(keys, values, contents, at[0] + 1);
    EraseGood(order, was, now, keys, heights, maxLevel, k, at, preds);
  }

  lemma MapsReassigned(keys: seq<int>, values: seq<string>, contents: map<int, string>, i: nat, v: string)
    requires Increasing(keys) && MapsTo(keys, values, contents) && 0 < i < |keys| - 1
    ensures MapsTo(keys, values[i := v], contents[keys[i] := v])
  {
  }

  lemma InsertGood(order: seq<Node>, was: seq<seq<Node?>>, now: seq<seq<Node?>>, keys: seq<int>, heights: seq<nat>,
                   maxLevel: nat, k: int, at: seq<nat>, preds: seq<Node>, node: Node, nf: seq<Node?>)
    requires Good(order, was, keys, heights, maxLevel) && MIN <= k <= MAX && node !in order
    requires PredsAre(order, keys, heights, maxLevel, k, at, preds) && 1 <= |nf| <= maxLevel
    requires at[0] + 1 < |keys| - 1 ==> keys[at[0] + 1] != k
    requires TakenOver(nf, was, at, |nf|)
    requires Spliced(order, was, now, preds, Pointing(node, |nf|), |nf|)
    ensures var pos := at[0] + 1;
            Good(InsertedAt<Node>(order, pos, node), InsertedAt<seq<Node?>>(now, pos, nf),
                 InsertedAt<int>(keys, pos, k), InsertedAt<nat>(heights, pos, |nf|), maxLevel)
  {
    PredsAreSites(order, keys, heights, maxLevel, k, at, preds);
    ShapeInserted(keys, heights, maxLevel, at[0] + 1, k, |nf|);
    InsertLinked(order, was, now, heights, at[0] + 1, at, preds, node, nf, Pointing(node, |nf|));
    DistinctInserted(order, at[0] + 1, node);
  }

  lemma DistinctInserted(order: seq<Node>, pos: nat, node: Node)
    requires Distinct(order) && node !in order && pos <= |order|
    ensures Distinct(InsertedAt<Node>(order, pos, node))
  {
  }

  lemma EraseGood(order: seq<Node>, was: seq<seq<Node?>>, now: seq<seq<Node?>>, keys: seq<int>, heights: seq<nat>,
                  maxLevel: nat, k: int, at: seq<nat>, preds: seq<Node>)
    requires Good(order, was, keys, heights, maxLevel)
    requires PredsAre(order, keys, heights, maxLevel, k, at, preds) && at[0] + 1 < |order| - 1
    requires Spliced(order, was, now, preds, was[at[0] + 1], heights[at[0] + 1])
    ensures var pos := at[0] + 1;
            Good(RemovedAt<Node>(order, pos), RemovedAt<seq<Node?>>(now, pos), RemovedAt<int>(keys, pos), RemovedAt<nat>(heights, pos), maxLevel)
  {
    PredsAreSites(order, keys, heights, maxLevel, k, at, preds);
    ShapeRemoved(keys, heights, maxLevel, at[0] + 1);
    EraseLinked(order, was, now, heights, at[0] + 1, at, preds);
  }

  lemma OnlySentinels(order: seq<Node>, forwards: seq<seq<Node?>>, maxLevel: nat)
    requires maxLevel >= 1 && |order| == |forwards| == 2 && order[0] != order[1]
    requires |forwards[0]| == |forwards[1]| == maxLevel && forall l :: 0 <= l < maxLevel ==> forwards[0][l] == order[1]
    ensures Good(order, forwards, [MIN, MAX], [maxLevel, maxLevel], maxLevel)
  {
    forall l: nat | l < maxLevel ensures LinkOk(order, [maxLevel, maxLevel], 0, l, forwards[0][l]) {
      assert IsNext([maxLevel, maxLevel], l, 0, 1);
    }
  }
}
