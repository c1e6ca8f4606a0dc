/** Sums over sequences of integers, used to count threads, tokens and buffers. */
module Sums {

  function Sum(xs: seq<int>): int {
    if |xs| == 0 then 0 else xs[0] + Sum(xs[1..])
  }

  lemma {:induction false} SumUpdate(xs: seq<int>, i: nat, v: int)
    requires i < |xs|
    ensures Sum(xs[i := v]) == Sum(xs) - xs[i] + v
  {
    if i == 0 {
      assert xs[i := v][1..] == xs[1..];
    } else {
      assert xs[i := v][1..] == xs[1..][i - 1 := v];
      SumUpdate(xs[1..], i - 1, v);
    }
  }

  /** Replacing element i of a sequence of contributions, stated on the two sequences. */
  lemma SumChange(xs: seq<int>, ys: seq<int>, i: nat)
    requires |xs| == |ys| && i < |xs|
    requires forall j :: 0 <= j < |xs| && j != i ==> ys[j] == xs[j]
    ensures Sum(ys) == Sum(xs) - xs[i] + ys[i]
  {
    assert ys == xs[i := ys[i]];
    SumUpdate(xs, i, ys[i]);
  }

  lemma {:induction false} SumPointwise(xs: seq<int>, ys: seq<int>)
    requires |xs| == |ys|
    requires forall j :: 0 <= j < |xs| ==> xs[j] <= ys[j]
    ensures Sum(xs) <= Sum(ys)
    ensures (exists j :: 0 <= j < |xs| && xs[j] < ys[j]) ==> Sum(xs) < Sum(ys)
  {
    if |xs| > 0 {
      SumPointwise(xs[1..], ys[1..]);
      if j :| 0 <= j < |xs| && xs[j] < ys[j] && j > 0 {
        assert xs[1..][j - 1] < ys[1..][j - 1];
      }
    }
  }

  lemma {:induction false} SumNonNegative(xs: seq<int>)
    requires forall j :: 0 <= j < |xs| ==> 0 <= xs[j]
    ensures forall j :: 0 <= j < |xs| ==> xs[j] <= Sum(xs)
    ensures 0 <= Sum(xs)
    ensures Sum(xs) > 0 ==> exists j :: 0 <= j < |xs| && xs[j] > 0
  {
    if |xs| > 0 {
      SumNonNegative(xs[1..]);
      forall j | 0 <= j < |xs| ensures xs[j] <= Sum(xs) {
        if j > 0 { assert xs[1..][j - 1] == xs[j]; }
      }
      if Sum(xs) > 0 && xs[0] == 0 {
        var j :| 0 <= j < |xs[1..]| && xs[1..][j] > 0;
        assert xs[j + 1] > 0;
      }
    }
  }

  lemma {:induction false} SumAtMost(xs: seq<int>, b: int)
    requires forall j :: 0 <= j < |xs| ==> xs[j] <= b
    ensures Sum(xs) <= b * |xs|
    ensures Sum(xs) == b * |xs| ==> forall j :: 0 <= j < |xs| ==> xs[j] == b
  {
    if |xs| > 0 {
      SumAtMost(xs[1..], b);
      assert b * |xs| == b + b * (|xs| - 1);
      if Sum(xs) == b * |xs| {
        forall j | 0 <= j < |xs| ensures xs[j] == b {
          if j > 0 { assert xs[1..][j - 1] == xs[j]; }
        }
      }
    }
  }

  lemma {:induction false} SumConstant(xs: seq<int>, b: int)
    requires forall j :: 0 <= j < |xs| ==> xs[j] == b
    ensures Sum(xs) == b * |xs|
  {
    if |xs| > 0 {
      SumConstant(xs[1..], b);
      assert b * |xs| == b + b * (|xs| - 1);
    }
  }

  lemma {:induction false} SumAdd(xs: seq<int>, ys: seq<int>, zs: seq<int>)
    requires |xs| == |ys| == |zs|
    requires forall j :: 0 <= j < |xs| ==> zs[j] == xs[j] + ys[j]
    ensures Sum(zs) == Sum(xs) + Sum(ys)
  {
    if |xs| > 0 {
      SumAdd(xs[1..], ys[1..], zs[1..]);
    }
  }

  /** Distinct numbers below n are at most n many. */
  lemma Pigeonhole(s: seq<nat>, n: nat)
    requires forall i :: 0 <= i < |s| ==> s[i] < n
    requires forall i, j :: 0 <= i < j < |s| ==> s[i] != s[j]
    ensures |s| <= n
  {
    DistinctSize(s, Below(n));
  }

  function Below(n: nat): (r: set<nat>)
    ensures |r| == n && forall k: nat :: k in r <==> k < n
  {
    if n == 0 then {} else Below(n - 1) + {n - 1}
  }

  lemma {:induction false} DistinctSize(s: seq<nat>, r: set<nat>)
    requires forall i :: 0 <= i < |s| ==> s[i] in r
    requires forall i, j :: 0 <= i < j < |s| ==> s[i] != s[j]
    ensures |s| <= |r|
  {
    if |s| > 0 {
      var x := s[|s| - 1];
      DistinctSize(s[..|s| - 1], r - {x});
    }
  }
}
