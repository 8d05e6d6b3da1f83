/**
 * The selection arithmetic of a decision market, on the list of current
 * predictions: numpy's argmax (the first position of the maximum) and
 * Python's stable `sorted(..., reverse=True)` as an order of market
 * positions, and the inverse-propensity weighting of the stochastic rule.
 */
module Ranking {
  import opened LinearAlgebra

  /** numpy's argmax: the first position holding the largest prediction. */
  function FirstArgmax(s: seq<real>): (r: nat)
    requires |s| > 0
    ensures r < |s|
    ensures forall j :: 0 <= j < |s| ==> s[j] <= s[r]
    ensures forall j :: 0 <= j < r ==> s[j] < s[r]
  {
    if |s| == 1 then 0
    else
      var k := FirstArgmax(s[..|s| - 1]);
      if s[|s| - 1] > s[k] then |s| - 1 else k
  }

  /**
   * Market `x` comes before market `y` in a descending sort that keeps equal
   * predictions in their original order, as Python's stable sort with
   * `reverse=True` does.
   */
  predicate RanksBefore(preds: seq<real>, x: nat, y: nat)
  {
    x < |preds| && y < |preds| && (preds[x] > preds[y] || (preds[x] == preds[y] && x < y))
  }

  /** Every earlier entry of `order` ranks before every later one. */
  predicate SortedBy(preds: seq<real>, order: seq<nat>)
  {
    forall i, j :: 0 <= i < j < |order| ==> RanksBefore(preds, order[i], order[j])
  }

  /** The positions 0, 1, ..., n - 1. */
  function Range(n: nat): (r: seq<nat>)
    ensures |r| == n
    ensures forall i :: 0 <= i < n ==> r[i] == i
  {
    seq(n, i => i)
  }

  /** Inserts position `x` into a sorted order, after everything that ranks before it. */
  function Insert(preds: seq<real>, x: nat, order: seq<nat>): (r: seq<nat>)
    ensures |r| == |order| + 1
  {
    if order == [] then [x]
    else if RanksBefore(preds, x, order[0]) then [x] + order
    else [order[0]] + Insert(preds, x, order[1..])
  }

  /** The first `n` market positions in sorted order. */
  function SortDescending(preds: seq<real>, n: nat): (r: seq<nat>)
    requires n <= |preds|
    ensures |r| == n
    ensures forall i :: 0 <= i < n ==> r[i] < n
  {
    if n == 0 then []
    else
      var before := SortDescending(preds, n - 1);
      InsertBounded(preds, n - 1, before, n);
      Insert(preds, n - 1, before)
  }

  /** The positions of all markets, highest current prediction first, ties in list order. */
  function SortedMarketOrder(preds: seq<real>): (r: seq<nat>)
    ensures |r| == |preds|
    ensures forall i :: 0 <= i < |r| ==> r[i] < |preds|
  {
    SortDescending(preds, |preds|)
  }

  lemma {:induction false} InsertElements(preds: seq<real>, x: nat, order: seq<nat>)
    ensures multiset(Insert(preds, x, order)) == multiset(order) + multiset{x}
  {
    if order != [] && !RanksBefore(preds, x, order[0]) {
      InsertElements(preds, x, order[1..]);
      assert order == [order[0]] + order[1..];
    }
  }

  lemma {:induction false} InsertSorted(preds: seq<real>, x: nat, order: seq<nat>)
    requires SortedBy(preds, order)
    requires x < |preds| && x !in order
    requires forall i :: 0 <= i < |order| ==> order[i] < |preds|
    ensures SortedBy(preds, Insert(preds, x, order))
  {
    if order != [] && !RanksBefore(preds, x, order[0]) {
      var rest := Insert(preds, x, order[1..]);
      InsertSorted(preds, x, order[1..]);
      InsertElements(preds, x, order[1..]);
      assert forall e :: e in rest ==> e in order[1..] || e == x by {
        forall e | e in rest
          ensures e in order[1..] || e == x
        {
          assert e in multiset(rest);
        }
      }
      assert order[0] in order;
      assert RanksBefore(preds, order[0], x);
      forall j | 0 <= j < |rest|
        ensures RanksBefore(preds, order[0], rest[j])
      {
        assert rest[j] in rest;
        if rest[j] != x {
          var k :| 0 <= k < |order[1..]| && order[1..][k] == rest[j];
          assert order[k + 1] == rest[j];
        }
      }
    }
  }

  /** The sort is a permutation of the positions 0 .. n - 1 ... */
  lemma {:induction false} SortDescendingPermutes(preds: seq<real>, n: nat)
    requires n <= |preds|
    ensures multiset(SortDescending(preds, n)) == multiset(Range(n))
  {
    if n > 0 {
      SortDescendingPermutes(preds, n - 1);
      InsertElements(preds, n - 1, SortDescending(preds, n - 1));
      RangeSnoc(n);
    }
  }

  lemma RangeSnoc(n: nat)
    requires n > 0
    ensures multiset(Range(n)) == multiset(Range(n - 1)) + multiset{Range(n)[n - 1]}
  {
    assert Range(n) == Range(n - 1) + [n - 1];
  }

  /** ... and lists them in ranking order. */
  lemma {:induction false} SortDescendingSorted(preds: seq<real>, n: nat)
    requires n <= |preds|
    ensures SortedBy(preds, SortDescending(preds, n))
  {
    if n > 0 {
      var before := SortDescending(preds, n - 1);
      SortDescendingSorted(preds, n - 1);
      InsertSorted(preds, n - 1, before);
    }
  }

  /**
   * sorted(reverse=True) by current prediction: the order lists every market
   * exactly once, descending, with ties in their original order.
   */
  lemma SortedMarketOrderIsStableDescending(preds: seq<real>)
    ensures multiset(SortedMarketOrder(preds)) == multiset(Range(|preds|))
    ensures |SortedMarketOrder(preds)| == |preds|
    ensures SortedBy(preds, SortedMarketOrder(preds))
  {
    SortDescendingPermutes(preds, |preds|);
    SortDescendingSorted(preds, |preds|);
    assert |SortedMarketOrder(preds)| == |multiset(SortedMarketOrder(preds))|;
  }

  /** Every market appears in the sorted order. */
  lemma SortedMarketOrderContains(preds: seq<real>, k: nat)
    requires k < |preds|
    ensures k in SortedMarketOrder(preds)
  {
    SortedMarketOrderIsStableDescending(preds);
    assert Range(|preds|)[k] == k;
    assert k in multiset(Range(|preds|));
    assert k in multiset(SortedMarketOrder(preds));
  }

  /** The top of the stochastic rule's order is the deterministic rule's argmax. */
  lemma TopRankIsArgmax(preds: seq<real>)
    requires |preds| > 0
    ensures SortedMarketOrder(preds)[0] == FirstArgmax(preds)
  {
    var order := SortedMarketOrder(preds);
    var a := FirstArgmax(preds);
    assert a in order by { SortedMarketOrderContains(preds, a); }
    var j :| 0 <= j < |order| && order[j] == a;
    if j != 0 {
      assert RanksBefore(preds, order[0], order[j]) by { SortedMarketOrderIsStableDescending(preds); }
      assert false;
    }
  }

  /** The terms `f[order[r]]`, r = 0, 1, ...: `f` read in the given order. */
  function Gather(f: seq<real>, order: seq<nat>): (r: seq<real>)
    requires forall r :: 0 <= r < |order| ==> order[r] < |f|
    ensures |r| == |order|
  {
    seq(|order|, r requires 0 <= r < |order| => f[order[r]])
  }

  lemma {:induction false} InsertBounded(preds: seq<real>, x: nat, order: seq<nat>, n: nat)
    requires x < n && forall r :: 0 <= r < |order| ==> order[r] < n
    ensures forall r :: 0 <= r < |Insert(preds, x, order)| ==> Insert(preds, x, order)[r] < n
  {
    if order != [] && !RanksBefore(preds, x, order[0]) {
      InsertBounded(preds, x, order[1..], n);
    }
  }

  lemma {:induction false} SumGatherInsert(f: seq<real>, preds: seq<real>, x: nat, order: seq<nat>)
    requires x < |f| && forall r :: 0 <= r < |order| ==> order[r] < |f|
    ensures forall r :: 0 <= r < |Insert(preds, x, order)| ==> Insert(preds, x, order)[r] < |f|
    ensures Sum(Gather(f, Insert(preds, x, order))) == f[x] + Sum(Gather(f, order))
  {
    InsertBounded(preds, x, order, |f|);
    if order == [] {
      assert Gather(f, Insert(preds, x, order)) == [f[x]];
      assert Sum([f[x]]) == Sum([]) + f[x];
    } else if RanksBefore(preds, x, order[0]) {
      SumGatherInsertFirst(f, preds, x, order);
    } else {
      InsertBounded(preds, x, order[1..], |f|);
      SumGatherInsert(f, preds, x, order[1..]);
      SumGatherInsertLater(f, preds, x, order);
    }
  }

  /** Sum of a gathered order, split after its first entry. */
  lemma SumGatherFront(f: seq<real>, order: seq<nat>)
    requires order != [] && forall r :: 0 <= r < |order| ==> order[r] < |f|
    ensures Sum(Gather(f, order)) == f[order[0]] + Sum(Gather(f, order[1..]))
  {
    SumFront(Gather(f, order));
    assert Gather(f, order)[1..] == Gather(f, order[1..]);
  }

  lemma SumGatherInsertFirst(f: seq<real>, preds: seq<real>, x: nat, order: seq<nat>)
    requires x < |f| && forall r :: 0 <= r < |order| ==> order[r] < |f|
    requires order != [] && RanksBefore(preds, x, order[0])
    ensures forall r :: 0 <= r < |Insert(preds, x, order)| ==> Insert(preds, x, order)[r] < |f|
    ensures Sum(Gather(f, Insert(preds, x, order))) == f[x] + Sum(Gather(f, order))
  {
    var ins := Insert(preds, x, order);
    assert ins == [x] + order;
    SumGatherFront(f, ins);
    assert ins[1..] == order;
  }

  lemma SumGatherInsertLater(f: seq<real>, preds: seq<real>, x: nat, order: seq<nat>)
    requires x < |f| && forall r :: 0 <= r < |order| ==> order[r] < |f|
    requires order != [] && !RanksBefore(preds, x, order[0])
    requires forall r :: 0 <= r < |Insert(preds, x, order[1..])| ==> Insert(preds, x, order[1..])[r] < |f|
    requires Sum(Gather(f, Insert(preds, x, order[1..]))) == f[x] + Sum(Gather(f, order[1..]))
    ensures forall r :: 0 <= r < |Insert(preds, x, order)| ==> Insert(preds, x, order)[r] < |f|
    ensures Sum(Gather(f, Insert(preds, x, order))) == f[x] + Sum(Gather(f, order))
  {
    var ins := Insert(preds, x, order);
    assert ins == [order[0]] + Insert(preds, x, order[1..]);
    SumGatherFront(f, ins);
    assert ins[1..] == Insert(preds, x, order[1..]);
    SumGatherFront(f, order);
  }

  lemma {:induction false} SumGatherSortDescending(f: seq<real>, preds: seq<real>, n: nat)
    requires n <= |preds| && n <= |f|
    ensures forall r :: 0 <= r < |SortDescending(preds, n)| ==> SortDescending(preds, n)[r] < |f|
    ensures Sum(Gather(f, SortDescending(preds, n))) == Sum(f[..n])
  {
    if n > 0 {
      var before := SortDescending(preds, n - 1);
      SumGatherSortDescending(f, preds, n - 1);
      SumGatherInsert(f, preds, n - 1, before);
      SumPrefix(f, n);
    }
  }

  /** The sum of the first n entries is the sum of the first n - 1 plus entry n - 1. */
  lemma SumPrefix(f: seq<real>, n: nat)
    requires 0 < n <= |f|
    ensures Sum(f[..n]) == Sum(f[..n - 1]) + f[n - 1]
  {
    assert f[..n][..n - 1] == f[..n - 1];
  }

  /** Reading a sequence in sorted-market order does not change its sum. */
  lemma SumInSortedOrder(f: seq<real>, preds: seq<real>)
    requires |f| == |preds|
    ensures forall r :: 0 <= r < |SortedMarketOrder(preds)| ==> SortedMarketOrder(preds)[r] < |f|
    ensures Sum(Gather(f, SortedMarketOrder(preds))) == Sum(f)
  {
    SumGatherSortDescending(f, preds, |preds|);
    assert f[..|f|] == f;
  }

  /**
   * The expected payment of the stochastic rule. zip pairs the rank
   * probabilities with the first |pr| entries of the sorted order; rank r is
   * drawn with probability pr[r] and then pays its market's score divided by
   * pr[r]. A rank of probability zero is never drawn and adds nothing.
   */
  function ExpectedWeightedReward(pr: seq<real>, order: seq<nat>, f: seq<real>): real
    requires |pr| <= |order|
    requires forall r :: 0 <= r < |pr| ==> order[r] < |f|
  {
    Sum(seq(|pr|, r requires 0 <= r < |pr| => if pr[r] == 0.0 then 0.0 else pr[r] * (f[order[r]] / pr[r])))
  }

  /**
   * Inverse-propensity weighting is unbiased: when every rank the probability
   * list names can be drawn, the expected payment is the total score of the
   * |pr| top-ranked markets, whatever the ranking and the probabilities; with
   * one probability per market it is the total score over all markets.
   */
  lemma InversePropensityUnbiased(preds: seq<real>, pr: seq<real>, f: seq<real>)
    requires |pr| <= |preds| == |f|
    requires forall r :: 0 <= r < |pr| ==> pr[r] > 0.0
    ensures ExpectedWeightedReward(pr, SortedMarketOrder(preds), f) == Sum(Gather(f, SortedMarketOrder(preds)[..|pr|]))
    ensures |pr| == |preds| ==> ExpectedWeightedReward(pr, SortedMarketOrder(preds), f) == Sum(f)
  {
    var order := SortedMarketOrder(preds);
    assert seq(|pr|, r requires 0 <= r < |pr| => if pr[r] == 0.0 then 0.0 else pr[r] * (f[order[r]] / pr[r]))
        == Gather(f, order[..|pr|]);
    if |pr| == |preds| {
      assert order[..|pr|] == order;
      SumInSortedOrder(f, preds);
    }
  }
}
