/** The greedy search on numbers alone: the size of each cluster, and the pairs that its offset maps. */
module PatternGreedy {

  /** Larger clusters come first, of equal ones the first. */
  predicate Before(sizes: seq<nat>, a: nat, b: nat) {
    a < |sizes| && b < |sizes| && (sizes[a] > sizes[b] || (sizes[a] == sizes[b] && a < b))
  }

  /** Clusters of at least two differences, in the order in which the search comes to them. */
  ghost predicate Ordered(sizes: seq<nat>, order: seq<nat>) {
    && (forall i :: 0 <= i < |order| ==> order[i] < |sizes| && sizes[order[i]] >= 2)
    && (forall i, j :: 0 <= i < j < |order| ==> Before(sizes, order[i], order[j]))
  }

  /** All of them. */
  ghost predicate InSearchOrder(sizes: seq<nat>, order: seq<nat>) {
    Ordered(sizes, order) && forall d :: 0 <= d < |sizes| && sizes[d] >= 2 ==> d in order
  }

  /** The cluster whose mapping is kept, -1 if there is none. A cluster is tried if it is larger than the best
      number of pairs so far, and kept if it maps more. */
  function Winner(pairs: seq<nat>, sizes: seq<nat>, order: seq<nat>): (w: int)
    requires |pairs| == |sizes| && forall i :: 0 <= i < |order| ==> order[i] < |sizes|
    ensures w == -1 || w in order
    ensures -1 <= w < |sizes|
  {
    if order == [] then -1
    else
      var d, w := order[|order| - 1], Winner(pairs, sizes, order[..|order| - 1]);
      if sizes[d] > Value(pairs, w) && pairs[d] > Value(pairs, w) then d else w
  }

  function Value(pairs: seq<nat>, w: int): nat
    requires -1 <= w < |pairs|
  {
    if w < 0 then 0 else pairs[w]
  }

  function Best(pairs: seq<nat>, sizes: seq<nat>, order: seq<nat>): nat
    requires |pairs| == |sizes| && forall i :: 0 <= i < |order| ==> order[i] < |sizes|
  {
    Value(pairs, Winner(pairs, sizes, order))
  }

  // ---------------------------------------------------------------- what the search settles

  lemma {:induction false} BestGrows(pairs: seq<nat>, sizes: seq<nat>, order: seq<nat>, k: nat)
    requires |pairs| == |sizes| && (forall i :: 0 <= i < |order| ==> order[i] < |sizes|) && k <= |order|
    ensures Best(pairs, sizes, order[..k]) <= Best(pairs, sizes, order)
    decreases |order|
  {
    if k < |order| {
      BestGrows(pairs, sizes, order[..|order| - 1], k);
      assert order[..|order| - 1][..k] == order[..k];
    } else {
      assert order[..k] == order;
    }
  }

  /** A cluster is tried when its turn comes, or is no larger than the best by then. */
  lemma TriedInTurn(pairs: seq<nat>, sizes: seq<nat>, order: seq<nat>, k: nat)
    requires |pairs| == |sizes| && (forall i :: 0 <= i < |order| ==> order[i] < |sizes|) && k < |order|
    ensures sizes[order[k]] > Best(pairs, sizes, order[..k]) ==> pairs[order[k]] <= Best(pairs, sizes, order)
    ensures pairs[order[k]] <= Best(pairs, sizes, order) || sizes[order[k]] <= Best(pairs, sizes, order)
  {
    BestGrows(pairs, sizes, order, k);
    BestGrows(pairs, sizes, order, k + 1);
    assert order[..k + 1][..k] == order[..k];
  }

  // ---------------------------------------------------------------- when the search finds the maximum

  ghost predicate IsMaximum(pairs: seq<nat>, sizes: seq<nat>, best: nat)
    requires |pairs| == |sizes|
  {
    forall d :: 0 <= d < |sizes| && sizes[d] >= 2 ==> pairs[d] <= best
  }

  /** A cluster maps as many pairs as any, and all clusters that come before it map fewer pairs than it has members. */
  ghost predicate Reached(pairs: seq<nat>, sizes: seq<nat>, w: nat)
    requires |pairs| == |sizes|
  {
    && w < |sizes| && sizes[w] >= 2 && IsMaximum(pairs, sizes, pairs[w])
    && forall a :: 0 <= a < |sizes| && sizes[a] >= 2 && Before(sizes, a, w) ==> pairs[a] < sizes[w]
  }

  /** On the clusters alone: there is nothing to map, or a cluster with the most pairs is reached. */
  ghost predicate ReachesMaximum(pairs: seq<nat>, sizes: seq<nat>)
    requires |pairs| == |sizes|
  {
    IsMaximum(pairs, sizes, 0) || exists w :: Reached(pairs, sizes, w)
  }

  /** The winner was reached: all clusters before it mapped fewer pairs than it has members. */
  lemma {:induction false} WinnerWasReached(pairs: seq<nat>, sizes: seq<nat>, order: seq<nat>) returns (k: nat)
    requires |pairs| == |sizes| && Ordered(sizes, order) && Best(pairs, sizes, order) > 0
    ensures k < |order| && pairs[order[k]] == Best(pairs, sizes, order)
    ensures forall j :: 0 <= j < k ==> pairs[order[j]] < sizes[order[k]]
    decreases |order|
  {
    var n := |order| - 1;
    var d, b := order[n], Best(pairs, sizes, order[..n]);
    if sizes[d] > b && pairs[d] > b {
      k := n;
      forall j | 0 <= j < n ensures pairs[order[j]] < sizes[d] {
        assert Before(sizes, order[j], order[n]);
        TriedInTurn(pairs, sizes, order[..n], j);
      }
    } else {
      k := WinnerWasReached(pairs, sizes, order[..n]);
    }
  }

  lemma ReachedIsTried(pairs: seq<nat>, sizes: seq<nat>, order: seq<nat>, w: nat)
    requires |pairs| == |sizes| && InSearchOrder(sizes, order) && Reached(pairs, sizes, w)
    ensures pairs[w] <= Best(pairs, sizes, order)
  {
    var k :| 0 <= k < |order| && order[k] == w;
    var b := Winner(pairs, sizes, order[..k]);
    if b >= 0 {
      var j :| 0 <= j < k && order[..k][j] == b;
      assert Before(sizes, order[j], order[k]);
    }
    TriedInTurn(pairs, sizes, order, k);
  }

  /** The search finds the most pairs that any cluster of at least two maps, exactly under that condition. */
  lemma MaximumIsFoundExactly(pairs: seq<nat>, sizes: seq<nat>, order: seq<nat>)
    requires |pairs| == |sizes| && InSearchOrder(sizes, order)
    ensures IsMaximum(pairs, sizes, Best(pairs, sizes, order)) <==> ReachesMaximum(pairs, sizes)
  {
    if IsMaximum(pairs, sizes, Best(pairs, sizes, order)) && Best(pairs, sizes, order) > 0 {
      var k := WinnerWasReached(pairs, sizes, order);
      forall a | 0 <= a < |sizes| && sizes[a] >= 2 && Before(sizes, a, order[k]) ensures pairs[a] < sizes[order[k]] {
        var j :| 0 <= j < |order| && order[j] == a;
        assert j > k ==> Before(sizes, order[k], order[j]);
      }
      assert Reached(pairs, sizes, order[k]);
    }
    if !IsMaximum(pairs, sizes, 0) && ReachesMaximum(pairs, sizes) {
      var w :| Reached(pairs, sizes, w);
      ReachedIsTried(pairs, sizes, order, w);
    }
  }

  /** In particular if no cluster maps more pairs than it has members. */
  lemma SizesBoundPairs(pairs: seq<nat>, sizes: seq<nat>, order: seq<nat>)
    requires |pairs| == |sizes| && InSearchOrder(sizes, order)
    requires forall d :: 0 <= d < |sizes| && sizes[d] >= 2 ==> pairs[d] <= sizes[d]
    ensures IsMaximum(pairs, sizes, Best(pairs, sizes, order))
  {
    forall d | 0 <= d < |sizes| && sizes[d] >= 2 ensures pairs[d] <= Best(pairs, sizes, order) {
      var k :| 0 <= k < |order| && order[k] == d;
      TriedInTurn(pairs, sizes, order, k);
    }
  }

  // ---------------------------------------------------------------- there is one order

  ghost predicate SameMembers(o1: seq<nat>, o2: seq<nat>) {
    forall x :: x in o1 <==> x in o2
  }

  lemma SameFirst(sizes: seq<nat>, o1: seq<nat>, o2: seq<nat>)
    requires Ordered(sizes, o1) && Ordered(sizes, o2) && SameMembers(o1, o2) && o1 != []
    ensures o2 != [] && o1[0] == o2[0]
  {
    assert o1[0] in o2;
    var j :| 0 <= j < |o2| && o2[j] == o1[0];
    assert o2[0] in o1;
    var i :| 0 <= i < |o1| && o1[i] == o2[0];
    assert j > 0 ==> Before(sizes, o2[0], o2[j]);
    assert i > 0 ==> Before(sizes, o1[0], o1[i]);
  }

  lemma SameRest(sizes: seq<nat>, o1: seq<nat>, o2: seq<nat>)
    requires Ordered(sizes, o1) && Ordered(sizes, o2) && SameMembers(o1, o2) && o1 != [] && o2 != [] && o1[0] == o2[0]
    ensures SameMembers(o1[1..], o2[1..]) && Ordered(sizes, o1[1..]) && Ordered(sizes, o2[1..])
  {
    forall x ensures x in o1[1..] <==> x in o2[1..] {
      InRest(sizes, o1, x);
      InRest(sizes, o2, x);
    }
  }

  lemma InRest(sizes: seq<nat>, o: seq<nat>, x: nat)
    requires Ordered(sizes, o) && o != []
    ensures x in o[1..] <==> x in o && x != o[0]
  {
    if x in o[1..] {
      var i :| 0 <= i < |o[1..]| && o[1..][i] == x;
      assert Before(sizes, o[0], o[i + 1]);
    }
    assert o == [o[0]] + o[1..];
  }

  lemma {:induction false} OrderIsUnique(sizes: seq<nat>, o1: seq<nat>, o2: seq<nat>)
    requires Ordered(sizes, o1) && Ordered(sizes, o2) && SameMembers(o1, o2)
    ensures o1 == o2
    decreases |o1|
  {
    assert |o2| == 0 || o2[0] in o2;
    if o1 != [] {
      SameFirst(sizes, o1, o2);
      SameRest(sizes, o1, o2);
      OrderIsUnique(sizes, o1[1..], o2[1..]);
      assert o1 == [o1[0]] + o1[1..] && o2 == [o2[0]] + o2[1..];
    }
  }

  /** So sizes and pairs decide the result. */
  lemma SearchOrderIsUnique(sizes: seq<nat>, o1: seq<nat>, o2: seq<nat>)
    requires InSearchOrder(sizes, o1) && InSearchOrder(sizes, o2)
    ensures o1 == o2
  {
    OrderIsUnique(sizes, o1, o2);
  }
}
