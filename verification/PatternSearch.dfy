/** The matcher as it works: arrays of sums and counts, and a greedy search from the largest cluster down. */
module PatternSearch {
  import opened PatternGreedy
  import opened PatternMatch

  // ---------------------------------------------------------------- clustering in place

  /** The arrays hold the sums and sizes of the clusters. */
  ghost predicate Holds(sums: seq<Point>, counts: seq<int>, cs: seq<Cluster>) {
    |cs| <= |sums| && |cs| <= |counts| &&
    forall d :: 0 <= d < |cs| ==> sums[d] == SumOf(cs[d]) && counts[d] == |cs[d]|
  }

  lemma JoinedSum(c: Cluster, v: Point)
    ensures SumOf(c + [v]) == Plus(SumOf(c), v)
  {
    assert (c + [v])[..|c|] == c;
  }

  method Offer(dList: array<Point>, dCount: array<int>, d: nat, v: Point, radius: real, ghost c: Cluster)
    returns (joined: bool)
    requires d < dList.Length && d < dCount.Length
    requires dList[d] == SumOf(c) && dCount[d] == |c|
    modifies dList, dCount
    ensures joined == Near(Mean(c), v, radius)
    ensures dList[..] == old(dList[..])[d := SumOf(Join(c, v, radius))]
    ensures dCount[..] == old(dCount[..])[d := |Join(c, v, radius)|]
  {
    JoinedSum(c, v);
    joined := Near(Over(dList[d], dCount[d]), v, radius);
    if joined {
      dList[d] := Plus(dList[d], v);
      dCount[d] := dCount[d] + 1;
    }
  }

  /** Each cluster near to the difference takes it; if none is, it founds its own. */
  method Add(dList: array<Point>, dCount: array<int>, nDist: nat, v: Point, radius: real, ghost cs: seq<Cluster>)
    returns (n: nat)
    requires Holds(dList[..], dCount[..], cs) && nDist == |cs| && nDist < dList.Length && nDist < dCount.Length
    modifies dList, dCount
    ensures Holds(dList[..], dCount[..], AddDifference(cs, v, radius)) && n == |AddDifference(cs, v, radius)|
  {
    hide Near, Mean, Join, Over;
    var found := false;
    n := nDist;
    for d := 0 to nDist
      invariant forall k :: 0 <= k < d ==>
                dList[k] == SumOf(Join(cs[k], v, radius)) && dCount[k] == |Join(cs[k], v, radius)|
      invariant forall k :: d <= k < nDist ==> dList[k] == SumOf(cs[k]) && dCount[k] == |cs[k]|
      invariant found <==> exists k :: 0 <= k < d && Near(Mean(cs[k]), v, radius)
    {
      var joined := Offer(dList, dCount, d, v, radius, cs[d]);
      found := found || joined;
    }
    if !found {
      Founded(v);
      dList[nDist] := v;
      dCount[nDist] := 1;
      n := nDist + 1;
    }
  }

  lemma Founded(v: Point)
    ensures SumOf([v]) == v
  {
    assert [v][..0] == [];
  }

  lemma {:induction false} DifferencesCount(ps1: seq<Point>, ps2: seq<Point>)
    ensures |Differences(ps1, ps2)| == |ps1| * |ps2|
  {
    if ps1 != [] {
      DifferencesCount(ps1[..|ps1| - 1], ps2);
      assert |ps1| * |ps2| == (|ps1| - 1) * |ps2| + |ps2|;
    }
  }

  lemma RoomForOneMore(i: nat, j: nat, n1: nat, n2: nat)
    requires i < n1 && j < n2
    ensures i * n2 + j < n1 * n2
  {
    assert n1 * n2 == i * n2 + n2 + (n1 - i - 1) * n2;
    assert (n1 - i - 1) * n2 >= 0;
  }

  lemma OneMoreDifference(ps1: seq<Point>, ps2: seq<Point>, i: nat, j: nat, radius: real)
    requires i < |ps1| && j < |ps2|
    ensures var done, v := Differences(ps1[..i], ps2) + DifferencesOf(ps1[i], ps2[..j]), Minus(ps1[i], ps2[j]);
            && Differences(ps1[..i], ps2) + DifferencesOf(ps1[i], ps2[..j + 1]) == done + [v]
            && Clusters(done + [v], radius) == AddDifference(Clusters(done, radius), v, radius)
            && |Clusters(done, radius)| < |ps1| * |ps2|
  {
    var done, v := Differences(ps1[..i], ps2) + DifferencesOf(ps1[i], ps2[..j]), Minus(ps1[i], ps2[j]);
    assert ps2[..j + 1][..j] == ps2[..j];
    assert (done + [v])[..|done|] == done;
    ClustersCover(done, radius);
    DifferencesCount(ps1[..i], ps2);
    RoomForOneMore(i, j, |ps1|, |ps2|);
    hide AddDifference, Minus;
  }

  lemma OneMoreRow(ps1: seq<Point>, ps2: seq<Point>, i: nat)
    requires i < |ps1|
    ensures Differences(ps1[..i], ps2) + DifferencesOf(ps1[i], ps2[..0]) == Differences(ps1[..i], ps2)
    ensures Differences(ps1[..i], ps2) + DifferencesOf(ps1[i], ps2[..|ps2|]) == Differences(ps1[..i + 1], ps2)
  {
    hide DifferencesOf;
    var ds := Differences(ps1[..i], ps2);
    assert DifferencesOf(ps1[i], ps2[..0]) == [];
    assert ds + [] == ds;
    assert ps2[..|ps2|] == ps2;
    DifferencesNext(ps1, ps2, i);
    hide Differences;
  }

  lemma DifferencesNext(ps1: seq<Point>, ps2: seq<Point>, i: nat)
    requires i < |ps1|
    ensures Differences(ps1[..i + 1], ps2) == Differences(ps1[..i], ps2) + DifferencesOf(ps1[i], ps2)
  {
    assert ps1[..i + 1][..i] == ps1[..i];
    hide DifferencesOf;
  }

  method ClusterAll(ps1: seq<Point>, ps2: seq<Point>, radius: real, dList: array<Point>, dCount: array<int>)
    returns (nDist: nat)
    requires dList.Length == |ps1| * |ps2| == dCount.Length
    modifies dList, dCount
    ensures Holds(dList[..], dCount[..], Clusters(Differences(ps1, ps2), radius))
    ensures nDist == |Clusters(Differences(ps1, ps2), radius)|
  {
    hide AddDifference, Minus, Holds, Clusters, Differences, DifferencesOf;
    NoneYet(ps2, radius, dList[..], dCount[..]);
    nDist := 0;
    for i := 0 to |ps1|
      invariant Holds(dList[..], dCount[..], Clusters(Differences(ps1[..i], ps2), radius))
      invariant nDist == |Clusters(Differences(ps1[..i], ps2), radius)|
    {
      OneMoreRow(ps1, ps2, i);
      for j := 0 to |ps2|
        invariant Holds(dList[..], dCount[..],
                        Clusters(Differences(ps1[..i], ps2) + DifferencesOf(ps1[i], ps2[..j]), radius))
        invariant nDist == |Clusters(Differences(ps1[..i], ps2) + DifferencesOf(ps1[i], ps2[..j]), radius)|
      {
        ghost var cs := Clusters(Differences(ps1[..i], ps2) + DifferencesOf(ps1[i], ps2[..j]), radius);
        OneMoreDifference(ps1, ps2, i, j, radius);
        nDist := Add(dList, dCount, nDist, Minus(ps1[i], ps2[j]), radius, cs);
      }
    }
    assert ps1[..|ps1|] == ps1;
  }

  lemma NoneYet(ps2: seq<Point>, radius: real, sums: seq<Point>, counts: seq<int>)
    ensures Clusters(Differences([], ps2), radius) == [] && Holds(sums, counts, [])
  {
  }

  // ---------------------------------------------------------------- means

  function Sizes(cs: seq<Cluster>): (r: seq<nat>)
    ensures |r| == |cs| && forall d :: 0 <= d < |cs| ==> r[d] == |cs[d]|
  {
    seq(|cs|, d requires 0 <= d < |cs| => |cs[d]|)
  }

  function Means(cs: seq<Cluster>): (r: seq<Point>)
    ensures |r| == |cs| && forall d :: 0 <= d < |cs| ==> r[d] == Mean(cs[d])
  {
    seq(|cs|, d requires 0 <= d < |cs| => Mean(cs[d]))
  }

  method TakeMeans(dList: array<Point>, dCount: array<int>, nDist: nat, ghost cs: seq<Cluster>)
    requires Holds(dList[..], dCount[..], cs) && nDist == |cs|
    modifies dList
    ensures dList[..nDist] == Means(cs) && dCount[..nDist] == Sizes(cs)
  {
    hide Over;
    for d := 0 to nDist
      invariant forall k :: 0 <= k < d ==> dList[k] == Mean(cs[k])
      invariant forall k :: d <= k < nDist ==> dList[k] == SumOf(cs[k])
    {
      dList[d] := Over(dList[d], dCount[d]);
    }
  }

  // ---------------------------------------------------------------- the search

  method FindNear(p: Point, ps2: seq<Point>, offset: Point, radius: real) returns (r: int)
    ensures r == FirstNear(p, ps2, offset, radius)
  {
    for j := 0 to |ps2|
      invariant FirstNear(p, ps2[..j], offset, radius) == -1
    {
      NearNext(p, ps2, offset, radius, j);
      if Near(Minus(p, ps2[j]), offset, radius) {
        StaysFound(p, ps2, offset, radius, j + 1);
        return j;
      }
    }
    assert ps2[..|ps2|] == ps2;
    return -1;
  }

  lemma NearNext(p: Point, ps2: seq<Point>, offset: Point, radius: real, j: nat)
    requires j < |ps2| && FirstNear(p, ps2[..j], offset, radius) == -1
    ensures FirstNear(p, ps2[..j + 1], offset, radius) == if Near(Minus(p, ps2[j]), offset, radius) then j else -1
  {
    assert ps2[..j + 1][..j] == ps2[..j];
  }

  lemma {:induction false} StaysFound(p: Point, ps2: seq<Point>, offset: Point, radius: real, k: nat)
    requires k <= |ps2| && FirstNear(p, ps2[..k], offset, radius) >= 0
    ensures FirstNear(p, ps2, offset, radius) == FirstNear(p, ps2[..k], offset, radius)
    decreases |ps2|
  {
    if k < |ps2| {
      assert ps2[..|ps2| - 1][..k] == ps2[..k];
      StaysFound(p, ps2[..|ps2| - 1], offset, radius, k);
    } else {
      assert ps2[..k] == ps2;
    }
  }

  method MapBy(ps1: seq<Point>, ps2: seq<Point>, offset: Point, radius: real, cList: array<int>) returns (nPairs: nat)
    requires cList.Length >= |ps1|
    modifies cList
    ensures cList[..|ps1|] == Mapping(ps1, ps2, offset, radius) && nPairs == Pairs(Mapping(ps1, ps2, offset, radius))
  {
    nPairs := 0;
    for i := 0 to |ps1|
      invariant cList[..i] == Mapping(ps1[..i], ps2, offset, radius)
      invariant nPairs == Pairs(Mapping(ps1[..i], ps2, offset, radius))
    {
      ghost var before := cList[..i];
      var j := FindNear(ps1[i], ps2, offset, radius);
      cList[i] := j;
      if j >= 0 {
        nPairs := nPairs + 1;
      }
      assert cList[..i] == before;
      assert cList[..i + 1] == before + [j];
      MappingNext(ps1, ps2, offset, radius, i);
    }
    assert ps1[..|ps1|] == ps1;
  }

  lemma MappingNext(ps1: seq<Point>, ps2: seq<Point>, offset: Point, radius: real, i: nat)
    requires i < |ps1|
    ensures var j := FirstNear(ps1[i], ps2, offset, radius);
            && Mapping(ps1[..i + 1], ps2, offset, radius) == Mapping(ps1[..i], ps2, offset, radius) + [j]
            && Pairs(Mapping(ps1[..i + 1], ps2, offset, radius)) ==
               Pairs(Mapping(ps1[..i], ps2, offset, radius)) + if j >= 0 then 1 else 0
  {
    assert ps1[..i + 1][..i] == ps1[..i];
    var m, j := Mapping(ps1[..i], ps2, offset, radius), FirstNear(ps1[i], ps2, offset, radius);
    assert (m + [j])[..|m|] == m;
  }

  /** The first of the largest clusters still to try; only clusters of at least two count. */
  method Largest(dCount: array<int>, nDist: nat) returns (m: int)
    requires nDist <= dCount.Length
    ensures -1 <= m < nDist
    ensures m == -1 ==> forall d :: 0 <= d < nDist ==> dCount[d] <= 1
    ensures m >= 0 ==> dCount[m] > 1 && forall d :: 0 <= d < nDist ==> dCount[d] <= dCount[m]
    ensures m >= 0 ==> forall d :: 0 <= d < m ==> dCount[d] < dCount[m]
  {
    m := -1;
    var nMax := 1;
    for d := 0 to nDist
      invariant -1 <= m < d
      invariant m == -1 ==> nMax == 1
      invariant m >= 0 ==> nMax == dCount[m] > 1
      invariant forall k :: 0 <= k < d ==> dCount[k] <= nMax
      invariant m >= 0 ==> forall k :: 0 <= k < m ==> dCount[k] < nMax
    {
      if nMax < dCount[d] {
        m := d;
        nMax := dCount[d];
      }
    }
  }

  /** The pairs that the mean of each cluster maps. */
  function PairCounts(ps1: seq<Point>, ps2: seq<Point>, radius: real, cs: seq<Cluster>): (r: seq<nat>)
    ensures |r| == |cs| && forall d :: 0 <= d < |cs| ==> r[d] == Pairs(Mapping(ps1, ps2, Mean(cs[d]), radius))
  {
    seq(|cs|, d requires 0 <= d < |cs| => Pairs(Mapping(ps1, ps2, Mean(cs[d]), radius)))
  }

  /** The number of pairs and the mapping that the search keeps when it goes through the clusters in an order. */
  ghost predicate KeptBy(ps1: seq<Point>, ps2: seq<Point>, radius: real, cs: seq<Cluster>, order: seq<nat>,
                         best: nat, mapping: seq<int>)
    requires forall i :: 0 <= i < |order| ==> order[i] < |cs|
  {
    var w := Winner(PairCounts(ps1, ps2, radius, cs), Sizes(cs), order);
    && best == Best(PairCounts(ps1, ps2, radius, cs), Sizes(cs), order)
    && (best > 0 ==> w >= 0 && mapping == Mapping(ps1, ps2, Mean(cs[w]), radius))
  }

  /** The outcome of the search, which the clusters decide. */
  ghost predicate SearchOutcome(ps1: seq<Point>, ps2: seq<Point>, radius: real, cs: seq<Cluster>, best: nat,
                               mapping: seq<int>) {
    exists order :: InSearchOrder(Sizes(cs), order) && KeptBy(ps1, ps2, radius, cs, order, best, mapping)
  }

  /** A mapping is the one of some cluster of at least two differences. */
  ghost predicate FromACluster(ps1: seq<Point>, ps2: seq<Point>, radius: real, cs: seq<Cluster>, best: nat,
                               mapping: seq<int>) {
    best == 0 ||
    exists w :: 0 <= w < |cs| && |cs[w]| >= 2 && mapping == Mapping(ps1, ps2, Mean(cs[w]), radius)
              && best == Pairs(mapping)
  }

  /** A cluster needs no trying: it maps no more pairs than the best, or is no larger. */
  predicate Settled(ps1: seq<Point>, ps2: seq<Point>, radius: real, c: Cluster, best: nat) {
    Pairs(Mapping(ps1, ps2, Mean(c), radius)) <= best || |c| <= best
  }

  /** The greedy guarantee. */
  ghost predicate GreedyBest(ps1: seq<Point>, ps2: seq<Point>, radius: real, cs: seq<Cluster>, best: nat,
                             mapping: seq<int>) {
    && FromACluster(ps1, ps2, radius, cs, best, mapping)
    && forall d :: 0 <= d < |cs| && |cs[d]| >= 2 ==> Settled(ps1, ps2, radius, cs[d], best)
  }

  /** The outcome comes from a cluster of at least two, and settles every other. */
  lemma OutcomeIsGreedyBest(ps1: seq<Point>, ps2: seq<Point>, radius: real, cs: seq<Cluster>, best: nat,
                            mapping: seq<int>)
    requires SearchOutcome(ps1, ps2, radius, cs, best, mapping)
    ensures GreedyBest(ps1, ps2, radius, cs, best, mapping)
  {
    hide Mapping, Mean, Pairs, Winner;
    var order :| InSearchOrder(Sizes(cs), order) && KeptBy(ps1, ps2, radius, cs, order, best, mapping);
    var pairs := PairCounts(ps1, ps2, radius, cs);
    forall d | 0 <= d < |cs| && |cs[d]| >= 2 ensures Settled(ps1, ps2, radius, cs[d], best) {
      assert Sizes(cs)[d] >= 2;
      var k :| 0 <= k < |order| && order[k] == d;
      TriedInTurn(pairs, Sizes(cs), order, k);
    }
    if best > 0 {
      var k := WinnerWasReached(pairs, Sizes(cs), order);
      var w := Winner(pairs, Sizes(cs), order);
      assert w in order;
      assert |cs[w]| >= 2;
    }
  }

  /** There is one outcome: the number of pairs, and the mapping if there is one. */
  lemma OutcomeIsUnique(ps1: seq<Point>, ps2: seq<Point>, radius: real, cs: seq<Cluster>,
                        best: nat, mapping: seq<int>, best': nat, mapping': seq<int>)
    requires SearchOutcome(ps1, ps2, radius, cs, best, mapping) && SearchOutcome(ps1, ps2, radius, cs, best', mapping')
    ensures best == best' && (best > 0 ==> mapping == mapping')
  {
    hide Mapping, Mean, Pairs, Winner, Best;
    var o :| InSearchOrder(Sizes(cs), o) && KeptBy(ps1, ps2, radius, cs, o, best, mapping);
    var o' :| InSearchOrder(Sizes(cs), o') && KeptBy(ps1, ps2, radius, cs, o', best', mapping');
    SearchOrderIsUnique(Sizes(cs), o, o');
  }

  /** Main result: the search finds a mapping of the most pairs, of all clusters of at least two, exactly if there is
      nothing to map, or some cluster maps the most pairs and all clusters before it, by size and then by place,
      map fewer pairs than it has members. */
  lemma SearchFindsMaximumExactly(ps1: seq<Point>, ps2: seq<Point>, radius: real, cs: seq<Cluster>,
                                  best: nat, mapping: seq<int>)
    requires SearchOutcome(ps1, ps2, radius, cs, best, mapping)
    ensures (forall d :: 0 <= d < |cs| && |cs[d]| >= 2 ==> Pairs(Mapping(ps1, ps2, Mean(cs[d]), radius)) <= best) <==>
            ReachesMaximum(PairCounts(ps1, ps2, radius, cs), Sizes(cs))
  {
    hide Mapping, Mean, Pairs, Winner, Best, ReachesMaximum;
    var order :| InSearchOrder(Sizes(cs), order) && KeptBy(ps1, ps2, radius, cs, order, best, mapping);
    var pairs := PairCounts(ps1, ps2, radius, cs);
    MaximumIsFoundExactly(pairs, Sizes(cs), order);
    assert IsMaximum(pairs, Sizes(cs), best) <==>
           forall d :: 0 <= d < |cs| && |cs[d]| >= 2 ==> Pairs(Mapping(ps1, ps2, Mean(cs[d]), radius)) <= best by {
      MaximumMeans(ps1, ps2, radius, cs, best);
    }
  }

  lemma MaximumMeans(ps1: seq<Point>, ps2: seq<Point>, radius: real, cs: seq<Cluster>, best: nat)
    ensures IsMaximum(PairCounts(ps1, ps2, radius, cs), Sizes(cs), best) <==>
            forall d :: 0 <= d < |cs| && |cs[d]| >= 2 ==> Pairs(Mapping(ps1, ps2, Mean(cs[d]), radius)) <= best
  {
    hide Mapping, Mean, Pairs;
    var pairs := PairCounts(ps1, ps2, radius, cs);
    assert forall d :: 0 <= d < |cs| ==>
           pairs[d] == Pairs(Mapping(ps1, ps2, Mean(cs[d]), radius)) && Sizes(cs)[d] == |cs[d]|;
  }

  /** A test on the clusters: where none maps more pairs than it has members, the search finds the maximum. */
  lemma SearchFindsMaximumIfSizesBound(ps1: seq<Point>, ps2: seq<Point>, radius: real, cs: seq<Cluster>,
                                       best: nat, mapping: seq<int>)
    requires SearchOutcome(ps1, ps2, radius, cs, best, mapping)
    requires forall d :: 0 <= d < |cs| && |cs[d]| >= 2 ==> Pairs(Mapping(ps1, ps2, Mean(cs[d]), radius)) <= |cs[d]|
    ensures forall d :: 0 <= d < |cs| && |cs[d]| >= 2 ==> Pairs(Mapping(ps1, ps2, Mean(cs[d]), radius)) <= best
  {
    hide Mapping, Mean, Pairs, Winner, Best;
    var order :| InSearchOrder(Sizes(cs), order) && KeptBy(ps1, ps2, radius, cs, order, best, mapping);
    SizesBoundPairs(PairCounts(ps1, ps2, radius, cs), Sizes(cs), order);
    MaximumMeans(ps1, ps2, radius, cs, best);
  }

  /** Tries an offset; a better mapping takes the place of the best by swapping the arrays. */
  method TryOffset(ps1: seq<Point>, ps2: seq<Point>, radius: real, offset: Point, size: int,
                   cList: array<int>, cBest: array<int>, nPairsBest: nat)
    returns (list: array<int>, bestList: array<int>, best: nat)
    requires cList != cBest && cList.Length >= |ps1| && cBest.Length >= |ps1|
    modifies cList
    ensures {list, bestList} == {cList, cBest} && list != bestList
    ensures var n := Pairs(Mapping(ps1, ps2, offset, radius));
            if size > nPairsBest && n > nPairsBest
            then best == n && bestList[..|ps1|] == Mapping(ps1, ps2, offset, radius)
            else best == nPairsBest && bestList == cBest
  {
    list, bestList, best := cList, cBest, nPairsBest;
    if size > nPairsBest {
      var nPairs := MapBy(ps1, ps2, offset, radius, cList);
      if nPairs > nPairsBest {
        list, bestList := cBest, cList;
        best := nPairs;
      }
    }
  }

  /** Clusters still to be tried. */
  function Untried(counts: seq<int>): nat {
    if counts == [] then 0 else Untried(counts[..|counts| - 1]) + if counts[|counts| - 1] > 1 then 1 else 0
  }

  lemma {:induction false} OneLessToTry(counts: seq<int>, m: nat)
    requires m < |counts| && counts[m] > 1
    ensures Untried(counts[m := 0]) == Untried(counts) - 1
    decreases |counts|
  {
    var n := |counts| - 1;
    if m < n {
      OneLessToTry(counts[..n], m);
      assert counts[m := 0][..n] == counts[..n][m := 0];
    } else {
      assert counts[m := 0][..n] == counts[..n];
    }
  }

  /** The clusters tried so far are those no longer counted, and come before all that are. */
  ghost predicate TriedSoFar(sizes: seq<nat>, counts: seq<int>, tried: seq<nat>) {
    && |counts| == |sizes| && Ordered(sizes, tried)
    && (forall d :: 0 <= d < |sizes| ==> counts[d] == sizes[d] || (counts[d] == 0 && d in tried))
    && (forall i, d :: 0 <= i < |tried| && 0 <= d < |sizes| && counts[d] > 1 ==> Before(sizes, tried[i], d))
  }

  lemma NoneTried(sizes: seq<nat>)
    ensures TriedSoFar(sizes, sizes, [])
  {
  }

  lemma AllTried(sizes: seq<nat>, counts: seq<int>, tried: seq<nat>)
    requires TriedSoFar(sizes, counts, tried) && forall d :: 0 <= d < |counts| ==> counts[d] <= 1
    ensures InSearchOrder(sizes, tried)
  {
  }

  /** The first of the largest is the next in order. */
  lemma TriedNext(sizes: seq<nat>, counts: seq<int>, tried: seq<nat>, m: nat)
    requires TriedSoFar(sizes, counts, tried) && m < |counts| && counts[m] > 1
    requires forall d :: 0 <= d < |counts| ==> counts[d] <= counts[m]
    requires forall d :: 0 <= d < m ==> counts[d] < counts[m]
    ensures counts[m] == sizes[m] && TriedSoFar(sizes, counts[m := 0], tried + [m])
  {
    var next := tried + [m];
    forall i, j | 0 <= i < j < |next| ensures Before(sizes, next[i], next[j]) {
    }
    forall i, d | 0 <= i < |next| && 0 <= d < |sizes| && counts[m := 0][d] > 1 ensures Before(sizes, next[i], d) {
    }
    assert m in next;
  }

  /** What trying a cluster keeps. */
  lemma KeptNext(ps1: seq<Point>, ps2: seq<Point>, radius: real, cs: seq<Cluster>, tried: seq<nat>, m: nat,
                 best: nat, mapping: seq<int>, better: nat, mapping': seq<int>)
    requires (forall i :: 0 <= i < |tried| ==> tried[i] < |cs|) && m < |cs|
    requires KeptBy(ps1, ps2, radius, cs, tried, best, mapping)
    requires var mp := Mapping(ps1, ps2, Mean(cs[m]), radius);
             if |cs[m]| > best && Pairs(mp) > best then better == Pairs(mp) && mapping' == mp
             else better == best && (best > 0 ==> mapping' == mapping)
    ensures KeptBy(ps1, ps2, radius, cs, tried + [m], better, mapping')
  {
    hide Mapping, Mean, Pairs;
    assert (tried + [m])[..|tried|] == tried;
  }

  /** The search ends: each round leaves one cluster fewer to try. */
  method Search(ps1: seq<Point>, ps2: seq<Point>, radius: real, dList: array<Point>, dCount: array<int>, nDist: nat,
                first: array<int>, second: array<int>, ghost cs: seq<Cluster>)
    returns (cBest: array<int>, nPairsBest: nat)
    requires nDist == |cs| && nDist <= dList.Length && nDist <= dCount.Length
    requires dList[..nDist] == Means(cs) && dCount[..nDist] == Sizes(cs)
    requires first != second && first != dCount && second != dCount
    requires nDist > 0 ==> first.Length >= |ps1| && second.Length >= |ps1|
    modifies dCount, first, second
    ensures cBest == first || cBest == second
    ensures nPairsBest > 0 ==> cBest.Length >= |ps1| && SearchOutcome(ps1, ps2, radius, cs, nPairsBest, cBest[..|ps1|])
    ensures nPairsBest == 0 ==> SearchOutcome(ps1, ps2, radius, cs, 0, [])
  {
    hide Mean, Mapping, Pairs, TriedSoFar, KeptBy, Ordered, PairCounts, InSearchOrder, SearchOutcome;
    var cList := first;
    cBest := second;
    nPairsBest := 0;
    ghost var tried: seq<nat> := [];
    ghost var mapping: seq<int> := [];
    NoneTried(Sizes(cs));
    NoneKept(ps1, ps2, radius, cs);
    while true
      invariant {cList, cBest} == {first, second} && cList != cBest
      invariant dList[..nDist] == Means(cs)
      invariant TriedSoFar(Sizes(cs), dCount[..nDist], tried)
      invariant (forall i :: 0 <= i < |tried| ==> tried[i] < |cs|)
                && KeptBy(ps1, ps2, radius, cs, tried, nPairsBest, mapping)
      invariant nPairsBest > 0 ==> nDist > 0 && cBest[..|ps1|] == mapping
      decreases Untried(dCount[..nDist])
    {
      var m := Largest(dCount, nDist);
      if m == -1 {
        AllTried(Sizes(cs), dCount[..nDist], tried);
        OutcomeIsKept(ps1, ps2, radius, cs, tried, nPairsBest, mapping);
        break;
      }
      ghost var was, counts := nPairsBest, dCount[..nDist];
      TriedNext(Sizes(cs), counts, tried, m);
      cList, cBest, nPairsBest := TryOffset(ps1, ps2, radius, dList[m], dCount[m], cList, cBest, nPairsBest);
      KeptNext(ps1, ps2, radius, cs, tried, m, was, mapping, nPairsBest, cBest[..|ps1|]);
      tried, mapping := tried + [m], cBest[..|ps1|];
      OneLessToTry(counts, m);
      dCount[m] := 0;
      assert dCount[..nDist] == counts[m := 0];
    }
  }

  lemma NoneKept(ps1: seq<Point>, ps2: seq<Point>, radius: real, cs: seq<Cluster>)
    ensures KeptBy(ps1, ps2, radius, cs, [], 0, [])
  {
  }

  lemma OutcomeIsKept(ps1: seq<Point>, ps2: seq<Point>, radius: real, cs: seq<Cluster>, tried: seq<nat>, best: nat,
                      mapping: seq<int>)
    requires (forall i :: 0 <= i < |tried| ==> tried[i] < |cs|) && KeptBy(ps1, ps2, radius, cs, tried, best, mapping)
    requires InSearchOrder(Sizes(cs), tried)
    ensures SearchOutcome(ps1, ps2, radius, cs, best, if best > 0 then mapping else [])
  {
    hide Mean, Mapping, Pairs, InSearchOrder;
    assert KeptBy(ps1, ps2, radius, cs, tried, best, if best > 0 then mapping else []);
  }

  lemma RoomForMappings(ps1: seq<Point>, ps2: seq<Point>, radius: real)
    ensures |ps1| * |ps2| >= 0
    ensures |Clusters(Differences(ps1, ps2), radius)| > 0 ==> |ps1| * |ps2| >= |ps1|
  {
    DifferencesCount(ps1, ps2);
    ClustersCover(Differences(ps1, ps2), radius);
    ProductGrows(|ps1|, |ps2|);
    hide Clusters, Differences;
  }

  lemma ProductGrows(a: nat, b: nat)
    ensures a * b >= 0 && (b > 0 ==> a * b >= a) && (b == 0 ==> a * b == 0)
  {
    if b > 0 {
      assert a * b == a + a * (b - 1);
    }
  }

  /** The matcher. Without memory there is no mapping and the number of matches is -1; one pair alone is no match. */
  method FindPointMapping(ps1: seq<Point>, ps2: seq<Point>, radius: real, memory: bool)
    returns (mapping: array?<int>, nMatch: int)
    ensures !memory ==> mapping == null && nMatch == -1
    ensures memory ==> mapping != null && nMatch != 1 && 0 <= nMatch <= |ps1|
    ensures memory && nMatch > 0 ==>
              mapping.Length >= |ps1| &&
              SearchOutcome(ps1, ps2, radius, Clusters(Differences(ps1, ps2), radius), nMatch, mapping[..|ps1|]) &&
              GreedyBest(ps1, ps2, radius, Clusters(Differences(ps1, ps2), radius), nMatch, mapping[..|ps1|])
    ensures memory && nMatch == 0 ==>
              exists best, m :: best < 2 &&
                SearchOutcome(ps1, ps2, radius, Clusters(Differences(ps1, ps2), radius), best, m)
  {
    if !memory {
      return null, -1;
    }
    hide Clusters, Differences, SearchOutcome, GreedyBest, Mapping;
    RoomForMappings(ps1, ps2, radius);
    var dList := new Point[|ps1| * |ps2|](_ => Point(0.0, 0.0));
    var dCount := new int[|ps1| * |ps2|](_ => 0);
    var cList := new int[|ps1| * |ps2|](_ => 0);
    var cBest := new int[|ps1| * |ps2|](_ => 0);
    ghost var cs := Clusters(Differences(ps1, ps2), radius);
    var nDist := ClusterAll(ps1, ps2, radius, dList, dCount);
    TakeMeans(dList, dCount, nDist, cs);
    var best, nPairsBest := Search(ps1, ps2, radius, dList, dCount, nDist, cList, cBest, cs);
    mapping := best;
    if nPairsBest < 2 {
      nMatch := 0;
      if nPairsBest == 0 {
        assert SearchOutcome(ps1, ps2, radius, cs, 0, []);
      } else {
        assert SearchOutcome(ps1, ps2, radius, cs, 1, best[..|ps1|]);
      }
    } else {
      nMatch := nPairsBest;
      OutcomeIsGreedyBest(ps1, ps2, radius, cs, nPairsBest, best[..|ps1|]);
      BestIsAMapping(ps1, ps2, radius, cs, nPairsBest, best[..|ps1|]);
    }
  }

  lemma BestIsAMapping(ps1: seq<Point>, ps2: seq<Point>, radius: real, cs: seq<Cluster>, best: nat, mapping: seq<int>)
    requires GreedyBest(ps1, ps2, radius, cs, best, mapping) && best > 0
    ensures |mapping| == |ps1| && best <= |ps1| && forall i :: 0 <= i < |ps1| ==> -1 <= mapping[i] < |ps2|
  {
    var w :| 0 <= w < |cs| && |cs[w]| >= 2 && mapping == Mapping(ps1, ps2, Mean(cs[w]), radius)
           && best == Pairs(mapping);
    forall i | 0 <= i < |ps1| ensures -1 <= mapping[i] < |ps2| {
      MappingAt(ps1, ps2, Mean(cs[w]), radius, i);
    }
    hide Settled;
  }
}
