/** Two concrete inputs: a match that the search finds and the report loses, and a mapping that the search misses. */
module PatternExamples {
  import opened PatternGreedy
  import opened PatternMatch
  import opened PatternSearch
  import opened PatternPairs

  // ---------------------------------------------------------------- a match that is lost

  /** The first of three points has no partner, the other two have. */
  const THREE: seq<Point> := [Point(100.0, 100.0), Point(0.0, 0.0), Point(5.0, 5.0)]
  const TWO: seq<Point> := [Point(0.0, 0.0), Point(5.0, 5.0)]
  const MATCHES: seq<int> := [-1, 0, 1]

  lemma RowOfTwo(p: Point, ps: seq<Point>)
    requires |ps| == 2
    ensures DifferencesOf(p, ps) == [Minus(p, ps[0]), Minus(p, ps[1])]
  {
    assert ps[..1][..0] == [];
    assert DifferencesOf(p, ps[..1]) == [Minus(p, ps[0])];
  }

  lemma DifferencesOfThree(ps1: seq<Point>, ps2: seq<Point>)
    requires |ps1| == 3
    ensures Differences(ps1, ps2)
            == DifferencesOf(ps1[0], ps2) + DifferencesOf(ps1[1], ps2) + DifferencesOf(ps1[2], ps2)
  {
    assert ps1[..2][..1] == ps1[..1] && ps1[..1][..0] == [];
    hide DifferencesOf;
    assert Differences(ps1[..1], ps2) == DifferencesOf(ps1[0], ps2);
  }

  lemma ThreeRows(ps1: seq<Point>, ps2: seq<Point>)
    requires |ps1| == 3 && |ps2| == 2
    ensures Differences(ps1, ps2) == [Minus(ps1[0], ps2[0]), Minus(ps1[0], ps2[1]), Minus(ps1[1], ps2[0]),
                                      Minus(ps1[1], ps2[1]), Minus(ps1[2], ps2[0]), Minus(ps1[2], ps2[1])]
  {
    hide Differences, DifferencesOf, Minus;
    DifferencesOfThree(ps1, ps2);
    RowOfTwo(ps1[0], ps2);
    RowOfTwo(ps1[1], ps2);
    RowOfTwo(ps1[2], ps2);
  }

  lemma ThreeAgainstTwo()
    ensures Differences(THREE, TWO) ==
            [Point(100.0, 100.0), Point(95.0, 95.0), Point(0.0, 0.0), Point(-5.0, -5.0),
             Point(5.0, 5.0), Point(0.0, 0.0)]
  {
    hide Differences;
    ThreeRows(THREE, TWO);
  }

  lemma MeanOfOne(v: Point)
    ensures Mean([v]) == v
  {
    Founded(v);
  }

  /** A difference far from all founders founds a cluster. */
  lemma Founds(ds: seq<Point>, v: Point, radius: real, founders: seq<Point>)
    requires Clusters(ds, radius) == Singles(founders)
             && forall k :: 0 <= k < |founders| ==> !Near(founders[k], v, radius)
    ensures Clusters(ds + [v], radius) == Singles(founders + [v])
  {
    assert (ds + [v])[..|ds|] == ds;
    forall k | 0 <= k < |founders| ensures Mean(Singles(founders)[k]) == founders[k] {
      MeanOfOne(founders[k]);
    }
    hide Near, Mean;
    assert !AnyNear(Singles(founders), v, radius);
  }

  function Singles(founders: seq<Point>): (r: seq<Cluster>)
    ensures |r| == |founders| && forall k :: 0 <= k < |founders| ==> r[k] == [founders[k]]
  {
    seq(|founders|, k requires 0 <= k < |founders| => [founders[k]])
  }

  const FIVE: seq<Point> :=
    [Point(100.0, 100.0), Point(95.0, 95.0), Point(0.0, 0.0), Point(-5.0, -5.0), Point(5.0, 5.0)]

  lemma {:induction false} ApartFound(ps: seq<Point>, radius: real)
    requires forall k, l :: 0 <= k < l < |ps| ==> !Near(ps[k], ps[l], radius)
    ensures Clusters(ps, radius) == Singles(ps)
  {
    if ps != [] {
      var before := ps[..|ps| - 1];
      ApartFound(before, radius);
      assert before + [ps[|ps| - 1]] == ps;
      Founds(before, ps[|ps| - 1], radius, before);
      hide Near, Clusters;
    }
  }

  lemma HalfOfTwice(v: Point)
    ensures Over(Plus(v, v), 2) == v
  {
  }

  lemma MeanOfTwoAlike(v: Point)
    ensures Mean([v, v]) == v
  {
    hide SumOf, Over, Plus;
    JoinedSum([v], v);
    Founded(v);
    HalfOfTwice(v);
    assert [v, v] == [v] + [v];
  }

  lemma FiveAreApart(k: nat, l: nat)
    requires k < l < |FIVE|
    ensures !Near(FIVE[k], FIVE[l], 1.0)
  {
    assert Abs(FIVE[k].x - FIVE[l].x) >= 5.0;
  }

  lemma ClustersOf(ds: seq<Point>, v: Point, radius: real)
    ensures Clusters(ds + [v], radius) == AddDifference(Clusters(ds, radius), v, radius)
  {
    hide AddDifference;
    assert (ds + [v])[..|ds|] == ds;
  }

  /** The clusters of the example: only the pair of zero differences is one of at least two. */
  lemma FiveClusters()
    ensures var z := Point(0.0, 0.0);
            Clusters(Differences(THREE, TWO), 1.0) == Singles(FIVE)[2 := [z, z]]
  {
    hide Near, Clusters, AddDifference, Differences, Singles;
    var z := Point(0.0, 0.0);
    ThreeAgainstTwo();
    forall k, l | 0 <= k < l < |FIVE| ensures !Near(FIVE[k], FIVE[l], 1.0) {
      FiveAreApart(k, l);
    }
    ApartFound(FIVE, 1.0);
    ClustersOf(FIVE, z, 1.0);
    assert Differences(THREE, TWO) == FIVE + [z];
    ZeroJoins();
  }

  /** A difference near to a single founder joins its cluster. */
  lemma JoinsOne(founders: seq<Point>, v: Point, radius: real, w: nat)
    requires w < |founders| && forall k :: 0 <= k < |founders| ==> (Near(founders[k], v, radius) <==> k == w)
    ensures AddDifference(Singles(founders), v, radius) == Singles(founders)[w := [founders[w], v]]
  {
    forall k | 0 <= k < |founders|
      ensures Join(Singles(founders)[k], v, radius) == (if k == w then [founders[w], v] else Singles(founders)[k])
    {
      MeanOfOne(founders[k]);
    }
    MeanOfOne(founders[w]);
    assert Near(Mean(Singles(founders)[w]), v, radius);
    hide Near, Mean, Join;
  }

  lemma ZeroJoins()
    ensures var z := Point(0.0, 0.0); AddDifference(Singles(FIVE), z, 1.0) == Singles(FIVE)[2 := [z, z]]
  {
    JoinsOne(FIVE, Point(0.0, 0.0), 1.0, 2);
    hide AddDifference;
  }

  lemma FirstNearOfTwo(p: Point, ps: seq<Point>, offset: Point, radius: real)
    requires |ps| == 2
    ensures FirstNear(p, ps, offset, radius) ==
            if Near(Minus(p, ps[0]), offset, radius) then 0 else if Near(Minus(p, ps[1]), offset, radius) then 1 else -1
  {
    FirstNearIsFirst(p, ps, offset, radius);
    hide Near, Minus, FirstNear;
  }

  lemma MappingOfThree(ps1: seq<Point>, ps2: seq<Point>, offset: Point, radius: real)
    requires |ps1| == 3
    ensures Mapping(ps1, ps2, offset, radius) ==
            [FirstNear(ps1[0], ps2, offset, radius), FirstNear(ps1[1], ps2, offset, radius),
             FirstNear(ps1[2], ps2, offset, radius)]
  {
    MappingAt(ps1, ps2, offset, radius, 0);
    MappingAt(ps1, ps2, offset, radius, 1);
    MappingAt(ps1, ps2, offset, radius, 2);
    hide Mapping, FirstNear;
  }

  lemma NearOrigin(p: Point, z: Point)
    requires z == Point(0.0, 0.0)
    ensures p == z ==> Near(p, z, 1.0)
    ensures p.x >= 1.0 ==> !Near(p, z, 1.0)
  {
  }

  lemma ExampleNearness(z: Point)
    requires z == Point(0.0, 0.0)
    ensures !Near(Minus(THREE[0], TWO[0]), z, 1.0) && !Near(Minus(THREE[0], TWO[1]), z, 1.0)
    ensures Near(Minus(THREE[1], TWO[0]), z, 1.0)
    ensures !Near(Minus(THREE[2], TWO[0]), z, 1.0) && Near(Minus(THREE[2], TWO[1]), z, 1.0)
  {
    hide Near;
    NearOrigin(Minus(THREE[0], TWO[0]), z);
    NearOrigin(Minus(THREE[0], TWO[1]), z);
    NearOrigin(Minus(THREE[1], TWO[0]), z);
    NearOrigin(Minus(THREE[2], TWO[0]), z);
    NearOrigin(Minus(THREE[2], TWO[1]), z);
  }

  lemma ExampleMapping(z: Point, mapping: seq<int>)
    requires z == Point(0.0, 0.0) && mapping == [-1, 0, 1]
    ensures Mapping(THREE, TWO, z, 1.0) == mapping
  {
    hide Mapping, FirstNear, Near, Minus;
    MappingOfThree(THREE, TWO, z, 1.0);
    FirstNearOfTwo(THREE[0], TWO, z, 1.0);
    FirstNearOfTwo(THREE[1], TWO, z, 1.0);
    FirstNearOfTwo(THREE[2], TWO, z, 1.0);
    ExampleNearness(z);
  }

  lemma PairsNext(mapping: seq<int>, n: nat)
    requires n < |mapping|
    ensures Pairs(mapping[..n + 1]) == Pairs(mapping[..n]) + if mapping[n] >= 0 then 1 else 0
  {
    assert mapping[..n + 1][..n] == mapping[..n];
  }

  lemma TwoPairs(mapping: seq<int>)
    requires mapping == [-1, 0, 1]
    ensures Pairs(mapping) == 2 && Pairs(mapping[..2]) == 1
  {
    PairsNext(mapping, 0);
    PairsNext(mapping, 1);
    PairsNext(mapping, 2);
    assert mapping[..3] == mapping && mapping[..0] == [];
    assert Pairs([]) == 0;
    hide Pairs;
  }

  /** With a single cluster of at least two, that one is tried. */
  lemma OnlyOneToTry(ps1: seq<Point>, ps2: seq<Point>, radius: real, cs: seq<Cluster>, w: nat, mapping: seq<int>)
    requires w < |cs| && |cs[w]| >= 2 && forall d :: 0 <= d < |cs| && d != w ==> |cs[d]| == 1
    requires mapping == Mapping(ps1, ps2, Mean(cs[w]), radius) && 0 < Pairs(mapping)
    ensures SearchOutcome(ps1, ps2, radius, cs, Pairs(mapping), mapping)
  {
    hide Mapping, Mean, Pairs;
    var pairs, order := PairCounts(ps1, ps2, radius, cs), [w];
    assert order[..0] == [];
    assert Winner(pairs, Sizes(cs), []) == -1;
    assert pairs[w] == Pairs(mapping) && Sizes(cs)[w] == |cs[w]|;
    assert w in order;
    assert InSearchOrder(Sizes(cs), order);
    assert KeptBy(ps1, ps2, radius, cs, order, Pairs(mapping), mapping);
  }

  /** Matches may be lost: the search finds two pairs here, but of them
      only the one with the first index 1 is reported. */
  lemma MatchesMayBeLost()
    ensures |Reported(THREE, TWO, MATCHES, 2)| == 1
    ensures SearchOutcome(THREE, TWO, 1.0, Clusters(Differences(THREE, TWO), 1.0), 2, MATCHES)
  {
    hide Clusters, Differences, Mapping, Mean, SearchOutcome, Reported, Pairs;
    var z := Point(0.0, 0.0);
    FiveClusters();
    MeanOfTwoAlike(z);
    ExampleMapping(z, MATCHES);
    TwoPairs(MATCHES);
    OnlyOneToTry(THREE, TWO, 1.0, Singles(FIVE)[2 := [z, z]], 2, MATCHES);
    ReportedCount(THREE, TWO, MATCHES, 2);
  }

  // ---------------------------------------------------------------- a better mapping that is missed

  /** Seen from a single star at the origin, these are also the differences. */
  const FOUR: seq<Point> := [Point(1.5, 0.0), Point(0.0, 0.0), Point(0.9, 0.0), Point(1.3, 0.0)]
  const ORIGIN: seq<Point> := [Point(0.0, 0.0)]

  /** The clusters they form: the first two differences are the founders, the others join both. */
  const FIRST: Cluster := [Point(1.5, 0.0), Point(0.9, 0.0), Point(1.3, 0.0)]
  const SECOND: Cluster := [Point(0.0, 0.0), Point(0.9, 0.0), Point(1.3, 0.0)]

  lemma {:induction false} DifferencesToOrigin(ps: seq<Point>)
    ensures Differences(ps, ORIGIN) == ps
  {
    if ps != [] {
      var p := ps[|ps| - 1];
      DifferencesToOrigin(ps[..|ps| - 1]);
      assert ORIGIN[..0] == [];
      assert DifferencesOf(p, ORIGIN) == [p];
    }
  }

  lemma MeanOfTwo(a: Point, b: Point)
    ensures Mean([a, b]) == Point((a.x + b.x) / 2.0, (a.y + b.y) / 2.0)
  {
    JoinedSum([a], b);
    assert [a] + [b] == [a, b];
    Founded(a);
  }

  lemma MeanOfThree(a: Point, b: Point, c: Point)
    ensures Mean([a, b, c]) == Point((a.x + b.x + c.x) / 3.0, (a.y + b.y + c.y) / 3.0)
  {
    JoinedSum([a, b], c);
    assert [a, b] + [c] == [a, b, c];
    JoinedSum([a], b);
    assert [a] + [b] == [a, b];
    Founded(a);
  }

  lemma AddToBoth(c: Cluster, d: Cluster, v: Point, radius: real)
    requires Near(Mean(c), v, radius) && Near(Mean(d), v, radius)
    ensures AddDifference([c, d], v, radius) == [c + [v], d + [v]]
  {
    assert Near(Mean([c, d][0]), v, radius);
    hide Near, Mean;
  }

  lemma BothGrow(ds: seq<Point>, c: Cluster, d: Cluster, v: Point, radius: real)
    requires Clusters(ds, radius) == [c, d] && Near(Mean(c), v, radius) && Near(Mean(d), v, radius)
    ensures Clusters(ds + [v], radius) == [c + [v], d + [v]]
  {
    AddToBoth(c, d, v, radius);
    assert (ds + [v])[..|ds|] == ds;
    hide Near, Mean, AddDifference;
  }

  lemma TwoFounders()
    ensures Clusters([FOUR[0], FOUR[1]], 1.0) == [[FOUR[0]], [FOUR[1]]]
  {
    ApartFound([FOUR[0], FOUR[1]], 1.0);
    hide Clusters;
  }

  lemma TwoClusters()
    ensures Clusters(FOUR, 1.0) == [FIRST, SECOND]
  {
    hide Clusters, Mean;
    var a, b, c, d := FOUR[0], FOUR[1], FOUR[2], FOUR[3];
    TwoFounders();
    MeanOfOne(a);
    MeanOfOne(b);
    BothGrow([a, b], [a], [b], c, 1.0);
    MeanOfTwo(a, c);
    MeanOfTwo(b, c);
    assert [a] + [c] == [a, c] && [b] + [c] == [b, c] && [a, b] + [c] == [a, b, c];
    BothGrow([a, b, c], [a, c], [b, c], d, 1.0);
    assert [a, c] + [d] == FIRST && [b, c] + [d] == SECOND && [a, b, c] + [d] == FOUR;
  }

  lemma FirstNearOrigin(p: Point, offset: Point, radius: real)
    ensures FirstNear(p, ORIGIN, offset, radius) == if Near(p, offset, radius) then 0 else -1
  {
    FirstNearIsFirst(p, ORIGIN, offset, radius);
    assert Minus(p, ORIGIN[0]) == p;
    hide FirstNear, Near;
  }

  lemma MappingToOrigin(ps: seq<Point>, offset: Point, radius: real, mapping: seq<int>)
    requires |mapping| == |ps|
             && forall i :: 0 <= i < |ps| ==> mapping[i] == if Near(ps[i], offset, radius) then 0 else -1
    ensures Mapping(ps, ORIGIN, offset, radius) == mapping
  {
    hide Mapping, FirstNear, Near;
    forall i | 0 <= i < |ps| ensures Mapping(ps, ORIGIN, offset, radius)[i] == mapping[i] {
      MappingAt(ps, ORIGIN, offset, radius, i);
      FirstNearOrigin(ps[i], offset, radius);
    }
  }

  lemma PairsOfFour(mapping: seq<int>)
    requires |mapping| == 4
    ensures Pairs(mapping) == (if mapping[0] >= 0 then 1 else 0) + (if mapping[1] >= 0 then 1 else 0)
                              + (if mapping[2] >= 0 then 1 else 0) + (if mapping[3] >= 0 then 1 else 0)
  {
    PairsNext(mapping, 0);
    PairsNext(mapping, 1);
    PairsNext(mapping, 2);
    PairsNext(mapping, 3);
    assert mapping[..4] == mapping && mapping[..0] == [];
    assert Pairs([]) == 0;
    hide Pairs;
  }

  lemma MappedByFirst()
    ensures Mapping(FOUR, ORIGIN, Mean(FIRST), 1.0) == [0, -1, 0, 0]
  {
    MeanOfThree(FIRST[0], FIRST[1], FIRST[2]);
    assert Mean(FIRST) == Point(3.7 / 3.0, 0.0);
    MappingToOrigin(FOUR, Point(3.7 / 3.0, 0.0), 1.0, [0, -1, 0, 0]);
    hide Mean, Mapping;
  }

  lemma MappedBySecond()
    ensures Mapping(FOUR, ORIGIN, Mean(SECOND), 1.0) == [0, 0, 0, 0]
  {
    MeanOfThree(SECOND[0], SECOND[1], SECOND[2]);
    assert Mean(SECOND) == Point(2.2 / 3.0, 0.0);
    MappingToOrigin(FOUR, Point(2.2 / 3.0, 0.0), 1.0, [0, 0, 0, 0]);
    hide Mean, Mapping;
  }

  lemma TwoTried(pairs: seq<nat>, sizes: seq<nat>)
    requires pairs == [3, 4] && sizes == [3, 3]
    ensures InSearchOrder(sizes, [0, 1]) && Winner(pairs, sizes, [0, 1]) == 0 && Best(pairs, sizes, [0, 1]) == 3
    ensures !ReachesMaximum(pairs, sizes)
  {
    var order: seq<nat> := [0, 1];
    assert order[..1] == [0] && order[..1][..0] == [];
    assert Winner(pairs, sizes, order[..1]) == 0;
    assert 0 in order && 1 in order;
    assert Before(sizes, 0, 1);
    forall w: nat ensures !Reached(pairs, sizes, w) {
      assert pairs[1] > pairs[0] && sizes[1] >= 2 && pairs[0] >= sizes[1];
    }
    assert pairs[1] == 4;
  }

  /** The search is satisfied with three pairs, by the first cluster; the second, no larger and so never tried,
      maps all four points. A cluster's size does not bound the pairs it maps. */
  lemma SearchMayMissTheBest()
    ensures SearchOutcome(FOUR, ORIGIN, 1.0, Clusters(Differences(FOUR, ORIGIN), 1.0), 3, [0, -1, 0, 0])
    ensures SECOND in Clusters(Differences(FOUR, ORIGIN), 1.0) && Pairs(Mapping(FOUR, ORIGIN, Mean(SECOND), 1.0)) == 4
  {
    hide Clusters, Differences, Mapping, Mean, Pairs, Winner, InSearchOrder;
    DifferencesToOrigin(FOUR);
    TwoClusters();
    MappedByFirst();
    MappedBySecond();
    PairsOfFour([0, -1, 0, 0]);
    PairsOfFour([0, 0, 0, 0]);
    var cs := [FIRST, SECOND];
    assert cs[0] == FIRST && cs[1] == SECOND;
    var pairs := PairCounts(FOUR, ORIGIN, 1.0, cs);
    assert pairs == [3, 4] && Sizes(cs) == [3, 3];
    TwoTried(pairs, Sizes(cs));
    assert KeptBy(FOUR, ORIGIN, 1.0, cs, [0, 1], 3, [0, -1, 0, 0]);
  }
}
