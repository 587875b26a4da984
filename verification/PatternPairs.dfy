/** The pairs reported from a mapping, and the mean shift between them. */
module PatternPairs {
  import opened PatternMatch
  import opened PatternSearch

  datatype PointPair = PointPair(idx1: nat, idx2: nat, p1: Point, p2: Point)

  /** The mapped ones of the first n points, the last first. The source goes by the number of matches, not of points. */
  function Reported(ps1: seq<Point>, ps2: seq<Point>, mapping: seq<int>, n: nat): seq<PointPair>
    requires n <= |mapping| == |ps1| && forall i :: 0 <= i < |ps1| ==> mapping[i] < |ps2|
  {
    if n == 0 then []
    else if mapping[n - 1] < 0 then Reported(ps1, ps2, mapping, n - 1)
    else [PointPair(n - 1, mapping[n - 1], ps1[n - 1], ps2[mapping[n - 1]])] + Reported(ps1, ps2, mapping, n - 1)
  }

  function Shift(pair: PointPair): Point {
    Minus(pair.p1, pair.p2)
  }

  /** A pair joins two points of the lists that an offset brings within the radius, with the first such second point. */
  predicate SoundPair(pair: PointPair, ps1: seq<Point>, ps2: seq<Point>, offset: Point, radius: real) {
    && pair.idx1 < |ps1| && pair.idx2 < |ps2| && pair.p1 == ps1[pair.idx1] && pair.p2 == ps2[pair.idx2]
    && Near(Shift(pair), offset, radius)
    && pair.idx2 == FirstNear(pair.p1, ps2, offset, radius)
  }

  /** All pairs by one offset, and no first point twice. */
  ghost predicate Sound(pairs: seq<PointPair>, ps1: seq<Point>, ps2: seq<Point>, offset: Point, radius: real) {
    && (forall k :: 0 <= k < |pairs| ==> SoundPair(pairs[k], ps1, ps2, offset, radius))
    && (forall k, l :: 0 <= k < l < |pairs| ==> pairs[k].idx1 > pairs[l].idx1)
  }

  lemma {:induction false} ReportedIsSound(ps1: seq<Point>, ps2: seq<Point>, offset: Point, radius: real, n: nat)
    requires n <= |ps1| && forall i :: 0 <= i < |ps1| ==> Mapping(ps1, ps2, offset, radius)[i] < |ps2|
    ensures var pairs := Reported(ps1, ps2, Mapping(ps1, ps2, offset, radius), n);
            Sound(pairs, ps1, ps2, offset, radius) && forall k :: 0 <= k < |pairs| ==> pairs[k].idx1 < n
  {
    if n > 0 {
      ReportedIsSound(ps1, ps2, offset, radius, n - 1);
      MappingAt(ps1, ps2, offset, radius, n - 1);
      FirstNearIsFirst(ps1[n - 1], ps2, offset, radius);
      hide Near, FirstNear, Mapping;
    }
  }

  lemma {:induction false} ReportedCount(ps1: seq<Point>, ps2: seq<Point>, mapping: seq<int>, n: nat)
    requires n <= |mapping| == |ps1| && forall i :: 0 <= i < |ps1| ==> mapping[i] < |ps2|
    ensures |Reported(ps1, ps2, mapping, n)| == Pairs(mapping[..n])
  {
    if n > 0 {
      ReportedCount(ps1, ps2, mapping, n - 1);
      assert mapping[..n][..n - 1] == mapping[..n - 1];
    }
  }

  lemma {:induction false} PairsOfPrefix(mapping: seq<int>, n: nat)
    requires n <= |mapping|
    ensures Pairs(mapping[..n]) <= Pairs(mapping)
    ensures Pairs(mapping[..n]) == Pairs(mapping) <==> forall i :: n <= i < |mapping| ==> mapping[i] < 0
    decreases |mapping|
  {
    if n < |mapping| {
      var before := mapping[..|mapping| - 1];
      PairsOfPrefix(before, n);
      assert before[..n] == mapping[..n];
      assert forall i :: n <= i < |before| ==> before[i] == mapping[i];
    } else {
      assert mapping[..n] == mapping;
    }
  }

  /** All matches are reported exactly when every matched first point has an index below the number of matches. */
  lemma AllReportedExactly(ps1: seq<Point>, ps2: seq<Point>, mapping: seq<int>, best: nat)
    requires |mapping| == |ps1| && forall i :: 0 <= i < |ps1| ==> mapping[i] < |ps2|
    requires best == Pairs(mapping)
    ensures |Reported(ps1, ps2, mapping, best)| == best <==> forall i :: best <= i < |ps1| ==> mapping[i] < 0
  {
    ReportedCount(ps1, ps2, mapping, best);
    PairsOfPrefix(mapping, best);
  }

  predicate MapsInto(mapping: seq<int>, n1: nat, n2: nat) {
    |mapping| == n1 && forall i :: 0 <= i < n1 ==> mapping[i] < n2
  }

  /** The offset by which the best mapping was made. */
  lemma OffsetOfBest(ps1: seq<Point>, ps2: seq<Point>, radius: real, cs: seq<Cluster>, best: nat, mapping: seq<int>)
    returns (offset: Point)
    requires GreedyBest(ps1, ps2, radius, cs, best, mapping) && best > 0
    ensures MapsInto(mapping, |ps1|, |ps2|) && best <= |ps1|
    ensures mapping == Mapping(ps1, ps2, offset, radius)
  {
    BestIsAMapping(ps1, ps2, radius, cs, best, mapping);
    var w :| 0 <= w < |cs| && |cs[w]| >= 2 && mapping == Mapping(ps1, ps2, Mean(cs[w]), radius)
           && best == Pairs(mapping);
    offset := Mean(cs[w]);
  }

  /** What is reported of the outcome of the search. */
  ghost predicate ReportOf(pairs: seq<PointPair>, ps1: seq<Point>, ps2: seq<Point>, best: nat, mapping: seq<int>) {
    if best < 2 then pairs == []
    else MapsInto(mapping, |ps1|, |ps2|) && best <= |ps1| && pairs == Reported(ps1, ps2, mapping, best)
  }

  /** Main result: the pairs reported are sound by one offset, and are those of the greedy search. */
  method FindPointListMap(ps1: seq<Point>, ps2: seq<Point>, radius: real, memory: bool) returns (pairs: seq<PointPair>)
    ensures exists offset :: Sound(pairs, ps1, ps2, offset, radius)
    ensures memory ==>
              exists best, mapping ::
                SearchOutcome(ps1, ps2, radius, Clusters(Differences(ps1, ps2), radius), best, mapping) &&
                ReportOf(pairs, ps1, ps2, best, mapping)
    ensures !memory ==> pairs == []
  {
    hide SearchOutcome, GreedyBest, Clusters, Differences, Mapping, Near, FirstNear;
    var mapping, nMatch := FindPointMapping(ps1, ps2, radius, memory);
    pairs := [];
    if nMatch <= 0 {
      assert Sound([], ps1, ps2, Point(0.0, 0.0), radius);
      return;
    }
    ghost var m := mapping[..|ps1|];
    ghost var offset := OffsetOfBest(ps1, ps2, radius, Clusters(Differences(ps1, ps2), radius), nMatch, m);
    for i := 0 to nMatch
      invariant pairs == Reported(ps1, ps2, m, i)
    {
      if mapping[i] >= 0 {
        pairs := [PointPair(i, mapping[i], ps1[i], ps2[mapping[i]])] + pairs;
      }
    }
    ReportedIsSound(ps1, ps2, offset, radius, nMatch);
    assert ReportOf(pairs, ps1, ps2, nMatch, m);
  }

  // ---------------------------------------------------------------- the mean shift

  function Shifts(pairs: seq<PointPair>): (r: seq<Point>)
    ensures |r| == |pairs| && forall k :: 0 <= k < |pairs| ==> r[k] == Shift(pairs[k])
  {
    seq(|pairs|, k requires 0 <= k < |pairs| => Shift(pairs[k]))
  }

  function Distance(a: Point, b: Point): Point {
    Point(Abs(a.x - b.x), Abs(a.y - b.y))
  }

  /** Sum of the distances from a centre, on each axis. */
  function Spread(shifts: seq<Point>, centre: Point): Point {
    if shifts == [] then Point(0.0, 0.0)
    else Plus(Spread(shifts[..|shifts| - 1], centre), Distance(centre, shifts[|shifts| - 1]))
  }

  datatype Offset = NoPairs | Offset(mean: Point, deviation: Point)

  /** The mean shift and the mean deviation from it; without pairs the source divides by zero. */
  method MeanShift(pairs: seq<PointPair>) returns (r: Offset)
    ensures pairs == [] ==> r == NoPairs
    ensures pairs != [] ==> r == Offset(Mean(Shifts(pairs)), Over(Spread(Shifts(pairs), Mean(Shifts(pairs))), |pairs|))
  {
    if pairs == [] {
      return NoPairs;
    }
    hide Plus, Minus, Over, Distance;
    ghost var shifts := Shifts(pairs);
    var sum := Point(0.0, 0.0);
    for k := 0 to |pairs|
      invariant sum == SumOf(shifts[..k])
    {
      sum := Plus(sum, Minus(pairs[k].p1, pairs[k].p2));
      assert shifts[..k + 1][..k] == shifts[..k];
    }
    assert shifts[..|pairs|] == shifts;
    var mean := Over(sum, |pairs|);
    var err := Point(0.0, 0.0);
    for k := 0 to |pairs|
      invariant err == Spread(shifts[..k], mean)
    {
      err := Plus(err, Distance(mean, Minus(pairs[k].p1, pairs[k].p2)));
      assert shifts[..k + 1][..k] == shifts[..k];
    }
    r := Offset(mean, Over(err, |pairs|));
  }

  /** A sum of n numbers that lie between two bounds. */
  predicate SumBetween(n: nat, s: real, lo: real, hi: real) {
    if n == 0 then s == 0.0 else n as real * lo < s < n as real * hi
  }

  lemma SumBetweenNext(n: nat, s: real, lo: real, hi: real, v: real)
    requires SumBetween(n, s, lo, hi) && lo < v < hi
    ensures SumBetween(n + 1, s + v, lo, hi)
  {
    assert (n + 1) as real * lo == n as real * lo + lo;
    assert (n + 1) as real * hi == n as real * hi + hi;
  }

  lemma QuotientBetween(n: nat, s: real, lo: real, hi: real)
    requires n > 0 && SumBetween(n, s, lo, hi)
    ensures lo < s / n as real < hi
  {
    assert s / n as real * n as real == s;
  }

  lemma NearMeans(a: Point, o: Point, radius: real)
    ensures Near(a, o, radius) <==> o.x - radius < a.x < o.x + radius && o.y - radius < a.y < o.y + radius
  {
  }

  lemma {:induction false} SumNear(c: seq<Point>, o: Point, radius: real)
    requires forall k :: 0 <= k < |c| ==> Near(c[k], o, radius)
    ensures SumBetween(|c|, SumOf(c).x, o.x - radius, o.x + radius)
    ensures SumBetween(|c|, SumOf(c).y, o.y - radius, o.y + radius)
  {
    if c != [] {
      var n := |c| - 1;
      SumNear(c[..n], o, radius);
      NearMeans(c[n], o, radius);
      SumBetweenNext(n, SumOf(c[..n]).x, o.x - radius, o.x + radius, c[n].x);
      SumBetweenNext(n, SumOf(c[..n]).y, o.y - radius, o.y + radius, c[n].y);
      hide SumBetween, Near;
    }
  }

  /** The mean of shifts near to an offset is near to it. */
  lemma MeanNear(c: Cluster, o: Point, radius: real)
    requires forall k :: 0 <= k < |c| ==> Near(c[k], o, radius)
    ensures Near(Mean(c), o, radius)
  {
    SumNear(c, o, radius);
    QuotientBetween(|c|, SumOf(c).x, o.x - radius, o.x + radius);
    QuotientBetween(|c|, SumOf(c).y, o.y - radius, o.y + radius);
    NearMeans(Mean(c), o, radius);
    hide SumBetween, Near, SumOf;
  }

  lemma {:induction false} SpreadNear(c: seq<Point>, centre: Point, o: Point, radius: real)
    requires Near(centre, o, radius) && forall k :: 0 <= k < |c| ==> Near(c[k], o, radius)
    ensures SumBetween(|c|, Spread(c, centre).x, -2.0 * radius, 2.0 * radius)
    ensures SumBetween(|c|, Spread(c, centre).y, -2.0 * radius, 2.0 * radius)
  {
    if c != [] {
      var n := |c| - 1;
      SpreadNear(c[..n], centre, o, radius);
      NearMeans(c[n], o, radius);
      NearMeans(centre, o, radius);
      SumBetweenNext(n, Spread(c[..n], centre).x, -2.0 * radius, 2.0 * radius, Abs(centre.x - c[n].x));
      SumBetweenNext(n, Spread(c[..n], centre).y, -2.0 * radius, 2.0 * radius, Abs(centre.y - c[n].y));
      hide SumBetween, Near;
    }
  }

  /** And the pairs deviate from the mean shift by less than twice the radius on average. */
  lemma DeviationBounded(pairs: seq<PointPair>, ps1: seq<Point>, ps2: seq<Point>, offset: Point, radius: real)
    requires pairs != [] && Sound(pairs, ps1, ps2, offset, radius)
    ensures var d := Over(Spread(Shifts(pairs), Mean(Shifts(pairs))), |pairs|); d.x < 2.0 * radius && d.y < 2.0 * radius
  {
    MeanShiftNearOffset(pairs, ps1, ps2, offset, radius);
    forall k | 0 <= k < |pairs| ensures Near(Shifts(pairs)[k], offset, radius) {
      assert SoundPair(pairs[k], ps1, ps2, offset, radius);
    }
    var spread := Spread(Shifts(pairs), Mean(Shifts(pairs)));
    SpreadNear(Shifts(pairs), Mean(Shifts(pairs)), offset, radius);
    QuotientBetween(|pairs|, spread.x, -2.0 * radius, 2.0 * radius);
    QuotientBetween(|pairs|, spread.y, -2.0 * radius, 2.0 * radius);
    hide Near, Spread, Mean, SumBetween, Sound;
  }

  /** The mean shift of the pairs reported is within the radius of the offset they were mapped by. */
  lemma MeanShiftNearOffset(pairs: seq<PointPair>, ps1: seq<Point>, ps2: seq<Point>, offset: Point, radius: real)
    requires pairs != [] && Sound(pairs, ps1, ps2, offset, radius)
    ensures Near(Mean(Shifts(pairs)), offset, radius)
  {
    forall k | 0 <= k < |pairs| ensures Near(Shifts(pairs)[k], offset, radius) {
      assert SoundPair(pairs[k], ps1, ps2, offset, radius);
    }
    MeanNear(Shifts(pairs), offset, radius);
  }
}
