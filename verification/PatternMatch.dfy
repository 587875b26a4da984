/** Star patterns: clustering the differences between two lists of points, and the offset that maps most points. */
module PatternMatch {

  datatype Point = Point(x: real, y: real)

  function Abs(v: real): real {
    if v < 0.0 then -v else v
  }

  /** Within the radius on both axes. */
  predicate Near(a: Point, b: Point, radius: real) {
    Abs(a.x - b.x) < radius && Abs(a.y - b.y) < radius
  }

  function Plus(a: Point, b: Point): Point {
    Point(a.x + b.x, a.y + b.y)
  }

  function Minus(a: Point, b: Point): Point {
    Point(a.x - b.x, a.y - b.y)
  }

  function Over(a: Point, n: nat): Point
    requires n > 0
  {
    Point(a.x / n as real, a.y / n as real)
  }

  // ---------------------------------------------------------------- clusters

  /** The differences that joined a cluster, in order. */
  type Cluster = c: seq<Point> | |c| > 0 witness [Point(0.0, 0.0)]

  function SumOf(c: seq<Point>): Point {
    if c == [] then Point(0.0, 0.0) else Plus(SumOf(c[..|c| - 1]), c[|c| - 1])
  }

  function Mean(c: Cluster): Point {
    Over(SumOf(c), |c|)
  }

  function Join(c: Cluster, v: Point, radius: real): Cluster {
    if Near(Mean(c), v, radius) then c + [v] else c
  }

  function JoinAll(cs: seq<Cluster>, v: Point, radius: real): (r: seq<Cluster>)
    ensures |r| == |cs| && forall d :: 0 <= d < |cs| ==> r[d] == Join(cs[d], v, radius)
  {
    seq(|cs|, d requires 0 <= d < |cs| => Join(cs[d], v, radius))
  }

  ghost predicate AnyNear(cs: seq<Cluster>, v: Point, radius: real) {
    exists d :: 0 <= d < |cs| && Near(Mean(cs[d]), v, radius)
  }

  /** A difference joins every cluster it is near to, and founds one if there is none. */
  ghost function AddDifference(cs: seq<Cluster>, v: Point, radius: real): (r: seq<Cluster>)
    ensures |cs| <= |r| <= |cs| + 1
  {
    JoinAll(cs, v, radius) + if AnyNear(cs, v, radius) then [] else [[v]]
  }

  ghost function Clusters(ds: seq<Point>, radius: real): seq<Cluster> {
    if ds == [] then [] else AddDifference(Clusters(ds[..|ds| - 1], radius), ds[|ds| - 1], radius)
  }

  /** The differences of one point to the points of a list. */
  function DifferencesOf(p: Point, ps: seq<Point>): (ds: seq<Point>)
    ensures |ds| == |ps|
  {
    if ps == [] then [] else DifferencesOf(p, ps[..|ps| - 1]) + [Minus(p, ps[|ps| - 1])]
  }

  function Differences(ps1: seq<Point>, ps2: seq<Point>): seq<Point> {
    if ps1 == [] then [] else Differences(ps1[..|ps1| - 1], ps2) + DifferencesOf(ps1[|ps1| - 1], ps2)
  }

  /** Every member but the founder was near to the mean of those before it. */
  ghost predicate GrownNear(c: Cluster, radius: real) {
    forall k :: 1 <= k < |c| ==> Near(Mean(c[..k]), c[k], radius)
  }

  ghost predicate AllGrownNear(cs: seq<Cluster>, radius: real) {
    forall d :: 0 <= d < |cs| ==> GrownNear(cs[d], radius)
  }

  ghost predicate Covered(cs: seq<Cluster>, v: Point) {
    exists d :: 0 <= d < |cs| && v in cs[d]
  }

  lemma JoinGrows(c: Cluster, v: Point, radius: real)
    requires GrownNear(c, radius)
    ensures GrownNear(Join(c, v, radius), radius)
    ensures c <= Join(c, v, radius)
  {
    var j := Join(c, v, radius);
    forall k | 1 <= k < |j| ensures Near(Mean(j[..k]), j[k], radius) {
      if k < |c| {
        assert j[..k] == c[..k];
      } else {
        assert j[..k] == c;
      }
    }
  }

  lemma AddedIsCovered(cs: seq<Cluster>, v: Point, radius: real)
    ensures Covered(AddDifference(cs, v, radius), v)
  {
    var r := AddDifference(cs, v, radius);
    if AnyNear(cs, v, radius) {
      var d :| 0 <= d < |cs| && Near(Mean(cs[d]), v, radius);
      assert r[d] == cs[d] + [v];
    } else {
      assert r[|cs|] == [v];
    }
  }

  lemma StaysCovered(cs: seq<Cluster>, v: Point, radius: real, u: Point)
    requires Covered(cs, u)
    ensures Covered(AddDifference(cs, v, radius), u)
  {
    var d :| 0 <= d < |cs| && u in cs[d];
    assert AddDifference(cs, v, radius)[d] == Join(cs[d], v, radius);
  }

  lemma AddingKeepsGrown(cs: seq<Cluster>, v: Point, radius: real)
    requires AllGrownNear(cs, radius)
    ensures AllGrownNear(AddDifference(cs, v, radius), radius)
  {
    var r := AddDifference(cs, v, radius);
    forall d | 0 <= d < |r| ensures GrownNear(r[d], radius) {
      if d < |cs| {
        JoinGrows(cs[d], v, radius);
      }
    }
  }

  lemma NoClusters(radius: real)
    ensures AllGrownNear(Clusters([], radius), radius)
  {
  }

  /** Every difference is in some cluster, every cluster grew by near differences, and there are no more clusters
      than differences. */
  lemma {:induction false} ClustersCover(ds: seq<Point>, radius: real)
    ensures |Clusters(ds, radius)| <= |ds|
    ensures forall k :: 0 <= k < |ds| ==> Covered(Clusters(ds, radius), ds[k])
    ensures AllGrownNear(Clusters(ds, radius), radius)
  {
    NoClusters(radius);
    hide AddDifference, AllGrownNear, Covered;
    if ds != [] {
      var before, last := ds[..|ds| - 1], ds[|ds| - 1];
      ClustersCover(before, radius);
      var cs := Clusters(before, radius);
      AddedIsCovered(cs, last, radius);
      AddingKeepsGrown(cs, last, radius);
      assert Clusters(ds, radius) == AddDifference(cs, last, radius);
      forall k | 0 <= k < |ds| ensures Covered(Clusters(ds, radius), ds[k]) {
        if k < |before| {
          assert before[k] == ds[k];
          StaysCovered(cs, last, radius, ds[k]);
        }
      }
    }
  }

  // ---------------------------------------------------------------- mapping by an offset

  /** The first point of a list near to where the offset puts a point; -1 if there is none. */
  function FirstNear(p: Point, ps: seq<Point>, offset: Point, radius: real): (j: int)
    ensures -1 <= j < |ps|
  {
    if ps == [] then -1
    else
      var j := FirstNear(p, ps[..|ps| - 1], offset, radius);
      if j >= 0 then j
      else if Near(Minus(p, ps[|ps| - 1]), offset, radius) then |ps| - 1 else -1
  }

  lemma {:induction false} FirstNearIsFirst(p: Point, ps: seq<Point>, offset: Point, radius: real)
    ensures var j := FirstNear(p, ps, offset, radius);
            && (j >= 0 ==> Near(Minus(p, ps[j]), offset, radius))
            && (forall k :: 0 <= k < (if j >= 0 then j else |ps|) ==> !Near(Minus(p, ps[k]), offset, radius))
  {
    if ps != [] {
      FirstNearIsFirst(p, ps[..|ps| - 1], offset, radius);
    }
  }

  function Mapping(ps1: seq<Point>, ps2: seq<Point>, offset: Point, radius: real): (r: seq<int>)
    ensures |r| == |ps1|
  {
    if ps1 == [] then []
    else Mapping(ps1[..|ps1| - 1], ps2, offset, radius) + [FirstNear(ps1[|ps1| - 1], ps2, offset, radius)]
  }

  function Pairs(mapping: seq<int>): (n: nat)
    ensures n <= |mapping|
  {
    if mapping == [] then 0
    else Pairs(mapping[..|mapping| - 1]) + if mapping[|mapping| - 1] >= 0 then 1 else 0
  }

  lemma {:induction false} MappingAt(ps1: seq<Point>, ps2: seq<Point>, offset: Point, radius: real, i: nat)
    requires i < |ps1|
    ensures Mapping(ps1, ps2, offset, radius)[i] == FirstNear(ps1[i], ps2, offset, radius)
  {
    if i < |ps1| - 1 {
      MappingAt(ps1[..|ps1| - 1], ps2, offset, radius, i);
    }
  }
}
