/** The meetup-center rule of the page script: the planar centroid of the
    planned points (`calculateCenter`), the distances from it
    (`calculateDistances`, with the haversine formula left abstract) and the
    search radius `max(0.8 * maxDistance, 1000)` (`updateCenterOfInterest`).
    JavaScript numbers are modelled as exact reals. */
module Geometry {

  /** A latitude/longitude pair in degrees. */
  datatype Pos = Pos(lat: real, lng: real)

  datatype Axis = Lat | Lng

  function Coord(p: Pos, axis: Axis): real {
    match axis
    case Lat => p.lat
    case Lng => p.lng
  }

  /** The great-circle distance in metres between two points. The haversine
      formula itself is not modelled: any function of this type may stand for it. */
  type Distance = (Pos, Pos) -> real

  /** Fraction of the farthest point's distance used as search radius. */
  const RadiusFactor: real := 0.8

  /** Smallest search radius, in metres. */
  const MinRadius: real := 1000.0

  /** The `reduce((sum, addr) => sum + addr.lat, 0)` of one coordinate. */
  function Total(ps: seq<Pos>, axis: Axis): real {
    if |ps| == 0 then 0.0 else Coord(ps[0], axis) + Total(ps[1..], axis)
  }

  /** `calculateCenter`: the arithmetic mean of the latitudes and of the
      longitudes, taken independently. */
  function Centroid(ps: seq<Pos>): Pos
    requires |ps| > 0
  {
    Pos(Total(ps, Lat) / |ps| as real, Total(ps, Lng) / |ps| as real)
  }

  /** `calculateDistances`: the distance from the center to every point, in order. */
  function Distances(center: Pos, ps: seq<Pos>, dist: Distance): (ds: seq<real>)
    ensures |ds| == |ps|
    ensures forall i :: 0 <= i < |ps| ==> ds[i] == dist(center, ps[i])
  {
    seq(|ps|, i requires 0 <= i < |ps| => dist(center, ps[i]))
  }

  /** `Math.max(...xs)` of a non-empty list. */
  function MaxOf(xs: seq<real>): (m: real)
    requires |xs| > 0
    ensures forall i :: 0 <= i < |xs| ==> xs[i] <= m
    ensures exists i :: 0 <= i < |xs| && xs[i] == m
  {
    if |xs| == 1 then xs[0]
    else
      var rest := MaxOf(xs[1..]);
      assert forall i :: 1 <= i < |xs| ==> xs[i] == xs[1..][i - 1];
      if xs[0] >= rest then xs[0] else rest
  }

  function Max(a: real, b: real): real {
    if a >= b then a else b
  }

  /** The search radius around `center`: at least 1000 m, at least 80% of every
      point's distance, and equal to one of these bounds. */
  function SearchRadius(center: Pos, ps: seq<Pos>, dist: Distance): (r: real)
    requires |ps| > 0
    ensures r >= MinRadius
    ensures forall i :: 0 <= i < |ps| ==> r >= RadiusFactor * dist(center, ps[i])
    ensures r == MinRadius || exists i :: 0 <= i < |ps| && r == RadiusFactor * dist(center, ps[i])
  {
    var ds := Distances(center, ps, dist);
    var maxDistance := MaxOf(ds);
    assert forall i :: 0 <= i < |ps| ==> ds[i] == dist(center, ps[i]);
    Max(maxDistance * RadiusFactor, MinRadius)
  }

  /** What the page shows around the planned points. */
  datatype MeetupCenter =
    | NoCenter
    | SingleCenter(at: Pos)
    | GroupCenter(centroid: Pos, radius: real)

  /** The center rule by number of points: none for no point, the point itself
      (and no radius) for one point, the centroid and the search radius for two
      or more. */
  function ComputeMeetupCenter(ps: seq<Pos>, dist: Distance): (m: MeetupCenter)
    ensures m.NoCenter? <==> |ps| == 0
    ensures |ps| == 1 ==> m == SingleCenter(ps[0])
    ensures |ps| >= 2 ==> m.GroupCenter? && m.centroid == Centroid(ps)
    ensures m.GroupCenter? ==> |ps| >= 2 && m.radius >= MinRadius
    ensures m.GroupCenter? ==> m.radius == SearchRadius(m.centroid, ps, dist)
    ensures m.GroupCenter? ==> forall i :: 0 <= i < |ps| ==> m.radius >= RadiusFactor * dist(m.centroid, ps[i])
  {
    if |ps| == 0 then NoCenter
    else if |ps| == 1 then SingleCenter(ps[0])
    else
      var c := Centroid(ps);
      GroupCenter(c, SearchRadius(c, ps, dist))
  }

  // ---------------------------------------------------------------------
  // Properties of the centroid
  // ---------------------------------------------------------------------

  lemma {:induction false} TotalBounds(ps: seq<Pos>, axis: Axis, lo: real, hi: real)
    requires forall i :: 0 <= i < |ps| ==> lo <= Coord(ps[i], axis) <= hi
    ensures |ps| as real * lo <= Total(ps, axis) <= |ps| as real * hi
  {
    if |ps| > 0 {
      assert forall i :: 0 <= i < |ps| - 1 ==> ps[1..][i] == ps[i + 1];
      TotalBounds(ps[1..], axis, lo, hi);
    }
  }

  lemma MeanBounds(total: real, n: real, lo: real, hi: real)
    requires n > 0.0 && n * lo <= total <= n * hi
    ensures lo <= total / n <= hi
  {
  }

  /** Each coordinate of the centroid lies between the smallest and the largest
      value of that coordinate among the points. */
  lemma CentroidWithinBounds(ps: seq<Pos>, axis: Axis, lo: real, hi: real)
    requires |ps| > 0
    requires forall i :: 0 <= i < |ps| ==> lo <= Coord(ps[i], axis) <= hi
    ensures lo <= Coord(Centroid(ps), axis) <= hi
  {
    TotalBounds(ps, axis, lo, hi);
    MeanBounds(Total(ps, axis), |ps| as real, lo, hi);
  }

  /** The centroid of points that all coincide is that point. */
  lemma CentroidOfIdenticalPoints(ps: seq<Pos>, p: Pos)
    requires |ps| > 0
    requires forall i :: 0 <= i < |ps| ==> ps[i] == p
    ensures Centroid(ps) == p
  {
    CentroidWithinBounds(ps, Lat, p.lat, p.lat);
    CentroidWithinBounds(ps, Lng, p.lng, p.lng);
  }

  lemma {:induction false} TotalRemove(ps: seq<Pos>, j: int, axis: Axis)
    requires 0 <= j < |ps|
    ensures Total(ps, axis) == Coord(ps[j], axis) + Total(ps[..j] + ps[j + 1..], axis)
  {
    if j == 0 {
      assert ps[..0] + ps[1..] == ps[1..];
    } else {
      var tail := ps[1..];
      TotalRemove(tail, j - 1, axis);
      assert tail[..j - 1] + tail[j..] == (ps[..j] + ps[j + 1..])[1..];
      assert (ps[..j] + ps[j + 1..])[0] == ps[0];
    }
  }

  lemma MultisetWithout<T>(xs: seq<T>, j: int)
    requires 0 <= j < |xs|
    ensures multiset(xs[..j] + xs[j + 1..]) == multiset(xs) - multiset{xs[j]}
  {
    assert xs == xs[..j] + [xs[j]] + xs[j + 1..];
  }

  /** Sums do not depend on the order of the points. */
  lemma {:induction false} TotalPermutation(ps: seq<Pos>, qs: seq<Pos>, axis: Axis)
    requires multiset(ps) == multiset(qs)
    ensures Total(ps, axis) == Total(qs, axis)
  {
    if |ps| == 0 {
      assert |multiset(qs)| == 0;
    } else {
      var x, tail := ps[0], ps[1..];
      assert x in multiset(qs);
      assert x in qs;
      var j :| 0 <= j < |qs| && qs[j] == x;
      var rest := qs[..j] + qs[j + 1..];
      MultisetWithout(qs, j);
      MultisetWithout(ps, 0);
      assert ps[..0] + tail == tail;
      assert multiset(tail) == multiset(rest);
      TotalRemove(qs, j, axis);
      TotalPermutation(tail, rest, axis);
      assert Total(ps, axis) == Coord(x, axis) + Total(tail, axis);
    }
  }

  /** The centroid does not depend on the order of the points. */
  lemma CentroidPermutation(ps: seq<Pos>, qs: seq<Pos>)
    requires |ps| > 0 && multiset(ps) == multiset(qs)
    ensures |qs| == |ps| && Centroid(ps) == Centroid(qs)
  {
    assert |multiset(ps)| == |multiset(qs)|;
    TotalPermutation(ps, qs, Lat);
    TotalPermutation(ps, qs, Lng);
  }

  /** The search radius does not depend on the order of the points. */
  lemma SearchRadiusPermutation(c: Pos, ps: seq<Pos>, qs: seq<Pos>, dist: Distance)
    requires |ps| > 0 && multiset(ps) == multiset(qs)
    ensures |qs| > 0 && SearchRadius(c, ps, dist) == SearchRadius(c, qs, dist)
  {
    assert |multiset(ps)| == |multiset(qs)|;
    var rp, rq := SearchRadius(c, ps, dist), SearchRadius(c, qs, dist);
    forall i | 0 <= i < |ps| ensures rq >= RadiusFactor * dist(c, ps[i]) {
      assert ps[i] in multiset(qs);
      var j :| 0 <= j < |qs| && qs[j] == ps[i];
    }
    forall i | 0 <= i < |qs| ensures rp >= RadiusFactor * dist(c, qs[i]) {
      assert qs[i] in multiset(ps);
      var j :| 0 <= j < |ps| && ps[j] == qs[i];
    }
  }

  /** The whole center rule does not depend on the order of the entries. */
  lemma MeetupCenterPermutation(ps: seq<Pos>, qs: seq<Pos>, dist: Distance)
    requires multiset(ps) == multiset(qs)
    ensures ComputeMeetupCenter(ps, dist) == ComputeMeetupCenter(qs, dist)
  {
    assert |multiset(ps)| == |multiset(qs)|;
    if |ps| == 1 {
      assert ps[0] in multiset(qs);
    } else if |ps| >= 2 {
      CentroidPermutation(ps, qs);
      SearchRadiusPermutation(Centroid(ps), ps, qs, dist);
    }
  }

  /** Points all within 1250 m of the center get exactly the 1000 m floor. */
  lemma SearchRadiusFloor(c: Pos, ps: seq<Pos>, dist: Distance)
    requires |ps| > 0
    requires forall i :: 0 <= i < |ps| ==> dist(c, ps[i]) <= 1250.0
    ensures SearchRadius(c, ps, dist) == MinRadius
  {
  }

  /** Two points a degree of latitude apart meet half-way. */
  lemma TwoPointCentroid()
    ensures Centroid([Pos(40.0, -74.0), Pos(41.0, -74.0)]) == Pos(40.5, -74.0)
  {
    var ps := [Pos(40.0, -74.0), Pos(41.0, -74.0)];
    assert Total(ps, Lat) == 81.0 by {
      assert ps[1..] == [Pos(41.0, -74.0)];
      assert ps[1..][1..] == [];
    }
    assert Total(ps, Lng) == -148.0 by {
      assert ps[1..] == [Pos(41.0, -74.0)];
      assert ps[1..][1..] == [];
    }
  }

  /** A single point is its own center and carries no radius. */
  lemma SinglePointCenter(p: Pos, dist: Distance)
    ensures ComputeMeetupCenter([p], dist) == SingleCenter(p)
  {
  }
}
