/** Coordinates and distances. Route geometry arrives as GeoJSON positions,
    longitude first (section 3.1.1 of RFC 7946); the map library works on
    latitude/longitude pairs, and every use of a route point swaps the two. */
module Geo {

  /** A map point as the map library holds it. */
  datatype LatLng = LatLng(lat: real, lng: real)

  /** A GeoJSON position, `[lng, lat]`. */
  datatype Position = Position(lng: real, lat: real)

  /** `L.latLng(p[1], p[0])` */
  function ToLatLng(p: Position): (q: LatLng)
    ensures q.lat == p.lat && q.lng == p.lng
  {
    LatLng(p.lat, p.lng)
  }

  /** The map library's `a.distanceTo(b)` in metres, left abstract: any
      non-negative function of two points. */
  type Metric = f: (LatLng, LatLng) -> real | forall p, q :: f(p, q) >= 0.0
    witness (p: LatLng, q: LatLng) => 0.0

  /** Length of the hop that reaches point `i` of `route` from point `i - 1`,
      measured from the later point as the client does. */
  function Hop(dist: Metric, route: seq<Position>, i: nat): real
    requires 0 < i < |route|
  {
    dist(ToLatLng(route[i]), ToLatLng(route[i - 1]))
  }

  /** The total of the `reduce` over the geometry: the sum of the distances
      between consecutive points, 0 for a route of at most one point. */
  function PathLength(dist: Metric, route: seq<Position>): (total: real)
    ensures total >= 0.0
    ensures |route| <= 1 ==> total == 0.0
  {
    if |route| <= 1 then 0.0 else Hop(dist, route, 1) + PathLength(dist, route[1..])
  }

  /** Extending a route by one point adds exactly the hop to that point;
      this is the step the `reduce` takes for each index. */
  lemma {:induction false} PathLengthSnoc(dist: Metric, route: seq<Position>, p: Position)
    requires |route| >= 1
    ensures PathLength(dist, route + [p]) == PathLength(dist, route) + Hop(dist, route + [p], |route|)
  {
    var ext := route + [p];
    if |route| > 1 {
      assert ext[1..] == route[1..] + [p];
      PathLengthSnoc(dist, route[1..], p);
      assert Hop(dist, ext, 1) == Hop(dist, route, 1);
      assert Hop(dist, ext[1..], |route| - 1) == Hop(dist, ext, |route|);
    }
  }

  /** One more point on a stretch `route[b..i]` of the route adds the hop
      into point `i`. */
  lemma PathLengthExtend(dist: Metric, route: seq<Position>, b: nat, i: nat)
    requires b < i < |route|
    ensures PathLength(dist, route[b..i + 1]) == PathLength(dist, route[b..i]) + Hop(dist, route, i)
  {
    assert route[b..i] + [route[i]] == route[b..i + 1];
    PathLengthSnoc(dist, route[b..i], route[i]);
  }

  /** Cutting a route at point `k` splits its length: the stretch up to `k`
      and the stretch from `k` add up to the whole. */
  lemma {:induction false} PathLengthSplit(dist: Metric, route: seq<Position>, k: nat)
    requires k < |route|
    ensures PathLength(dist, route[..k + 1]) + PathLength(dist, route[k..]) == PathLength(dist, route)
  {
    if k > 0 {
      assert route[1..][..k] == route[1..k + 1];
      assert route[1..][k - 1..] == route[k..];
      PathLengthSplit(dist, route[1..], k - 1);
      assert route[..k + 1][1..] == route[1..k + 1];
      assert Hop(dist, route[..k + 1], 1) == Hop(dist, route, 1);
    } else {
      assert route[k..] == route;
    }
  }

  /** The short-range guidance line (`trazarRutaManhattan`): from `from` along
      its latitude to the destination's longitude, then along that longitude
      to the destination. */
  function ManhattanPath(from: LatLng, to: LatLng): (path: seq<LatLng>)
    ensures |path| == 3 && path[0] == from && path[2] == to
    ensures path[1].lat == from.lat && path[1].lng == to.lng
  {
    [from, LatLng(from.lat, to.lng), to]
  }
}
