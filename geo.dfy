/** Point-to-point distance and the length of a polyline. The map library's
    haversine `distanceTo` is abstracted as any non-negative function `d`. */
module Geo {

  import opened Types

  /** A distance in meters between two coordinates: any non-negative function. */
  type Metric = d: (LatLng, LatLng) -> real | forall a, b :: d(a, b) >= 0.0
    witness (a: LatLng, b: LatLng) => 0.0

  /** Sum, in meters, of the distances between consecutive points of `p`. */
  function PathLength(d: Metric, p: seq<LatLng>): (r: real)
    ensures r >= 0.0
  {
    if |p| < 2 then 0.0 else PathLength(d, p[..|p| - 1]) + d(p[|p| - 2], p[|p| - 1])
  }

  /** Appending one point to a non-empty path adds exactly the distance to it. */
  lemma PathLengthSnoc(d: Metric, p: seq<LatLng>, x: LatLng)
    requires p != []
    ensures PathLength(d, p + [x]) == PathLength(d, p) + d(p[|p| - 1], x)
  {
    assert (p + [x])[..|p|] == p;
  }

  /** A path is never longer than any extension of it. */
  lemma {:induction false} PathLengthPrefix(d: Metric, p: seq<LatLng>, q: seq<LatLng>)
    ensures PathLength(d, p) <= PathLength(d, p + q)
  {
    if q != [] {
      var q', x := q[..|q| - 1], q[|q| - 1];
      PathLengthPrefix(d, p, q');
      assert p + q == (p + q') + [x];
      if p + q' != [] {
        PathLengthSnoc(d, p + q', x);
        assert d((p + q')[|p + q'| - 1], x) >= 0.0;
      }
    } else {
      assert p + q == p;
    }
  }

  /** The distance of a polyline in km as the components compute it: 0 for fewer
      than two points, else the consecutive-pair sum divided by 1000. */
  function Kilometers(d: Metric, p: seq<LatLng>): real {
    if |p| < 2 then 0.0 else PathLength(d, p) / 1000.0
  }

  /** The km distance is non-negative and equals the meter sum over 1000 in both
      branches. */
  lemma KilometersIsLength(d: Metric, p: seq<LatLng>)
    ensures Kilometers(d, p) == PathLength(d, p) / 1000.0
    ensures Kilometers(d, p) >= 0.0
  {
  }

  /** Extending a polyline never shortens its km distance. */
  lemma KilometersPrefix(d: Metric, p: seq<LatLng>, q: seq<LatLng>)
    ensures Kilometers(d, p) <= Kilometers(d, p + q)
  {
    PathLengthPrefix(d, p, q);
  }

  /** A real number or +Infinity (the initial value of a running minimum). */
  datatype Extended = Finite(v: real) | Infinity {
    predicate Exceeds(t: real) {
      Infinity? || v > t
    }
  }

  /** The smallest distance from `pos` to a vertex of `path`; Infinity when `path`
      is empty. */
  function Nearest(d: Metric, pos: LatLng, path: seq<LatLng>): (r: Extended)
    ensures path == [] <==> r.Infinity?
    ensures r.Finite? ==> exists i :: 0 <= i < |path| && r.v == d(pos, path[i])
    ensures r.Finite? ==> forall i :: 0 <= i < |path| ==> r.v <= d(pos, path[i])
  {
    if path == [] then Infinity
    else
      var rest := Nearest(d, pos, path[..|path| - 1]);
      var x := d(pos, path[|path| - 1]);
      if rest.Finite? && rest.v <= x then
        assert forall i :: 0 <= i < |path| - 1 ==> path[..|path| - 1][i] == path[i];
        rest
      else Finite(x)
  }
}
