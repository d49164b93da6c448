/** The route builder: an ordered list of segments, each the point the user
    clicked and the walking path that leads to it from the previous segment.
    Adding, undoing and clearing change the list; after each change the
    flattened path, the waypoint list and the distance are recomputed. */
module RouteCreator {

  import opened Types
  import opened Geo
  import opened Numbers

  /** One click and the path points that lead to it (`isWaypoint` is absent,
      hence false, unless the point was added as a waypoint). The click point is
      undefined only in the segment seeded from an edited route with no points. */
  datatype Segment = Segment(clickPoint: Option<LatLng>, pathPoints: seq<LatLng>, isWaypoint: bool)

  /** What the walking-route service answers: an ordered geometry when its status
      is 'Ok', or a failure (non-'Ok' status, network error, malformed reply). */
  datatype Routed = Routed(points: seq<LatLng>) | Failed

  /** The walking-route service, as an oracle from (start, end) to its answer. */
  type Router = (LatLng, LatLng) -> Routed

  /** The geometry used for a new segment: the service's answer, or exactly
      `[end]` when it fails. A missing start (the previous segment had no path
      points) makes the request itself throw, which is caught the same way. */
  function FetchRouteSegment(router: Router, start: Option<LatLng>, end: LatLng): (r: seq<LatLng>)
    ensures r == [end] || (start.Some? && router(start.value, end) == Routed(r))
    ensures (start.None? || router(start.value, end).Failed?) ==> r == [end]
    ensures start.Some? && router(start.value, end).Routed? ==> r == router(start.value, end).points
  {
    match start
    case None => [end]
    case Some(s) =>
      match router(s, end)
      case Routed(points) => points
      case Failed => [end]
  }

  // ---------------------------------------------------------------- derived views

  /** All path points, segment after segment, shared endpoints kept twice. */
  function Flatten(segs: seq<Segment>): seq<LatLng> {
    if segs == [] then [] else Flatten(segs[..|segs| - 1]) + segs[|segs| - 1].pathPoints
  }

  /** The number of path points over all segments. */
  function PointCount(segs: seq<Segment>): nat {
    if segs == [] then 0 else PointCount(segs[..|segs| - 1]) + |segs[|segs| - 1].pathPoints|
  }

  /** Flattening is concatenation: it distributes over joining segment lists. */
  lemma {:induction false} FlattenConcat(a: seq<Segment>, b: seq<Segment>)
    ensures Flatten(a + b) == Flatten(a) + Flatten(b)
  {
    if b != [] {
      var b' := b[..|b| - 1];
      FlattenConcat(a, b');
      assert (a + b)[..|a + b| - 1] == a + b';
    } else {
      assert a + b == a;
    }
  }

  /** No point is dropped or merged: the flattened length is the sum of the
      segments' lengths. */
  lemma {:induction false} FlattenLength(segs: seq<Segment>)
    ensures |Flatten(segs)| == PointCount(segs)
  {
    if segs != [] {
      FlattenLength(segs[..|segs| - 1]);
    }
  }

  /** Appending a segment appends its points to the flattened path. */
  lemma FlattenSnoc(segs: seq<Segment>, s: Segment)
    ensures Flatten(segs + [s]) == Flatten(segs) + s.pathPoints
  {
    assert (segs + [s])[..|segs|] == segs;
  }

  /** Every waypoint segment was made by a click. */
  predicate WaypointsClicked(segs: seq<Segment>) {
    forall i :: 0 <= i < |segs| && segs[i].isWaypoint ==> segs[i].clickPoint.Some?
  }

  /** The click points of the segments marked as waypoints, in order. */
  function Waypoints(segs: seq<Segment>): seq<LatLng>
    requires WaypointsClicked(segs)
  {
    if segs == [] then []
    else
      var last := segs[|segs| - 1];
      Waypoints(segs[..|segs| - 1]) + (if last.isWaypoint then [last.clickPoint.value] else [])
  }

  /** A point is listed as a waypoint exactly when some waypoint segment was
      clicked there. */
  lemma {:induction false} WaypointsMembers(segs: seq<Segment>, p: LatLng)
    requires WaypointsClicked(segs)
    ensures p in Waypoints(segs) <==>
      exists i :: 0 <= i < |segs| && segs[i].isWaypoint && segs[i].clickPoint == Some(p)
  {
    if segs != [] {
      var segs' := segs[..|segs| - 1];
      WaypointsMembers(segs', p);
      assert forall i :: 0 <= i < |segs'| ==> segs'[i] == segs[i];
      if p in Waypoints(segs') {
        var i :| 0 <= i < |segs'| && segs'[i].isWaypoint && segs'[i].clickPoint == Some(p);
        assert segs[i].isWaypoint && segs[i].clickPoint == Some(p);
      }
    }
  }

  /** The markers drawn for a path: a start marker on its first point, an end
      marker on its last point once it has two, and small markers on the
      waypoints other than the first and, when there is an end marker, the last. */
  datatype Markers = Markers(start: Option<LatLng>, waypoints: seq<LatLng>, end: Option<LatLng>)

  function MarkerLayout(path: seq<LatLng>, wps: seq<LatLng>): (m: Markers)
    ensures path == [] ==> m == Markers(None, [], None)
    ensures path != [] ==> m.start == Some(path[0])
    ensures m.end.Some? <==> |path| > 1
    ensures |path| > 1 ==> m.end == Some(path[|path| - 1])
    ensures path != [] && wps != [] ==>
      m.waypoints == wps[1..if |path| > 1 && |wps| > 1 then |wps| - 1 else |wps|]
    ensures wps == [] ==> m.waypoints == []
  {
    if path == [] then Markers(None, [], None)
    else
      var skipLast := |path| > 1;
      Markers(Some(path[0]), Inner(wps, 1, skipLast),
              if skipLast then Some(path[|path| - 1]) else None)
  }

  /** The waypoints from index `from` on that get a small marker. */
  function Inner(wps: seq<LatLng>, from: nat, skipLast: bool): (r: seq<LatLng>)
    requires from >= 1
    ensures from <= |wps| ==> r == wps[from..if skipLast && from < |wps| then |wps| - 1 else |wps|]
    ensures from > |wps| ==> r == []
    decreases |wps| - from
  {
    if from >= |wps| then []
    else if from == |wps| - 1 && skipLast then []
    else [wps[from]] + Inner(wps, from + 1, skipLast)
  }

  // ---------------------------------------------------------------- distance

  /** `calculateDistance`: 0 for fewer than two points, else the sum of the
      consecutive distances divided by 1000. */
  method CalculateDistance(d: Metric, p: seq<LatLng>) returns (km: real)
    ensures km == Kilometers(d, p)
    ensures km >= 0.0
  {
    if |p| < 2 {
      return 0.0;
    }
    var total := 0.0;
    var i := 0;
    while i < |p| - 1
      invariant 0 <= i <= |p| - 1
      invariant total == PathLength(d, p[..i + 1])
    {
      assert p[..i + 2][..i + 1] == p[..i + 1];
      total := total + d(p[i], p[i + 1]);
      i := i + 1;
    }
    assert p[..i + 1] == p;
    km := total / 1000.0;
  }

  /** Appending a segment never decreases the route distance. */
  lemma DistanceGrows(d: Metric, segs: seq<Segment>, s: Segment)
    ensures Kilometers(d, Flatten(segs)) <= Kilometers(d, Flatten(segs + [s]))
  {
    FlattenSnoc(segs, s);
    KilometersPrefix(d, Flatten(segs), s.pathPoints);
  }

  // ---------------------------------------------------------------- saving

  /** The editable fields of the form. */
  datatype RouteForm = RouteForm(name: string, description: string, difficulty: Difficulty, tags: seq<string>)

  /** The form's initial values: those of the route being edited, else empty.
      The source's `||` defaults never apply to an edited route: an empty name
      or description defaults to the same empty text, and a difficulty or a
      tag list is never falsy. */
  function InitialForm(initial: Option<Route>): (f: RouteForm)
    ensures initial.None? ==> f == RouteForm("", "", Easy, [])
    ensures initial.Some? ==>
      f == RouteForm(initial.value.name, initial.value.description, initial.value.difficulty, initial.value.tags)
  {
    match initial
    case None => RouteForm("", "", Easy, [])
    case Some(r) => RouteForm(r.name, r.description, r.difficulty, r.tags)
  }

  const DefaultRating: real := 4.5
  const CreatorId: string := "user_1"
  const CreatorName: string := "RunnerOne"

  class Builder {
    const dist: Metric
    var segments: seq<Segment>
    var distance: real

    /** The shown distance always belongs to the shown segments. */
    ghost predicate Valid()
      reads this
    {
      distance == Kilometers(dist, Flatten(segments)) && WaypointsClicked(segments)
    }

    /** The flattened path drawn on the map. */
    function AllPoints(): seq<LatLng>
      reads this
    {
      Flatten(segments)
    }

    /** The markers drawn after each change. */
    function CurrentMarkers(): Markers
      requires Valid()
      reads this
    {
      MarkerLayout(AllPoints(), Waypoints(segments))
    }

    /** A builder for a new route starts empty. */
    constructor New(d: Metric)
      ensures Valid() && dist == d
      ensures segments == [] && distance == 0.0
    {
      dist := d;
      segments := [];
      distance := 0.0;
    }

    /** Editing an existing route starts from one segment holding its whole path,
        clicked at its last point; that segment is no waypoint, so the markers are
        those the editor first draws, with no waypoint list. */
    constructor Edit(d: Metric, route: Route)
      ensures Valid() && dist == d
      ensures segments == [Segment(if route.path == [] then None else Some(route.path[|route.path| - 1]),
                                   route.path, false)]
      ensures AllPoints() == route.path
      ensures CurrentMarkers() == MarkerLayout(route.path, [])
    {
      dist := d;
      segments := [Segment(if route.path == [] then None else Some(route.path[|route.path| - 1]),
                           route.path, false)];
      new;
      assert Waypoints(segments) == [] by {
        assert segments[..0] == [];
      }
      assert Flatten(segments) == route.path by {
        assert segments[..0] == [];
      }
      distance := CalculateDistance(d, route.path);
    }

    /** The last path point of the last segment, when it has one. */
    static function LastPathPoint(segs: seq<Segment>): Option<LatLng>
      requires segs != []
    {
      var pts := segs[|segs| - 1].pathPoints;
      if pts == [] then None else Some(pts[|pts| - 1])
    }

    /** `handleAddPoint`: the first point starts the route as a waypoint; every
        later point is routed from the end of the previous segment's path. */
    method AddPoint(p: LatLng, isWaypoint: bool, router: Router)
      requires Valid()
      modifies this
      ensures Valid()
      ensures |segments| == |old(segments)| + 1
      ensures segments[..|old(segments)|] == old(segments)
      ensures segments[|segments| - 1].clickPoint == Some(p)
      ensures old(segments) == [] ==> segments == [Segment(Some(p), [p], true)] && distance == 0.0
      ensures old(segments) != [] ==>
        segments[|segments| - 1] ==
          Segment(Some(p), FetchRouteSegment(router, LastPathPoint(old(segments)), p), isWaypoint)
      ensures AllPoints() == old(AllPoints()) + segments[|segments| - 1].pathPoints
      ensures Waypoints(segments) ==
        old(Waypoints(segments)) + (if segments[|segments| - 1].isWaypoint then [p] else [])
      ensures distance >= old(distance)
    {
      if |segments| > 0 {
        var snapped := FetchRouteSegment(router, LastPathPoint(segments), p);
        var s := Segment(Some(p), snapped, isWaypoint);
        DistanceGrows(dist, segments, s);
        FlattenSnoc(segments, s);
        assert (segments + [s])[..|segments|] == segments;
        segments := segments + [s];
        distance := CalculateDistance(dist, Flatten(segments));
      } else {
        var s := Segment(Some(p), [p], true);
        FlattenSnoc(segments, s);
        segments := [s];
        distance := CalculateDistance(dist, [p]);
      }
    }

    /** `handleUndo`: drops the last segment; nothing happens when there is none. */
    method Undo()
      requires Valid()
      modifies this
      ensures Valid()
      ensures old(segments) == [] ==> segments == [] && distance == old(distance)
      ensures old(segments) != [] ==> segments == old(segments)[..|old(segments)| - 1]
    {
      if |segments| == 0 {
        return;
      }
      segments := segments[..|segments| - 1];
      distance := CalculateDistance(dist, Flatten(segments));
    }

    /** `handleClear`: no segments and zero distance. */
    method Clear()
      requires Valid()
      modifies this
      ensures Valid()
      ensures segments == [] && distance == 0.0
    {
      segments := [];
      distance := 0.0;
    }

    /** `handleSave`: nothing without a name or with zero distance; otherwise the
        route record, keeping the edited route's id, creation time and rating when
        they are set (4.5 is the default rating). */
    function Save(form: RouteForm, initial: Option<Route>, newId: string, now: int,
                  generatedDescription: string): (r: Option<Route>)
      reads this
      ensures r.None? <==> form.name == "" || distance == 0.0
      ensures r.Some? ==> r.value.path == AllPoints() && r.value.name == form.name
      ensures r.Some? ==> r.value.distance == ToFixed(distance, TwoDecimals)
      ensures r.Some? ==>
        r.value.id == (if initial.Some? && initial.value.id != "" then initial.value.id else newId)
      ensures r.Some? ==>
        r.value.createdAt == (if initial.Some? && initial.value.createdAt != 0 then initial.value.createdAt else now)
      ensures r.Some? ==>
        r.value.rating == (if initial.Some? && initial.value.rating != 0.0 then initial.value.rating else DefaultRating)
      ensures r.Some? && form.description != "" ==> r.value.description == form.description
      ensures r.Some? && form.description == "" ==> r.value.description == generatedDescription
      ensures r.Some? ==> r.value.difficulty == form.difficulty && r.value.tags == form.tags
      ensures r.Some? ==> r.value.creatorId == CreatorId && r.value.creatorName == CreatorName
      ensures r.Some? ==> r.value.elevationGain == MathRound(distance * 15.0)
    {
      if form.name == "" || distance == 0.0 then None
      else
        Some(Route(
          id := if initial.Some? && initial.value.id != "" then initial.value.id else newId,
          name := form.name,
          description := if form.description != "" then form.description else generatedDescription,
          creatorId := CreatorId,
          creatorName := CreatorName,
          path := Flatten(segments),
          distance := ToFixed(distance, TwoDecimals),
          elevationGain := MathRound(distance * 15.0),
          difficulty := form.difficulty,
          tags := form.tags,
          createdAt := if initial.Some? && initial.value.createdAt != 0 then initial.value.createdAt else now,
          rating := if initial.Some? && initial.value.rating != 0.0 then initial.value.rating else DefaultRating))
    }
  }

  /** Undo right after an add restores the segments and the distance. */
  method AddThenUndo(b: Builder, p: LatLng, isWaypoint: bool, router: Router)
    requires b.Valid()
    modifies b
    ensures b.Valid()
    ensures b.segments == old(b.segments) && b.distance == old(b.distance)
  {
    b.AddPoint(p, isWaypoint, router);
    b.Undo();
  }
}
