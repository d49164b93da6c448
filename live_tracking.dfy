/** A running session along a saved route: a 3-2-1-GO countdown, then a
    one-second timer and position samples that grow the recorded path, unless
    the session is paused. Each accepted sample also re-decides whether the
    runner is off the route. */
module LiveTracking {

  import opened Types
  import opened Geo
  import opened Text
  import opened Numbers

  /** A runner farther than this many meters from every route vertex is off route. */
  const OffRouteMeters: real := 50.0

  /** The countdown's first value. */
  const CountdownStart: nat := 3

  // ---------------------------------------------------------------- off route

  /** `checkOffRoute`'s scan: the running minimum starts at Infinity and takes
      every smaller vertex distance. */
  method MinDistance(d: Metric, pos: LatLng, path: seq<LatLng>) returns (m: Extended)
    ensures m == Nearest(d, pos, path)
  {
    m := Infinity;
    var i := 0;
    while i < |path|
      invariant 0 <= i <= |path|
      invariant m == Nearest(d, pos, path[..i])
    {
      assert path[..i + 1][..i] == path[..i];
      var dist := d(pos, path[i]);
      if m.Infinity? || dist < m.v {
        m := Finite(dist);
      }
      i := i + 1;
    }
    assert path[..i] == path;
  }

  /** Off route exactly when every vertex of the reference path is more than 50 m
      away; in particular an empty reference path always reports off route. */
  lemma OffRouteIffAllFar(d: Metric, pos: LatLng, path: seq<LatLng>)
    ensures Nearest(d, pos, path).Exceeds(OffRouteMeters) <==>
      forall i :: 0 <= i < |path| ==> d(pos, path[i]) > OffRouteMeters
    ensures path == [] ==> Nearest(d, pos, path).Exceeds(OffRouteMeters)
  {
    var n := Nearest(d, pos, path);
    if n.Finite? && n.v > OffRouteMeters {
      assert forall i :: 0 <= i < |path| ==> n.v <= d(pos, path[i]);
    }
    if n.Finite? && n.v <= OffRouteMeters {
      var k :| 0 <= k < |path| && n.v == d(pos, path[k]);
      assert d(pos, path[k]) <= OffRouteMeters;
    }
  }

  // ---------------------------------------------------------------- display helpers

  /** `formatTime`: "h:mm:ss" when there is at least one hour, else "m:ss". */
  function FormatTime(seconds: nat): (r: string)
    ensures ParseClock(r) == Some(seconds)
    ensures |SplitColon(r)| == if seconds < 3600 then 2 else 3
    ensures SplitColon(r)[0] == NatToString(if seconds < 3600 then seconds / 60 else seconds / 3600)
    ensures forall i :: 1 <= i < |SplitColon(r)| ==> Sexagesimal(SplitColon(r)[i])
  {
    var hrs, mins, secs := seconds / 3600, (seconds % 3600) / 60, seconds % 60;
    ClockSplit(seconds);
    ClockText(hrs, mins, secs)
  }

  /** "h:mm:ss" with hours, else "m:ss". */
  function ClockText(h: nat, m: nat, s: nat): (r: string)
    requires m < 60 && s < 60
    ensures ParseClock(r) == Some(h * 3600 + m * 60 + s)
    ensures |SplitColon(r)| == if h == 0 then 2 else 3
    ensures SplitColon(r)[0] == NatToString(if h == 0 then m else h)
    ensures forall i :: 1 <= i < |SplitColon(r)| ==> Sexagesimal(SplitColon(r)[i])
  {
    if h > 0 then
      HourMinSecFields(h, m, s);
      HourMinSecText(h, m, s)
    else
      MinSecFields(m, s);
      MinSecText(m, s)
  }

  /** Hours, minutes and seconds put back together give the seconds again. */
  lemma ClockSplit(seconds: nat)
    ensures (seconds / 3600) * 3600 + ((seconds % 3600) / 60) * 60 + seconds % 60 == seconds
    ensures seconds / 3600 == 0 <==> seconds < 3600
    ensures (seconds % 3600) / 60 < 60
    ensures seconds < 3600 ==> (seconds % 3600) / 60 == seconds / 60
  {
    var h, r := seconds / 3600, seconds % 3600;
    var m, sec := r / 60, r % 60;
    assert seconds == h * 3600 + r;
    assert r == m * 60 + sec;
    SplitMinutes(seconds, h * 60 + m, sec);
  }

  /** Whole minutes and the remaining seconds are the only such pair. */
  lemma SplitMinutes(n: nat, q: nat, r: nat)
    requires r < 60 && n == q * 60 + r
    ensures n / 60 == q && n % 60 == r
  {
  }

  /** Minutes and seconds that `getCurrentPaceMinKm` prints for a positive
      distance, as written: the whole minutes of the pace, then the rounded
      remainder in seconds, which may round up to 60. */
  function PaceParts(elapsed: nat, covered: real): (r: (nat, nat))
    requires covered > 0.0
    ensures r.1 <= 60
  {
    var pace := (elapsed as real / 60.0) / covered;
    NonNegQuotient(elapsed as real / 60.0, covered);
    var pMins := pace.Floor;
    var pSecs := MathRound((pace - pMins as real) * 60.0);
    (pMins, pSecs)
  }

  lemma NonNegQuotient(a: real, b: real)
    requires a >= 0.0 && b > 0.0
    ensures a / b >= 0.0
  {
  }

  /** The pace text as written: "0:00" for no distance, else the parts above. */
  function PaceAsWritten(elapsed: nat, covered: real): string
    requires covered >= 0.0
  {
    if covered == 0.0 then "0:00"
    else
      var (m, s) := PaceParts(elapsed, covered);
      MinSecText(m, s)
  }

  /** With 600 s over 2000/999 km the pace is 4.995 min/km; its remainder rounds
      to 60 seconds and the text reads "4:60". */
  lemma PaceAsWrittenShowsSixty()
    ensures PaceParts(600, 2000.0 / 999.0) == (4, 60)
    ensures PaceAsWritten(600, 2000.0 / 999.0) == "4:60"
  {
    var pace := (600 as real / 60.0) / (2000.0 / 999.0);
    assert pace == 4.995;
    assert pace.Floor == 4;
    assert (pace - 4.0) * 60.0 == 59.7;
    assert MathRound(59.7) == 60;
    assert NatToString(60) == "60" by {
      assert NatToString(6) == "6";
    }
  }

  /** The pace in whole seconds per km: the elapsed seconds over the covered km,
      rounded; 0 for no distance. */
  function PaceSeconds(elapsed: nat, covered: real): (t: nat)
    requires covered >= 0.0
    ensures covered > 0.0 ==> elapsed as real / covered - 0.5 < t as real <= elapsed as real / covered + 0.5
    ensures covered == 0.0 ==> t == 0
  {
    if covered == 0.0 then 0
    else
      NonNegQuotient(elapsed as real, covered);
      MathRound(elapsed as real / covered)
  }

  /** The pace text, corrected: the rounded seconds per km split into minutes and
      a seconds field that is always below 60. */
  function Pace(elapsed: nat, covered: real): (r: string)
    requires covered >= 0.0
    ensures ParseClock(r) == Some(PaceSeconds(elapsed, covered))
    ensures |SplitColon(r)| == 2 && Sexagesimal(SplitColon(r)[1])
    ensures SplitColon(r)[0] == NatToString(PaceSeconds(elapsed, covered) / 60)
    ensures covered == 0.0 ==> r == "0:00"
  {
    var t := PaceSeconds(elapsed, covered);
    var m, sec := t / 60, t % 60;
    SplitMinutes(t, m, sec);
    MinSecFields(m, sec);
    if covered == 0.0 then
      assert MinSecText(0, 0) == "0:00";
      "0:00"
    else
      MinSecText(m, sec)
  }

  /** Whenever the written seconds stay below 60, the corrected text is the
      written one: the two differ only on the ":60" outputs. */
  lemma PaceAgrees(elapsed: nat, covered: real)
    requires covered > 0.0 && PaceParts(elapsed, covered).1 < 60
    ensures Pace(elapsed, covered) == PaceAsWritten(elapsed, covered)
  {
    var (m, s) := PaceParts(elapsed, covered);
    var pace := (elapsed as real / 60.0) / covered;
    assert pace * 60.0 == elapsed as real / covered;
    RoundShift((pace - m as real) * 60.0, m * 60);
    assert (pace - m as real) * 60.0 + (m * 60) as real == elapsed as real / covered;
    var t := PaceSeconds(elapsed, covered);
    assert t == m * 60 + s;
    assert t / 60 == m && t % 60 == s;
  }

  /** Rounding commutes with adding a whole number. */
  lemma RoundShift(x: real, k: int)
    ensures MathRound(x + k as real) == MathRound(x) + k
  {
  }

  /** The result of the written pace whose seconds reach 60 is one that the
      corrected pace writes as the next whole minute. */
  lemma PaceSixtyIsNextMinute()
    ensures Pace(600, 2000.0 / 999.0) == "5:00"
  {
    var covered := 2000.0 / 999.0;
    assert 600 as real / covered == 299.7;
    assert PaceSeconds(600, covered) == 300;
    SplitMinutes(300, 5, 0);
    assert NatToString(5) == "5" && NatToString(0) == "0";
    assert MinSecText(5, 0) == "5:00";
  }

  /** The progress bar's value: a percentage, or NaN for 0/0. */
  datatype Progress = Percent(v: real) | NotANumber

  /** `Math.min(covered / target * 100, 100)`. A zero target is not guarded: any
      positive distance over it is +Infinity, capped to 100, and 0/0 is NaN. */
  function ProgressOf(covered: real, target: real): (r: Progress)
    requires covered >= 0.0
    ensures r.NotANumber? <==> covered == 0.0 && target == 0.0
    ensures r.Percent? ==> r.v <= 100.0
    ensures target > 0.0 && covered <= target ==> r == Percent(covered / target * 100.0)
    ensures target > 0.0 && covered >= target ==> r == Percent(100.0)
    ensures target > 0.0 ==> r.Percent? && r.v >= 0.0
  {
    if target == 0.0 then
      if covered == 0.0 then NotANumber else Percent(100.0)
    else
      RatioFacts(covered, target);
      var ratio := covered / target * 100.0;
      if ratio < 100.0 then Percent(ratio) else Percent(100.0)
  }

  lemma RatioFacts(covered: real, target: real)
    requires covered >= 0.0 && target != 0.0
    ensures target > 0.0 ==> (covered <= target <==> covered / target * 100.0 <= 100.0)
    ensures target > 0.0 ==> (covered >= target <==> covered / target * 100.0 >= 100.0)
    ensures target > 0.0 ==> covered / target * 100.0 >= 0.0
  {
    if target > 0.0 {
      NonNegQuotient(covered, target);
      var q := covered / target;
      assert covered == q * target;
      assert q <= 1.0 ==> q * target <= 1.0 * target;
      assert q >= 1.0 ==> q * target >= 1.0 * target;
    }
  }

  // ---------------------------------------------------------------- the session

  class Session {
    const route: Route
    const dist: Metric

    var countdown: Option<nat>
    var elapsedTime: nat
    var isPaused: bool
    var distanceCovered: real
    var lastCoords: Option<LatLng>
    var currentPos: Option<LatLng>
    var actualPath: seq<LatLng>
    var isOffRoute: bool

    /** The covered distance is the recorded path's length in km, the last known
        position is the recorded path's last point, and nothing is recorded while
        the countdown runs. */
    ghost predicate Valid()
      reads this
    {
      && distanceCovered == PathLength(dist, actualPath) / 1000.0
      && lastCoords == (if actualPath == [] then None else Some(actualPath[|actualPath| - 1]))
      && currentPos == lastCoords
      && (countdown.Some? ==> countdown.value <= CountdownStart && actualPath == [] && elapsedTime == 0 && !isOffRoute)
    }

    constructor (r: Route, d: Metric)
      ensures Valid() && route == r && dist == d
      ensures countdown == Some(CountdownStart) && elapsedTime == 0 && !isPaused
      ensures actualPath == [] && distanceCovered == 0.0 && !isOffRoute
    {
      route, dist := r, d;
      countdown := Some(CountdownStart);
      elapsedTime := 0;
      isPaused := false;
      distanceCovered := 0.0;
      lastCoords, currentPos := None, None;
      actualPath := [];
      isOffRoute := false;
    }

    /** One second of the countdown: 3, 2, 1, 0, then gone for good. */
    method CountdownTick()
      requires Valid()
      modifies this`countdown
      ensures Valid()
      ensures old(countdown) == None ==> countdown == None
      ensures old(countdown) == Some(0) ==> countdown == None
      ensures old(countdown).Some? && old(countdown).value > 0 ==> countdown == Some(old(countdown).value - 1)
    {
      match countdown
      case None =>
      case Some(n) =>
        if n > 0 {
          countdown := Some(n - 1);
        } else {
          countdown := None;
        }
    }

    /** One second of the run timer, which only runs once the countdown is over
        and never while paused. */
    method TimerTick()
      requires Valid()
      modifies this`elapsedTime
      ensures Valid()
      ensures elapsedTime == if countdown.None? && !isPaused then old(elapsedTime) + 1 else old(elapsedTime)
    {
      if countdown.None? && !isPaused {
        elapsedTime := elapsedTime + 1;
      }
    }

    /** The pause button. */
    method TogglePause()
      requires Valid()
      modifies this`isPaused
      ensures Valid() && isPaused == !old(isPaused)
    {
      isPaused := !isPaused;
    }

    /** A position sample. Ignored during the countdown and while paused.
        Otherwise the distance from the previous sample is added, the sample is
        appended to the recorded path and the off-route flag is recomputed;
        `vibrate` asks for a vibration when the runner has just left the route. */
    method Sample(pos: LatLng) returns (vibrate: bool)
      requires Valid()
      modifies this`distanceCovered, this`lastCoords, this`currentPos, this`actualPath, this`isOffRoute
      ensures Valid()
      ensures countdown.Some? || isPaused ==>
        vibrate == false && actualPath == old(actualPath) && distanceCovered == old(distanceCovered)
        && lastCoords == old(lastCoords) && isOffRoute == old(isOffRoute)
      ensures countdown.None? && !isPaused ==>
        && actualPath == old(actualPath) + [pos]
        && lastCoords == Some(pos)
        && distanceCovered == old(distanceCovered) +
             (if old(lastCoords).Some? then dist(old(lastCoords).value, pos) / 1000.0 else 0.0)
        && isOffRoute == Nearest(dist, pos, route.path).Exceeds(OffRouteMeters)
        && vibrate == (isOffRoute && !old(isOffRoute))
      ensures distanceCovered >= old(distanceCovered)
    {
      vibrate := false;
      if countdown.Some? || isPaused {
        return;
      }
      currentPos := Some(pos);
      if lastCoords.Some? {
        PathLengthSnoc(dist, actualPath, pos);
        distanceCovered := distanceCovered + dist(lastCoords.value, pos) / 1000.0;
      } else {
        assert PathLength(dist, [pos]) == 0.0;
      }
      lastCoords := Some(pos);
      actualPath := actualPath + [pos];
      var m := MinDistance(dist, pos, route.path);
      var off := m.Exceeds(OffRouteMeters);
      vibrate := off && !isOffRoute;
      isOffRoute := off;
    }

    /** The progress towards the route's distance. */
    function Progress(): (r: Progress)
      requires Valid()
      reads this
      ensures r.Percent? ==> r.v <= 100.0
    {
      ProgressOf(distanceCovered, route.distance)
    }

    /** `handleStop`'s record: the run's id and date are supplied, the coaching
        tips are the text the coaching service returned. */
    function Record(id: string, now: int, tips: string): (run: RunHistory)
      requires Valid()
      reads this
      ensures run.routeId == route.id && run.routeName == route.name
      ensures run.duration == elapsedTime && run.actualPath == actualPath
      ensures run.distance == ToFixed(distanceCovered, TwoDecimals) && run.distance >= 0.0
      ensures ParseClock(run.averagePace) == Some(PaceSeconds(elapsedTime, distanceCovered))
      ensures run.id == id && run.date == now
      ensures |SplitColon(run.averagePace)| == 2 && Sexagesimal(SplitColon(run.averagePace)[1])
      ensures SplitColon(run.averagePace)[0] == NatToString(PaceSeconds(elapsedTime, distanceCovered) / 60)
      ensures distanceCovered == 0.0 || PaceParts(elapsedTime, distanceCovered).1 < 60 ==>
        run.averagePace == PaceAsWritten(elapsedTime, distanceCovered)
      ensures run.coachingTips == Some(tips) && run.reviewId == None
    {
      ToFixedClose(distanceCovered, TwoDecimals);
      assert distanceCovered == 0.0 || PaceParts(elapsedTime, distanceCovered).1 < 60 ==>
        Pace(elapsedTime, distanceCovered) == PaceAsWritten(elapsedTime, distanceCovered) by {
        if distanceCovered > 0.0 && PaceParts(elapsedTime, distanceCovered).1 < 60 {
          PaceAgrees(elapsedTime, distanceCovered);
        }
      }
      RunHistory(id, route.id, route.name, now, elapsedTime,
                 ToFixed(distanceCovered, TwoDecimals), Pace(elapsedTime, distanceCovered),
                 actualPath, Some(tips), None)
    }
  }

  /** The covered distance never decreases over a sequence of samples, and the
      recorded path keeps every earlier sample. */
  method TwoSamples(s: Session, a: LatLng, b: LatLng)
    requires s.Valid() && s.countdown.None? && !s.isPaused
    modifies s
    ensures s.Valid()
    ensures s.actualPath == old(s.actualPath) + [a, b]
    ensures s.distanceCovered >= old(s.distanceCovered)
  {
    var _ := s.Sample(a);
    var _ := s.Sample(b);
  }
}
