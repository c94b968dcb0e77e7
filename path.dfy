/**
 * The path recorder (script.js, the canvas click handler, the reset handler
 * and updateLength): an append-only list of clicked points and the length
 * text derived from it.
 */
module Path {
  import opened Wrappers
  import opened Geodesy

  /** A clicked point: its pixel position on the mosaic and its projection. */
  datatype PathPoint = PathPoint(px: real, py: real, lat: real, lon: real)

  /** Metres in one mile, the unit of the length text. */
  const METERS_PER_MILE: real := 1609.34

  /** The point recorded for a click at pixel (px, py). */
  function ClickPoint(m: MathLib, px: real, py: real): PathPoint
  {
    var g := PixelToLatLon(m, px, py);
    PathPoint(px, py, g.lat, g.lon)
  }

  predicate Projected(m: MathLib, p: PathPoint)
  {
    p.lat == Lat(m, p.py) && p.lon == Lon(p.px)
  }

  function Distance(m: MathLib, p: PathPoint, q: PathPoint): real
  {
    Haversine(m, p.lat, p.lon, q.lat, q.lon)
  }

  /** Sum of the distances between consecutive points, accumulated in click order. */
  function TotalMeters(m: MathLib, pts: seq<PathPoint>): (meters: real)
  {
    if |pts| < 2 then 0.0
    else TotalMeters(m, pts[..|pts| - 1]) + Distance(m, pts[|pts| - 2], pts[|pts| - 1])
  }

  /** The same sum, taken from the first segment onwards. */
  function TotalMetersFromStart(m: MathLib, pts: seq<PathPoint>): real
  {
    if |pts| < 2 then 0.0
    else Distance(m, pts[0], pts[1]) + TotalMetersFromStart(m, pts[1..])
  }

  /**
   * The length shown for a path: nothing for fewer than two points,
   * otherwise the total in miles.
   */
  function PathLength(m: MathLib, pts: seq<PathPoint>): (miles: Option<real>)
  {
    if |pts| < 2 then None else Some(TotalMeters(m, pts) / METERS_PER_MILE)
  }

  /**
   * updateLength's computation: no text for fewer than two points, otherwise
   * the segment distances added up in click order and converted to miles.
   */
  method ComputeLength(m: MathLib, pts: seq<PathPoint>) returns (miles: Option<real>)
    ensures miles == PathLength(m, pts)
  {
    if |pts| < 2 {
      return None;
    }
    var total := 0.0;
    var i := 1;
    while i < |pts|
      invariant 1 <= i <= |pts|
      invariant total == TotalMeters(m, pts[..i])
    {
      assert pts[..i + 1][..i] == pts[..i];
      total := total + Distance(m, pts[i - 1], pts[i]);
      i := i + 1;
    }
    assert pts[..i] == pts;
    miles := Some(total / METERS_PER_MILE);
  }

  /**
   * Cutting the path at any point splits its length into the lengths of the
   * two pieces, which share the cut point.
   */
  lemma {:induction false} TotalMetersSplit(m: MathLib, pts: seq<PathPoint>, k: int)
    requires 0 <= k < |pts|
    ensures TotalMeters(m, pts) == TotalMeters(m, pts[..k + 1]) + TotalMeters(m, pts[k..])
  {
    if k + 1 < |pts| {
      var init := pts[..|pts| - 1];
      var tail := pts[k..];
      TotalMetersSplit(m, init, k);
      assert init[..k + 1] == pts[..k + 1];
      assert tail[..|tail| - 1] == init[k..];
      assert tail[|tail| - 2] == pts[|pts| - 2] && tail[|tail| - 1] == pts[|pts| - 1];
    } else {
      assert pts[..k + 1] == pts;
    }
  }

  /** Summing from either end gives the same total: the order of accumulation is immaterial. */
  lemma {:induction false} TotalMetersEitherEnd(m: MathLib, pts: seq<PathPoint>)
    ensures TotalMeters(m, pts) == TotalMetersFromStart(m, pts)
  {
    if |pts| >= 2 {
      TotalMetersSplit(m, pts, 1);
      TotalMetersEitherEnd(m, pts[1..]);
    }
  }

  /**
   * No length is shown for fewer than two points; two points show their one
   * distance in miles; one more click adds the distance from the last point.
   */
  lemma PathLengthCases(m: MathLib, pts: seq<PathPoint>, q: PathPoint)
    ensures PathLength(m, pts).None? <==> |pts| < 2
    ensures |pts| == 2 ==> PathLength(m, pts) == Some(Distance(m, pts[0], pts[1]) / METERS_PER_MILE)
    ensures |pts| >= 1 ==>
      PathLength(m, pts + [q]) == Some((TotalMeters(m, pts) + Distance(m, pts[|pts| - 1], q)) / METERS_PER_MILE)
  {
    if |pts| == 2 {
      PathLengthOfSegment(m, pts);
    }
    if |pts| >= 1 {
      PathLengthExtend(m, pts, q);
    }
  }

  lemma PathLengthOfSegment(m: MathLib, pts: seq<PathPoint>)
    requires |pts| == 2
    ensures PathLength(m, pts) == Some(Distance(m, pts[0], pts[1]) / METERS_PER_MILE)
  {
    OneSegment(m, pts);
  }

  lemma PathLengthExtend(m: MathLib, pts: seq<PathPoint>, q: PathPoint)
    requires |pts| >= 1
    ensures PathLength(m, pts + [q]) == Some((TotalMeters(m, pts) + Distance(m, pts[|pts| - 1], q)) / METERS_PER_MILE)
  {
    ExtendByOne(m, pts, q);
    assert PathLength(m, pts + [q]) == Some(TotalMeters(m, pts + [q]) / METERS_PER_MILE);
  }

  /** A two-point path is its one segment. */
  lemma OneSegment(m: MathLib, pts: seq<PathPoint>)
    requires |pts| == 2
    ensures TotalMeters(m, pts) == Distance(m, pts[0], pts[1])
  {
    assert pts[..1] == [pts[0]];
  }

  /** One more point adds the segment from the last point. */
  lemma ExtendByOne(m: MathLib, pts: seq<PathPoint>, q: PathPoint)
    requires |pts| >= 1
    ensures TotalMeters(m, pts + [q]) == TotalMeters(m, pts) + Distance(m, pts[|pts| - 1], q)
  {
    var ext := pts + [q];
    assert ext[..|pts|] == pts;
  }

  /** What the recorder holds: the clicked points and the length text (None: empty text). */
  datatype Recorder = Recorder(points: seq<PathPoint>, lengthText: Option<real>)

  const EMPTY: Recorder := Recorder([], None)

  /** A click: append the point, then recompute the length text. */
  function Click(m: MathLib, r: Recorder, px: real, py: real): Recorder
  {
    var pts := r.points + [ClickPoint(m, px, py)];
    Recorder(pts, PathLength(m, pts))
  }

  /** The reset button: empty path, empty length text. */
  function Reset(r: Recorder): Recorder
  {
    EMPTY
  }

  /** The two entry points of the recorder. */
  datatype UiEvent = CanvasClick(px: real, py: real) | ResetClick

  function Run(m: MathLib, r: Recorder, events: seq<UiEvent>): Recorder
  {
    if events == [] then r
    else
      var r' := Run(m, r, events[..|events| - 1]);
      match events[|events| - 1]
      case CanvasClick(px, py) => Click(m, r', px, py)
      case ResetClick => Reset(r')
  }

  /** Position just after the last reset among the events (0 when there is none). */
  function SinceLastReset(events: seq<UiEvent>): (k: nat)
    ensures k <= |events|
  {
    if events == [] then 0
    else if events[|events| - 1].ResetClick? then |events|
    else SinceLastReset(events[..|events| - 1])
  }

  /** The points recorded for the clicks among the events, in click order. */
  function ClickPoints(m: MathLib, events: seq<UiEvent>): seq<PathPoint>
  {
    if events == [] then []
    else
      var init := ClickPoints(m, events[..|events| - 1]);
      match events[|events| - 1]
      case CanvasClick(px, py) => init + [ClickPoint(m, px, py)]
      case ResetClick => init
  }

  /**
   * After any sequence of clicks and resets, the path is exactly the points
   * of the clicks since the last reset, in click order, appended to the
   * starting path when there was no reset.
   */
  lemma {:induction false} RunRecordsClicksSinceReset(m: MathLib, r: Recorder, events: seq<UiEvent>)
    ensures var k := SinceLastReset(events);
      Run(m, r, events).points == (if k == 0 then r.points else []) + ClickPoints(m, events[k..])
  {
    if events != [] {
      var init := events[..|events| - 1];
      RunRecordsClicksSinceReset(m, r, init);
      match events[|events| - 1]
      case CanvasClick(px, py) =>
        ClicksSinceResetStep(m, events);
        assert Run(m, r, events).points == Run(m, r, init).points + [ClickPoint(m, px, py)];
      case ResetClick =>
        assert events[|events|..] == [];
    }
  }

  /** A click at the end of the events adds its point to the clicks since the last reset. */
  lemma ClicksSinceResetStep(m: MathLib, events: seq<UiEvent>)
    requires events != [] && events[|events| - 1].CanvasClick?
    ensures var init := events[..|events| - 1];
      && SinceLastReset(events) == SinceLastReset(init)
      && ClickPoints(m, events[SinceLastReset(events)..])
         == ClickPoints(m, init[SinceLastReset(init)..])
            + [ClickPoint(m, events[|events| - 1].px, events[|events| - 1].py)]
  {
    var init := events[..|events| - 1];
    var k := SinceLastReset(events);
    assert events[k..][..|events[k..]| - 1] == init[k..];
    assert events[k..][|events[k..]| - 1] == events[|events| - 1];
  }

  /** Whatever the events, the length text shown is the length of the current path. */
  lemma {:induction false} RunKeepsLengthText(m: MathLib, r: Recorder, events: seq<UiEvent>)
    requires r.lengthText == PathLength(m, r.points)
    ensures Run(m, r, events).lengthText == PathLength(m, Run(m, r, events).points)
  {
    if events != [] {
      RunKeepsLengthText(m, r, events[..|events| - 1]);
    }
  }

  /** A click appends one point at the end and leaves every earlier point where it was. */
  lemma ClickAppends(m: MathLib, r: Recorder, px: real, py: real)
    ensures |Click(m, r, px, py).points| == |r.points| + 1
    ensures Click(m, r, px, py).points[..|r.points|] == r.points
    ensures Click(m, r, px, py).points[|r.points|] == ClickPoint(m, px, py)
    ensures Projected(m, Click(m, r, px, py).points[|r.points|])
  {
  }

  /** Reset twice is reset once. */
  lemma ResetIdempotent(r: Recorder)
    ensures Reset(Reset(r)) == Reset(r)
    ensures Reset(r).points == [] && Reset(r).lengthText == None
  {
  }
}
