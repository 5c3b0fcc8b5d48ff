/**
 Journey assembly (internal/journey/journey.go): one adventure's observations become an ordered list of
 observed legs and gaps, with stops, counters and distances.
 */
module Journeys {
  import opened Domain
  import opened Seqs
  import opened Teleports
  import opened Stops

  datatype LegKind = Observed | Gap

  datatype GapKind = NoGap | Unknown | Road | Air

  /**
   A stretch of a journey. An observed leg carries its points; a gap carries exactly its two ends. The
   routed geometry and distance are filled in later, from the routing cache.
   */
  datatype Leg = Leg(kind: LegKind, gapKind: GapKind, points: seq<TimedPoint>, distanceKm: real,
                     routedPoints: seq<LatLng>, routedKm: real)

  datatype Journey = Journey(
    windowStart: Time, windowEnd: Time, params: Params,
    legs: seq<Leg>, stops: seq<Stop>,
    tracePointsInWindow: nat, rawPointsInWindow: nat, tracePointsKept: nat, rawPointsKept: nat,
    rejectedNullIsland: int, rejectedAccuracy: int, rejectedSpeed: int,
    totalKm: real, observedKm: real, inferredKm: real, airKm: real, unknownKm: real, routedKm: real,
    googleDistanceKm: real, googleGroundKm: real)

  ghost predicate HavePoints(legs: seq<Leg>) { forall i | 0 <= i < |legs| :: legs[i].points != [] }

  // ---- Selection ----

  predicate InWindow(t: Time, ws: Time, we: Time) { ws.ns <= t.ns <= we.ns }

  predicate NullIsland(loc: LatLng) { loc.lat == 0.0 && loc.lon == 0.0 }

  function TraceOk(ws: Time, we: Time): PathPoint -> bool {
    (p: PathPoint) => p.loc.Some? && InWindow(p.time, ws, we) && !NullIsland(p.loc.value)
  }

  function TraceNull(ws: Time, we: Time): PathPoint -> bool {
    (p: PathPoint) => p.loc.Some? && InWindow(p.time, ws, we) && NullIsland(p.loc.value)
  }

  predicate Inaccurate(r: RawPosition, p: Params) { p.maxAccuracyM > 0.0 && r.accuracyM > p.maxAccuracyM }

  function RawOk(ws: Time, we: Time, p: Params): RawPosition -> bool {
    (r: RawPosition) =>
      r.loc.Some? && InWindow(r.time, ws, we) && !NullIsland(r.loc.value) && !Inaccurate(r, p)
  }

  function RawNull(ws: Time, we: Time): RawPosition -> bool {
    (r: RawPosition) => r.loc.Some? && InWindow(r.time, ws, we) && NullIsland(r.loc.value)
  }

  function RawBad(ws: Time, we: Time, p: Params): RawPosition -> bool {
    (r: RawPosition) =>
      r.loc.Some? && InWindow(r.time, ws, we) && !NullIsland(r.loc.value) && Inaccurate(r, p)
  }

  function LocOr(loc: Option<LatLng>): LatLng { if loc.Some? then loc.value else LatLng(0.0, 0.0) }

  function FromTrace(p: PathPoint): TimedPoint { TimedPoint(p.time, LocOr(p.loc), Trace) }

  function FromRaw(r: RawPosition): TimedPoint { TimedPoint(r.time, LocOr(r.loc), Raw) }

  function TracePoints(points: seq<PathPoint>, ws: Time, we: Time): seq<TimedPoint> {
    Map(Filter(points, TraceOk(ws, we)), FromTrace)
  }

  function RawPoints(raws: seq<RawPosition>, ws: Time, we: Time, p: Params): seq<TimedPoint> {
    Map(Filter(raws, RawOk(ws, we, p)), FromRaw)
  }

  /** Time order; at equal instants trace points sort before raw positions. */
  function PointKey(pt: TimedPoint): int { 2 * pt.time.ns + if pt.source == Raw then 1 else 0 }

  // ---- Thinning ----

  /** Keep-earliest: a point survives when it is far enough from the last survivor. */
  function Thin(pts: seq<TimedPoint>, spacingSeconds: real): seq<TimedPoint> {
    if pts == [] then []
    else
      var kept := Thin(Front(pts), spacingSeconds);
      if kept == [] || Seconds(Last(kept).time, Last(pts).time) >= spacingSeconds then kept + [Last(pts)] else kept
  }

  function CountSource(pts: seq<TimedPoint>, source: PointSource): nat {
    if pts == [] then 0
    else CountSource(Front(pts), source) + if Last(pts).source == source then 1 else 0
  }

  // ---- Legs ----

  /** The straight-line distance along a run of points. */
  function ChordKm(pts: seq<TimedPoint>, dist: Distance): real {
    if |pts| < 2 then 0.0
    else ChordKm(Front(pts), dist) + dist(pts[|pts| - 2].loc, Last(pts).loc) / 1000.0
  }

  function ObservedLeg(run: seq<TimedPoint>, dist: Distance): Leg {
    Leg(Observed, NoGap, run, ChordKm(run, dist), [], 0.0)
  }

  predicate Silence(from: TimedPoint, to: TimedPoint, p: Params) {
    Minutes(from.time, to.time) > p.gapThresholdMinutes
  }

  /** A gap at least this fast is a flight; over no time at all any distance is infinitely fast. */
  predicate FliesOver(from: TimedPoint, to: TimedPoint, p: Params, dist: Distance) {
    var km, h := dist(from.loc, to.loc) / 1000.0, Hours(from.time, to.time);
    p.airSpeedMinKmh > 0.0 && if h == 0.0 then km > 0.0 else km / h >= p.airSpeedMinKmh
  }

  function GapLeg(from: TimedPoint, to: TimedPoint, p: Params, dist: Distance): Leg {
    Leg(Gap, if FliesOver(from, to, p, dist) then Air else Unknown, [from, to],
        dist(from.loc, to.loc) / 1000.0, [], 0.0)
  }

  /** Splitting the kept points: a silence closes the observed leg, emits a gap, and opens the next. */
  function Legs(kept: seq<TimedPoint>, p: Params, dist: Distance): (legs: seq<Leg>)
    ensures legs == [] <==> kept == []
    ensures legs != [] ==> Last(legs).points != [] && Last(Last(legs).points) == Last(kept)
  {
    if kept == [] then []
    else if |kept| == 1 then [ObservedLeg(kept, dist)]
    else
      var before := Legs(Front(kept), p, dist);
      var run := Last(before).points;
      if Silence(Last(run), Last(kept), p) then
        before + [GapLeg(Last(run), Last(kept), p, dist), ObservedLeg([Last(kept)], dist)]
      else Front(before) + [ObservedLeg(run + [Last(kept)], dist)]
  }

  // ---- Totals ----

  function LegKm(l: Leg): real { l.distanceKm }

  function LegObservedKm(l: Leg): real { if l.kind == Observed then l.distanceKm else 0.0 }

  function LegInferredKm(l: Leg): real { if l.kind == Gap then l.distanceKm else 0.0 }

  function LegAirKm(l: Leg): real { if l.kind == Gap && l.gapKind == Air then l.distanceKm else 0.0 }

  function LegGroundGapKm(l: Leg): real { if l.kind == Gap && l.gapKind != Air then l.distanceKm else 0.0 }

  function ActivityKm(a: Activity): real { a.distanceM / 1000.0 }

  function GroundActivityKm(a: Activity): real { if a.mode != "FLYING" then a.distanceM / 1000.0 else 0.0 }

  // ---- The journey ----

  /** The journey of a window, as one expression over the observations. */
  function Assembled(obs: Observations, ws: Time, we: Time, p: Params, dist: Distance): Journey {
    var traces, raws := TracePoints(obs.points, ws, we), RawPoints(obs.raws, ws, we, p);
    var sorted := SortStable(traces + raws, PointKey);
    var clean := WithoutTeleports(sorted, p, dist);
    var kept := Thin(clean, p.thinSpacingSeconds);
    var legs := Legs(kept, p, dist);
    var acts := Filter(obs.activities, Intersects(ws, we));
    Journey(ws, we, p, legs, FoundStops(obs.activities, kept, ws, we, p, dist),
            |traces|, |raws|, CountSource(kept, Trace), CountSource(kept, Raw),
            |Filter(obs.points, TraceNull(ws, we))| + |Filter(obs.raws, RawNull(ws, we))|,
            |Filter(obs.raws, RawBad(ws, we, p))|, |sorted| - |clean|,
            Sum(legs, LegObservedKm) + Sum(legs, LegInferredKm), Sum(legs, LegObservedKm),
            Sum(legs, LegInferredKm), Sum(legs, LegAirKm), Sum(legs, LegGroundGapKm), 0.0,
            Sum(acts, ActivityKm), Sum(acts, GroundActivityKm))
  }
}
