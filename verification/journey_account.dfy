/**
 An account of an assembled journey (internal/journey/journey.go, Assemble) in terms of its observations:
 which points it is made of, which it turned away, and what each leg, stop and figure is.
 */
module JourneyAccount {
  import opened Domain
  import opened Seqs
  import opened Teleports
  import opened Stops
  import opened Journeys
  import opened JourneyLaws

  // ---- Which points are selected ----

  /** Located, within the window. */
  function SeenIn(loc: Option<LatLng>, t: Time, ws: Time, we: Time): bool {
    loc.Some? && ws.ns <= t.ns <= we.ns
  }

  function UsableTrace(ws: Time, we: Time): PathPoint -> bool {
    (p: PathPoint) => SeenIn(p.loc, p.time, ws, we) && p.loc.value != LatLng(0.0, 0.0)
  }

  function NullTrace(ws: Time, we: Time): PathPoint -> bool {
    (p: PathPoint) => SeenIn(p.loc, p.time, ws, we) && p.loc.value == LatLng(0.0, 0.0)
  }

  function UsableRaw(ws: Time, we: Time, p: Params): RawPosition -> bool {
    (r: RawPosition) =>
      SeenIn(r.loc, r.time, ws, we) && r.loc.value != LatLng(0.0, 0.0)
      && (p.maxAccuracyM <= 0.0 || r.accuracyM <= p.maxAccuracyM)
  }

  function NullRaw(ws: Time, we: Time): RawPosition -> bool {
    (r: RawPosition) => SeenIn(r.loc, r.time, ws, we) && r.loc.value == LatLng(0.0, 0.0)
  }

  function VagueRaw(ws: Time, we: Time, p: Params): RawPosition -> bool {
    (r: RawPosition) =>
      SeenIn(r.loc, r.time, ws, we) && r.loc.value != LatLng(0.0, 0.0)
      && p.maxAccuracyM > 0.0 && r.accuracyM > p.maxAccuracyM
  }

  /** The usable trace points, in order, as points of the stream. */
  ghost predicate TracesAt(idx: seq<nat>, points: seq<PathPoint>, ws: Time, we: Time, out: seq<TimedPoint>) {
    && PlacesWhere(idx, points, UsableTrace(ws, we)) && |out| == |idx|
    && forall k | 0 <= k < |idx| ::
         idx[k] < |points| && points[idx[k]].loc.Some?
         && out[k] == TimedPoint(points[idx[k]].time, points[idx[k]].loc.value, Trace)
  }

  ghost predicate RawsAt(idx: seq<nat>, raws: seq<RawPosition>, ws: Time, we: Time, p: Params, out: seq<TimedPoint>) {
    && PlacesWhere(idx, raws, UsableRaw(ws, we, p)) && |out| == |idx|
    && forall k | 0 <= k < |idx| ::
         idx[k] < |raws| && raws[idx[k]].loc.Some?
         && out[k] == TimedPoint(raws[idx[k]].time, raws[idx[k]].loc.value, Raw)
  }

  /** How many elements are to be counted. */
  ghost function HowMany<T>(s: seq<T>, keep: T -> bool): nat { |set i | 0 <= i < |s| && keep(s[i])| }

  lemma CountFilter<T>(s: seq<T>, keep: T -> bool, plain: T -> bool)
    requires forall x :: keep(x) == plain(x)
    ensures |Filter(s, keep)| == HowMany(s, plain)
  {
    FilterSize(s, keep, set i | 0 <= i < |s| && plain(s[i]));
  }

  lemma SamePlaces<T>(idx: seq<nat>, s: seq<T>, keep: T -> bool, plain: T -> bool)
    requires forall x :: keep(x) == plain(x)
    requires PlacesWhere(idx, s, keep)
    ensures PlacesWhere(idx, s, plain)
  {
  }

  lemma TracesSelected(points: seq<PathPoint>, ws: Time, we: Time) returns (idx: seq<nat>)
    ensures TracesAt(idx, points, ws, we, TracePoints(points, ws, we))
    ensures |Filter(points, TraceNull(ws, we))| == HowMany(points, NullTrace(ws, we))
  {
    idx := FilterPlaces(points, TraceOk(ws, we));
    SamePlaces(idx, points, TraceOk(ws, we), UsableTrace(ws, we));
    CountFilter(points, TraceNull(ws, we), NullTrace(ws, we));
    hide Filter, HowMany;
    assert forall k | 0 <= k < |idx| :: idx[k] in idx;
  }

  lemma RawsSelected(raws: seq<RawPosition>, ws: Time, we: Time, p: Params) returns (idx: seq<nat>)
    ensures RawsAt(idx, raws, ws, we, p, RawPoints(raws, ws, we, p))
    ensures |Filter(raws, RawNull(ws, we))| == HowMany(raws, NullRaw(ws, we))
    ensures |Filter(raws, RawBad(ws, we, p))| == HowMany(raws, VagueRaw(ws, we, p))
  {
    idx := FilterPlaces(raws, RawOk(ws, we, p));
    SamePlaces(idx, raws, RawOk(ws, we, p), UsableRaw(ws, we, p));
    CountFilter(raws, RawNull(ws, we), NullRaw(ws, we));
    CountFilter(raws, RawBad(ws, we, p), VagueRaw(ws, we, p));
    hide Filter, HowMany;
    assert forall k | 0 <= k < |idx| :: idx[k] in idx;
  }

  // ---- One stream, in time order ----

  /** Earlier first; at one instant trace points before raw positions. */
  ghost predicate InStreamOrder(pts: seq<TimedPoint>) {
    forall i, j | 0 <= i < j < |pts| ::
      pts[i].time.ns < pts[j].time.ns
      || (pts[i].time.ns == pts[j].time.ns && (pts[i].source == Trace || pts[j].source == Raw))
  }

  lemma StreamSorted(pts: seq<TimedPoint>)
    ensures InStreamOrder(SortStable(pts, PointKey)) && multiset(SortStable(pts, PointKey)) == multiset(pts)
  {
    SortStableSorted(pts, PointKey);
    SortStableElements(pts, PointKey);
    var sorted := SortStable(pts, PointKey);
    hide SortStable;
    forall i, j | 0 <= i < j < |sorted|
      ensures sorted[i].time.ns < sorted[j].time.ns
        || (sorted[i].time.ns == sorted[j].time.ns && (sorted[i].source == Trace || sorted[j].source == Raw))
    {
      assert PointKey(sorted[i]) <= PointKey(sorted[j]);
    }
  }

  // ---- Legs ----

  /** An observed leg has no long silence; a gap is one, and a flight if it is fast enough. */
  ghost predicate LegMeans(l: Leg, p: Params, dist: Distance) {
    && l.routedPoints == [] && l.routedKm == 0.0
    && (l.kind == Observed ==>
          && l.gapKind == NoGap && l.points != [] && l.distanceKm == ChordKm(l.points, dist)
          && forall i | 0 < i < |l.points| :: Minutes(l.points[i - 1].time, l.points[i].time) <= p.gapThresholdMinutes)
    && (l.kind == Gap ==>
          && |l.points| == 2 && Minutes(l.points[0].time, l.points[1].time) > p.gapThresholdMinutes
          && l.distanceKm == dist(l.points[0].loc, l.points[1].loc) / 1000.0
          && (l.gapKind == Air || l.gapKind == Unknown)
          && (l.gapKind == Air <==> Flown(l.distanceKm, Hours(l.points[0].time, l.points[1].time), p.airSpeedMinKmh)))
  }

  /** As many kilometres as the flight speed makes in the time; none in no time is no flight. */
  predicate Flown(km: real, hours: real, speed: real) {
    speed > 0.0 && km >= speed * hours && (hours > 0.0 || km > 0.0)
  }

  lemma FlownIsFast(a: TimedPoint, b: TimedPoint, p: Params, dist: Distance)
    requires a.time.ns <= b.time.ns
    ensures FliesOver(a, b, p, dist) <==> Flown(dist(a.loc, b.loc) / 1000.0, Hours(a.time, b.time), p.airSpeedMinKmh)
  {
    var km, h := dist(a.loc, b.loc) / 1000.0, Hours(a.time, b.time);
    if h > 0.0 {
      RateAbove(km, h, p.airSpeedMinKmh);
    }
  }

  lemma LegsMean(kept: seq<TimedPoint>, p: Params, dist: Distance)
    requires Ordered(kept)
    ensures forall i | 0 <= i < |Legs(kept, p, dist)| :: LegMeans(Legs(kept, p, dist)[i], p, dist)
  {
    LegsWellSplit(kept, p, dist);
    GapsForward(kept, p, dist);
    hide Legs, ChordKm, Flown, FliesOver, Alternating, Joined, ObservedPoints;
    var legs := Legs(kept, p, dist);
    forall i | 0 <= i < |legs| ensures LegMeans(legs[i], p, dist) {
      assert LegOk(legs[i], p, dist);
      if legs[i].kind == Gap {
        FlownIsFast(legs[i].points[0], legs[i].points[1], p, dist);
      } else {
        assert forall k | 0 < k < |legs[i].points| :: !Silence(legs[i].points[k - 1], legs[i].points[k], p);
      }
    }
  }

  // ---- Stops ----

  function During(s: Stop): TimedPoint -> bool { (pt: TimedPoint) => s.start.ns <= pt.time.ns <= s.end.ns }

  function LatAt(pts: seq<TimedPoint>, idx: seq<nat>): seq<real>
    requires forall k | 0 <= k < |idx| :: idx[k] < |pts|
  {
    seq(|idx|, k requires 0 <= k < |idx| => pts[idx[k]].loc.lat)
  }

  function LonAt(pts: seq<TimedPoint>, idx: seq<nat>): seq<real>
    requires forall k | 0 <= k < |idx| :: idx[k] < |pts|
  {
    seq(|idx|, k requires 0 <= k < |idx| => pts[idx[k]].loc.lon)
  }

  /** Measured from the kept points during it: how many, their mean place, how far the last is from the first. */
  ghost predicate Measured(s: Stop, kept: seq<TimedPoint>, idx: seq<nat>, dist: Distance) {
    && PlacesWhere(idx, kept, During(s)) && s.points == |idx|
    && (forall k | 0 <= k < |idx| :: idx[k] < |kept|)
    && (idx == [] ==> s.loc == LatLng(0.0, 0.0) && s.displacementKm == 0.0)
    && (idx != [] ==>
          && IsMean(s.loc.lat, LatAt(kept, idx)) && IsMean(s.loc.lon, LonAt(kept, idx))
          && s.displacementKm == dist(kept[idx[0]].loc, kept[Last(idx)].loc) / 1000.0)
  }

  /** The members stand at those places, so their mean is the mean over the places. */
  lemma MeanAt(members: seq<TimedPoint>, kept: seq<TimedPoint>, idx: seq<nat>)
    requires |members| == |idx| > 0
    requires forall k | 0 <= k < |idx| :: idx[k] < |kept| && members[k] == kept[idx[k]]
    ensures IsMean(Sum(members, LatOf) / |members| as real, LatAt(kept, idx))
    ensures IsMean(Sum(members, LonOf) / |members| as real, LonAt(kept, idx))
  {
    hide Sum;
    SumOfFigures(members, LatOf, LatAt(kept, idx));
    SumOfFigures(members, LonOf, LonAt(kept, idx));
  }

  lemma StopMeasured(start: Time, end: Time, kept: seq<TimedPoint>, dist: Distance) returns (idx: seq<nat>)
    ensures Measured(StopBetween(start, end, kept, dist), kept, idx, dist)
  {
    idx := FilterPlaces(kept, Within(start, end));
    SamePlaces(idx, kept, Within(start, end), During(StopBetween(start, end, kept, dist)));
    var members := Filter(kept, Within(start, end));
    hide Filter, Sum, PlacesWhere, IsMean, LatAt, LonAt;
    if members != [] {
      MeanAt(members, kept, idx);
    }
  }

  // ---- The whole journey ----

  /** The streams between the observations and the journey, and the places each takes from the one before. */
  datatype Account = Account(
    traceIdx: seq<nat>, traces: seq<TimedPoint>, rawIdx: seq<nat>, raws: seq<TimedPoint>, stream: seq<TimedPoint>,
    clusters: seq<Cluster>, chosen: seq<nat>, clean: seq<TimedPoint>, thinIdx: seq<nat>, kept: seq<TimedPoint>,
    acts: seq<Activity>, halts: seq<nat>)

  function OfSource(source: PointSource): TimedPoint -> bool { (pt: TimedPoint) => pt.source == source }

  function Watched(l: Leg): bool { l.kind == Observed }

  function Silent(l: Leg): bool { l.kind == Gap }

  function Flight(l: Leg): bool { l.kind == Gap && l.gapKind == Air }

  function Unexplained(l: Leg): bool { l.kind == Gap && l.gapKind != Air }

  function Meets(ws: Time, we: Time): Activity -> bool { (a: Activity) => a.start.ns <= we.ns && ws.ns <= a.end.ns }

  function MeetsOnGround(ws: Time, we: Time): Activity -> bool {
    (a: Activity) => a.start.ns <= we.ns && ws.ns <= a.end.ns && a.mode != "FLYING"
  }

  /** The points come from the observations, in one stream; what was turned away is counted. */
  ghost predicate Gathered(j: Journey, a: Account, obs: Observations, ws: Time, we: Time, p: Params) {
    && TracesAt(a.traceIdx, obs.points, ws, we, a.traces) && j.tracePointsInWindow == |a.traces|
    && RawsAt(a.rawIdx, obs.raws, ws, we, p, a.raws) && j.rawPointsInWindow == |a.raws|
    && j.rejectedNullIsland == HowMany(obs.points, NullTrace(ws, we)) + HowMany(obs.raws, NullRaw(ws, we))
    && j.rejectedAccuracy == HowMany(obs.raws, VagueRaw(ws, we, p))
    && InStreamOrder(a.stream) && multiset(a.stream) == multiset(a.traces + a.raws)
  }

  /** The stream without its teleports, then thinned. */
  ghost predicate Cleaned(j: Journey, a: Account, p: Params, dist: Distance) {
    && (if p.maxSpeedKmh > 0.0 && |a.stream| >= 3 then Purged(a.stream, a.clean, a.clusters, a.chosen, p, dist)
        else a.clean == a.stream)
    && j.rejectedSpeed == |a.stream| - |a.clean|
    && Selects(a.thinIdx, a.clean, a.kept) && (a.clean != [] ==> a.thinIdx != [] && a.thinIdx[0] == 0)
    && Spaced(a.kept, p.thinSpacingSeconds) && DroppedClose(a.thinIdx, a.clean, p.thinSpacingSeconds)
    && j.tracePointsKept == HowMany(a.kept, OfSource(Trace)) && j.rawPointsKept == HowMany(a.kept, OfSource(Raw))
  }

  /** The legs hold the kept points, and each figure is the kilometres of the legs it names. */
  ghost predicate Drawn(j: Journey, a: Account, p: Params, dist: Distance) {
    && (forall i | 0 <= i < |j.legs| :: j.legs[i].points != [] && LegMeans(j.legs[i], p, dist))
    && Alternating(j.legs) && Joined(j.legs) && ObservedPoints(j.legs) == a.kept
    && j.totalKm == Sum(j.legs, LegKm) && j.routedKm == 0.0
    && j.observedKm == Sum(Filter(j.legs, Watched), LegKm) && j.inferredKm == Sum(Filter(j.legs, Silent), LegKm)
    && j.airKm == Sum(Filter(j.legs, Flight), LegKm) && j.unknownKm == Sum(Filter(j.legs, Unexplained), LegKm)
  }

  /** A pause between an activity and the next, long enough to be a stop. */
  ghost predicate PauseAt(acts: seq<Activity>, i: nat, p: Params) {
    i + 1 < |acts| && Seconds(acts[i].end, acts[i + 1].start) >= p.minStopDwellSeconds
  }

  /** The stops are the pauses between the activities that meet the window, each measured from the kept points. */
  ghost predicate Rested(j: Journey, a: Account, obs: Observations, ws: Time, we: Time, p: Params, dist: Distance) {
    && multiset(a.acts) == multiset(Filter(obs.activities, Meets(ws, we)))
    && (forall i, k | 0 <= i < k < |a.acts| :: a.acts[i].start.ns <= a.acts[k].start.ns)
    && Increasing(a.halts) && (forall i: nat :: i in a.halts <==> PauseAt(a.acts, i, p))
    && |j.stops| == |a.halts|
    && (forall k | 0 <= k < |a.halts| :: StopAt(j.stops[k], a.halts[k], a, dist))
    && j.googleDistanceKm == Sum(Filter(obs.activities, Meets(ws, we)), ActivityKm)
    && j.googleGroundKm == Sum(Filter(obs.activities, MeetsOnGround(ws, we)), ActivityKm)
  }

  ghost predicate StopAt(s: Stop, i: nat, a: Account, dist: Distance) {
    && i + 1 < |a.acts| && s.start == a.acts[i].end && s.end == a.acts[i + 1].start
    && exists idx :: Measured(s, a.kept, idx, dist)
  }

  /** The journey is what the account says. */
  ghost predicate Accounts(j: Journey, a: Account, obs: Observations, ws: Time, we: Time, p: Params, dist: Distance) {
    && j.windowStart == ws && j.windowEnd == we && j.params == p
    && Gathered(j, a, obs, ws, we, p) && Cleaned(j, a, p, dist) && Drawn(j, a, p, dist)
    && Rested(j, a, obs, ws, we, p, dist)
  }

  lemma {:induction false} CountsBySource(pts: seq<TimedPoint>, source: PointSource)
    ensures CountSource(pts, source) == |Filter(pts, OfSource(source))|
  {
    if pts != [] {
      CountsBySource(Front(pts), source);
    }
  }

  lemma {:induction false} SumPart<T>(s: seq<T>, part: T -> real, keep: T -> bool, amount: T -> real)
    requires forall x :: part(x) == if keep(x) then amount(x) else 0.0
    ensures Sum(s, part) == Sum(Filter(s, keep), amount)
  {
    if s != [] {
      SumPart(Front(s), part, keep, amount);
      if keep(Last(s)) {
        SumSnoc(Filter(Front(s), keep), Last(s), amount);
      }
    }
  }

  lemma {:induction false} SameFilter<T>(s: seq<T>, keep: T -> bool, plain: T -> bool)
    requires forall x | x in s :: keep(x) == plain(x)
    ensures Filter(s, keep) == Filter(s, plain)
  {
    if s != [] {
      SameFilter(Front(s), keep, plain);
    }
  }

  lemma SpansItself(start: Time, end: Time, kept: seq<TimedPoint>, dist: Distance)
    ensures StopBetween(start, end, kept, dist).start == start && StopBetween(start, end, kept, dist).end == end
  {
  }

  /** Each stop is measured over its own span. */
  ghost predicate OwnSpans(stops: seq<Stop>, kept: seq<TimedPoint>, dist: Distance) {
    forall s | s in stops :: s == StopBetween(s.start, s.end, kept, dist)
  }

  lemma {:induction false} StopsBetween(acts: seq<Activity>, kept: seq<TimedPoint>, p: Params, dist: Distance)
    ensures OwnSpans(StopsOf(acts, kept, p, dist), kept, dist)
  {
    hide IsHalt, StopBetween;
    if |acts| >= 2 {
      var a, b := acts[|acts| - 2], Last(acts);
      StopsBetween(Front(acts), kept, p, dist);
      SpansItself(a.end, b.start, kept, dist);
      assert forall s | s in StopsOf(acts, kept, p, dist) ::
          s in StopsOf(Front(acts), kept, p, dist) || s == StopBetween(a.end, b.start, kept, dist);
    }
  }

  lemma GatheredSo(obs: Observations, ws: Time, we: Time, p: Params, dist: Distance) returns (a: Account)
    ensures Gathered(Assembled(obs, ws, we, p, dist), a, obs, ws, we, p)
    ensures a.stream == SortStable(TracePoints(obs.points, ws, we) + RawPoints(obs.raws, ws, we, p), PointKey)
  {
    var traceIdx := TracesSelected(obs.points, ws, we);
    var rawIdx := RawsSelected(obs.raws, ws, we, p);
    var traces, raws := TracePoints(obs.points, ws, we), RawPoints(obs.raws, ws, we, p);
    StreamSorted(traces + raws);
    hide TracePoints, RawPoints, TracesAt, RawsAt, HowMany, InStreamOrder, SortStable, WithoutTeleports, Thin;
    hide Legs, FoundStops, Filter, Sum, CountSource;
    a := Account(traceIdx, traces, rawIdx, raws, SortStable(traces + raws, PointKey),
                 [], [], [], [], [], [], []);
  }

  lemma CleanedSo(stream: seq<TimedPoint>, p: Params, dist: Distance)
    returns (clusters: seq<Cluster>, chosen: seq<nat>, thinIdx: seq<nat>)
    ensures if p.maxSpeedKmh > 0.0 && |stream| >= 3
            then Purged(stream, WithoutTeleports(stream, p, dist), clusters, chosen, p, dist)
            else WithoutTeleports(stream, p, dist) == stream
    ensures var clean := WithoutTeleports(stream, p, dist);
            var kept := Thin(clean, p.thinSpacingSeconds);
            && Selects(thinIdx, clean, kept) && (clean != [] ==> thinIdx != [] && thinIdx[0] == 0)
            && Spaced(kept, p.thinSpacingSeconds) && DroppedClose(thinIdx, clean, p.thinSpacingSeconds)
            && CountSource(kept, Trace) == HowMany(kept, OfSource(Trace))
            && CountSource(kept, Raw) == HowMany(kept, OfSource(Raw))
  {
    clusters, chosen := [], [];
    hide Purged, Selects, Spaced, DroppedClose, HowMany, Thin, CountSource, Filter;
    if p.maxSpeedKmh > 0.0 && |stream| >= 3 {
      clusters, chosen := TeleportsAreDropped(stream, p, dist);
    }
    var clean := WithoutTeleports(stream, p, dist);
    thinIdx := ThinLaws(clean, p.thinSpacingSeconds);
    var kept := Thin(clean, p.thinSpacingSeconds);
    CountsBySource(kept, Trace);
    CountFilter(kept, OfSource(Trace), OfSource(Trace));
    CountsBySource(kept, Raw);
    CountFilter(kept, OfSource(Raw), OfSource(Raw));
  }

  lemma LegSums(legs: seq<Leg>)
    ensures Sum(legs, LegObservedKm) == Sum(Filter(legs, Watched), LegKm)
    ensures Sum(legs, LegInferredKm) == Sum(Filter(legs, Silent), LegKm)
    ensures Sum(legs, LegAirKm) == Sum(Filter(legs, Flight), LegKm)
    ensures Sum(legs, LegGroundGapKm) == Sum(Filter(legs, Unexplained), LegKm)
    ensures Sum(legs, LegObservedKm) + Sum(legs, LegInferredKm) == Sum(legs, LegKm)
  {
    SumPart(legs, LegObservedKm, Watched, LegKm);
    SumPart(legs, LegInferredKm, Silent, LegKm);
    SumPart(legs, LegAirKm, Flight, LegKm);
    SumPart(legs, LegGroundGapKm, Unexplained, LegKm);
    KindsPartition(legs);
  }

  function OnGround(a: Activity): bool { a.mode != "FLYING" }

  lemma ActivitySums(activities: seq<Activity>, ws: Time, we: Time)
    ensures Filter(activities, Intersects(ws, we)) == Filter(activities, Meets(ws, we))
    ensures Sum(Filter(activities, Intersects(ws, we)), GroundActivityKm)
         == Sum(Filter(activities, MeetsOnGround(ws, we)), ActivityKm)
  {
    SameFilter(activities, Intersects(ws, we), Meets(ws, we));
    SumPart(Filter(activities, Meets(ws, we)), GroundActivityKm, OnGround, ActivityKm);
    FilterImplied(activities, Meets(ws, we), MeetsOnGround(ws, we));
    FilterElements(activities, Meets(ws, we));
    SameFilter(Filter(activities, Meets(ws, we)), OnGround, MeetsOnGround(ws, we));
  }

  lemma RestedSo(j: Journey, a: Account, obs: Observations, ws: Time, we: Time, p: Params, dist: Distance)
    requires a.acts == Selected(obs.activities, ws, we)
    requires j.stops == StopsOf(a.acts, a.kept, p, dist) && FromHalts(j.stops, a.halts, a.acts, p)
    requires var acts := Filter(obs.activities, Intersects(ws, we));
             j.googleDistanceKm == Sum(acts, ActivityKm) && j.googleGroundKm == Sum(acts, GroundActivityKm)
    ensures Rested(j, a, obs, ws, we, p, dist)
  {
    ActivitySums(obs.activities, ws, we);
    SortStableElements(Filter(obs.activities, Intersects(ws, we)), StartKey);
    SelectedActivities(obs.activities, ws, we);
    StopsBetween(a.acts, a.kept, p, dist);
    hide Filter, Sum, SortStable, StopsOf, StopBetween, Measured;
    assert forall i, k | 0 <= i < k < |a.acts| :: StartKey(a.acts[i]) <= StartKey(a.acts[k]);
    forall i: nat ensures i in a.halts <==> PauseAt(a.acts, i, p) {
      assert PauseAt(a.acts, i, p) <==> HaltAt(a.acts, i, p);
    }
    forall k | 0 <= k < |a.halts| ensures StopAt(j.stops[k], a.halts[k], a, dist) {
      assert j.stops[k] in j.stops;
      assert HaltAt(a.acts, a.halts[k], p);
      var idx := StopMeasured(j.stops[k].start, j.stops[k].end, a.kept, dist);
    }
  }

  lemma LegsFit(kept: seq<TimedPoint>, p: Params, dist: Distance)
    ensures forall i | 0 <= i < |Legs(kept, p, dist)| :: Legs(kept, p, dist)[i].points != []
    ensures Alternating(Legs(kept, p, dist)) && Joined(Legs(kept, p, dist))
    ensures ObservedPoints(Legs(kept, p, dist)) == kept
  {
    LegsWellSplit(kept, p, dist);
    hide Legs, LegOk, Alternating, Joined, ObservedPoints;
  }

  lemma DrawnSo(j: Journey, a: Account, p: Params, dist: Distance)
    requires Ordered(a.kept) && j.legs == Legs(a.kept, p, dist) && j.routedKm == 0.0
    requires j.observedKm == Sum(j.legs, LegObservedKm) && j.inferredKm == Sum(j.legs, LegInferredKm)
    requires j.airKm == Sum(j.legs, LegAirKm) && j.unknownKm == Sum(j.legs, LegGroundGapKm)
    requires j.totalKm == j.observedKm + j.inferredKm
    ensures Drawn(j, a, p, dist)
  {
    LegsMean(a.kept, p, dist);
    LegsFit(a.kept, p, dist);
    LegSums(j.legs);
    hide Filter, Sum, Legs, LegMeans, Alternating, Joined, ObservedPoints, Ordered;
  }

  /** Every assembled journey has such an account. */
  lemma JourneyAccounted(obs: Observations, ws: Time, we: Time, p: Params, dist: Distance) returns (a: Account)
    ensures Accounts(Assembled(obs, ws, we, p, dist), a, obs, ws, we, p, dist)
  {
    hide Filter, Sum, SortStable, StopsOf, HowMany, Thin, WithoutTeleports, Legs, Selected, TracePoints, RawPoints;
    hide CountSource, TracesAt, RawsAt, InStreamOrder, Purged, Spaced, DroppedClose, Selects, FromHalts, Rested;
    hide Drawn, Ordered;
    var j := Assembled(obs, ws, we, p, dist);
    a := GatheredSo(obs, ws, we, p, dist);
    var clusters, chosen, thinIdx := CleanedSo(a.stream, p, dist);
    var clean := WithoutTeleports(a.stream, p, dist);
    var kept := Thin(clean, p.thinSpacingSeconds);
    KeptOrdered(obs, ws, we, p, dist);
    var acts := Selected(obs.activities, ws, we);
    var halts := HaltPositions(acts, kept, p, dist);
    a := a.(clusters := clusters, chosen := chosen, clean := clean, thinIdx := thinIdx, kept := kept,
            acts := acts, halts := halts);
    DrawnSo(j, a, p, dist);
    RestedSo(j, a, obs, ws, we, p, dist);
  }
}
