/** What an assembled journey guarantees: shape, conservation, bounds, and independence of the load. */
module JourneyLaws {
  import opened Domain
  import opened Seqs
  import opened Teleports
  import opened Stops
  import opened Journeys

  // ---- Time order ----

  ghost predicate Ordered(pts: seq<TimedPoint>) {
    forall i, j | 0 <= i < j < |pts| :: pts[i].time.ns <= pts[j].time.ns
  }

  lemma SortedPoints(pts: seq<TimedPoint>)
    ensures Ordered(SortStable(pts, PointKey))
  {
    SortStableSorted(pts, PointKey);
    var s := SortStable(pts, PointKey);
    forall i, j | 0 <= i < j < |s| ensures s[i].time.ns <= s[j].time.ns {
      assert PointKey(s[i]) <= PointKey(s[j]);
    }
  }

  lemma SelectionOrdered(idx: seq<nat>, pts: seq<TimedPoint>, kept: seq<TimedPoint>)
    requires Ordered(pts) && Selects(idx, pts, kept)
    ensures Ordered(kept)
  {
    forall i, j | 0 <= i < j < |kept| ensures kept[i].time.ns <= kept[j].time.ns {
      assert idx[i] < idx[j];
    }
  }

  // ---- Thinning ----

  ghost predicate Spaced(pts: seq<TimedPoint>, spacingSeconds: real) {
    forall i | 0 < i < |pts| :: Seconds(pts[i - 1].time, pts[i].time) >= spacingSeconds
  }

  /** A dropped point was closer than the spacing to the last point kept before it. */
  ghost predicate DroppedClose(idx: seq<nat>, pts: seq<TimedPoint>, spacingSeconds: real) {
    && (forall k | 0 <= k < |idx| :: idx[k] < |pts|)
    && forall i | 0 <= i < |pts| && i !in idx :: CloseBehind(idx, pts, i, spacingSeconds)
  }

  ghost predicate CloseBehind(idx: seq<nat>, pts: seq<TimedPoint>, i: nat, spacingSeconds: real)
    requires i < |pts| && forall k | 0 <= k < |idx| :: idx[k] < |pts|
  {
    exists k {:trigger LastBefore(idx, k, i)} ::
      LastBefore(idx, k, i) && Seconds(pts[idx[k]].time, pts[i].time) < spacingSeconds
  }

  /** The k-th kept position is the last one before position `i`. */
  ghost predicate LastBefore(idx: seq<nat>, k: int, i: nat) {
    0 <= k < |idx| && idx[k] < i && (k + 1 == |idx| || i < idx[k + 1])
  }

  lemma DropPoint(idx: seq<nat>, pts: seq<TimedPoint>, pt: TimedPoint, kept: seq<TimedPoint>, spacingSeconds: real)
    requires Selects(idx, pts, kept) && DroppedClose(idx, pts, spacingSeconds)
    requires kept != [] && Seconds(Last(kept).time, pt.time) < spacingSeconds
    ensures Selects(idx, pts + [pt], kept) && DroppedClose(idx, pts + [pt], spacingSeconds)
  {
    hide Seconds;
    var pts' := pts + [pt];
    forall i | 0 <= i < |pts'| && i !in idx ensures CloseBehind(idx, pts', i, spacingSeconds) {
      if i < |pts| {
        assert CloseBehind(idx, pts, i, spacingSeconds);
        var k :| LastBefore(idx, k, i) && Seconds(pts[idx[k]].time, pts[i].time) < spacingSeconds;
        assert pts'[idx[k]] == pts[idx[k]];
      } else {
        assert LastBefore(idx, |idx| - 1, i);
        assert pts'[idx[|idx| - 1]] == Last(kept);
      }
    }
  }

  lemma KeepPoint(idx: seq<nat>, pts: seq<TimedPoint>, pt: TimedPoint, kept: seq<TimedPoint>, spacingSeconds: real)
    requires Selects(idx, pts, kept) && DroppedClose(idx, pts, spacingSeconds)
    ensures Selects(idx + [|pts|], pts + [pt], kept + [pt])
    ensures DroppedClose(idx + [|pts|], pts + [pt], spacingSeconds)
  {
    hide Seconds;
    var pts', idx' := pts + [pt], idx + [|pts|];
    forall i | 0 <= i < |pts'| && i !in idx' ensures CloseBehind(idx', pts', i, spacingSeconds) {
      assert idx'[|idx|] == |pts|;
      assert i != |pts| && i !in idx;
      assert CloseBehind(idx, pts, i, spacingSeconds);
      var k :| LastBefore(idx, k, i) && Seconds(pts[idx[k]].time, pts[i].time) < spacingSeconds;
      assert idx'[k] == idx[k] && pts'[idx[k]] == pts[idx[k]];
      assert LastBefore(idx', k, i);
    }
  }

  /**
   Thinning keeps a subsequence that starts with the first point and is spaced as asked; every dropped
   point was too close to the last one kept before it.
   */
  lemma {:induction false} ThinLaws(pts: seq<TimedPoint>, spacingSeconds: real) returns (idx: seq<nat>)
    ensures Selects(idx, pts, Thin(pts, spacingSeconds))
    ensures pts != [] ==> idx != [] && idx[0] == 0
    ensures Spaced(Thin(pts, spacingSeconds), spacingSeconds)
    ensures DroppedClose(idx, pts, spacingSeconds)
  {
    hide Seconds, Selects, DroppedClose;
    if pts == [] {
      idx := [];
      NoneDropped(spacingSeconds);
    } else {
      idx := ThinLaws(Front(pts), spacingSeconds);
      var before := Thin(Front(pts), spacingSeconds);
      assert pts == Front(pts) + [Last(pts)];
      SameLength(idx, Front(pts), before);
      if before == [] || Seconds(Last(before).time, Last(pts).time) >= spacingSeconds {
        KeepPoint(idx, Front(pts), Last(pts), before, spacingSeconds);
        idx := idx + [|pts| - 1];
      } else {
        DropPoint(idx, Front(pts), Last(pts), before, spacingSeconds);
      }
    }
  }

  lemma SameLength(idx: seq<nat>, pts: seq<TimedPoint>, kept: seq<TimedPoint>)
    requires Selects(idx, pts, kept)
    ensures |idx| == |kept|
  {
  }

  lemma NoneDropped(spacingSeconds: real)
    ensures Selects([], [], []) && DroppedClose([], [], spacingSeconds)
  {
  }

  // ---- Legs ----

  ghost predicate Quiet(run: seq<TimedPoint>, p: Params) {
    forall i | 0 < i < |run| :: !Silence(run[i - 1], run[i], p)
  }

  /** An observed leg is a run without silences; a gap is exactly a silence, classified by its speed. */
  ghost predicate LegOk(l: Leg, p: Params, dist: Distance) {
    && l.routedPoints == [] && l.routedKm == 0.0
    && (l.kind == Observed ==>
          l.gapKind == NoGap && l.points != [] && Quiet(l.points, p) && l.distanceKm == ChordKm(l.points, dist))
    && (l.kind == Gap ==>
          |l.points| == 2 && Silence(l.points[0], l.points[1], p)
          && l.distanceKm == dist(l.points[0].loc, l.points[1].loc) / 1000.0
          && l.gapKind == if FliesOver(l.points[0], l.points[1], p, dist) then Air else Unknown)
  }

  ghost predicate Alternating(legs: seq<Leg>) {
    (legs == [] || |legs| % 2 == 1) && forall i | 0 <= i < |legs| ::
      legs[i].kind == if i % 2 == 0 then Observed else Gap
  }

  /** Each leg starts at the very point its predecessor ends at. */
  ghost predicate Joined(legs: seq<Leg>)
    requires forall i | 0 <= i < |legs| :: legs[i].points != []
  {
    forall i | 0 < i < |legs| :: Last(legs[i - 1].points) == legs[i].points[0]
  }

  /** The points of the observed legs, in order. */
  ghost function ObservedPoints(legs: seq<Leg>): seq<TimedPoint> {
    if legs == [] then []
    else ObservedPoints(Front(legs)) + if Last(legs).kind == Observed then Last(legs).points else []
  }

  ghost predicate WellSplit(legs: seq<Leg>, kept: seq<TimedPoint>, p: Params, dist: Distance) {
    && (forall i | 0 <= i < |legs| :: LegOk(legs[i], p, dist) && legs[i].points != [])
    && Alternating(legs) && Joined(legs)
    && ObservedPoints(legs) == kept
  }

  lemma ObservedSnoc(legs: seq<Leg>, l: Leg)
    ensures ObservedPoints(legs + [l]) == ObservedPoints(legs) + if l.kind == Observed then l.points else []
  {
    assert Front(legs + [l]) == legs;
  }

  lemma GrowRun(legs: seq<Leg>, kept: seq<TimedPoint>, pt: TimedPoint, p: Params, dist: Distance)
    requires legs != [] && WellSplit(legs, kept, p, dist) && Last(legs).kind == Observed
    requires !Silence(Last(Last(legs).points), pt, p)
    ensures WellSplit(Front(legs) + [ObservedLeg(Last(legs).points + [pt], dist)], kept + [pt], p, dist)
  {
    hide FliesOver, Silence, ChordKm;
    var front, run := Front(legs), Last(legs).points;
    var grown := ObservedLeg(run + [pt], dist);
    assert LegOk(Last(legs), p, dist);
    assert Quiet(run + [pt], p);
    assert legs == front + [Last(legs)];
    ObservedSnoc(front, Last(legs));
    ObservedSnoc(front, grown);
    assert ObservedPoints(front) + run + [pt] == ObservedPoints(front) + (run + [pt]);
    assert LegOk(grown, p, dist);
  }

  lemma NewLegsOk(prev: TimedPoint, pt: TimedPoint, p: Params, dist: Distance)
    requires Silence(prev, pt, p)
    ensures LegOk(GapLeg(prev, pt, p, dist), p, dist) && LegOk(ObservedLeg([pt], dist), p, dist)
  {
    hide FliesOver, Silence, ChordKm;
  }

  lemma StillAlternating(legs: seq<Leg>, gap: Leg, next: Leg)
    requires legs != [] && Alternating(legs) && gap.kind == Gap && next.kind == Observed
    ensures Alternating(legs + [gap, next])
  {
    var more := legs + [gap, next];
    assert forall i | 0 <= i < |legs| :: more[i] == legs[i];
    assert more[|legs|] == gap && more[|legs| + 1] == next;
  }

  lemma TwoMoreObserved(legs: seq<Leg>, gap: Leg, next: Leg)
    requires gap.kind == Gap && next.kind == Observed
    ensures ObservedPoints(legs + [gap, next]) == ObservedPoints(legs) + next.points
  {
    assert legs + [gap, next] == (legs + [gap]) + [next];
    ObservedSnoc(legs, gap);
    ObservedSnoc(legs + [gap], next);
    hide ObservedPoints;
  }

  lemma CloseRun(legs: seq<Leg>, kept: seq<TimedPoint>, pt: TimedPoint, p: Params, dist: Distance)
    requires legs != [] && WellSplit(legs, kept, p, dist) && Last(legs).kind == Observed
    requires Silence(Last(Last(legs).points), pt, p)
    ensures WellSplit(legs + [GapLeg(Last(Last(legs).points), pt, p, dist), ObservedLeg([pt], dist)],
                      kept + [pt], p, dist)
  {
    var gap, next := GapLeg(Last(Last(legs).points), pt, p, dist), ObservedLeg([pt], dist);
    NewLegsOk(Last(Last(legs).points), pt, p, dist);
    StillAlternating(legs, gap, next);
    TwoMoreObserved(legs, gap, next);
    hide FliesOver, Silence, ChordKm, LegOk, Alternating, ObservedPoints;
    var more := legs + [gap, next];
    assert forall i | 0 <= i < |legs| :: more[i] == legs[i];
  }

  /**
   Splitting alternates observed legs and gaps, starting and ending observed, without holes or overlap;
   the observed legs hold exactly the kept points, and the silences are exactly the gaps.
   */
  lemma {:induction false} LegsWellSplit(kept: seq<TimedPoint>, p: Params, dist: Distance)
    ensures WellSplit(Legs(kept, p, dist), kept, p, dist)
  {
    hide FliesOver, Silence, WellSplit;
    if |kept| == 1 {
      SinglePoint(kept, p, dist);
    } else if kept == [] {
      NoPoints(p, dist);
    } else {
      var before := Legs(Front(kept), p, dist);
      LegsWellSplit(Front(kept), p, dist);
      EndsObserved(before, Front(kept), p, dist);
      assert kept == Front(kept) + [Last(kept)];
      if Silence(Last(Last(before).points), Last(kept), p) {
        CloseRun(before, Front(kept), Last(kept), p, dist);
      } else {
        GrowRun(before, Front(kept), Last(kept), p, dist);
      }
    }
  }

  lemma EndsObserved(legs: seq<Leg>, kept: seq<TimedPoint>, p: Params, dist: Distance)
    requires legs != [] && WellSplit(legs, kept, p, dist)
    ensures Last(legs).kind == Observed && legs[0].kind == Observed
  {
  }

  lemma SinglePoint(kept: seq<TimedPoint>, p: Params, dist: Distance)
    requires |kept| == 1
    ensures WellSplit([ObservedLeg(kept, dist)], kept, p, dist)
  {
    var legs := [ObservedLeg(kept, dist)];
    ObservedSnoc([], legs[0]);
    assert [] + legs == legs;
  }

  lemma NoPoints(p: Params, dist: Distance)
    ensures WellSplit([], [], p, dist)
  {
  }

  // ---- Distances ----

  lemma SumSplit(legs: seq<Leg>, gap: Leg, next: Leg, f: Leg -> real)
    ensures Sum(legs + [gap, next], f) == Sum(legs, f) + f(gap) + f(next)
  {
    assert legs + [gap, next] == legs + [gap] + [next];
    SumSnoc(legs, gap, f);
    SumSnoc(legs + [gap], next, f);
  }

  lemma SumGrow(legs: seq<Leg>, grown: Leg, f: Leg -> real)
    requires legs != []
    ensures Sum(Front(legs) + [grown], f) == Sum(legs, f) - f(Last(legs)) + f(grown)
  {
    assert legs == Front(legs) + [Last(legs)];
    SumSnoc(Front(legs), Last(legs), f);
    SumSnoc(Front(legs), grown, f);
  }

  /** The legs together are as long as the kept stream, chord by chord. */
  lemma {:induction false} LegsCoverChords(kept: seq<TimedPoint>, p: Params, dist: Distance)
    ensures Sum(Legs(kept, p, dist), LegKm) == ChordKm(kept, dist)
  {
    hide FliesOver, Silence, Sum, WellSplit;
    if kept == [] {
      assert Sum<Leg>([], LegKm) == 0.0 by { EmptySum(LegKm); }
    } else if |kept| == 1 {
      SingleSum(ObservedLeg(kept, dist), LegKm);
    } else {
      var before := Legs(Front(kept), p, dist);
      LegsCoverChords(Front(kept), p, dist);
      LegsWellSplit(Front(kept), p, dist);
      LastMeasured(before, Front(kept), p, dist);
      var run, pt := Last(before).points, Last(kept);
      if Silence(Last(run), pt, p) {
        SumSplit(before, GapLeg(Last(run), pt, p, dist), ObservedLeg([pt], dist), LegKm);
      } else {
        assert Front(run + [pt]) == run;
        SumGrow(before, ObservedLeg(run + [pt], dist), LegKm);
      }
    }
  }

  lemma EmptySum(f: Leg -> real)
    ensures Sum([], f) == 0.0
  {
  }

  lemma SingleSum(l: Leg, f: Leg -> real)
    ensures Sum([l], f) == f(l)
  {
    SumSnoc([], l, f);
    assert [] + [l] == [l];
  }

  lemma LastMeasured(legs: seq<Leg>, kept: seq<TimedPoint>, p: Params, dist: Distance)
    requires legs != [] && WellSplit(legs, kept, p, dist)
    ensures Last(legs).distanceKm == ChordKm(Last(legs).points, dist)
  {
    hide ChordKm, FliesOver, Silence;
    assert LegOk(legs[|legs| - 1], p, dist);
  }

  lemma {:induction false} KindsPartition(legs: seq<Leg>)
    ensures Sum(legs, LegObservedKm) + Sum(legs, LegInferredKm) == Sum(legs, LegKm)
    ensures Sum(legs, LegAirKm) + Sum(legs, LegGroundGapKm) == Sum(legs, LegInferredKm)
  {
    if legs != [] {
      KindsPartition(Front(legs));
    }
  }

  ghost function KeptPoints(obs: Observations, ws: Time, we: Time, p: Params, dist: Distance): seq<TimedPoint> {
    Thin(WithoutTeleports(SortStable(TracePoints(obs.points, ws, we) + RawPoints(obs.raws, ws, we, p), PointKey),
                          p, dist), p.thinSpacingSeconds)
  }

  /** Total = observed + air + unknown, and it is the straight-line length of the kept stream. */
  lemma DistancesAddUp(obs: Observations, ws: Time, we: Time, p: Params, dist: Distance)
    ensures var j := Assembled(obs, ws, we, p, dist);
            && j.totalKm == j.observedKm + j.airKm + j.unknownKm
            && j.inferredKm == j.airKm + j.unknownKm
            && j.totalKm == ChordKm(KeptPoints(obs, ws, we, p, dist), dist)
  {
    var j := Assembled(obs, ws, we, p, dist);
    LegsCoverChords(KeptPoints(obs, ws, we, p, dist), p, dist);
    KindsPartition(j.legs);
  }

  /** The kept stream is in time order and, for a spacing above zero, strictly so. */
  lemma KeptOrdered(obs: Observations, ws: Time, we: Time, p: Params, dist: Distance)
    ensures Ordered(KeptPoints(obs, ws, we, p, dist))
    ensures Spaced(KeptPoints(obs, ws, we, p, dist), p.thinSpacingSeconds)
  {
    var all := TracePoints(obs.points, ws, we) + RawPoints(obs.raws, ws, we, p);
    SortedPoints(all);
    var sorted := SortStable(all, PointKey);
    var idx := TeleportsAreBridged(sorted, p, dist);
    SelectionOrdered(idx, sorted, WithoutTeleports(sorted, p, dist));
    var thin := ThinLaws(WithoutTeleports(sorted, p, dist), p.thinSpacingSeconds);
    SelectionOrdered(thin, WithoutTeleports(sorted, p, dist), KeptPoints(obs, ws, we, p, dist));
  }

  /** A gap leg holds two neighbours of the kept stream, so it runs forward in time as they do. */
  lemma {:induction false} GapsForward(kept: seq<TimedPoint>, p: Params, dist: Distance)
    requires Ordered(kept)
    ensures forall i | 0 <= i < |Legs(kept, p, dist)| && Legs(kept, p, dist)[i].kind == Gap ::
      |Legs(kept, p, dist)[i].points| == 2
      && Legs(kept, p, dist)[i].points[0].time.ns <= Legs(kept, p, dist)[i].points[1].time.ns
  {
    hide Silence, FliesOver, ChordKm;
    if |kept| >= 2 {
      GapsForward(Front(kept), p, dist);
    }
  }
}
