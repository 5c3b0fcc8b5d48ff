/** Placing a photo on a journey (internal/journey/place.go): which stop or leg held its instant. */
module Placement {
  import opened Domain
  import opened Seqs
  import opened Teleports
  import opened Stops
  import opened Journeys
  import opened JourneyLaws
  import opened Routing

  datatype PlaceKind = PlaceObserved | PlaceRoad | PlaceUnknown | PlaceAir | PlaceStop

  /** Where the journey claims to have been, and how far the photo sits from that claim. */
  datatype Placed = Placed(kind: PlaceKind, legIndex: int, stopIndex: int,
                           distanceM: real, hasDistance: bool, flagged: bool)

  /** Distance from a point to a drawn line. */
  type PolylineDistance = (LatLng, seq<LatLng>) -> real

  predicate Holds(start: Time, end: Time, t: Time) { start.ns <= t.ns <= end.ns }

  predicate StopHolds(s: Stop, t: Time) { Holds(s.start, s.end, t) }

  predicate LegHolds(l: Leg, t: Time)
    requires l.points != []
  {
    Holds(l.points[0].time, Last(l.points).time, t)
  }

  ghost predicate FirstStop(j: Journey, t: Time, i: int) {
    0 <= i < |j.stops| && StopHolds(j.stops[i], t) && forall k | 0 <= k < i :: !StopHolds(j.stops[k], t)
  }

  ghost predicate NoStop(j: Journey, t: Time) { forall k | 0 <= k < |j.stops| :: !StopHolds(j.stops[k], t) }

  ghost predicate FirstLeg(j: Journey, t: Time, i: int)
    requires HavePoints(j.legs)
  {
    0 <= i < |j.legs| && LegHolds(j.legs[i], t) && forall k | 0 <= k < i :: !LegHolds(j.legs[k], t)
  }

  ghost predicate NoLeg(j: Journey, t: Time)
    requires HavePoints(j.legs)
  {
    forall k | 0 <= k < |j.legs| :: !LegHolds(j.legs[k], t)
  }

  function Locs(pts: seq<TimedPoint>): seq<LatLng> { seq(|pts|, i requires 0 <= i < |pts| => pts[i].loc) }

  function KindOf(l: Leg): PlaceKind {
    if l.kind == Observed then PlaceObserved
    else match l.gapKind case Air => PlaceAir case Road => PlaceRoad case _ => PlaceUnknown
  }

  /** One of the first `n` stops lasted over the instant. */
  ghost predicate HeldByStop(j: Journey, t: Time, n: int)
    requires n <= |j.stops|
  {
    exists k :: 0 <= k < n && j.stops[k].start.ns <= t.ns <= j.stops[k].end.ns
  }

  /** One of the first `n` legs has points on both sides of the instant, or at it. */
  ghost predicate HeldByLeg(j: Journey, t: Time, n: int)
    requires HavePoints(j.legs) && n <= |j.legs|
  {
    exists k :: 0 <= k < n && j.legs[k].points[0].time.ns <= t.ns <= Last(j.legs[k].points).time.ns
  }

  /** The line through the places of the points. */
  ghost predicate Along(line: seq<LatLng>, points: seq<TimedPoint>) {
    |line| == |points| && forall k | 0 <= k < |line| :: line[k] == points[k].loc
  }

  /** The line the leg is drawn with: routed geometry for a road, its own points otherwise. */
  function DrawnLine(l: Leg): seq<LatLng> {
    if l.kind == Gap && l.gapKind == Road then l.routedPoints else Locs(l.points)
  }

  /**
   The earliest containing stop, else the earliest containing leg. The distance is measured against what
   is drawn; a flight has none and is never flagged.
   */
  method PlacePhoto(j: Journey, t: Time, pos: LatLng, farWarnM: real, dist: Distance, polyline: PolylineDistance)
    returns (r: Option<Placed>)
    requires HavePoints(j.legs)
    ensures r.None? <==> NoStop(j, t) && NoLeg(j, t)
    ensures r.Some? ==> (r.value.kind == PlaceStop <==> !NoStop(j, t))
    ensures r.Some? && r.value.kind == PlaceStop ==>
      FirstStop(j, t, r.value.stopIndex) && r.value.legIndex == -1
      && r.value.hasDistance && r.value.distanceM == dist(pos, j.stops[r.value.stopIndex].loc)
    ensures r.Some? && r.value.kind != PlaceStop ==>
      FirstLeg(j, t, r.value.legIndex) && r.value.stopIndex == -1
      && r.value.kind == KindOf(j.legs[r.value.legIndex])
      && (r.value.hasDistance <==> r.value.kind != PlaceAir)
      && (r.value.hasDistance ==> r.value.distanceM == polyline(pos, DrawnLine(j.legs[r.value.legIndex])))
    ensures r.Some? ==> (r.value.flagged <==> r.value.hasDistance && r.value.distanceM > farWarnM)
    ensures r.None? ==> !HeldByStop(j, t, |j.stops|) && !HeldByLeg(j, t, |j.legs|)
    ensures r.Some? && r.value.stopIndex >= 0 ==>
      var i := r.value.stopIndex;
      i < |j.stops| && j.stops[i].start.ns <= t.ns <= j.stops[i].end.ns && !HeldByStop(j, t, i)
      && r.value.kind == PlaceStop && r.value.legIndex == -1
    ensures r.Some? && r.value.stopIndex < 0 ==>
      var i := r.value.legIndex;
      && 0 <= i < |j.legs| && j.legs[i].points[0].time.ns <= t.ns <= Last(j.legs[i].points).time.ns
      && !HeldByStop(j, t, |j.stops|) && !HeldByLeg(j, t, i)
      && (r.value.kind == PlaceObserved <==> j.legs[i].kind == Observed)
      && (r.value.kind == PlaceAir <==> j.legs[i].kind == Gap && j.legs[i].gapKind == Air)
      && (r.value.kind == PlaceRoad <==> j.legs[i].kind == Gap && j.legs[i].gapKind == Road)
      && (r.value.kind == PlaceRoad ==> r.value.distanceM == polyline(pos, j.legs[i].routedPoints))
      && (r.value.kind != PlaceRoad && r.value.kind != PlaceAir ==>
            exists line :: Along(line, j.legs[i].points) && r.value.distanceM == polyline(pos, line))
  {
    for i := 0 to |j.stops|
      invariant forall k | 0 <= k < i :: !StopHolds(j.stops[k], t)
    {
      var s := j.stops[i];
      if Holds(s.start, s.end, t) {
        var d := dist(pos, s.loc);
        return Some(Placed(PlaceStop, -1, i, d, true, d > farWarnM));
      }
    }
    for i := 0 to |j.legs|
      invariant forall k | 0 <= k < i :: !LegHolds(j.legs[k], t)
    {
      var l := j.legs[i];
      assert Along(Locs(l.points), l.points);
      if !Holds(l.points[0].time, l.points[|l.points| - 1].time, t) {
        continue;
      }
      var p := Placed(PlaceUnknown, i, -1, 0.0, false, false);
      if l.kind == Observed {
        p := p.(kind := PlaceObserved, distanceM := polyline(pos, Locs(l.points)), hasDistance := true);
      } else if l.gapKind == Air {
        p := p.(kind := PlaceAir);
      } else if l.gapKind == Road {
        p := p.(kind := PlaceRoad, distanceM := polyline(pos, l.routedPoints), hasDistance := true);
      } else {
        p := p.(distanceM := polyline(pos, Locs(l.points)), hasDistance := true);
      }
      p := p.(flagged := p.hasDistance && p.distanceM > farWarnM);
      return Some(p);
    }
    return None;
  }

  // ---- Every instant of an assembled journey has a place ----

  /** Joined legs over a time-ordered stream cover it from first to last point. */
  lemma {:induction false} LegsCover(legs: seq<Leg>, n: nat, t: Time)
    requires 0 < n <= |legs| && HavePoints(legs) && Joined(legs)
    requires legs[0].points[0].time.ns <= t.ns <= Last(legs[n - 1].points).time.ns
    ensures exists i :: 0 <= i < n && LegHolds(legs[i], t)
  {
    if legs[n - 1].points[0].time.ns <= t.ns {
      assert LegHolds(legs[n - 1], t);
    } else {
      assert Last(legs[n - 2].points) == legs[n - 1].points[0];
      LegsCover(legs, n - 1, t);
    }
  }

  /** The observed legs of a non-empty journey run from the first kept point to the last. */
  lemma {:induction false} LegsSpanKept(legs: seq<Leg>, kept: seq<TimedPoint>, p: Params, dist: Distance)
    requires WellSplit(legs, kept, p, dist) && legs != []
    ensures kept != [] && legs[0].points[0] == kept[0] && Last(Last(legs).points) == Last(kept)
  {
    hide LegOk;
    EndsObserved(legs, kept, p, dist);
    ObservedEnds(legs);
  }

  lemma {:induction false} ObservedEnds(legs: seq<Leg>)
    requires legs != [] && HavePoints(legs) && legs[0].kind == Observed
    ensures ObservedPoints(legs) != [] && ObservedPoints(legs)[0] == legs[0].points[0]
    ensures Last(legs).kind == Observed ==> Last(ObservedPoints(legs)) == Last(Last(legs).points)
  {
    if |legs| > 1 {
      ObservedEnds(Front(legs));
    } else {
      assert ObservedPoints(Front(legs)) == [];
    }
  }

  lemma SameSpans(legs: seq<Leg>, profile: string, lookup: map<Key, Cached>)
    ensures forall i | 0 <= i < |legs| :: RouteLegs(legs, profile, lookup)[i].points == legs[i].points
  {
  }

  /** Routing moves no photo to another element. */
  lemma RoutingMovesNoPhoto(j: Journey, profile: string, lookup: map<Key, Cached>, t: Time)
    requires HavePoints(j.legs)
    ensures var r := Applied(j, profile, lookup);
            && HavePoints(r.legs)
            && (forall i :: FirstStop(j, t, i) <==> FirstStop(r, t, i))
            && (forall i :: FirstLeg(j, t, i) <==> FirstLeg(r, t, i))
            && (NoStop(j, t) <==> NoStop(r, t)) && (NoLeg(j, t) <==> NoLeg(r, t))
  {
    hide RouteLegs;
    SameSpans(j.legs, profile, lookup);
  }

  /**
   Every instant from the first to the last kept point lies on some leg, and routing moves no photo: before
   and after it, the same stop is the first to hold the instant, or none is, and the same leg.
   */
  lemma EveryInstantPlaced(obs: Observations, ws: Time, we: Time, p: Params, dist: Distance,
                           profile: string, lookup: map<Key, Cached>, t: Time)
    requires var kept := KeptPoints(obs, ws, we, p, dist);
             kept != [] && kept[0].time.ns <= t.ns <= Last(kept).time.ns
    ensures var raw := Assembled(obs, ws, we, p, dist);
            var j := Applied(raw, profile, lookup);
            && HavePoints(raw.legs) && HavePoints(j.legs) && !NoLeg(raw, t) && !NoLeg(j, t)
            && (forall i :: FirstStop(raw, t, i) <==> FirstStop(j, t, i))
            && (forall i :: FirstLeg(raw, t, i) <==> FirstLeg(j, t, i))
  {
    hide Legs, RouteLeg, LegOk, ChordKm, FirstLeg, FirstStop, RouteLegs;
    var kept := KeptPoints(obs, ws, we, p, dist);
    var raw := Assembled(obs, ws, we, p, dist);
    LegsWellSplit(kept, p, dist);
    LegsSpanKept(raw.legs, kept, p, dist);
    LegsCover(raw.legs, |raw.legs|, t);
    RoutingMovesNoPhoto(raw, profile, lookup, t);
  }
}
