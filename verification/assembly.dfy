/** The assembly loops (internal/journey/journey.go, Assemble), proved against the journey they describe. */
module Assembly {
  import opened Domain
  import opened Seqs
  import opened Teleports
  import opened Stops
  import opened Journeys
  import opened JourneyAccount

  lemma MapSnoc<A, B>(s: seq<A>, x: A, f: A -> B)
    ensures Map(s + [x], f) == Map(s, f) + [f(x)]
  {
    assert Front(s + [x]) == s;
  }

  lemma PrefixStep<T>(s: seq<T>, i: nat)
    requires i < |s|
    ensures s[..i + 1] == s[..i] + [s[i]]
  {
  }

  /** Located trace points of the window, without the points at exactly (0, 0), which are counted. */
  method SelectTraces(points: seq<PathPoint>, ws: Time, we: Time) returns (pts: seq<TimedPoint>, nulls: nat)
    ensures pts == TracePoints(points, ws, we)
    ensures nulls == |Filter(points, TraceNull(ws, we))|
  {
    pts, nulls := [], 0;
    for i := 0 to |points|
      invariant pts == TracePoints(points[..i], ws, we)
      invariant nulls == |Filter(points[..i], TraceNull(ws, we))|
    {
      var pp := points[i];
      PrefixStep(points, i);
      FilterSnoc(points[..i], pp, TraceOk(ws, we));
      FilterSnoc(points[..i], pp, TraceNull(ws, we));
      if pp.loc.None? || !InWindow(pp.time, ws, we) {
        continue;
      }
      if NullIsland(pp.loc.value) {
        nulls := nulls + 1;
        continue;
      }
      MapSnoc(Filter(points[..i], TraceOk(ws, we)), pp, FromTrace);
      pts := pts + [TimedPoint(pp.time, pp.loc.value, Trace)];
    }
    assert points[..|points|] == points;
  }

  /** Located raw positions of the window, minus (0, 0) and minus what the accuracy filter rejects. */
  method SelectRaws(raws: seq<RawPosition>, ws: Time, we: Time, p: Params)
    returns (pts: seq<TimedPoint>, nulls: nat, bad: nat)
    ensures pts == RawPoints(raws, ws, we, p)
    ensures nulls == |Filter(raws, RawNull(ws, we))|
    ensures bad == |Filter(raws, RawBad(ws, we, p))|
  {
    pts, nulls, bad := [], 0, 0;
    for i := 0 to |raws|
      invariant pts == RawPoints(raws[..i], ws, we, p)
      invariant nulls == |Filter(raws[..i], RawNull(ws, we))|
      invariant bad == |Filter(raws[..i], RawBad(ws, we, p))|
    {
      var rp := raws[i];
      PrefixStep(raws, i);
      FilterSnoc(raws[..i], rp, RawOk(ws, we, p));
      FilterSnoc(raws[..i], rp, RawNull(ws, we));
      FilterSnoc(raws[..i], rp, RawBad(ws, we, p));
      if rp.loc.None? || !InWindow(rp.time, ws, we) {
        continue;
      }
      if NullIsland(rp.loc.value) {
        nulls := nulls + 1;
        continue;
      }
      if p.maxAccuracyM > 0.0 && rp.accuracyM > p.maxAccuracyM {
        bad := bad + 1;
        continue;
      }
      MapSnoc(Filter(raws[..i], RawOk(ws, we, p)), rp, FromRaw);
      pts := pts + [TimedPoint(rp.time, rp.loc.value, Raw)];
    }
    assert raws[..|raws|] == raws;
  }

  method ThinPoints(pts: seq<TimedPoint>, p: Params) returns (kept: seq<TimedPoint>, traces: nat, raws: nat)
    ensures kept == Thin(pts, p.thinSpacingSeconds)
    ensures traces == CountSource(kept, Trace) && raws == CountSource(kept, Raw)
  {
    kept := [];
    for i := 0 to |pts|
      invariant kept == Thin(pts[..i], p.thinSpacingSeconds)
    {
      assert Front(pts[..i + 1]) == pts[..i];
      if |kept| == 0 || Seconds(kept[|kept| - 1].time, pts[i].time) >= p.thinSpacingSeconds {
        kept := kept + [pts[i]];
      }
    }
    assert pts[..|pts|] == pts;
    traces, raws := 0, 0;
    for i := 0 to |kept|
      invariant traces == CountSource(kept[..i], Trace) && raws == CountSource(kept[..i], Raw)
    {
      assert Front(kept[..i + 1]) == kept[..i];
      if kept[i].source == Trace {
        traces := traces + 1;
      } else {
        raws := raws + 1;
      }
    }
    assert kept[..|kept|] == kept;
  }

  /** One more kept point: the open run is closed by a gap, or grows. */
  lemma LegsStep(kept: seq<TimedPoint>, i: nat, closed: seq<Leg>, run: seq<TimedPoint>, p: Params, dist: Distance)
    requires 1 <= i < |kept| && run != [] && closed + [ObservedLeg(run, dist)] == Legs(kept[..i], p, dist)
    ensures Legs(kept[..i + 1], p, dist)
         == if Silence(Last(run), kept[i], p)
            then closed + [ObservedLeg(run, dist), GapLeg(Last(run), kept[i], p, dist)] + [ObservedLeg([kept[i]], dist)]
            else closed + [ObservedLeg(run + [kept[i]], dist)]
  {
    hide FliesOver, Silence, ChordKm;
    var before := closed + [ObservedLeg(run, dist)];
    assert Front(kept[..i + 1]) == kept[..i] && Last(kept[..i + 1]) == kept[i];
    assert Front(before) == closed && Last(before).points == run;
    assert before + [GapLeg(Last(run), kept[i], p, dist), ObservedLeg([kept[i]], dist)]
        == closed + [ObservedLeg(run, dist), GapLeg(Last(run), kept[i], p, dist)] + [ObservedLeg([kept[i]], dist)];
  }

  method MeasureRun(run: seq<TimedPoint>, dist: Distance) returns (leg: Leg)
    ensures leg == ObservedLeg(run, dist)
  {
    var km := 0.0;
    var i := 1;
    while i < |run|
      invariant 1 <= i && (i <= |run| || |run| == 0)
      invariant km == ChordKm(run[..if i <= |run| then i else 0], dist)
    {
      assert Front(run[..i + 1]) == run[..i];
      km := km + dist(run[i - 1].loc, run[i].loc) / 1000.0;
      i := i + 1;
    }
    assert run[..|run|] == run;
    leg := Leg(Observed, NoGap, run, km, [], 0.0);
  }

  method SplitLegs(kept: seq<TimedPoint>, p: Params, dist: Distance) returns (legs: seq<Leg>)
    ensures legs == Legs(kept, p, dist)
  {
    hide FliesOver, Silence, ChordKm;
    legs := [];
    if |kept| > 0 {
      var run := [kept[0]];
      assert kept[..1] == [kept[0]];
      assert Legs(kept[..1], p, dist) == [] + [ObservedLeg(run, dist)];
      for i := 1 to |kept|
        invariant run != [] && legs + [ObservedLeg(run, dist)] == Legs(kept[..i], p, dist)
      {
        hide Legs;
        LegsStep(kept, i, legs, run, p, dist);
        var prev := run[|run| - 1];
        if Silence(prev, kept[i], p) {
          var leg := MeasureRun(run, dist);
          legs := legs + [leg, GapLeg(prev, kept[i], p, dist)];
          run := [kept[i]];
        } else {
          run := run + [kept[i]];
        }
      }
      assert kept[..|kept|] == kept;
      var leg := MeasureRun(run, dist);
      legs := legs + [leg];
    }
  }

  method AddUp(legs: seq<Leg>) returns (observed: real, inferred: real, air: real, unknown: real)
    ensures observed == Sum(legs, LegObservedKm) && inferred == Sum(legs, LegInferredKm)
    ensures air == Sum(legs, LegAirKm) && unknown == Sum(legs, LegGroundGapKm)
  {
    observed, inferred, air, unknown := 0.0, 0.0, 0.0, 0.0;
    for i := 0 to |legs|
      invariant observed == Sum(legs[..i], LegObservedKm) && inferred == Sum(legs[..i], LegInferredKm)
      invariant air == Sum(legs[..i], LegAirKm) && unknown == Sum(legs[..i], LegGroundGapKm)
    {
      var l := legs[i];
      PrefixStep(legs, i);
      SumSnoc(legs[..i], l, LegObservedKm);
      SumSnoc(legs[..i], l, LegInferredKm);
      SumSnoc(legs[..i], l, LegAirKm);
      SumSnoc(legs[..i], l, LegGroundGapKm);
      if l.kind == Observed {
        observed := observed + l.distanceKm;
      } else {
        inferred := inferred + l.distanceKm;
        if l.gapKind == Air {
          air := air + l.distanceKm;
        } else {
          unknown := unknown + l.distanceKm;
        }
      }
    }
    assert legs[..|legs|] == legs;
  }

  method AddUpActivities(activities: seq<Activity>, ws: Time, we: Time) returns (total: real, ground: real)
    ensures total == Sum(Filter(activities, Intersects(ws, we)), ActivityKm)
    ensures ground == Sum(Filter(activities, Intersects(ws, we)), GroundActivityKm)
  {
    total, ground := 0.0, 0.0;
    for i := 0 to |activities|
      invariant total == Sum(Filter(activities[..i], Intersects(ws, we)), ActivityKm)
      invariant ground == Sum(Filter(activities[..i], Intersects(ws, we)), GroundActivityKm)
    {
      var a := activities[i];
      var acts := Filter(activities[..i], Intersects(ws, we));
      PrefixStep(activities, i);
      FilterSnoc(activities[..i], a, Intersects(ws, we));
      SumSnoc(acts, a, ActivityKm);
      SumSnoc(acts, a, GroundActivityKm);
      if Intersects(ws, we)(a) {
        total := total + a.distanceM / 1000.0;
        if a.mode != "FLYING" {
          ground := ground + a.distanceM / 1000.0;
        }
      } else {
        assert acts + [] == acts;
      }
    }
    assert activities[..|activities|] == activities;
  }

  method Assemble(obs: Observations, ws: Time, we: Time, p: Params, dist: Distance) returns (j: Journey)
    ensures j == Assembled(obs, ws, we, p, dist)
    ensures exists a :: Accounts(j, a, obs, ws, we, p, dist)
  {
    ghost var a := JourneyAccounted(obs, ws, we, p, dist);
    hide Accounts;
    hide TracePoints, RawPoints, SortStable, WithoutTeleports, Thin, Legs, FoundStops, Sum, Filter, CountSource;
    var pts, nullTraces := SelectTraces(obs.points, ws, we);
    var raws, nullRaws, bad := SelectRaws(obs.raws, ws, we, p);
    var clean, rejectedSpeed := RejectTeleports(SortStable(pts + raws, PointKey), p, dist);
    var kept, keptTraces, keptRaws := ThinPoints(clean, p);
    var legs := SplitLegs(kept, p, dist);
    var observed, inferred, air, unknown := AddUp(legs);
    var stops := FindStops(obs.activities, kept, ws, we, p, dist);
    var google, ground := AddUpActivities(obs.activities, ws, we);
    j := Journey(ws, we, p, legs, stops, |pts|, |raws|, keptTraces, keptRaws,
                 nullTraces + nullRaws, bad, rejectedSpeed,
                 observed + inferred, observed, inferred, air, unknown, 0.0, google, ground);
  }
}
