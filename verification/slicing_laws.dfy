/**
 The narrative's days against the journey they slice: nothing is lost or counted twice, and the figures
 agree with the server's summary of the same journey.
 */
module SlicingLaws {
  import opened Domain
  import opened Seqs
  import opened Teleports
  import opened Stops
  import opened Journeys
  import opened JourneyLaws
  import opened Placement
  import opened Routing
  import opened Summaries
  import opened Slicing

  // ---- Legs are partitioned ----

  /** A date lists exactly the legs that start on it, in order. */
  lemma {:induction false} LegsOnExact(legs: seq<Leg>, date: int)
    requires HavePoints(legs)
    ensures forall k | 0 <= k < |LegsOn(legs, date)| ::
      LegsOn(legs, date)[k] < |legs| && StartDay(legs[LegsOn(legs, date)[k]]) == date
    ensures forall a, b | 0 <= a < b < |LegsOn(legs, date)| :: LegsOn(legs, date)[a] < LegsOn(legs, date)[b]
    ensures forall i: nat | i < |legs| && StartDay(legs[i]) == date :: i in LegsOn(legs, date)
  {
    hide CivilDay;
    if legs != [] {
      LegsOnExact(Front(legs), date);
      var front := LegsOn(Front(legs), date);
      assert legs[|legs| - 1] == Last(legs);
      forall k | 0 <= k < |front| ensures front[k] < |legs| - 1 && legs[front[k]] == Front(legs)[front[k]] {
      }
      forall i: nat | i < |legs| && StartDay(legs[i]) == date ensures i in LegsOn(legs, date) {
        if i < |legs| - 1 {
          assert Front(legs)[i] == legs[i];
          assert i in front;
        } else {
          assert LegsOn(legs, date)[|front|] == i;
        }
      }
    }
  }

  /** Every leg is on exactly one of the days. */
  lemma EveryLegOnOneDay(j: Journey, i: nat)
    requires HavePoints(j.legs) && i < |j.legs|
    ensures var d := StartDay(j.legs[i]) - FirstDay(j);
            0 <= d < DayCount(j) && i in DayOf(j, d).legIndices
            && forall e: nat | e < DayCount(j) :: i in DayOf(j, e).legIndices <==> e == d
  {
    hide CivilDay, FirstDay, LastDay;
    DayRangeCovers(j);
    forall e: nat | e < DayCount(j)
      ensures i in DayOf(j, e).legIndices <==> e == StartDay(j.legs[i]) - FirstDay(j)
    {
      LegsOnExact(j.legs, FirstDay(j) + e);
    }
  }

  // ---- Sums over days are sums over legs ----

  /** A per-date figure added up over `n` consecutive dates. */
  function OverDays(legs: seq<Leg>, first: int, n: nat, f: Leg -> real): real
    requires HavePoints(legs)
  {
    if n == 0 then 0.0 else OverDays(legs, first, n - 1, f) + SumOn(legs, first + n - 1, f)
  }

  lemma {:induction false} OverDaysStep(legs: seq<Leg>, first: int, n: nat, f: Leg -> real)
    requires legs != [] && HavePoints(legs)
    ensures OverDays(legs, first, n, f)
         == OverDays(Front(legs), first, n, f)
            + if first <= StartDay(Last(legs)) < first + n then f(Last(legs)) else 0.0
  {
    hide CivilDay;
    if n > 0 {
      OverDaysStep(legs, first, n - 1, f);
    }
  }

  lemma {:induction false} OverDaysNone(first: int, n: nat, f: Leg -> real)
    ensures OverDays([], first, n, f) == 0.0
  {
    if n > 0 {
      OverDaysNone(first, n - 1, f);
    }
  }

  /** Adding up day by day is adding up leg by leg. */
  lemma {:induction false} DaysAddUp(legs: seq<Leg>, first: int, n: nat, f: Leg -> real)
    requires HavePoints(legs)
    requires forall i | 0 <= i < |legs| :: first <= StartDay(legs[i]) < first + n
    ensures OverDays(legs, first, n, f) == Sum(legs, f)
  {
    hide CivilDay;
    if legs == [] {
      OverDaysNone(first, n, f);
    } else {
      OverDaysStep(legs, first, n, f);
      assert legs[|legs| - 1] == Last(legs);
      DaysAddUp(Front(legs), first, n, f);
    }
  }

  lemma JourneyDaysAddUp(j: Journey, f: Leg -> real)
    requires HavePoints(j.legs)
    ensures OverDays(j.legs, FirstDay(j), DayCount(j), f) == Sum(j.legs, f)
  {
    hide CivilDay, FirstDay, LastDay, OverDays, Sum;
    DayRangeCovers(j);
    DaysAddUp(j.legs, FirstDay(j), DayCount(j), f);
  }

  lemma LegsOnBounded(legs: seq<Leg>, date: int)
    requires HavePoints(legs)
    ensures forall k | 0 <= k < |LegsOn(legs, date)| :: LegsOn(legs, date)[k] < |legs|
  {
    LegsOnExact(legs, date);
  }

  /** Adding up over the legs a day lists is adding up over the legs that start on it. */
  lemma {:induction false} ListedLegsAddUp(legs: seq<Leg>, date: int, f: Leg -> real)
    requires HavePoints(legs)
    ensures forall k | 0 <= k < |LegsOn(legs, date)| :: LegsOn(legs, date)[k] < |legs|
    ensures SumAt(legs, LegsOn(legs, date), f) == SumOn(legs, date, f)
  {
    hide CivilDay;
    LegsOnBounded(legs, date);
    if legs != [] {
      LegsOnBounded(Front(legs), date);
      ListedLegsAddUp(Front(legs), date, f);
      var front := LegsOn(Front(legs), date);
      SumAtFront(legs, front, f);
      if StartDay(Last(legs)) == date {
        assert Front(front + [|legs| - 1]) == front;
      } else {
        assert front + [] == front;
      }
    }
  }

  lemma {:induction false} SumAtFront(legs: seq<Leg>, indices: seq<nat>, f: Leg -> real)
    requires legs != [] && forall k | 0 <= k < |indices| :: indices[k] < |legs| - 1
    ensures SumAt(legs, indices, f) == SumAt(Front(legs), indices, f)
  {
    if indices != [] {
      SumAtFront(legs, Front(indices), f);
    }
  }

  // ---- A day's composition ----

  lemma {:induction false} PartsAddUp(legs: seq<Leg>, indices: seq<nat>)
    requires forall k | 0 <= k < |indices| :: indices[k] < |legs|
    ensures SumAt(legs, indices, DrawnObservedKm) + SumAt(legs, indices, DrawnRoadKm)
          + SumAt(legs, indices, DrawnUnknownKm) + SumAt(legs, indices, DrawnAirKm) == SumAt(legs, indices, DrawnKm)
  {
    if indices != [] {
      PartsAddUp(legs, Front(indices));
    }
  }

  /** The four parts of a day's composition sum to the day's kilometres. */
  lemma CompositionSumsToKm(j: Journey, i: nat)
    requires HavePoints(j.legs)
    ensures var day := DayOf(j, i);
            (forall k | 0 <= k < |day.legIndices| :: day.legIndices[k] < |j.legs|)
            && SumAt(j.legs, day.legIndices, DrawnObservedKm) + SumAt(j.legs, day.legIndices, DrawnRoadKm)
             + SumAt(j.legs, day.legIndices, DrawnUnknownKm) + SumAt(j.legs, day.legIndices, DrawnAirKm) == day.km
  {
    hide CivilDay, FirstDay;
    var date := FirstDay(j) + i;
    ListedLegsAddUp(j.legs, date, DrawnKm);
    PartsAddUp(j.legs, LegsOn(j.legs, date));
  }

  // ---- Day count ----

  /** With nothing on it, a journey covers its window's own dates. */
  lemma EmptyRange(j: Journey)
    requires j.legs == [] && j.stops == []
    ensures HavePoints(j.legs)
    ensures FirstDay(j) == CivilDay(j.windowStart) && LastDay(j) == CivilDay(j.windowEnd)
  {
    hide CivilDay;
    assert TouchedDays(j) == [];
  }

  /**
   The slicer lays out the days the summary counts, except for a journey without legs or stops whose
   window ends two or more calendar days before it starts.
   */
  lemma DayCountsAgree(j: Journey)
    requires HavePoints(j.legs)
    ensures DayCount(j) == LastDay(j) - FirstDay(j) + 1
      <==> j.legs != [] || j.stops != [] || CivilDay(j.windowStart) <= CivilDay(j.windowEnd) + 1
    ensures DayCount(j) >= 1 <==> j.legs != [] || j.stops != [] || CivilDay(j.windowStart) <= CivilDay(j.windowEnd)
  {
    hide CivilDay, FirstDay, LastDay;
    DayRangeCovers(j);
    if j.legs != [] {
      assert FirstDay(j) <= CivilDay(LegStart(j.legs[0])) <= LastDay(j);
    } else if j.stops != [] {
      assert FirstDay(j) <= CivilDay(j.stops[0].start) <= LastDay(j);
    } else {
      EmptyRange(j);
    }
  }

  /** A window from 10:10 on the date line's early side to 11:30 on its late side runs two days backwards. */
  lemma CalendarCanRunBackwards(p: Params, dist: Distance) returns (obs: Observations, ws: Time, we: Time)
    ensures ws.ns < we.ns && -12 * 3600 <= ws.offsetSec <= 14 * 3600 && -12 * 3600 <= we.offsetSec <= 14 * 3600
    ensures var j := Assembled(obs, ws, we, p, dist);
            HavePoints(j.legs) && LastDay(j) - FirstDay(j) + 1 < 0 && DayCount(j) == 0
  {
    ws := Time((10 * 3600 + 600) * NS_PER_SECOND, 14 * 3600);
    we := Time((11 * 3600 + 1800) * NS_PER_SECOND, -12 * 3600);
    obs := Observations([], [], [], []);
    NothingSeen(ws, we, p, dist);
    EmptyRange(Assembled(obs, ws, we, p, dist));
    assert CivilDay(ws) == 1 && CivilDay(we) == -1;
  }

  lemma NothingSeen(ws: Time, we: Time, p: Params, dist: Distance)
    ensures var j := Assembled(Observations([], [], [], []), ws, we, p, dist);
            j.legs == [] && j.stops == [] && j.windowStart == ws && j.windowEnd == we
  {
  }

  // ---- The whole journey ----

  lemma LegOkGap(l: Leg, p: Params, dist: Distance)
    requires LegOk(l, p, dist)
    ensures l.routedKm == 0.0 && l.gapKind != Road
    ensures l.kind == Gap ==> |l.points| == 2 && (l.gapKind == Air || l.gapKind == Unknown)
  {
    hide Silence, FliesOver, Quiet, ChordKm;
  }

  lemma AssembledGaps(obs: Observations, ws: Time, we: Time, p: Params, dist: Distance)
    ensures var legs := Assembled(obs, ws, we, p, dist).legs;
            && HavePoints(legs) && Unrouted(legs)
            && forall i | 0 <= i < |legs| ::
              legs[i].kind == Gap ==> legs[i].gapKind == Air || legs[i].gapKind == Unknown
  {
    hide Legs, LegOk, Alternating, Joined, ObservedPoints;
    var kept := KeptPoints(obs, ws, we, p, dist);
    var legs := Legs(kept, p, dist);
    LegsWellSplit(kept, p, dist);
    forall i | 0 <= i < |legs|
      ensures legs[i].routedKm == 0.0 && legs[i].gapKind != Road
      ensures legs[i].kind == Gap ==> |legs[i].points| == 2 && (legs[i].gapKind == Air || legs[i].gapKind == Unknown)
    {
      LegOkGap(legs[i], p, dist);
    }
  }

  function KmOf(d: Day): real { d.km }

  ghost predicate Sliced(j: Journey, days: seq<Day>)
    requires HavePoints(j.legs)
  {
    |days| == DayCount(j) && forall i | 0 <= i < |days| :: days[i] == DayOf(j, i)
  }

  lemma {:induction false} DayKmAddUp(j: Journey, days: seq<Day>, n: nat)
    requires HavePoints(j.legs) && n <= |days| && forall i | 0 <= i < n :: days[i] == DayOf(j, i)
    ensures Sum(days[..n], KmOf) == OverDays(j.legs, FirstDay(j), n, DrawnKm)
  {
    hide CivilDay, FirstDay;
    if n > 0 {
      DayKmAddUp(j, days, n - 1);
      assert Front(days[..n]) == days[..n - 1];
    }
  }

  predicate ListsLegs(d: Day, legs: seq<Leg>) { forall k | 0 <= k < |d.legIndices| :: d.legIndices[k] < |legs| }

  /** A leg figure summed over the legs a day lists, as the day's composition and pace sum theirs. */
  function DayFigure(legs: seq<Leg>, f: Leg -> real): Day -> real {
    (d: Day) => if ListsLegs(d, legs) then SumAt(legs, d.legIndices, f) else 0.0
  }

  lemma {:induction false} DayFiguresAddUp(j: Journey, days: seq<Day>, n: nat, f: Leg -> real)
    requires HavePoints(j.legs) && n <= |days| && forall i | 0 <= i < n :: days[i] == DayOf(j, i)
    ensures forall i | 0 <= i < n :: ListsLegs(days[i], j.legs)
    ensures Sum(days[..n], DayFigure(j.legs, f)) == OverDays(j.legs, FirstDay(j), n, f)
  {
    hide CivilDay, FirstDay, SumAt, SumOn, LegsOn;
    if n > 0 {
      DayFiguresAddUp(j, days, n - 1, f);
      assert Front(days[..n]) == days[..n - 1];
      ListedLegsAddUp(j.legs, FirstDay(j) + n - 1, f);
    }
  }

  /** Any leg figure, summed day by day over the legs each day lists, comes to its sum over all legs. */
  lemma SlicedDaysAddUp(j: Journey, days: seq<Day>, f: Leg -> real)
    requires HavePoints(j.legs) && Sliced(j, days)
    ensures forall d | d in days :: ListsLegs(d, j.legs)
    ensures Sum(days, DayFigure(j.legs, f)) == Sum(j.legs, f)
  {
    hide CivilDay, FirstDay, LastDay, OverDays, Sum, DayOf, DayFigure, ListsLegs;
    DayFiguresAddUp(j, days, |days|, f);
    assert days[..|days|] == days;
    JourneyDaysAddUp(j, f);
  }

  lemma RoutedHavePoints(legs: seq<Leg>, profile: string, lookup: map<Key, Cached>)
    requires HavePoints(legs)
    ensures HavePoints(RouteLegs(legs, profile, lookup))
  {
  }

  /**
   On a journey assembled and routed, the days' kilometres add up to observed + routed + unknown + air
   as the journey reports them.
   */
  lemma DaysKmAddUp(obs: Observations, ws: Time, we: Time, p: Params, dist: Distance,
                    profile: string, lookup: map<Key, Cached>, days: seq<Day>)
    ensures var j := Applied(Assembled(obs, ws, we, p, dist), profile, lookup);
            && HavePoints(j.legs)
            && (Sliced(j, days) ==> Sum(days, KmOf) == j.observedKm + j.routedKm + j.unknownKm + j.airKm)
  {
    hide CivilDay, FirstDay, LastDay, OverDays, Sum, Legs, RouteLeg, Answered, GainedKm, DayOf;
    var raw := Assembled(obs, ws, we, p, dist);
    var j := Applied(raw, profile, lookup);
    AssembledGaps(obs, ws, we, p, dist);
    RoutedHavePoints(raw.legs, profile, lookup);
    if Sliced(j, days) {
      DayKmAddUp(j, days, |days|);
      assert days[..|days|] == days;
    }
    JourneyDaysAddUp(j, DrawnKm);
    RouteAccounts(raw.legs, profile, lookup);
    OpenIsGround(raw.legs);
    KindsPartition(raw.legs);
  }

  // ---- Pace ----

  /** Every moving leg takes some time. */
  ghost predicate MovesInTime(legs: seq<Leg>) {
    forall i | 0 <= i < |legs| && Moves(legs[i]) :: Paced(legs[i])
  }

  ghost predicate NoNegatives(legs: seq<Leg>) {
    forall i | 0 <= i < |legs| ::
      legs[i].points != [] && legs[i].distanceKm >= 0.0 && legs[i].points[0].time.ns <= Last(legs[i].points).time.ns
  }

  lemma PacedIsMoving(l: Leg)
    requires l.points != [] && l.distanceKm >= 0.0 && l.points[0].time.ns <= Last(l.points).time.ns
    ensures MovingHours(l) == PacedHours(l)
    ensures MovingKm(l) >= PacedKm(l)
    ensures MovingKm(l) == PacedKm(l) <==> (Moves(l) ==> Paced(l))
  {
  }

  /**
   The days' moving hours add up to the summary's. Their kilometres do exactly when no moving leg is over
   in no time at all: the slicer counts such a leg's distance, the summary does not.
   */
  lemma {:induction false} PaceAgreesIff(legs: seq<Leg>)
    requires NoNegatives(legs)
    ensures Sum(legs, MovingHours) == Sum(legs, PacedHours)
    ensures Sum(legs, MovingKm) >= Sum(legs, PacedKm)
    ensures Sum(legs, MovingKm) == Sum(legs, PacedKm) <==> MovesInTime(legs)
  {
    hide Moves, Paced, MovingHours, MovingKm, PacedHours, PacedKm;
    if legs != [] {
      PaceAgreesIff(Front(legs));
      assert legs == Front(legs) + [Last(legs)];
      assert MovesInTime(legs) <==> MovesInTime(Front(legs)) && (Moves(Last(legs)) ==> Paced(Last(legs)));
      PacedIsMoving(Last(legs));
    }
  }

  ghost predicate RunsApart(legs: seq<Leg>, s: real) {
    forall i | 0 <= i < |legs| && legs[i].kind == Observed :: Spaced(legs[i].points, s)
  }

  lemma SpacedSnoc(run: seq<TimedPoint>, pt: TimedPoint, s: real)
    requires run == [] || (Spaced(run, s) && Seconds(Last(run).time, pt.time) >= s)
    ensures Spaced(run + [pt], s)
  {
    hide Seconds;
  }

  lemma SpacedFront(kept: seq<TimedPoint>, s: real)
    requires Spaced(kept, s) && |kept| >= 2
    ensures Spaced(Front(kept), s) && Seconds(Last(Front(kept)).time, Last(kept).time) >= s
  {
    hide Seconds;
  }

  lemma ApartSnoc(legs: seq<Leg>, l: Leg, s: real)
    requires RunsApart(legs, s) && (l.kind == Observed ==> Spaced(l.points, s))
    ensures RunsApart(legs + [l], s)
  {
    hide Spaced;
  }

  lemma ApartFront(legs: seq<Leg>, s: real)
    requires RunsApart(legs, s) && legs != []
    ensures RunsApart(Front(legs), s) && (Last(legs).kind == Observed ==> Spaced(Last(legs).points, s))
  {
    hide Spaced;
  }

  lemma {:induction false} RunsSpaced(kept: seq<TimedPoint>, p: Params, dist: Distance, s: real)
    requires Spaced(kept, s)
    ensures RunsApart(Legs(kept, p, dist), s)
  {
    hide Silence, FliesOver, ChordKm, Seconds;
    if |kept| >= 2 {
      hide Spaced, RunsApart, WellSplit;
      SpacedFront(kept, s);
      RunsSpaced(Front(kept), p, dist, s);
      LegsWellSplit(Front(kept), p, dist);
      var before, pt := Legs(Front(kept), p, dist), Last(kept);
      EndsObserved(before, Front(kept), p, dist);
      ApartFront(before, s);
      var run := Last(before).points;
      if Silence(Last(run), pt, p) {
        var gap := GapLeg(Last(run), pt, p, dist);
        SpacedSnoc([], pt, s);
        ApartSnoc(before, gap, s);
        ApartSnoc(before + [gap], ObservedLeg([pt], dist), s);
        assert before + [gap] + [ObservedLeg([pt], dist)] == before + [gap, ObservedLeg([pt], dist)];
      } else {
        SpacedSnoc(run, pt, s);
        ApartSnoc(Front(before), ObservedLeg(run + [pt], dist), s);
      }
    }
  }

  lemma {:induction false} SpacedTakesTime(pts: seq<TimedPoint>, s: real)
    requires Spaced(pts, s) && s >= 0.0 && pts != []
    ensures pts[0].time.ns <= Last(pts).time.ns
    ensures |pts| >= 2 && s > 0.0 ==> pts[0].time.ns < Last(pts).time.ns
  {
    if |pts| >= 2 {
      SpacedTakesTime(Front(pts), s);
      assert Seconds(pts[|pts| - 2].time, pts[|pts| - 1].time) >= s;
    }
  }

  lemma {:induction false} ChordsNonNegative(pts: seq<TimedPoint>, dist: Distance)
    ensures ChordKm(pts, dist) >= 0.0
  {
    if |pts| >= 2 {
      ChordsNonNegative(Front(pts), dist);
      assert dist(pts[|pts| - 2].loc, Last(pts).loc) >= 0.0;
    }
  }

  lemma {:induction false} ObservedDistances(legs: seq<Leg>, p: Params, dist: Distance)
    requires forall i | 0 <= i < |legs| :: LegOk(legs[i], p, dist)
    ensures forall i | 0 <= i < |legs| :: legs[i].distanceKm >= 0.0
  {
    hide ChordKm, FliesOver, Silence;
    forall i | 0 <= i < |legs| ensures legs[i].distanceKm >= 0.0 {
      assert LegOk(legs[i], p, dist);
      ChordsNonNegative(legs[i].points, dist);
      if legs[i].kind == Gap {
        assert dist(legs[i].points[0].loc, legs[i].points[1].loc) >= 0.0;
      }
    }
  }

  lemma OrderedIsSpaced(pts: seq<TimedPoint>)
    requires Ordered(pts)
    ensures Spaced(pts, 0.0)
  {
  }

  lemma KeptLegs(obs: Observations, ws: Time, we: Time, p: Params, dist: Distance)
    ensures Assembled(obs, ws, we, p, dist).legs == Legs(KeptPoints(obs, ws, we, p, dist), p, dist)
  {
  }

  /** The legs of a stream in time order run forward in time. */
  lemma LegsRunForward(kept: seq<TimedPoint>, p: Params, dist: Distance)
    requires Ordered(kept)
    ensures NoNegatives(Legs(kept, p, dist))
  {
    hide Legs, ChordKm, FliesOver, Silence, Spaced, Ordered;
    var legs := Legs(kept, p, dist);
    LegsWellSplit(kept, p, dist);
    OrderedIsSpaced(kept);
    RunsSpaced(kept, p, dist, 0.0);
    GapsForward(kept, p, dist);
    ObservedDistances(legs, p, dist);
    forall i | 0 <= i < |legs| ensures legs[i].points[0].time.ns <= Last(legs[i].points).time.ns {
      if legs[i].kind == Observed {
        SpacedTakesTime(legs[i].points, 0.0);
      }
    }
  }

  /** The legs of an assembled journey run forward in time. */
  lemma AssembledRunsForward(obs: Observations, ws: Time, we: Time, p: Params, dist: Distance)
    ensures NoNegatives(Assembled(obs, ws, we, p, dist).legs)
  {
    KeptLegs(obs, ws, we, p, dist);
    KeptOrdered(obs, ws, we, p, dist);
    LegsRunForward(KeptPoints(obs, ws, we, p, dist), p, dist);
    hide Assembled, KeptPoints, Legs, NoNegatives;
  }

  /** With a thinning spacing above zero, every moving leg of an assembled journey takes time. */
  lemma AssembledMovesInTime(obs: Observations, ws: Time, we: Time, p: Params, dist: Distance)
    requires p.thinSpacingSeconds > 0.0
    ensures MovesInTime(Assembled(obs, ws, we, p, dist).legs)
  {
    hide Legs, ChordKm, FliesOver, Silence, Spaced, Ordered;
    var kept := KeptPoints(obs, ws, we, p, dist);
    var legs := Legs(kept, p, dist);
    LegsWellSplit(kept, p, dist);
    KeptOrdered(obs, ws, we, p, dist);
    RunsSpaced(kept, p, dist, p.thinSpacingSeconds);
    forall i | 0 <= i < |legs| && Moves(legs[i]) ensures Paced(legs[i]) {
      SpacedTakesTime(legs[i].points, p.thinSpacingSeconds);
    }
  }

  /** Routing does not touch a leg's pace. */
  lemma {:induction false} PaceSurvivesRouting(legs: seq<Leg>, profile: string, lookup: map<Key, Cached>)
    ensures NoNegatives(RouteLegs(legs, profile, lookup)) <==> NoNegatives(legs)
    ensures MovesInTime(RouteLegs(legs, profile, lookup)) <==> MovesInTime(legs)
  {
    hide Answered;
    var r := RouteLegs(legs, profile, lookup);
    forall i | 0 <= i < |legs|
      ensures r[i].points == legs[i].points && r[i].distanceKm == legs[i].distanceKm && r[i].kind == legs[i].kind
    {
      RouteKeepsMeasurement(legs[i], profile, lookup);
    }
  }

  /**
   The moving hours of the days come to the hours of the pace the server reports for the whole journey.
   Their kilometres do exactly when every moving leg takes time, as under a thinning spacing above zero.
   */
  lemma DaysPaceAddsUp(obs: Observations, ws: Time, we: Time, p: Params, dist: Distance,
                       profile: string, lookup: map<Key, Cached>, days: seq<Day>)
    ensures var j := Applied(Assembled(obs, ws, we, p, dist), profile, lookup);
            && HavePoints(j.legs)
            && (Sliced(j, days) ==>
                  && (forall d | d in days :: ListsLegs(d, j.legs))
                  && Sum(days, DayFigure(j.legs, MovingHours)) == Sum(j.legs, PacedHours)
                  && (Sum(days, DayFigure(j.legs, MovingKm)) == Sum(j.legs, PacedKm) <==> MovesInTime(j.legs)))
            && (p.thinSpacingSeconds > 0.0 ==> MovesInTime(j.legs))
  {
    hide CivilDay, FirstDay, LastDay, Sum, Legs, RouteLegs, MovesInTime, Sliced, DayFigure, ListsLegs;
    var raw := Assembled(obs, ws, we, p, dist);
    var j := Applied(raw, profile, lookup);
    AssembledRunsForward(obs, ws, we, p, dist);
    if p.thinSpacingSeconds > 0.0 {
      AssembledMovesInTime(obs, ws, we, p, dist);
    }
    PaceSurvivesRouting(raw.legs, profile, lookup);
    PaceAgreesIff(j.legs);
    if Sliced(j, days) {
      SlicedDaysAddUp(j, days, MovingKm);
      SlicedDaysAddUp(j, days, MovingHours);
    }
  }

  function TwoAtOnce(a: LatLng, b: LatLng, t: Time): Observations {
    Observations([], [], [PathPoint(t, Some(a)), PathPoint(t, Some(b))], [])
  }

  lemma BothSelected(a: LatLng, b: LatLng, t: Time, ws: Time, we: Time)
    requires InWindow(t, ws, we) && !NullIsland(a) && !NullIsland(b)
    ensures TracePoints(TwoAtOnce(a, b, t).points, ws, we) == [TimedPoint(t, a, Trace), TimedPoint(t, b, Trace)]
  {
    var x, y := PathPoint(t, Some(a)), PathPoint(t, Some(b));
    FilterAll([x, y], TraceOk(ws, we));
    hide Filter;
    assert Front([x, y]) == [x] && Front([x]) == [];
    assert Map([x], FromTrace) == [FromTrace(x)];
  }

  lemma BothThinned(u: TimedPoint, v: TimedPoint, spacing: real)
    requires u.time == v.time && spacing <= 0.0
    ensures Thin([u, v], spacing) == [u, v]
  {
    assert Front([u, v]) == [u] && Front([u]) == [];
    assert Thin([u], spacing) == [u];
  }

  /** Two trace points at one instant, thinned by nothing. */
  lemma SimultaneousKept(a: LatLng, b: LatLng, t: Time, ws: Time, we: Time, p: Params, dist: Distance)
    requires p.thinSpacingSeconds <= 0.0 && InWindow(t, ws, we) && !NullIsland(a) && !NullIsland(b)
    ensures KeptPoints(TwoAtOnce(a, b, t), ws, we, p, dist) == [TimedPoint(t, a, Trace), TimedPoint(t, b, Trace)]
  {
    var u, v := TimedPoint(t, a, Trace), TimedPoint(t, b, Trace);
    BothSelected(a, b, t, ws, we);
    assert RawPoints([], ws, we, p) == [];
    assert [u, v] + [] == [u, v];
    SortedIsFixed([u, v], PointKey);
    BothThinned(u, v, p.thinSpacingSeconds);
    hide TracePoints, RawPoints, Thin, SortStable, NullIsland, InWindow;
  }

  /**
   Without a spacing the slicer and the summary can disagree: two trace points at one instant and some way
   apart are a leg that moves in no time, whose length the days count and the summary does not.
   */
  lemma SimultaneousPointsDisagree(a: LatLng, b: LatLng, t: Time, ws: Time, we: Time, p: Params, dist: Distance,
                                   days: seq<Day>)
    requires p.thinSpacingSeconds <= 0.0 <= p.gapThresholdMinutes && InWindow(t, ws, we)
    requires !NullIsland(a) && !NullIsland(b) && dist(a, b) > 0.0
    ensures var j := Assembled(TwoAtOnce(a, b, t), ws, we, p, dist);
            && HavePoints(j.legs) && !MovesInTime(j.legs) && Sum(j.legs, PacedKm) == 0.0
            && (Sliced(j, days) ==> Sum(days, DayFigure(j.legs, MovingKm)) == dist(a, b) / 1000.0)
  {
    hide CivilDay, FirstDay, LastDay, DayOf, Sliced, DayFigure, ListsLegs, KeptPoints;
    var obs := TwoAtOnce(a, b, t);
    SimultaneousKept(a, b, t, ws, we, p, dist);
    var kept := [TimedPoint(t, a, Trace), TimedPoint(t, b, Trace)];
    var j := Assembled(obs, ws, we, p, dist);
    KeptLegs(obs, ws, we, p, dist);
    OneSharpLeg(kept[0], kept[1], p, dist);
    if Sliced(j, days) {
      SlicedDaysAddUp(j, days, MovingKm);
    }
  }

  lemma OneLeg(u: TimedPoint, v: TimedPoint, p: Params, dist: Distance)
    requires u.time == v.time && p.gapThresholdMinutes >= 0.0
    ensures Legs([u, v], p, dist) == [ObservedLeg([u, v], dist)]
  {
    assert Front([u, v]) == [u] && Front([u]) == [];
    assert Legs([u], p, dist) == [ObservedLeg([u], dist)];
    assert Front([ObservedLeg([u], dist)]) == [] && [u] + [v] == [u, v];
    hide ChordKm;
  }

  lemma SumOfOne(l: Leg, f: Leg -> real)
    ensures Sum([l], f) == f(l)
  {
    assert Front([l]) == [] && Sum([], f) == 0.0;
  }

  lemma OneSharpLeg(u: TimedPoint, v: TimedPoint, p: Params, dist: Distance)
    requires u.time == v.time && p.gapThresholdMinutes >= 0.0 && dist(u.loc, v.loc) > 0.0
    ensures var legs := Legs([u, v], p, dist);
            && HavePoints(legs) && !MovesInTime(legs)
            && Sum(legs, PacedKm) == 0.0 && Sum(legs, MovingKm) == dist(u.loc, v.loc) / 1000.0
  {
    OneLeg(u, v, p, dist);
    var leg := ObservedLeg([u, v], dist);
    assert leg.distanceKm == dist(u.loc, v.loc) / 1000.0 by {
      assert Front([u, v]) == [u];
    }
    SumOfOne(leg, PacedKm);
    SumOfOne(leg, MovingKm);
    hide Legs, Sum, ChordKm;
    assert Moves(leg) && !Paced(leg);
  }

  // ---- Hours inside the window ----

  function LegHours(l: Leg): real { if l.points == [] then 0.0 else Hours(l.points[0].time, Last(l.points).time) }

  /** Joined legs take, together, the time from the first point to the last. */
  lemma {:induction false} LegsTelescope(legs: seq<Leg>)
    requires legs != [] && HavePoints(legs) && Joined(legs)
    ensures Sum(legs, LegHours) == Hours(legs[0].points[0].time, Last(Last(legs).points).time)
  {
    if |legs| == 1 {
      assert Front(legs) == [];
    } else {
      LegsTelescope(Front(legs));
      assert Last(legs[|legs| - 2].points) == legs[|legs| - 1].points[0];
    }
  }

  lemma {:induction false} PacedWithinSpan(legs: seq<Leg>)
    requires NoNegatives(legs)
    ensures Sum(legs, PacedHours) <= Sum(legs, LegHours)
  {
    if legs != [] {
      PacedWithinSpan(Front(legs));
      assert legs[|legs| - 1] == Last(legs);
    }
  }

  lemma {:induction false} SelectedInWindow(points: seq<PathPoint>, raws: seq<RawPosition>, ws: Time, we: Time,
                                            p: Params)
    ensures forall i | 0 <= i < |TracePoints(points, ws, we)| :: InWindow(TracePoints(points, ws, we)[i].time, ws, we)
    ensures forall i | 0 <= i < |RawPoints(raws, ws, we, p)| :: InWindow(RawPoints(raws, ws, we, p)[i].time, ws, we)
  {
    FilterHolds(points, TraceOk(ws, we));
    FilterHolds(raws, RawOk(ws, we, p));
    var traces, rest := Filter(points, TraceOk(ws, we)), Filter(raws, RawOk(ws, we, p));
    forall i | 0 <= i < |traces| ensures InWindow(TracePoints(points, ws, we)[i].time, ws, we) {
      assert TraceOk(ws, we)(traces[i]);
    }
    forall i | 0 <= i < |rest| ensures InWindow(RawPoints(raws, ws, we, p)[i].time, ws, we) {
      assert RawOk(ws, we, p)(rest[i]);
    }
  }

  ghost predicate AllInWindow(points: seq<TimedPoint>, ws: Time, we: Time) {
    forall i | 0 <= i < |points| :: InWindow(points[i].time, ws, we)
  }

  lemma SortedInWindow(points: seq<TimedPoint>, ws: Time, we: Time)
    requires AllInWindow(points, ws, we)
    ensures AllInWindow(SortStable(points, PointKey), ws, we)
  {
    hide SortStable, InWindow;
    var sorted := SortStable(points, PointKey);
    SortStableElements(points, PointKey);
    forall i | 0 <= i < |sorted| ensures InWindow(sorted[i].time, ws, we) {
      assert sorted[i] in multiset(sorted);
      assert sorted[i] in points;
    }
  }

  lemma CleanInWindow(points: seq<TimedPoint>, ws: Time, we: Time, p: Params, dist: Distance)
    requires AllInWindow(points, ws, we)
    ensures AllInWindow(WithoutTeleports(points, p, dist), ws, we)
  {
    hide WithoutTeleports, PlausibleJoins, InWindow;
    var idx := TeleportsAreBridged(points, p, dist);
    var clean := WithoutTeleports(points, p, dist);
    forall i | 0 <= i < |clean| ensures InWindow(clean[i].time, ws, we) {
      assert clean[i] == points[idx[i]];
    }
  }

  lemma ThinInWindow(points: seq<TimedPoint>, ws: Time, we: Time, spacing: real)
    requires AllInWindow(points, ws, we)
    ensures AllInWindow(Thin(points, spacing), ws, we)
  {
    hide Thin, DroppedClose, InWindow;
    var idx := ThinLaws(points, spacing);
    var kept := Thin(points, spacing);
    forall i | 0 <= i < |kept| ensures InWindow(kept[i].time, ws, we) {
      assert kept[i] == points[idx[i]];
    }
  }

  /** Nothing outside the window is kept. */
  lemma KeptInWindow(obs: Observations, ws: Time, we: Time, p: Params, dist: Distance)
    ensures AllInWindow(KeptPoints(obs, ws, we, p, dist), ws, we)
  {
    hide TracePoints, RawPoints, WithoutTeleports, Thin, SortStable, InWindow;
    var traces, raws := TracePoints(obs.points, ws, we), RawPoints(obs.raws, ws, we, p);
    SelectedInWindow(obs.points, obs.raws, ws, we, p);
    var sorted := SortStable(traces + raws, PointKey);
    SortedInWindow(traces + raws, ws, we);
    CleanInWindow(sorted, ws, we, p, dist);
    ThinInWindow(WithoutTeleports(sorted, p, dist), ws, we, p.thinSpacingSeconds);
  }

  lemma {:induction false} DwellHours(stops: seq<Stop>)
    ensures Sum(stops, StopHours) == Sum(stops, DwellNs) / 3_600_000_000_000.0
  {
    if stops != [] {
      DwellHours(Front(stops));
    }
  }

  /** The moving hours of a journey never exceed the hours of its window. */
  lemma MovingFitsTheWindow(obs: Observations, ws: Time, we: Time, p: Params, dist: Distance)
    requires ws.ns <= we.ns
    ensures Sum(Assembled(obs, ws, we, p, dist).legs, PacedHours) <= Hours(ws, we)
  {
    hide Legs, Sum, FoundStops;
    var kept := KeptPoints(obs, ws, we, p, dist);
    var legs := Legs(kept, p, dist);
    AssembledRunsForward(obs, ws, we, p, dist);
    PacedWithinSpan(legs);
    if kept == [] {
      NoLegHours();
    } else {
      LegsWellSplit(kept, p, dist);
      Spans(legs, kept, p, dist);
      LegsTelescope(legs);
      KeptInWindow(obs, ws, we, p, dist);
      assert InWindow(kept[0].time, ws, we) && InWindow(kept[|kept| - 1].time, ws, we);
    }
  }

  /** Nor do its dwell hours, as long as no halt reaches into the next. */
  lemma DwellFitsTheWindow(obs: Observations, ws: Time, we: Time, p: Params, dist: Distance)
    requires p.minStopDwellSeconds >= 0.0 && ws.ns <= we.ns
    requires NextHaltsApart(Selected(obs.activities, ws, we), p)
    ensures Sum(Assembled(obs, ws, we, p, dist).stops, StopHours) <= Hours(ws, we)
  {
    hide Legs, Sum, FoundStops, StopsInside, StopsApart, HaltsApart, NextHaltsApart, Selected;
    var kept := KeptPoints(obs, ws, we, p, dist);
    var stops := FoundStops(obs.activities, kept, ws, we, p, dist);
    StopsStayInside(obs.activities, kept, ws, we, p, dist);
    StopsApartIff(obs.activities, kept, ws, we, p, dist);
    DwellBounded(stops, ws.ns, we.ns);
    DwellHours(stops);
  }

  lemma NoLegHours()
    ensures Sum<Leg>([], LegHours) == 0.0
  {
  }

  lemma Spans(legs: seq<Leg>, kept: seq<TimedPoint>, p: Params, dist: Distance)
    requires WellSplit(legs, kept, p, dist) && legs != []
    ensures HavePoints(legs) && Joined(legs)
    ensures kept != [] && legs[0].points[0] == kept[0] && Last(Last(legs).points) == Last(kept)
  {
    LegsSpanKept(legs, kept, p, dist);
  }
}
