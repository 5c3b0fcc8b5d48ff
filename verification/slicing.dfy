/**
 Day slicing (web/lib/slice-days.ts): which legs and stops each civil day lists, and what its figures are.
 */
module Slicing {
  import opened Domain
  import opened Seqs
  import opened Stops
  import opened Journeys
  import opened Routing
  import opened Summaries

  /** One civil day: its date, the legs that start on it, their drawn kilometres, the stops over it. */
  datatype Day = Day(index: nat, date: int, km: real, legIndices: seq<nat>, stopIndices: seq<nat>)

  datatype Composition = Composition(observed: real, routed: real, unknown: real, air: real)

  /** A stationary observed leg. */
  predicate IsFixLeg(l: Leg) { l.kind == Observed && (|l.points| == 1 || l.distanceKm == 0.0) }

  function StartDay(l: Leg): int
    requires l.points != []
  {
    CivilDay(l.points[0].time)
  }

  predicate StopOnDay(s: Stop, date: int) { CivilDay(s.start) <= date <= CivilDay(s.end) }

  // ---- What a day should hold ----

  function LegsOn(legs: seq<Leg>, date: int): seq<nat>
    requires HavePoints(legs)
  {
    if legs == [] then []
    else LegsOn(Front(legs), date) + if StartDay(Last(legs)) == date then [|legs| - 1] else []
  }

  function StopsOn(stops: seq<Stop>, date: int): seq<nat> {
    if stops == [] then []
    else StopsOn(Front(stops), date) + if StopOnDay(Last(stops), date) then [|stops| - 1] else []
  }

  /** A leg figure, counted only for the legs that start on the date. */
  function SumOn(legs: seq<Leg>, date: int, f: Leg -> real): real
    requires HavePoints(legs)
  {
    if legs == [] then 0.0
    else SumOn(Front(legs), date, f) + if StartDay(Last(legs)) == date then f(Last(legs)) else 0.0
  }

  function DayOf(j: Journey, i: nat): Day
    requires HavePoints(j.legs)
  {
    var date := FirstDay(j) + i;
    Day(i + 1, date, SumOn(j.legs, date, DrawnKm), LegsOn(j.legs, date), StopsOn(j.stops, date))
  }

  /** How many days the slicer lays out: none at all if the range is empty. */
  function DayCount(j: Journey): nat
    requires HavePoints(j.legs)
  {
    if LastDay(j) < FirstDay(j) then 0 else LastDay(j) - FirstDay(j) + 1
  }

  // ---- The method ----

  /** Stretches a range of days over the ends of every leg. */
  method TouchLegs(j: Journey) returns (first: int, last: int)
    requires HavePoints(j.legs)
    ensures first == Earliest(CivilDay(j.windowStart), LegDays(j.legs))
    ensures last == Latest(CivilDay(j.windowEnd), LegDays(j.legs))
  {
    hide CivilDay, Earliest, Latest;
    first, last := CivilDay(j.windowStart), CivilDay(j.windowEnd);
    TouchNone(first, last);
    for i := 0 to |j.legs|
      invariant HavePoints(j.legs[..i])
      invariant first == Earliest(CivilDay(j.windowStart), LegDays(j.legs[..i]))
      invariant last == Latest(CivilDay(j.windowEnd), LegDays(j.legs[..i]))
    {
      assert Front(j.legs[..i + 1]) == j.legs[..i];
      TouchTwo(CivilDay(j.windowStart), CivilDay(j.windowEnd), LegDays(j.legs[..i]),
               CivilDay(LegStart(j.legs[i])), CivilDay(LegEnd(j.legs[i])));
      first, last := Touch(first, last, CivilDay(LegStart(j.legs[i])));
      first, last := Touch(first, last, CivilDay(LegEnd(j.legs[i])));
    }
    assert j.legs[..|j.legs|] == j.legs;
  }

  lemma TouchNone(first: int, last: int)
    ensures Earliest(first, []) == first && Latest(last, []) == last
  {
  }

  method DayRange(j: Journey) returns (first: int, last: int)
    requires HavePoints(j.legs)
    ensures first == FirstDay(j) && last == LastDay(j)
  {
    hide CivilDay, Earliest, Latest;
    first, last := TouchLegs(j);
    ghost var days := LegDays(j.legs);
    assert days + StopDays([]) == days;
    for i := 0 to |j.stops|
      invariant first == Earliest(CivilDay(j.windowStart), days + StopDays(j.stops[..i]))
      invariant last == Latest(CivilDay(j.windowEnd), days + StopDays(j.stops[..i]))
    {
      assert Front(j.stops[..i + 1]) == j.stops[..i];
      ghost var a, b := CivilDay(j.stops[i].start), CivilDay(j.stops[i].end);
      assert days + (StopDays(j.stops[..i]) + [a, b]) == days + StopDays(j.stops[..i]) + [a, b];
      TouchTwo(CivilDay(j.windowStart), CivilDay(j.windowEnd), days + StopDays(j.stops[..i]), a, b);
      first, last := Touch(first, last, CivilDay(j.stops[i].start));
      first, last := Touch(first, last, CivilDay(j.stops[i].end));
    }
    assert j.stops[..|j.stops|] == j.stops;
  }

  /** The day after the first `n` legs have been handed out. */
  function DayWithLegs(j: Journey, i: nat, n: nat): Day
    requires HavePoints(j.legs) && n <= |j.legs|
  {
    var date := FirstDay(j) + i;
    Day(i + 1, date, SumOn(j.legs[..n], date, DrawnKm), LegsOn(j.legs[..n], date), [])
  }

  method LayOutDays(first: int, last: int) returns (days: array<Day>, byDate: map<int, nat>)
    ensures fresh(days) && days.Length == if last < first then 0 else last - first + 1
    ensures forall i | 0 <= i < days.Length :: days[i] == Day(i + 1, first + i, 0.0, [], [])
    ensures forall d :: d in byDate <==> first <= d <= last
    ensures forall d | d in byDate :: byDate[d] == d - first
  {
    var laid: seq<Day> := [];
    byDate := map[];
    var date := first;
    while date <= last
      invariant first <= date && (date <= last + 1 || date == first)
      invariant |laid| == date - first
      invariant forall i | 0 <= i < |laid| :: laid[i] == Day(i + 1, first + i, 0.0, [], [])
      invariant forall d :: d in byDate <==> first <= d < date
      invariant forall d | d in byDate :: byDate[d] == d - first
      decreases last - date
    {
      byDate := byDate[date := |laid|];
      laid := laid + [Day(|laid| + 1, date, 0.0, [], [])];
      date := date + 1;
    }
    days := new Day[|laid|](i requires 0 <= i < |laid| => laid[i]);
  }

  /** Gives each leg, undivided, to the day of its first point. */
  method AssignLegs(j: Journey, days: array<Day>, byDate: map<int, nat>)
    requires HavePoints(j.legs) && days.Length == DayCount(j)
    requires forall i | 0 <= i < days.Length :: days[i] == DayWithLegs(j, i, 0)
    requires forall d :: d in byDate <==> FirstDay(j) <= d <= LastDay(j)
    requires forall d | d in byDate :: byDate[d] == d - FirstDay(j)
    modifies days
    ensures forall i | 0 <= i < days.Length :: days[i] == DayWithLegs(j, i, |j.legs|)
  {
    hide CivilDay, FirstDay, LastDay, DrawnKm;
    DayRangeCovers(j);
    for n := 0 to |j.legs|
      invariant forall i | 0 <= i < days.Length :: days[i] == DayWithLegs(j, i, n)
    {
      var leg := j.legs[n];
      var d := byDate[CivilDay(leg.points[0].time)];
      assert Front(j.legs[..n + 1]) == j.legs[..n];
      forall i | 0 <= i < days.Length && i != d ensures DayWithLegs(j, i, n + 1) == DayWithLegs(j, i, n) {
        assert FirstDay(j) + i != StartDay(leg);
        assert LegsOn(j.legs[..n], FirstDay(j) + i) + [] == LegsOn(j.legs[..n], FirstDay(j) + i);
      }
      days[d] := days[d].(legIndices := days[d].legIndices + [n], km := days[d].km + DrawnKm(leg));
    }
  }

  /** Lists each stop under all the days from its first date to its last. */
  method AssignStops(j: Journey, days: array<Day>)
    requires HavePoints(j.legs) && days.Length == DayCount(j)
    requires forall i | 0 <= i < days.Length :: days[i] == DayWithLegs(j, i, |j.legs|)
    modifies days
    ensures forall i | 0 <= i < days.Length :: days[i] == DayOf(j, i)
  {
    hide CivilDay, FirstDay, LastDay, SumOn, LegsOn;
    assert j.legs[..|j.legs|] == j.legs;
    for n := 0 to |j.stops|
      invariant forall i | 0 <= i < days.Length ::
        days[i] == DayWithLegs(j, i, |j.legs|).(stopIndices := StopsOn(j.stops[..n], FirstDay(j) + i))
    {
      var s := j.stops[n];
      assert Front(j.stops[..n + 1]) == j.stops[..n];
      for k := 0 to days.Length
        invariant forall i | 0 <= i < days.Length ::
          var seen := j.stops[..if i < k then n + 1 else n];
          days[i] == DayWithLegs(j, i, |j.legs|).(stopIndices := StopsOn(seen, FirstDay(j) + i))
      {
        if CivilDay(s.start) <= days[k].date && days[k].date <= CivilDay(s.end) {
          days[k] := days[k].(stopIndices := days[k].stopIndices + [n]);
        } else {
          assert StopsOn(j.stops[..n], FirstDay(j) + k) + [] == StopsOn(j.stops[..n], FirstDay(j) + k);
        }
      }
    }
    assert j.stops[..|j.stops|] == j.stops;
  }

  // ---- What a day lists ----

  /** Its own stops and legs: the stops whose civil dates span the day, the legs whose first point is on it. */
  ghost predicate ListsItsOwn(day: Day, j: Journey)
    requires HavePoints(j.legs)
  {
    && Increasing(day.stopIndices) && Increasing(day.legIndices)
    && (forall i: nat :: i in day.stopIndices <==>
          i < |j.stops| && CivilDay(j.stops[i].start) <= day.date <= CivilDay(j.stops[i].end))
    && (forall i: nat :: i in day.legIndices <==>
          i < |j.legs| && CivilDay(j.legs[i].points[0].time) == day.date)
  }

  function Over(date: int): Stop -> bool { (s: Stop) => CivilDay(s.start) <= date <= CivilDay(s.end) }

  function From(date: int): Leg -> bool { (l: Leg) => l.points != [] && CivilDay(l.points[0].time) == date }

  lemma {:induction false} StopsOnPlaces(stops: seq<Stop>, date: int)
    ensures PlacesWhere(StopsOn(stops, date), stops, Over(date))
  {
    hide CivilDay;
    if stops != [] {
      hide PlacesWhere;
      var before, front := StopsOn(Front(stops), date), Front(stops);
      StopsOnPlaces(front, date);
      PlacesSnoc(before, front, Last(stops), Over(date));
      assert StopsOn(stops, date) == if Over(date)(Last(stops)) then before + [|front|] else before;
      assert stops == front + [Last(stops)];
    }
  }

  lemma {:induction false} LegsOnPlaces(legs: seq<Leg>, date: int)
    requires HavePoints(legs)
    ensures PlacesWhere(LegsOn(legs, date), legs, From(date))
  {
    hide CivilDay;
    if legs != [] {
      hide PlacesWhere;
      LegsOnPlaces(Front(legs), date);
      PlacesSnoc(LegsOn(Front(legs), date), Front(legs), Last(legs), From(date));
      assert legs == Front(legs) + [Last(legs)];
    }
  }

  lemma DayListsItsOwn(j: Journey, i: nat)
    requires HavePoints(j.legs)
    ensures ListsItsOwn(DayOf(j, i), j)
  {
    hide CivilDay, FirstDay, StopsOn, LegsOn, SumOn, Increasing;
    StopsOnPlaces(j.stops, FirstDay(j) + i);
    LegsOnPlaces(j.legs, FirstDay(j) + i);
  }

  method SliceDays(j: Journey) returns (days: seq<Day>)
    requires HavePoints(j.legs)
    ensures |days| == DayCount(j) && forall i | 0 <= i < |days| :: days[i] == DayOf(j, i)
    ensures forall i | 0 <= i < |days| ::
      days[i].index == i + 1 && days[i].date == FirstDay(j) + i && ListsItsOwn(days[i], j)
  {
    forall i: nat ensures ListsItsOwn(DayOf(j, i), j) {
      DayListsItsOwn(j, i);
    }
    hide CivilDay, FirstDay, LastDay, ListsItsOwn;
    var first, last := DayRange(j);
    var a, byDate := LayOutDays(first, last);
    AssignLegs(j, a, byDate);
    AssignStops(j, a);
    days := a[..];
  }

  method DayComposition(day: Day, legs: seq<Leg>) returns (c: Composition)
    requires forall k | 0 <= k < |day.legIndices| :: day.legIndices[k] < |legs|
    ensures c.observed == SumAt(legs, day.legIndices, DrawnObservedKm)
    ensures c.routed == SumAt(legs, day.legIndices, DrawnRoadKm)
    ensures c.unknown == SumAt(legs, day.legIndices, DrawnUnknownKm)
    ensures c.air == SumAt(legs, day.legIndices, DrawnAirKm)
  {
    c := Composition(0.0, 0.0, 0.0, 0.0);
    for k := 0 to |day.legIndices|
      invariant c.observed == SumAt(legs, day.legIndices[..k], DrawnObservedKm)
      invariant c.routed == SumAt(legs, day.legIndices[..k], DrawnRoadKm)
      invariant c.unknown == SumAt(legs, day.legIndices[..k], DrawnUnknownKm)
      invariant c.air == SumAt(legs, day.legIndices[..k], DrawnAirKm)
    {
      var leg := legs[day.legIndices[k]];
      var km := DrawnKm(leg);
      assert Front(day.legIndices[..k + 1]) == day.legIndices[..k];
      if leg.kind == Observed {
        c := c.(observed := c.observed + km);
      } else if leg.gapKind == Road {
        c := c.(routed := c.routed + km);
      } else if leg.gapKind == Air {
        c := c.(air := c.air + km);
      } else {
        c := c.(unknown := c.unknown + km);
      }
    }
    assert day.legIndices[..|day.legIndices|] == day.legIndices;
  }

  /** A figure summed over the legs a day lists. */
  function SumAt(legs: seq<Leg>, indices: seq<nat>, f: Leg -> real): real
    requires forall k | 0 <= k < |indices| :: indices[k] < |legs|
  {
    if indices == [] then 0.0 else SumAt(legs, Front(indices), f) + f(legs[Last(indices)])
  }

  function DrawnObservedKm(l: Leg): real { if l.kind == Observed then DrawnKm(l) else 0.0 }

  function DrawnRoadKm(l: Leg): real { if l.kind == Gap && l.gapKind == Road then DrawnKm(l) else 0.0 }

  function DrawnAirKm(l: Leg): real { if l.kind == Gap && l.gapKind == Air then DrawnKm(l) else 0.0 }

  function DrawnUnknownKm(l: Leg): real {
    if l.kind == Gap && l.gapKind != Road && l.gapKind != Air then DrawnKm(l) else 0.0
  }

  /** The day's pace figures: every moving observed leg counts, whatever its duration. */
  function MovingKm(l: Leg): real { if l.kind == Observed && !IsFixLeg(l) then l.distanceKm else 0.0 }

  function MovingHours(l: Leg): real {
    if l.kind == Observed && !IsFixLeg(l) && l.points != [] then Hours(l.points[0].time, Last(l.points).time) else 0.0
  }

  /** Pace over one day: absent when no moving leg took any time. */
  method DayPaceKmh(day: Day, legs: seq<Leg>) returns (pace: Option<real>)
    requires forall k | 0 <= k < |day.legIndices| :: day.legIndices[k] < |legs|
    requires HavePoints(legs)
    ensures pace == if SumAt(legs, day.legIndices, MovingHours) > 0.0
                    then Some(SumAt(legs, day.legIndices, MovingKm) / SumAt(legs, day.legIndices, MovingHours))
                    else None
  {
    hide Hours;
    var km, hours := 0.0, 0.0;
    for i := 0 to |day.legIndices|
      invariant km == SumAt(legs, day.legIndices[..i], MovingKm)
      invariant hours == SumAt(legs, day.legIndices[..i], MovingHours)
    {
      var leg := legs[day.legIndices[i]];
      assert Front(day.legIndices[..i + 1]) == day.legIndices[..i];
      if leg.kind != Observed || IsFixLeg(leg) {
        continue;
      }
      km := km + leg.distanceKm;
      hours := hours + Hours(leg.points[0].time, leg.points[|leg.points| - 1].time);
    }
    assert day.legIndices[..|day.legIndices|] == day.legIndices;
    pace := if hours > 0.0 then Some(km / hours) else None;
  }
}
