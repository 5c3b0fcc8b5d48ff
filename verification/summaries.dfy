/** The journey summary (internal/journey/summary.go): span, civil days, dwell, and moving pace. */
module Summaries {
  import opened Domain
  import opened Seqs
  import opened Teleports
  import opened Stops
  import opened Journeys

  datatype Summary = Summary(spanHours: real, civilDays: int, stops: nat, dwellHours: real,
                             observedHours: real, observedPaceKmh: real, paceOk: bool)

  function LegStart(l: Leg): Time
    requires l.points != []
  {
    l.points[0].time
  }

  function LegEnd(l: Leg): Time
    requires l.points != []
  {
    Last(l.points).time
  }

  // ---- Civil days ----

  /** The civil dates of leg and stop ends, each in its own recorded offset. */
  function LegDays(legs: seq<Leg>): seq<int>
    requires HavePoints(legs)
  {
    if legs == [] then []
    else LegDays(Front(legs)) + [CivilDay(LegStart(Last(legs))), CivilDay(LegEnd(Last(legs)))]
  }

  function StopDays(stops: seq<Stop>): seq<int> {
    if stops == [] then [] else StopDays(Front(stops)) + [CivilDay(Last(stops).start), CivilDay(Last(stops).end)]
  }

  function MinInt(a: int, b: int): int { if b < a then b else a }

  function MaxInt(a: int, b: int): int { if b > a then b else a }

  function Earliest(day: int, days: seq<int>): int {
    if days == [] then day else MinInt(Earliest(day, Front(days)), Last(days))
  }

  function Latest(day: int, days: seq<int>): int {
    if days == [] then day else MaxInt(Latest(day, Front(days)), Last(days))
  }

  /** Every date the journey touches besides the window's own. */
  function TouchedDays(j: Journey): seq<int>
    requires HavePoints(j.legs)
  {
    LegDays(j.legs) + StopDays(j.stops)
  }

  function FirstDay(j: Journey): int
    requires HavePoints(j.legs)
  {
    Earliest(CivilDay(j.windowStart), TouchedDays(j))
  }

  function LastDay(j: Journey): int
    requires HavePoints(j.legs)
  {
    Latest(CivilDay(j.windowEnd), TouchedDays(j))
  }

  lemma {:induction false} EarliestBounds(day: int, days: seq<int>)
    ensures Earliest(day, days) <= day && forall i | 0 <= i < |days| :: Earliest(day, days) <= days[i]
    ensures Earliest(day, days) == day || Earliest(day, days) in days
  {
    if days != [] {
      EarliestBounds(day, Front(days));
    }
  }

  lemma {:induction false} LatestBounds(day: int, days: seq<int>)
    ensures Latest(day, days) >= day && forall i | 0 <= i < |days| :: Latest(day, days) >= days[i]
    ensures Latest(day, days) == day || Latest(day, days) in days
  {
    if days != [] {
      LatestBounds(day, Front(days));
    }
  }

  lemma {:induction false} LegDaysListed(legs: seq<Leg>, i: nat)
    requires HavePoints(legs) && i < |legs|
    ensures CivilDay(LegStart(legs[i])) in LegDays(legs) && CivilDay(LegEnd(legs[i])) in LegDays(legs)
  {
    hide CivilDay;
    var added := [CivilDay(LegStart(Last(legs))), CivilDay(LegEnd(Last(legs)))];
    assert added[0] in LegDays(legs) && added[1] in LegDays(legs);
    if i < |legs| - 1 {
      LegDaysListed(Front(legs), i);
      assert Front(legs)[i] == legs[i];
    }
  }

  lemma {:induction false} StopDaysListed(stops: seq<Stop>, i: nat)
    requires i < |stops|
    ensures CivilDay(stops[i].start) in StopDays(stops) && CivilDay(stops[i].end) in StopDays(stops)
  {
    hide CivilDay;
    var added := [CivilDay(Last(stops).start), CivilDay(Last(stops).end)];
    assert added[0] in StopDays(stops) && added[1] in StopDays(stops);
    if i < |stops| - 1 {
      StopDaysListed(Front(stops), i);
      assert Front(stops)[i] == stops[i];
    }
  }

  /** The day range reaches every leg, every stop and both window edges. */
  lemma DayRangeCovers(j: Journey)
    requires HavePoints(j.legs)
    ensures FirstDay(j) == CivilDay(j.windowStart) || FirstDay(j) in TouchedDays(j)
    ensures LastDay(j) == CivilDay(j.windowEnd) || LastDay(j) in TouchedDays(j)
    ensures FirstDay(j) <= CivilDay(j.windowStart) && CivilDay(j.windowEnd) <= LastDay(j)
    ensures forall i | 0 <= i < |j.legs| ::
      && FirstDay(j) <= CivilDay(LegStart(j.legs[i])) <= LastDay(j)
      && FirstDay(j) <= CivilDay(LegEnd(j.legs[i])) <= LastDay(j)
    ensures forall i | 0 <= i < |j.stops| ::
      FirstDay(j) <= CivilDay(j.stops[i].start) <= LastDay(j) && FirstDay(j) <= CivilDay(j.stops[i].end) <= LastDay(j)
  {
    hide CivilDay, Earliest, Latest, LegDays, StopDays;
    var days := TouchedDays(j);
    EarliestBounds(CivilDay(j.windowStart), days);
    LatestBounds(CivilDay(j.windowEnd), days);
    assert forall d | d in LegDays(j.legs) || d in StopDays(j.stops) :: d in days;
    assert forall d | d in days :: FirstDay(j) <= d <= LastDay(j);
    forall i | 0 <= i < |j.legs|
      ensures FirstDay(j) <= CivilDay(LegStart(j.legs[i])) <= LastDay(j)
      ensures FirstDay(j) <= CivilDay(LegEnd(j.legs[i])) <= LastDay(j)
    {
      LegDaysListed(j.legs, i);
    }
    forall i | 0 <= i < |j.stops|
      ensures FirstDay(j) <= CivilDay(j.stops[i].start) <= LastDay(j)
      ensures FirstDay(j) <= CivilDay(j.stops[i].end) <= LastDay(j)
    {
      StopDaysListed(j.stops, i);
    }
  }

  method CivilDays(j: Journey) returns (n: int)
    requires HavePoints(j.legs)
    ensures n == LastDay(j) - FirstDay(j) + 1
  {
    hide CivilDay;
    var first, last := CivilDay(j.windowStart), CivilDay(j.windowEnd);
    for i := 0 to |j.legs|
      invariant HavePoints(j.legs[..i])
      invariant first == Earliest(CivilDay(j.windowStart), LegDays(j.legs[..i]))
      invariant last == Latest(CivilDay(j.windowEnd), LegDays(j.legs[..i]))
    {
      assert Front(j.legs[..i + 1]) == j.legs[..i];
      TouchTwo(CivilDay(j.windowStart), CivilDay(j.windowEnd), LegDays(j.legs[..i]),
               CivilDay(LegStart(j.legs[i])), CivilDay(LegEnd(j.legs[i])));
      first, last := Touch(first, last, CivilDay(LegStart(j.legs[i])));
      first, last := Touch(first, last, CivilDay(LegEnd(j.legs[i])));
    }
    assert j.legs[..|j.legs|] == j.legs;
    ghost var days := LegDays(j.legs);
    assert days + StopDays([]) == days;
    for i := 0 to |j.stops|
      invariant first == Earliest(CivilDay(j.windowStart), days + StopDays(j.stops[..i]))
      invariant last == Latest(CivilDay(j.windowEnd), days + StopDays(j.stops[..i]))
    {
      assert Front(j.stops[..i + 1]) == j.stops[..i];
      ghost var a, b := CivilDay(j.stops[i].start), CivilDay(j.stops[i].end);
      assert days + (StopDays(j.stops[..i]) + [a, b]) == days + StopDays(j.stops[..i]) + [a, b];
      TouchTwo(CivilDay(j.windowStart), CivilDay(j.windowEnd), days + StopDays(j.stops[..i]), a, b);
      first, last := Touch(first, last, CivilDay(j.stops[i].start));
      first, last := Touch(first, last, CivilDay(j.stops[i].end));
    }
    assert j.stops[..|j.stops|] == j.stops;
    n := last - first + 1;
  }

  method Touch(first: int, last: int, d: int) returns (first': int, last': int)
    ensures first' == MinInt(first, d) && last' == MaxInt(last, d)
  {
    first', last' := first, last;
    if d < first {
      first' := d;
    }
    if d > last {
      last' := d;
    }
  }

  lemma TouchTwo(start: int, end: int, days: seq<int>, a: int, b: int)
    ensures Earliest(start, days + [a, b]) == MinInt(MinInt(Earliest(start, days), a), b)
    ensures Latest(end, days + [a, b]) == MaxInt(MaxInt(Latest(end, days), a), b)
  {
    assert Front(days + [a, b]) == days + [a];
    assert Front(days + [a]) == days;
  }

  // ---- Pace ----

  /** Not a fix: an observed leg that went somewhere. */
  predicate Moves(l: Leg) { l.kind == Observed && |l.points| >= 2 && l.distanceKm != 0.0 }

  /** A moving leg over no time at all is left out of the pace. */
  predicate Paced(l: Leg) { Moves(l) && Hours(l.points[0].time, Last(l.points).time) > 0.0 }

  function PacedHours(l: Leg): real { if Paced(l) then Hours(l.points[0].time, Last(l.points).time) else 0.0 }

  function PacedKm(l: Leg): real { if Paced(l) then l.distanceKm else 0.0 }

  function StopHours(s: Stop): real { Hours(s.start, s.end) }

  method Summarize(j: Journey) returns (s: Summary)
    requires HavePoints(j.legs)
    ensures s.spanHours == Hours(j.windowStart, j.windowEnd)
    ensures s.civilDays == LastDay(j) - FirstDay(j) + 1
    ensures s.stops == |j.stops| && s.dwellHours == Sum(j.stops, StopHours)
    ensures s.observedHours == Sum(j.legs, PacedHours)
    ensures s.paceOk <==> exists i :: 0 <= i < |j.legs| && Paced(j.legs[i])
    ensures s.paceOk ==> s.observedHours > 0.0 && s.observedPaceKmh == Sum(j.legs, PacedKm) / s.observedHours
  {
    hide CivilDay, Earliest, Latest, Hours;
    var days := CivilDays(j);
    s := Summary(Hours(j.windowStart, j.windowEnd), days, |j.stops|, 0.0, 0.0, 0.0, false);
    for i := 0 to |j.stops|
      invariant s == Summary(Hours(j.windowStart, j.windowEnd), days, |j.stops|,
                             Sum(j.stops[..i], StopHours), 0.0, 0.0, false)
    {
      assert Front(j.stops[..i + 1]) == j.stops[..i];
      s := s.(dwellHours := s.dwellHours + Hours(j.stops[i].start, j.stops[i].end));
    }
    assert j.stops[..|j.stops|] == j.stops;
    var km := 0.0;
    ghost var dwell := s.dwellHours;
    for i := 0 to |j.legs|
      invariant s == Summary(Hours(j.windowStart, j.windowEnd), days, |j.stops|,
                             dwell, Sum(j.legs[..i], PacedHours), 0.0, false)
      invariant km == Sum(j.legs[..i], PacedKm)
    {
      var l := j.legs[i];
      assert Front(j.legs[..i + 1]) == j.legs[..i];
      if l.kind != Observed || |l.points| < 2 || l.distanceKm == 0.0 {
        continue;
      }
      var h := Hours(LegStart(l), LegEnd(l));
      if h <= 0.0 {
        continue;
      }
      s := s.(observedHours := s.observedHours + h);
      km := km + l.distanceKm;
    }
    assert j.legs[..|j.legs|] == j.legs;
    PaceExists(j.legs);
    if s.observedHours > 0.0 {
      s := s.(observedPaceKmh := km / s.observedHours, paceOk := true);
    }
  }

  lemma {:induction false} PaceExists(legs: seq<Leg>)
    ensures Sum(legs, PacedHours) >= 0.0
    ensures Sum(legs, PacedHours) > 0.0 <==> exists i :: 0 <= i < |legs| && Paced(legs[i])
  {
    hide Hours;
    if legs != [] {
      PaceExists(Front(legs));
      if Paced(Last(legs)) {
        assert Paced(legs[|legs| - 1]);
      } else if Sum(legs, PacedHours) > 0.0 {
        var i :| 0 <= i < |Front(legs)| && Paced(Front(legs)[i]);
        assert Paced(legs[i]);
      } else {
        forall i | 0 <= i < |legs| ensures !Paced(legs[i]) {
          if i < |legs| - 1 {
            assert legs[i] == Front(legs)[i];
          }
        }
      }
    }
  }
}
