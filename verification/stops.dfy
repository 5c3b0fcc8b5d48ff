/** Halts between consecutive activities (internal/journey/journey.go, findStops). */
module Stops {
  import opened Domain
  import opened Seqs
  import opened Teleports

  /** A measured pause: its span, the mean place and the drift of the kept points inside it. */
  datatype Stop = Stop(start: Time, end: Time, loc: LatLng, points: nat, displacementKm: real)

  function Intersects(ws: Time, we: Time): Activity -> bool {
    (a: Activity) => a.end.ns >= ws.ns && a.start.ns <= we.ns
  }

  function Within(start: Time, end: Time): TimedPoint -> bool {
    (pt: TimedPoint) => start.ns <= pt.time.ns <= end.ns
  }

  function LatOf(pt: TimedPoint): real { pt.loc.lat }

  function LonOf(pt: TimedPoint): real { pt.loc.lon }

  function StopBetween(start: Time, end: Time, kept: seq<TimedPoint>, dist: Distance): Stop {
    var members := Filter(kept, Within(start, end));
    if members == [] then Stop(start, end, LatLng(0.0, 0.0), 0, 0.0)
    else
      var n := |members| as real;
      Stop(start, end, LatLng(Sum(members, LatOf) / n, Sum(members, LonOf) / n), |members|,
           dist(members[0].loc, Last(members).loc) / 1000.0)
  }

  predicate IsHalt(a: Activity, b: Activity, p: Params) { Seconds(a.end, b.start) >= p.minStopDwellSeconds }

  /** The stops between consecutive activities of a list. */
  function StopsOf(acts: seq<Activity>, kept: seq<TimedPoint>, p: Params, dist: Distance): seq<Stop> {
    if |acts| < 2 then []
    else
      var a, b := acts[|acts| - 2], Last(acts);
      StopsOf(Front(acts), kept, p, dist)
        + if IsHalt(a, b, p) then [StopBetween(a.end, b.start, kept, dist)] else []
  }

  /** The activities that meet the window, by start. */
  function Selected(activities: seq<Activity>, ws: Time, we: Time): seq<Activity> {
    SortStable(Filter(activities, Intersects(ws, we)), StartKey)
  }

  function FoundStops(activities: seq<Activity>, kept: seq<TimedPoint>, ws: Time, we: Time,
                      p: Params, dist: Distance): seq<Stop> {
    StopsOf(Selected(activities, ws, we), kept, p, dist)
  }

  // ---- Stops are ordered, disjoint, and inside the window ----

  ghost predicate StopsInside(stops: seq<Stop>, lo: int, hi: int) {
    forall i | 0 <= i < |stops| :: lo <= stops[i].start.ns <= stops[i].end.ns <= hi
  }

  ghost predicate StopsApart(stops: seq<Stop>) {
    forall i, j | 0 <= i < j < |stops| :: stops[i].end.ns <= stops[j].start.ns
  }

  /** The stops keep between the window's ends whatever the threshold; they run forward if it is not negative. */
  lemma {:induction false} StopsOfInside(acts: seq<Activity>, kept: seq<TimedPoint>, ws: Time, we: Time,
                                         p: Params, dist: Distance)
    requires forall i | 0 <= i < |acts| :: Intersects(ws, we)(acts[i])
    ensures forall s | s in StopsOf(acts, kept, p, dist) :: ws.ns <= s.start.ns && s.end.ns <= we.ns
    ensures p.minStopDwellSeconds >= 0.0 ==> StopsInside(StopsOf(acts, kept, p, dist), ws.ns, we.ns)
  {
    if |acts| >= 2 {
      StopsOfInside(Front(acts), kept, ws, we, p, dist);
      assert Intersects(ws, we)(acts[|acts| - 2]) && Intersects(ws, we)(acts[|acts| - 1]);
    }
  }

  lemma SelectedActivities(activities: seq<Activity>, ws: Time, we: Time)
    ensures var acts := Selected(activities, ws, we);
            && SortedBy(acts, StartKey)
            && (forall i | 0 <= i < |acts| :: acts[i] in activities && Intersects(ws, we)(acts[i]))
  {
    var chosen := Filter(activities, Intersects(ws, we));
    var acts := SortStable(chosen, StartKey);
    SortStableSorted(chosen, StartKey);
    SortStableElements(chosen, StartKey);
    FilterElements(activities, Intersects(ws, we));
    forall i | 0 <= i < |acts| ensures acts[i] in chosen {
      assert acts[i] in multiset(acts);
    }
  }

  /** For any activities, reported stops lie between the ends of the window. */
  lemma StopsStayInside(activities: seq<Activity>, kept: seq<TimedPoint>, ws: Time, we: Time, p: Params, dist: Distance)
    ensures forall s | s in FoundStops(activities, kept, ws, we, p, dist) :: ws.ns <= s.start.ns && s.end.ns <= we.ns
    ensures p.minStopDwellSeconds >= 0.0 ==> StopsInside(FoundStops(activities, kept, ws, we, p, dist), ws.ns, we.ns)
  {
    SelectedActivities(activities, ws, we);
    StopsOfInside(Selected(activities, ws, we), kept, ws, we, p, dist);
  }

  /** There is a halt between activity `i` and the next. */
  ghost predicate HaltAt(acts: seq<Activity>, i: nat, p: Params) {
    i + 1 < |acts| && IsHalt(acts[i], acts[i + 1], p)
  }

  /** Where the stops come from: the positions of the halts, in order. */
  ghost predicate FromHalts(stops: seq<Stop>, idx: seq<nat>, acts: seq<Activity>, p: Params) {
    && |idx| == |stops|
    && (forall k | 0 <= k < |idx| :: HaltAt(acts, idx[k], p))
    && (forall k | 0 <= k < |idx| ::
          stops[k].start == acts[idx[k]].end && stops[k].end == acts[idx[k] + 1].start)
    && (forall a, b | 0 <= a < b < |idx| :: idx[a] < idx[b])
    && (forall i: nat | HaltAt(acts, i, p) :: i in idx)
  }

  lemma SameHalts(acts: seq<Activity>, p: Params)
    requires |acts| >= 2
    ensures forall i: nat | i < |acts| - 2 :: HaltAt(Front(acts), i, p) <==> HaltAt(acts, i, p)
    ensures forall i: nat | HaltAt(Front(acts), i, p) :: i < |acts| - 2
    ensures forall i: nat | HaltAt(acts, i, p) :: i <= |acts| - 2
  {
    hide IsHalt;
  }

  /** An activity with no halt before it adds no stop. */
  lemma HaltPassed(stops: seq<Stop>, idx: seq<nat>, acts: seq<Activity>, p: Params)
    requires |acts| >= 2 && FromHalts(stops, idx, Front(acts), p) && !HaltAt(acts, |acts| - 2, p)
    ensures FromHalts(stops, idx, acts, p)
  {
    SameHalts(acts, p);
    assert forall k | 0 <= k < |idx| :: HaltAt(Front(acts), idx[k], p);
    forall i: nat | HaltAt(acts, i, p) ensures i in idx {
      assert HaltAt(Front(acts), i, p);
    }
    hide IsHalt;
  }

  /** A halt before it adds a stop, and its position. */
  lemma HaltTaken(stops: seq<Stop>, idx: seq<nat>, acts: seq<Activity>, p: Params, s: Stop)
    requires |acts| >= 2 && FromHalts(stops, idx, Front(acts), p) && HaltAt(acts, |acts| - 2, p)
    requires s.start == acts[|acts| - 2].end && s.end == Last(acts).start
    ensures FromHalts(stops + [s], idx + [|acts| - 2], acts, p)
  {
    SameHalts(acts, p);
    hide IsHalt;
    var last := |acts| - 2;
    assert forall k | 0 <= k < |idx| :: HaltAt(Front(acts), idx[k], p);
    forall i: nat | HaltAt(acts, i, p) ensures i in idx + [last] {
      if i < last {
        assert HaltAt(Front(acts), i, p);
      } else {
        assert (idx + [last])[|idx|] == i;
      }
    }
  }

  /** Every halt gives its own stop, in order, and nothing else does. */
  lemma {:induction false} HaltPositions(acts: seq<Activity>, kept: seq<TimedPoint>, p: Params, dist: Distance)
    returns (idx: seq<nat>)
    ensures FromHalts(StopsOf(acts, kept, p, dist), idx, acts, p)
  {
    if |acts| < 2 {
      idx := [];
    } else {
      var before := HaltPositions(Front(acts), kept, p, dist);
      hide FromHalts, IsHalt;
      var stops := StopsOf(Front(acts), kept, p, dist);
      if HaltAt(acts, |acts| - 2, p) {
        HaltTaken(stops, before, acts, p, StopBetween(acts[|acts| - 2].end, Last(acts).start, kept, dist));
        idx := before + [|acts| - 2];
      } else {
        HaltPassed(stops, before, acts, p);
        assert stops + [] == stops;
        idx := before;
      }
    }
  }

  /** Of any two halts, the activity that ends the earlier starts no later than the one before the later ends. */
  ghost predicate HaltsApart(acts: seq<Activity>, p: Params) {
    forall i: nat, k: nat | i < k && HaltAt(acts, i, p) && HaltAt(acts, k, p) :: acts[i + 1].start.ns <= acts[k].end.ns
  }

  /** The same, of a halt and the next one only. */
  ghost predicate NextHaltsApart(acts: seq<Activity>, p: Params) {
    forall i: nat, k: nat | i < k && HaltAt(acts, i, p) && HaltAt(acts, k, p) && NoHaltBetween(acts, i, k, p) ::
      acts[i + 1].start.ns <= acts[k].end.ns
  }

  ghost predicate NoHaltBetween(acts: seq<Activity>, i: nat, k: nat, p: Params) {
    forall m | i < m < k :: !HaltAt(acts, m, p)
  }

  lemma {:induction false} ChainOfHalts(acts: seq<Activity>, p: Params, i: nat, k: nat)
    requires NextHaltsApart(acts, p) && p.minStopDwellSeconds >= 0.0
    requires i < k && HaltAt(acts, i, p) && HaltAt(acts, k, p)
    ensures acts[i + 1].start.ns <= acts[k].end.ns
    decreases k - i
  {
    if !NoHaltBetween(acts, i, k, p) {
      var m :| i < m < k && HaltAt(acts, m, p);
      ChainOfHalts(acts, p, i, m);
      ChainOfHalts(acts, p, m, k);
      assert Seconds(acts[m].end, acts[m + 1].start) >= 0.0;
    }
  }

  /** With a threshold that is not negative it is enough to compare each halt with the next. */
  lemma NextHaltsSuffice(acts: seq<Activity>, p: Params)
    requires p.minStopDwellSeconds >= 0.0
    ensures HaltsApart(acts, p) <==> NextHaltsApart(acts, p)
  {
    hide HaltAt;
    if NextHaltsApart(acts, p) {
      forall i: nat, k: nat | i < k && HaltAt(acts, i, p) && HaltAt(acts, k, p)
        ensures i + 1 < |acts| && k < |acts| && acts[i + 1].start.ns <= acts[k].end.ns
      {
        HaltInRange(acts, i, p);
        HaltInRange(acts, k, p);
        ChainOfHalts(acts, p, i, k);
      }
    }
  }

  lemma HaltInRange(acts: seq<Activity>, i: nat, p: Params)
    requires HaltAt(acts, i, p)
    ensures i + 1 < |acts|
  {
  }

  lemma ApartIffHalts(stops: seq<Stop>, idx: seq<nat>, acts: seq<Activity>, p: Params)
    requires FromHalts(stops, idx, acts, p)
    ensures StopsApart(stops) <==> HaltsApart(acts, p)
  {
    hide IsHalt;
    if StopsApart(stops) {
      forall i: nat, k: nat | i < k && HaltAt(acts, i, p) && HaltAt(acts, k, p)
        ensures acts[i + 1].start.ns <= acts[k].end.ns
      {
        assert i in idx && k in idx;
        var a :| 0 <= a < |idx| && idx[a] == i;
        var b :| 0 <= b < |idx| && idx[b] == k;
        assert a < b;
      }
    }
    if HaltsApart(acts, p) {
      forall a, b | 0 <= a < b < |stops| ensures stops[a].end.ns <= stops[b].start.ns {
        assert idx[a] < idx[b] && HaltAt(acts, idx[a], p) && HaltAt(acts, idx[b], p);
      }
    }
  }

  /** Stops follow one another without overlap exactly when the halts behind them do. */
  lemma StopsApartIff(activities: seq<Activity>, kept: seq<TimedPoint>, ws: Time, we: Time, p: Params, dist: Distance)
    ensures StopsApart(FoundStops(activities, kept, ws, we, p, dist)) <==> HaltsApart(Selected(activities, ws, we), p)
    ensures p.minStopDwellSeconds >= 0.0 ==>
      (HaltsApart(Selected(activities, ws, we), p) <==> NextHaltsApart(Selected(activities, ws, we), p))
  {
    var acts := Selected(activities, ws, we);
    var idx := HaltPositions(acts, kept, p, dist);
    ApartIffHalts(StopsOf(acts, kept, p, dist), idx, acts, p);
    if p.minStopDwellSeconds >= 0.0 {
      NextHaltsSuffice(acts, p);
    }
  }

  /** The activities that meet the window end no earlier than they start. */
  ghost predicate Ordinary(activities: seq<Activity>, ws: Time, we: Time) {
    forall a | a in activities && Intersects(ws, we)(a) :: a.start.ns <= a.end.ns
  }

  /** Only an activity recorded backwards, and meeting the window, can make stops overlap. */
  lemma StopsAreDisjoint(activities: seq<Activity>, kept: seq<TimedPoint>, ws: Time, we: Time, p: Params,
                         dist: Distance)
    requires Ordinary(activities, ws, we)
    ensures StopsApart(FoundStops(activities, kept, ws, we, p, dist))
  {
    hide Selected, StopsApart;
    SelectedActivities(activities, ws, we);
    StopsApartIff(activities, kept, ws, we, p, dist);
    var acts := Selected(activities, ws, we);
    forall i: nat, k: nat | i < k && HaltAt(acts, i, p) && HaltAt(acts, k, p)
      ensures acts[i + 1].start.ns <= acts[k].end.ns
    {
      assert StartKey(acts[i + 1]) <= StartKey(acts[k]) && acts[k].start.ns <= acts[k].end.ns;
    }
  }

  function DwellNs(s: Stop): real { (s.end.ns - s.start.ns) as real }

  /** Disjoint stops inside a window cannot add up to more than the window. */
  lemma {:induction false} DwellBounded(stops: seq<Stop>, lo: int, hi: int)
    requires StopsInside(stops, lo, hi) && StopsApart(stops) && lo <= hi
    ensures Sum(stops, DwellNs) <= (hi - lo) as real
  {
    if stops != [] {
      DwellBounded(Front(stops), lo, Last(stops).start.ns);
    }
  }

  function AtSecond(s: int): Time { Time(s * NS_PER_SECOND, 0) }

  function Moving(from: int, to: int): Activity { Activity(AtSecond(from), AtSecond(to), None, None, 0.0, "") }

  lemma TwoHalts(a: Activity, b: Activity, c: Activity, p: Params, dist: Distance)
    requires IsHalt(a, b, p) && IsHalt(b, c, p)
    ensures StopsOf([a, b, c], [], p, dist)
         == [StopBetween(a.end, b.start, [], dist), StopBetween(b.end, c.start, [], dist)]
  {
    hide IsHalt, StopBetween;
    assert Front([a, b, c]) == [a, b] && Front([a, b]) == [a];
    assert StopsOf([a], [], p, dist) == [];
    assert StopsOf([a, b], [], p, dist) == [StopBetween(a.end, b.start, [], dist)];
  }

  lemma SumOfTwo(s: Stop, t: Stop)
    ensures Sum([s, t], DwellNs) == DwellNs(s) + DwellNs(t)
  {
    assert Front([s, t]) == [s] && Front([s]) == [];
    assert Sum([s], DwellNs) == Sum([], DwellNs) + DwellNs(s);
  }

  /** An activity recorded backwards can make two stops overlap, and their dwell exceed the window. */
  lemma BackwardActivityOverlaps(dist: Distance) returns (activities: seq<Activity>, ws: Time, we: Time, p: Params)
    ensures p.minStopDwellSeconds >= 0.0 && ws.ns <= we.ns
    ensures !StopsApart(FoundStops(activities, [], ws, we, p, dist))
    ensures Sum(FoundStops(activities, [], ws, we, p, dist), DwellNs) > (we.ns - ws.ns) as real
  {
    ws, we := AtSecond(0), AtSecond(10_000);
    p := Params(20.0, 30.0, 300.0, 0.0, 250.0, 900.0, 1000.0, 15.0);
    var a, b, c := Moving(0, 1000), Moving(5000, 2000), Moving(9000, 9500);
    activities := [a, b, c];
    FilterAll(activities, Intersects(ws, we));
    SortedIsFixed(activities, StartKey);
    TwoHalts(a, b, c, p, dist);
    var stops := FoundStops(activities, [], ws, we, p, dist);
    SumOfTwo(stops[0], stops[1]);
    assert stops[0].end.ns > stops[1].start.ns;
  }

  // ---- The method ----

  method FindStops(activities: seq<Activity>, kept: seq<TimedPoint>, ws: Time, we: Time, p: Params, dist: Distance)
    returns (out: seq<Stop>)
    ensures out == FoundStops(activities, kept, ws, we, p, dist)
  {
    var acts := [];
    for i := 0 to |activities|
      invariant acts == Filter(activities[..i], Intersects(ws, we))
    {
      assert activities[..i + 1] == activities[..i] + [activities[i]];
      FilterSnoc(activities[..i], activities[i], Intersects(ws, we));
      var a := activities[i];
      if a.end.ns >= ws.ns && a.start.ns <= we.ns {
        acts := acts + [a];
      }
    }
    assert activities[..|activities|] == activities;
    acts := SortStable(acts, StartKey);
    out := [];
    var i := 1;
    while i < |acts|
      invariant 1 <= i && (i <= |acts| || acts == [])
      invariant out == StopsOf(acts[..if i <= |acts| then i else 0], kept, p, dist)
    {
      assert Front(acts[..i + 1]) == acts[..i];
      var haltStart, haltEnd := acts[i - 1].end, acts[i].start;
      i := i + 1;
      if Seconds(haltStart, haltEnd) < p.minStopDwellSeconds {
        continue;
      }
      var s := MeasureStop(haltStart, haltEnd, kept, dist);
      out := out + [s];
    }
    assert acts[..|acts|] == acts;
  }

  method MeasureStop(haltStart: Time, haltEnd: Time, kept: seq<TimedPoint>, dist: Distance) returns (s: Stop)
    ensures s == StopBetween(haltStart, haltEnd, kept, dist)
  {
    s := Stop(haltStart, haltEnd, LatLng(0.0, 0.0), 0, 0.0);
    var members := [];
    for i := 0 to |kept|
      invariant members == Filter(kept[..i], Within(haltStart, haltEnd))
    {
      assert kept[..i + 1] == kept[..i] + [kept[i]];
      FilterSnoc(kept[..i], kept[i], Within(haltStart, haltEnd));
      if haltStart.ns <= kept[i].time.ns <= haltEnd.ns {
        members := members + [kept[i]];
      }
    }
    assert kept[..|kept|] == kept;
    s := s.(points := |members|);
    if |members| > 0 {
      var lat, lon := 0.0, 0.0;
      for i := 0 to |members|
        invariant lat == Sum(members[..i], LatOf) && lon == Sum(members[..i], LonOf)
      {
        assert Front(members[..i + 1]) == members[..i];
        lat := lat + members[i].loc.lat;
        lon := lon + members[i].loc.lon;
      }
      assert members[..|members|] == members;
      var n := |members| as real;
      s := s.(loc := LatLng(lat / n, lon / n),
              displacementKm := dist(members[0].loc, members[|members| - 1].loc) / 1000.0);
    }
  }
}
