/**
 Stay-point synthesis (internal/detect/synth.go): bare fixes become visit-shaped stays, which are then
 merged with the real visits.
 */
module Stays {
  import opened Domain
  import opened Seqs

  datatype SynthParams = SynthParams(stayRadiusM: real, stayMinMin: real, stayMaxGapMin: real)

  function Located(): RawPosition -> bool { (f: RawPosition) => f.loc.Some? }

  function PhotoFix(): RawPosition -> bool { (f: RawPosition) => f.source == "PHOTO" && f.loc.Some? }

  function FixLat(f: RawPosition): real { if f.loc.Some? then f.loc.value.lat else 0.0 }

  function FixLon(f: RawPosition): real { if f.loc.Some? then f.loc.value.lon else 0.0 }

  // ---- Groups of fixes ----

  type Group = seq<RawPosition>

  function Centroid(g: Group): LatLng
    requires g != []
  {
    LatLng(Sum(g, FixLat) / |g| as real, Sum(g, FixLon) / |g| as real)
  }

  /** The latest instant of a group, as first recorded. */
  function EndTime(g: Group): Time
    requires g != []
  {
    if |g| == 1 then g[0].time
    else
      var end := EndTime(Front(g));
      if Last(g).time.ns > end.ns then Last(g).time else end
  }

  /** A fix ends the open stay when it comes too late or lies too far from the running centroid. */
  predicate Breaks(g: Group, f: RawPosition, p: SynthParams, dist: Distance)
    requires g != []
  {
    Minutes(EndTime(g), f.time) > p.stayMaxGapMin
    || dist(Centroid(g), LatLng(FixLat(f), FixLon(f))) > p.stayRadiusM
  }

  /** The sweep: each fix extends the open group or starts the next. */
  function Groups(fixes: seq<RawPosition>, p: SynthParams, dist: Distance): (gs: seq<Group>)
    ensures fixes != [] ==> gs != []
    ensures forall i | 0 <= i < |gs| :: gs[i] != []
  {
    if fixes == [] then []
    else
      var gs := Groups(Front(fixes), p, dist);
      if gs == [] || Breaks(Last(gs), Last(fixes), p, dist) then gs + [[Last(fixes)]]
      else Front(gs) + [Last(gs) + [Last(fixes)]]
  }

  predicate LongEnough(g: Group, p: SynthParams)
    requires g != []
  {
    Minutes(g[0].time, EndTime(g)) >= p.stayMinMin
  }

  function StayOf(g: Group): Visit
    requires g != []
  {
    Visit(g[0].time, EndTime(g), Some(Centroid(g)), "")
  }

  /** The stays of the groups that last long enough. */
  function StaysOf(gs: seq<Group>, p: SynthParams): seq<Visit>
    requires forall i | 0 <= i < |gs| :: gs[i] != []
  {
    if gs == [] then []
    else StaysOf(Front(gs), p) + if LongEnough(Last(gs), p) then [StayOf(Last(gs))] else []
  }

  function Synthesized(fixes: seq<RawPosition>, p: SynthParams, dist: Distance): seq<Visit> {
    StaysOf(Groups(SortStable(Filter(fixes, Located()), FixKey), p, dist), p)
  }

  // ---- What the sweep guarantees ----

  /** Every fix is in exactly one group, in time order. */
  lemma {:induction false} GroupsCover(fixes: seq<RawPosition>, p: SynthParams, dist: Distance)
    ensures Flatten(Groups(fixes, p, dist)) == fixes
  {
    hide Breaks;
    if fixes != [] {
      GroupsCover(Front(fixes), p, dist);
      var gs: seq<Group> := Groups(Front(fixes), p, dist);
      if gs == [] || Breaks(Last(gs), Last(fixes), p, dist) {
        FlattenSnoc(gs, [Last(fixes)]);
      } else {
        FlattenSnoc(Front(gs), Last(gs) + [Last(fixes)]);
      }
      assert fixes == Front(fixes) + [Last(fixes)];
    }
  }

  /** A group is a run none of whose fixes breaks what came before it. */
  ghost predicate Unbroken(g: Group, p: SynthParams, dist: Distance) {
    forall k | 0 < k < |g| :: !Breaks(g[..k], g[k], p, dist)
  }

  /** Groups are unbroken, and the first fix of each breaks the group before it. */
  ghost predicate Swept(gs: seq<Group>, p: SynthParams, dist: Distance)
    requires forall i | 0 <= i < |gs| :: gs[i] != []
  {
    && (forall i | 0 <= i < |gs| :: Unbroken(gs[i], p, dist))
    && (forall i | 0 < i < |gs| :: Breaks(gs[i - 1], gs[i][0], p, dist))
  }

  lemma ExtendGroup(gs: seq<Group>, f: RawPosition, p: SynthParams, dist: Distance)
    requires gs != [] && (forall i | 0 <= i < |gs| :: gs[i] != []) && Swept(gs, p, dist)
    requires !Breaks(Last(gs), f, p, dist)
    ensures Swept(Front(gs) + [Last(gs) + [f]], p, dist)
  {
    hide Breaks;
    var g, g' := Last(gs), Last(gs) + [f];
    assert Unbroken(gs[|gs| - 1], p, dist);
    forall k | 0 < k < |g'| ensures !Breaks(g'[..k], g'[k], p, dist) {
      if k < |g| {
        assert g'[..k] == g[..k];
      } else {
        assert g'[..k] == g;
      }
    }
    var gs' := Front(gs) + [g'];
    assert forall i | 0 <= i < |gs'| :: gs'[i][0] == gs[i][0];
    assert forall i | 0 <= i < |gs'| - 1 :: gs'[i] == gs[i];
  }

  lemma {:induction false} GroupsSwept(fixes: seq<RawPosition>, p: SynthParams, dist: Distance)
    ensures Swept(Groups(fixes, p, dist), p, dist)
  {
    hide Breaks;
    if fixes != [] {
      GroupsSwept(Front(fixes), p, dist);
      var gs: seq<Group> := Groups(Front(fixes), p, dist);
      if gs != [] && !Breaks(Last(gs), Last(fixes), p, dist) {
        ExtendGroup(gs, Last(fixes), p, dist);
      } else {
        assert Unbroken([Last(fixes)], p, dist);
      }
    }
  }

  ghost predicate FixesOrdered(fixes: seq<RawPosition>) {
    forall i, j | 0 <= i < j < |fixes| :: fixes[i].time.ns <= fixes[j].time.ns
  }

  /** Visits in time order, none reaching past the start of a later one. */
  ghost predicate OrderedApart(visits: seq<Visit>) {
    && (forall i | 0 <= i < |visits| :: visits[i].start.ns <= visits[i].end.ns)
    && (forall i, j | 0 <= i < j < |visits| :: visits[i].end.ns <= visits[j].start.ns)
  }

  /** In time order, a group ends at the instant of its last fix. */
  lemma {:induction false} EndIsLast(g: Group)
    requires g != [] && FixesOrdered(g)
    ensures EndTime(g).ns == Last(g).time.ns
  {
    if |g| > 1 {
      EndIsLast(Front(g));
      assert g[|g| - 2].time.ns <= g[|g| - 1].time.ns;
    }
  }

  lemma SplitOrdered(before: seq<RawPosition>, g: Group)
    requires g != [] && FixesOrdered(before + g)
    ensures FixesOrdered(before) && FixesOrdered(g)
    ensures g[0].time.ns <= Last(g).time.ns
    ensures before != [] ==> Last(before).time.ns <= g[0].time.ns
  {
    var all := before + g;
    assert forall i | 0 <= i < |before| :: all[i] == before[i];
    assert forall i | 0 <= i < |g| :: all[|before| + i] == g[i];
  }

  lemma LastGroup(gs: seq<Group>)
    requires gs != [] && (forall i | 0 <= i < |gs| :: gs[i] != []) && FixesOrdered(Flatten(gs))
    ensures Flatten(gs) != [] && FixesOrdered(Flatten(Front(gs))) && FixesOrdered(Last(gs))
    ensures Last(gs)[0].time.ns <= EndTime(Last(gs)).ns == Last(Flatten(gs)).time.ns
    ensures Front(gs) != [] ==> Flatten(Front(gs)) != [] && Last(Flatten(Front(gs))).time.ns <= Last(gs)[0].time.ns
    ensures Front(gs) == [] ==> Flatten(Front(gs)) == []
  {
    hide FixesOrdered, EndTime;
    SplitOrdered(Flatten(Front(gs)), Last(gs));
    EndIsLast(Last(gs));
    if Front(gs) != [] {
      FlattenNonempty(Front(gs));
    }
  }

  lemma {:induction false} StaysApart(gs: seq<Group>, p: SynthParams)
    requires (forall i | 0 <= i < |gs| :: gs[i] != []) && FixesOrdered(Flatten(gs))
    ensures OrderedApart(StaysOf(gs, p))
    ensures forall i | 0 <= i < |StaysOf(gs, p)| ::
      Flatten(gs) != [] && StaysOf(gs, p)[i].end.ns <= Last(Flatten(gs)).time.ns
    ensures forall i | 0 <= i < |StaysOf(gs, p)| ::
      StaysOf(gs, p)[i].loc.Some? && Minutes(StaysOf(gs, p)[i].start, StaysOf(gs, p)[i].end) >= p.stayMinMin
  {
    hide Centroid, Flatten, FixesOrdered, Minutes, EndTime;
    if gs != [] {
      LastGroup(gs);
      StaysApart(Front(gs), p);
    }
  }

  lemma FlattenNonempty(gs: seq<Group>)
    requires gs != [] && forall i | 0 <= i < |gs| :: gs[i] != []
    ensures Flatten(gs) != []
  {
  }

  lemma SortedFixes(fixes: seq<RawPosition>)
    ensures FixesOrdered(SortStable(fixes, FixKey))
  {
    SortStableSorted(fixes, FixKey);
    var s := SortStable(fixes, FixKey);
    forall i, j | 0 <= i < j < |s| ensures s[i].time.ns <= s[j].time.ns {
      assert FixKey(s[i]) <= FixKey(s[j]);
    }
  }

  /** Synthesized stays are located, last long enough, and follow one another without overlap. */
  lemma SynthesizedOrderedApart(fixes: seq<RawPosition>, p: SynthParams, dist: Distance)
    ensures var stays := Synthesized(fixes, p, dist);
            && OrderedApart(stays)
            && forall i | 0 <= i < |stays| ::
              stays[i].loc.Some? && Minutes(stays[i].start, stays[i].end) >= p.stayMinMin
  {
    var sorted := SortStable(Filter(fixes, Located()), FixKey);
    SortedFixes(Filter(fixes, Located()));
    GroupsCover(sorted, p, dist);
    StaysApart(Groups(sorted, p, dist), p);
  }

  // ---- Which fixes make a stay, and what it says ----

  ghost predicate AllLocated(g: Group) { forall i | 0 <= i < |g| :: g[i].loc.Some? }

  function Lats(g: Group): seq<real>
    requires AllLocated(g)
  {
    seq(|g|, i requires 0 <= i < |g| => g[i].loc.value.lat)
  }

  function Lons(g: Group): seq<real>
    requires AllLocated(g)
  {
    seq(|g|, i requires 0 <= i < |g| => g[i].loc.value.lon)
  }

  ghost predicate MeanPlace(c: LatLng, g: Group) {
    AllLocated(g) && IsMean(c.lat, Lats(g)) && IsMean(c.lon, Lons(g))
  }

  /** Soon enough after the last fix of the group, and near enough to the group's mean place. */
  ghost predicate Follows(g: Group, f: RawPosition, p: SynthParams, dist: Distance)
    requires g != []
  {
    && Minutes(Last(g).time, f.time) <= p.stayMaxGapMin
    && f.loc.Some? && exists c :: MeanPlace(c, g) && dist(c, f.loc.value) <= p.stayRadiusM
  }

  /** From the first fix to the last, at the mean place. */
  ghost predicate StayIs(v: Visit, g: Group)
    requires g != []
  {
    && v.start == g[0].time && v.end.ns == Last(g).time.ns
    && v.loc.Some? && MeanPlace(v.loc.value, g) && v.semanticType == ""
  }

  function Lasts(p: SynthParams): Group -> bool {
    (g: Group) => g != [] && Minutes(g[0].time, Last(g).time) >= p.stayMinMin
  }

  /**
   The located fixes in time order fall into groups, each as long as the fixes follow one another; the groups
   that last long enough are the stays.
   */
  ghost predicate StaysMean(stays: seq<Visit>, fixes: seq<RawPosition>, gs: seq<Group>, idx: seq<nat>,
                            p: SynthParams, dist: Distance)
  {
    && (forall i | 0 <= i < |gs| :: gs[i] != [])
    && FixesOrdered(Flatten(gs))
    && (forall f :: multiset(Flatten(gs))[f] == if f.loc.Some? then multiset(fixes)[f] else 0)
    && (forall i, k | 0 <= i < |gs| && 0 < k < |gs[i]| :: Follows(gs[i][..k], gs[i][k], p, dist))
    && (forall i | 0 < i < |gs| :: !Follows(gs[i - 1], gs[i][0], p, dist))
    && PlacesWhere(idx, gs, Lasts(p)) && |stays| == |idx|
    && (forall k | 0 <= k < |idx| :: idx[k] < |gs| && StayIs(stays[k], gs[idx[k]]))
  }

  lemma CentroidIsMean(g: Group)
    requires g != [] && AllLocated(g)
    ensures MeanPlace(Centroid(g), g)
  {
    SumOfFigures(g, FixLat, Lats(g));
    SumOfFigures(g, FixLon, Lons(g));
    hide Sum;
  }

  lemma OnlyMean(c: LatLng, g: Group)
    requires g != [] && MeanPlace(c, g)
    ensures c == Centroid(g)
  {
    CentroidIsMean(g);
    hide Centroid, IsMean;
    OneMean(c.lat, Centroid(g).lat, Lats(g));
    OneMean(c.lon, Centroid(g).lon, Lons(g));
  }

  lemma FollowsUnlessBreaks(g: Group, f: RawPosition, p: SynthParams, dist: Distance)
    requires g != [] && AllLocated(g) && FixesOrdered(g) && f.loc.Some?
    ensures Follows(g, f, p, dist) <==> !Breaks(g, f, p, dist)
  {
    CentroidIsMean(g);
    EndIsLast(g);
    hide Centroid, MeanPlace, EndTime, FixesOrdered;
    forall c | MeanPlace(c, g) ensures c == Centroid(g) {
      OnlyMean(c, g);
    }
  }

  lemma {:induction false} GroupsFollow(fixes: seq<RawPosition>, p: SynthParams, dist: Distance)
    requires AllLocated(fixes) && FixesOrdered(fixes)
    ensures var gs: seq<Group> := Groups(fixes, p, dist);
            && (forall i, k | 0 <= i < |gs| && 0 < k < |gs[i]| :: Follows(gs[i][..k], gs[i][k], p, dist))
            && (forall i | 0 < i < |gs| :: !Follows(gs[i - 1], gs[i][0], p, dist))
  {
    GroupsSwept(fixes, p, dist);
    GroupsCover(fixes, p, dist);
    var gs: seq<Group> := Groups(fixes, p, dist);
    hide Groups, Breaks, Follows;
    forall i | 0 <= i < |gs| ensures AllLocated(gs[i]) && FixesOrdered(gs[i]) {
      GroupInside(gs, i);
    }
    hide AllLocated, FixesOrdered, Flatten;
    forall i, k | 0 <= i < |gs| && 0 < k < |gs[i]| ensures Follows(gs[i][..k], gs[i][k], p, dist) {
      FixInside(gs[i], k);
      FollowsUnlessBreaks(gs[i][..k], gs[i][k], p, dist);
      assert Unbroken(gs[i], p, dist);
    }
    forall i | 0 < i < |gs| ensures !Follows(gs[i - 1], gs[i][0], p, dist) {
      FixInside(gs[i], 0);
      FollowsUnlessBreaks(gs[i - 1], gs[i][0], p, dist);
    }
  }

  lemma FixInside(g: Group, k: nat)
    requires AllLocated(g) && FixesOrdered(g) && k < |g|
    ensures AllLocated(g[..k]) && FixesOrdered(g[..k]) && g[k].loc.Some?
  {
  }

  lemma PartInside(before: Group, g: Group)
    requires AllLocated(before + g) && FixesOrdered(before + g)
    ensures AllLocated(before) && FixesOrdered(before) && AllLocated(g) && FixesOrdered(g)
  {
    var all := before + g;
    assert forall k | 0 <= k < |before| :: all[k] == before[k];
    assert forall k | 0 <= k < |g| :: all[|before| + k] == g[k];
  }

  /** What holds of all the fixes holds of a group. */
  lemma {:induction false} GroupInside(gs: seq<Group>, i: nat)
    requires i < |gs| && AllLocated(Flatten(gs)) && FixesOrdered(Flatten(gs))
    ensures AllLocated(gs[i]) && FixesOrdered(gs[i])
  {
    PartInside(Flatten(Front(gs)), Last(gs));
    hide AllLocated, FixesOrdered;
    if i < |gs| - 1 {
      GroupInside(Front(gs), i);
    }
  }

  lemma LastsLong(g: Group, p: SynthParams)
    requires g != [] && AllLocated(g) && FixesOrdered(g)
    ensures (Lasts(p)(g) <==> LongEnough(g, p)) && StayIs(StayOf(g), g)
  {
    EndIsLast(g);
    CentroidIsMean(g);
    hide Centroid, FixesOrdered;
  }

  lemma {:induction false} StaysFiltered(gs: seq<Group>, p: SynthParams)
    requires forall i | 0 <= i < |gs| :: gs[i] != [] && (Lasts(p)(gs[i]) <==> LongEnough(gs[i], p))
    ensures |StaysOf(gs, p)| == |Filter(gs, Lasts(p))|
    ensures forall k | 0 <= k < |StaysOf(gs, p)| ::
      Filter(gs, Lasts(p))[k] != [] && StaysOf(gs, p)[k] == StayOf(Filter(gs, Lasts(p))[k])
  {
    hide LongEnough, Lasts, StayOf;
    if gs != [] {
      StaysFiltered(Front(gs), p);
    }
  }

  lemma StaysArePlaces(gs: seq<Group>, p: SynthParams) returns (idx: seq<nat>)
    requires forall i | 0 <= i < |gs| :: gs[i] != [] && AllLocated(gs[i]) && FixesOrdered(gs[i])
    ensures PlacesWhere(idx, gs, Lasts(p)) && |StaysOf(gs, p)| == |idx|
    ensures forall k | 0 <= k < |idx| :: idx[k] < |gs| && StayIs(StaysOf(gs, p)[k], gs[idx[k]])
  {
    idx := FilterPlaces(gs, Lasts(p));
    forall i | 0 <= i < |gs|
      ensures (Lasts(p)(gs[i]) <==> LongEnough(gs[i], p)) && StayIs(StayOf(gs[i]), gs[i])
    {
      LastsLong(gs[i], p);
    }
    StaysFiltered(gs, p);
    hide AllLocated, FixesOrdered, PlacesWhere, StayIs, StayOf, LongEnough, Lasts, Filter, StaysOf;
  }

  lemma {:induction false} LocatedCount(fixes: seq<RawPosition>, f: RawPosition)
    ensures multiset(Filter(fixes, Located()))[f] == if f.loc.Some? then multiset(fixes)[f] else 0
  {
    if fixes != [] {
      LocatedCount(Front(fixes), f);
      assert fixes == Front(fixes) + [Last(fixes)];
    }
  }

  function LocatedInOrder(fixes: seq<RawPosition>): seq<RawPosition> { SortStable(Filter(fixes, Located()), FixKey) }

  /** The fixes that are swept: the located ones, each as often as it was given, in time order. */
  lemma SweptFixes(fixes: seq<RawPosition>)
    ensures AllLocated(LocatedInOrder(fixes)) && FixesOrdered(LocatedInOrder(fixes))
    ensures forall f :: multiset(LocatedInOrder(fixes))[f] == if f.loc.Some? then multiset(fixes)[f] else 0
  {
    SortedLocated(fixes, LocatedInOrder(fixes));
    SortedFixes(Filter(fixes, Located()));
    SortStableElements(Filter(fixes, Located()), FixKey);
    hide Filter, SortStable;
    forall f: RawPosition
      ensures multiset(LocatedInOrder(fixes))[f] == if f.loc.Some? then multiset(fixes)[f] else 0
    {
      LocatedCount(fixes, f);
    }
  }

  lemma GroupsInside(gs: seq<Group>)
    requires AllLocated(Flatten(gs)) && FixesOrdered(Flatten(gs))
    ensures forall i | 0 <= i < |gs| :: AllLocated(gs[i]) && FixesOrdered(gs[i])
  {
    hide AllLocated, FixesOrdered, Flatten;
    forall i | 0 <= i < |gs| ensures AllLocated(gs[i]) && FixesOrdered(gs[i]) {
      GroupInside(gs, i);
    }
  }

  /** Synthesis in plain terms. */
  lemma StaysAreMeant(fixes: seq<RawPosition>, p: SynthParams, dist: Distance) returns (gs: seq<Group>, idx: seq<nat>)
    ensures StaysMean(Synthesized(fixes, p, dist), fixes, gs, idx, p, dist)
  {
    hide AllLocated, FixesOrdered, PlacesWhere, StayIs, StaysOf, Follows, Groups, Filter, SortStable, Flatten;
    var swept := LocatedInOrder(fixes);
    SweptFixes(fixes);
    gs := Groups(swept, p, dist);
    GroupsCover(swept, p, dist);
    GroupsFollow(swept, p, dist);
    GroupsInside(gs);
    idx := StaysArePlaces(gs, p);
  }

  // ---- The sweep as a loop ----

  /** The open stay: a running sum, a count, and the first and last instant. */
  datatype OpenStay = OpenStay(sumLat: real, sumLon: real, n: nat, start: Time, end: Time)

  ghost predicate Summarizes(cur: OpenStay, g: Group) {
    && g != [] && cur.n == |g| && cur.sumLat == Sum(g, FixLat) && cur.sumLon == Sum(g, FixLon)
    && cur.start == g[0].time && cur.end == EndTime(g)
  }

  method CloseStay(cur: OpenStay, stays: seq<Visit>, p: SynthParams, ghost g: Group) returns (more: seq<Visit>)
    requires g != [] && Summarizes(cur, g)
    ensures more == stays + if LongEnough(g, p) then [StayOf(g)] else []
  {
    more := stays;
    if Minutes(cur.start, cur.end) >= p.stayMinMin {
      var n := cur.n as real;
      more := more + [Visit(cur.start, cur.end, Some(LatLng(cur.sumLat / n, cur.sumLon / n)), "")];
    }
  }

  method ExtendStay(cur: OpenStay, f: RawPosition, ghost g: Group) returns (next: OpenStay)
    requires Summarizes(cur, g) && f.loc.Some?
    ensures Summarizes(next, g + [f])
  {
    SumSnoc(g, f, FixLat);
    SumSnoc(g, f, FixLon);
    assert Front(g + [f]) == g;
    next := cur.(sumLat := cur.sumLat + f.loc.value.lat, sumLon := cur.sumLon + f.loc.value.lon, n := cur.n + 1);
    if f.time.ns > cur.end.ns {
      next := next.(end := f.time);
    }
  }

  method StartStay(f: RawPosition) returns (cur: OpenStay)
    requires f.loc.Some?
    ensures Summarizes(cur, [f])
  {
    cur := OpenStay(f.loc.value.lat, f.loc.value.lon, 1, f.time, f.time);
    SumSnoc([], f, FixLat);
    SumSnoc([], f, FixLon);
    assert [] + [f] == [f];
  }

  method RunningCentroid(cur: OpenStay, ghost g: Group) returns (c: LatLng)
    requires Summarizes(cur, g)
    ensures c == Centroid(g)
  {
    c := LatLng(cur.sumLat / cur.n as real, cur.sumLon / cur.n as real);
  }

  method LocatedFixes(fixes: seq<RawPosition>) returns (located: seq<RawPosition>)
    ensures located == Filter(fixes, Located())
  {
    located := [];
    for i := 0 to |fixes|
      invariant located == Filter(fixes[..i], Located())
    {
      assert fixes[..i + 1] == fixes[..i] + [fixes[i]];
      FilterSnoc(fixes[..i], fixes[i], Located());
      if fixes[i].loc.Some? {
        located := located + [fixes[i]];
      }
    }
    assert fixes[..|fixes|] == fixes;
  }

  lemma StaysSnoc(closed: seq<Group>, g: Group, p: SynthParams)
    requires g != [] && forall k | 0 <= k < |closed| :: closed[k] != []
    ensures StaysOf(closed + [g], p) == StaysOf(closed, p) + if LongEnough(g, p) then [StayOf(g)] else []
  {
    assert Front(closed + [g]) == closed;
  }

  /** The groups of the first `i` fixes: those closed and the open one. */
  ghost predicate Sweeping(closed: seq<Group>, g: Group, sorted: seq<RawPosition>, i: nat, p: SynthParams,
                           dist: Distance)
  {
    g != [] && i <= |sorted| && closed + [g] == Groups(sorted[..i], p, dist)
  }

  lemma SweepStarts(sorted: seq<RawPosition>, p: SynthParams, dist: Distance)
    requires sorted != []
    ensures Sweeping([], [sorted[0]], sorted, 1, p, dist)
  {
    assert Front(sorted[..1]) == [];
  }

  lemma SweepGoesOn(closed: seq<Group>, g: Group, sorted: seq<RawPosition>, i: nat, p: SynthParams, dist: Distance)
    requires 0 < i < |sorted| && Sweeping(closed, g, sorted, i, p, dist)
    ensures Breaks(g, sorted[i], p, dist) ==> Sweeping(closed + [g], [sorted[i]], sorted, i + 1, p, dist)
    ensures !Breaks(g, sorted[i], p, dist) ==> Sweeping(closed, g + [sorted[i]], sorted, i + 1, p, dist)
  {
    GroupsStep(sorted, i, closed, g, p, dist);
    hide Groups, Breaks;
  }

  lemma SweepEnds(closed: seq<Group>, g: Group, sorted: seq<RawPosition>, p: SynthParams, dist: Distance)
    requires Sweeping(closed, g, sorted, |sorted|, p, dist)
    ensures closed + [g] == Groups(sorted, p, dist)
  {
    assert sorted[..|sorted|] == sorted;
  }

  method SynthesizeStays(fixes: seq<RawPosition>, p: SynthParams, dist: Distance) returns (stays: seq<Visit>)
    ensures stays == Synthesized(fixes, p, dist)
    ensures exists gs, idx :: StaysMean(stays, fixes, gs, idx, p, dist)
  {
    assert StaysOf([], p) == [] && Groups([], p, dist) == [];
    hide StaysMean, Breaks, LongEnough, StayOf, Filter, Sum, Centroid, EndTime, StaysOf, Sweeping, Summarizes;
    var located := LocatedFixes(fixes);
    var sorted := SortStable(located, FixKey);
    SortedLocated(fixes, sorted);
    hide SortStable, Groups;
    stays := [];
    var cur: Option<OpenStay> := None;
    ghost var closed: seq<Group>, g: Group := [], [];
    for i := 0 to |sorted|
      invariant cur.None? <==> i == 0
      invariant i == 0 ==> closed == []
      invariant i > 0 ==> g != [] && Summarizes(cur.value, g) && Sweeping(closed, g, sorted, i, p, dist)
      invariant (forall k | 0 <= k < |closed| :: closed[k] != []) && stays == StaysOf(closed, p)
    {
      var f := sorted[i];
      if cur.Some? {
        SweepGoesOn(closed, g, sorted, i, p, dist);
        var centroid := RunningCentroid(cur.value, g);
        if BreaksNow(cur.value, centroid, f, p, dist, g) {
          stays := CloseStay(cur.value, stays, p, g);
          StaysSnoc(closed, g, p);
          closed, cur, g := closed + [g], None, [];
        }
      } else {
        SweepStarts(sorted, p, dist);
      }
      if cur.None? {
        var first := StartStay(f);
        cur, g := Some(first), [f];
      } else {
        var next := ExtendStay(cur.value, f, g);
        cur, g := Some(next), g + [f];
      }
    }
    if cur.Some? {
      stays := CloseStay(cur.value, stays, p, g);
      StaysSnoc(closed, g, p);
      SweepEnds(closed, g, sorted, p, dist);
    }
    ghost var gs, idx := StaysAreMeant(fixes, p, dist);
  }

  /** The loop's own test, on the running sums. */
  predicate BreaksNow(cur: OpenStay, centroid: LatLng, f: RawPosition, p: SynthParams, dist: Distance, ghost g: Group)
    requires Summarizes(cur, g) && f.loc.Some? && centroid == Centroid(g)
    ensures BreaksNow(cur, centroid, f, p, dist, g) <==> Breaks(g, f, p, dist)
  {
    Minutes(cur.end, f.time) > p.stayMaxGapMin || dist(centroid, f.loc.value) > p.stayRadiusM
  }

  lemma GroupsStep(sorted: seq<RawPosition>, i: nat, closed: seq<Group>, g: Group, p: SynthParams, dist: Distance)
    requires 0 < i < |sorted| && g != [] && closed + [g] == Groups(sorted[..i], p, dist)
    ensures Groups(sorted[..i + 1], p, dist)
         == if Breaks(g, sorted[i], p, dist) then closed + [g] + [[sorted[i]]] else closed + [g + [sorted[i]]]
  {
    hide Breaks;
    assert Front(sorted[..i + 1]) == sorted[..i] && Last(sorted[..i + 1]) == sorted[i];
    assert Front(closed + [g]) == closed;
  }

  lemma SortedLocated(fixes: seq<RawPosition>, sorted: seq<RawPosition>)
    requires sorted == SortStable(Filter(fixes, Located()), FixKey)
    ensures forall i | 0 <= i < |sorted| :: sorted[i].loc.Some?
  {
    SortStableElements(Filter(fixes, Located()), FixKey);
    FilterElements(fixes, Located());
    forall i | 0 <= i < |sorted| ensures sorted[i].loc.Some? {
      assert sorted[i] in multiset(sorted);
      assert sorted[i] in Filter(fixes, Located());
      assert Located()(sorted[i]);
    }
  }

  // ---- Merging with the real visits ----

  /** What has been merged so far is sorted, stable, and not after anything still to come. */
  ghost predicate Merging(out: seq<Visit>, real_: seq<Visit>, synth: seq<Visit>, i: nat, j: nat) {
    && i <= |real_| && j <= |synth|
    && SortedBy(out, VisitStart)
    && SameByKey(out, real_[..i] + synth[..j], VisitStart)
    && (forall a, b | 0 <= a < |out| && i <= b < |real_| :: VisitStart(out[a]) <= VisitStart(real_[b]))
    && (forall a, b | 0 <= a < |out| && j <= b < |synth| :: VisitStart(out[a]) <= VisitStart(synth[b]))
    && (forall a, b | 0 <= a < j && i <= b < |real_| :: VisitStart(synth[a]) < VisitStart(real_[b]))
  }

  lemma TakeSynth(out: seq<Visit>, real_: seq<Visit>, synth: seq<Visit>, i: nat, j: nat)
    requires SortedBy(real_, VisitStart) && SortedBy(synth, VisitStart)
    requires Merging(out, real_, synth, i, j) && j < |synth|
    requires i < |real_| ==> VisitStart(synth[j]) < VisitStart(real_[i])
    ensures Merging(out + [synth[j]], real_, synth, i, j + 1)
  {
    var s := synth[j];
    forall k
      ensures Filter(out + [s], HasKey(VisitStart, k)) == Filter(real_[..i] + synth[..j + 1], HasKey(VisitStart, k))
    {
      assert real_[..i] + synth[..j + 1] == (real_[..i] + synth[..j]) + [s];
      FilterSnoc(out, s, HasKey(VisitStart, k));
      FilterSnoc(real_[..i] + synth[..j], s, HasKey(VisitStart, k));
    }
  }

  lemma TakeRealKeys(out: seq<Visit>, front: seq<Visit>, r: Visit, synth: seq<Visit>)
    requires SameByKey(out, front + synth, VisitStart)
    requires forall a | 0 <= a < |synth| :: VisitStart(synth[a]) < VisitStart(r)
    ensures SameByKey(out + [r], front + [r] + synth, VisitStart)
  {
    forall k ensures Filter(out + [r], HasKey(VisitStart, k)) == Filter(front + [r] + synth, HasKey(VisitStart, k)) {
      var keep := HasKey(VisitStart, k);
      assert Filter(out, keep) == Filter(front + synth, keep);
      FilterSnoc(out, r, keep);
      FilterSnoc(front, r, keep);
      FilterConcat(front, synth, keep);
      FilterConcat(front + [r], synth, keep);
      if keep(r) {
        FilterNone(synth, HasKey(VisitStart, k));
      }
    }
  }

  lemma TakeReal(out: seq<Visit>, real_: seq<Visit>, synth: seq<Visit>, i: nat, j: nat)
    requires SortedBy(real_, VisitStart) && SortedBy(synth, VisitStart)
    requires Merging(out, real_, synth, i, j) && i < |real_|
    requires j < |synth| ==> VisitStart(real_[i]) <= VisitStart(synth[j])
    ensures Merging(out + [real_[i]], real_, synth, i + 1, j)
  {
    hide SameByKey;
    TakeRealKeys(out, real_[..i], real_[i], synth[..j]);
    assert real_[..i + 1] == real_[..i] + [real_[i]];
  }

  /** Whichever front starts earlier comes next, real visits winning ties; then whatever is left. */
  function MergedByStart(real_: seq<Visit>, synth: seq<Visit>): seq<Visit> {
    if real_ == [] then synth
    else if synth == [] then real_
    else if VisitStart(synth[0]) < VisitStart(real_[0]) then [synth[0]] + MergedByStart(real_, synth[1..])
    else [real_[0]] + MergedByStart(real_[1..], synth)
  }

  lemma MergedNext(out: seq<Visit>, real_: seq<Visit>, synth: seq<Visit>, i: nat, j: nat)
    requires i < |real_| && j < |synth|
    ensures out + MergedByStart(real_[i..], synth[j..])
         == if synth[j].start.ns < real_[i].start.ns then out + [synth[j]] + MergedByStart(real_[i..], synth[j + 1..])
            else out + [real_[i]] + MergedByStart(real_[i + 1..], synth[j..])
  {
    assert real_[i..][1..] == real_[i + 1..] && synth[j..][1..] == synth[j + 1..];
  }

  lemma MergedRest(real_: seq<Visit>, synth: seq<Visit>)
    requires real_ == [] || synth == []
    ensures MergedByStart(real_, synth) == real_ + synth
  {
  }

  method MergeVisitsByStart(real_: seq<Visit>, synth: seq<Visit>) returns (out: seq<Visit>)
    ensures out == MergedByStart(real_, synth)
  {
    hide MergedByStart;
    out := [];
    var i, j := 0, 0;
    while i < |real_| && j < |synth|
      invariant i <= |real_| && j <= |synth|
      invariant MergedByStart(real_, synth) == out + MergedByStart(real_[i..], synth[j..])
    {
      MergedNext(out, real_, synth, i, j);
      if synth[j].start.ns < real_[i].start.ns {
        out := out + [synth[j]];
        j := j + 1;
      } else {
        out := out + [real_[i]];
        i := i + 1;
      }
    }
    MergedRest(real_[i..], synth[j..]);
    out := out + real_[i..];
    out := out + synth[j..];
  }

  /** Merging two sorted lists is the stable sort of the real visits followed by the synthesized ones. */
  lemma MergedIsSorted(real_: seq<Visit>, synth: seq<Visit>)
    requires SortedBy(real_, VisitStart) && SortedBy(synth, VisitStart)
    ensures MergedByStart(real_, synth) == SortStable(real_ + synth, VisitStart)
  {
    hide SortedBy, SameByKey, Merging, MergedByStart, SortStable;
    StartMerge(real_, synth);
    MergeGoesOn([], real_, synth, 0, 0);
    assert real_[0..] == real_ && synth[0..] == synth;
    assert [] + MergedByStart(real_, synth) == MergedByStart(real_, synth);
    EndMerge(MergedByStart(real_, synth), real_, synth);
  }

  lemma StartMerge(real_: seq<Visit>, synth: seq<Visit>)
    ensures Merging([], real_, synth, 0, 0)
  {
    assert real_[..0] + synth[..0] == [];
  }

  lemma {:induction false} MergeGoesOn(out: seq<Visit>, real_: seq<Visit>, synth: seq<Visit>, i: nat, j: nat)
    requires SortedBy(real_, VisitStart) && SortedBy(synth, VisitStart)
    requires i <= |real_| && j <= |synth| && Merging(out, real_, synth, i, j)
    ensures Merging(out + MergedByStart(real_[i..], synth[j..]), real_, synth, |real_|, |synth|)
    decreases |real_| - i + |synth| - j
  {
    hide SortedBy, SameByKey, Merging;
    var merged := MergedByStart(real_[i..], synth[j..]);
    if i == |real_| && j == |synth| {
      assert out + merged == out;
    } else if i == |real_| || (j < |synth| && VisitStart(synth[j]) < VisitStart(real_[i])) {
      TakeSynth(out, real_, synth, i, j);
      MergeGoesOn(out + [synth[j]], real_, synth, i, j + 1);
      assert synth[j..][1..] == synth[j + 1..];
      assert merged == [synth[j]] + MergedByStart(real_[i..], synth[j + 1..]);
      assert out + merged == out + [synth[j]] + MergedByStart(real_[i..], synth[j + 1..]);
    } else {
      TakeReal(out, real_, synth, i, j);
      MergeGoesOn(out + [real_[i]], real_, synth, i + 1, j);
      assert real_[i..][1..] == real_[i + 1..];
      assert merged == [real_[i]] + MergedByStart(real_[i + 1..], synth[j..]);
      assert out + merged == out + [real_[i]] + MergedByStart(real_[i + 1..], synth[j..]);
    }
  }

  /** Merging keeps the order of each list, so a selection that takes none of the second is one of the first. */
  lemma {:induction false} MergedFilter(real_: seq<Visit>, synth: seq<Visit>, keep: Visit -> bool)
    requires forall i | 0 <= i < |synth| :: !keep(synth[i])
    ensures Filter(MergedByStart(real_, synth), keep) == Filter(real_, keep)
  {
    if real_ == [] {
      FilterNone(synth, keep);
    } else if synth != [] {
      if VisitStart(synth[0]) < VisitStart(real_[0]) {
        MergedFilter(real_, synth[1..], keep);
        FilterConcat([synth[0]], MergedByStart(real_, synth[1..]), keep);
        FilterNone([synth[0]], keep);
        assert [] + Filter(real_, keep) == Filter(real_, keep);
      } else {
        MergedFilter(real_[1..], synth, keep);
        FilterConcat([real_[0]], MergedByStart(real_[1..], synth), keep);
        FilterConcat([real_[0]], real_[1..], keep);
        assert [real_[0]] + real_[1..] == real_;
      }
    }
  }

  lemma WholeMerge(out: seq<Visit>, real_: seq<Visit>, synth: seq<Visit>)
    requires Merging(out, real_, synth, |real_|, |synth|)
    ensures SortedBy(out, VisitStart) && SameByKey(out, real_ + synth, VisitStart)
  {
    hide SortedBy, SameByKey;
    assert real_[..|real_|] == real_ && synth[..|synth|] == synth;
  }

  lemma EndMerge(out: seq<Visit>, real_: seq<Visit>, synth: seq<Visit>)
    requires Merging(out, real_, synth, |real_|, |synth|)
    ensures out == SortStable(real_ + synth, VisitStart)
  {
    var all := real_ + synth;
    WholeMerge(out, real_, synth);
    hide *;
    SortStableSorted(all, VisitStart);
    SortStableStable(all, VisitStart);
    SameKeysTransitive(out, all, SortStable(all, VisitStart));
    SortedUnique(out, SortStable(all, VisitStart), VisitStart);
  }

  lemma SameKeysTransitive(a: seq<Visit>, b: seq<Visit>, c: seq<Visit>)
    requires SameByKey(a, b, VisitStart) && SameByKey(c, b, VisitStart)
    ensures SameByKey(a, c, VisitStart)
  {
    forall k ensures Filter(a, HasKey(VisitStart, k)) == Filter(c, HasKey(VisitStart, k)) {
      assert Filter(a, HasKey(VisitStart, k)) == Filter(b, HasKey(VisitStart, k));
      assert Filter(c, HasKey(VisitStart, k)) == Filter(b, HasKey(VisitStart, k));
    }
  }
}