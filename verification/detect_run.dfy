/** One whole detection run (internal/detect/detect.go, Run and flatten). */
module DetectRun {
  import opened Domain
  import opened Seqs
  import opened Detection
  import opened Stays
  import opened Bases
  import opened BasesAccount
  import opened Candidates
  import MatchingLaws

  // ---- Flattening ----

  function ObsKey(o: Obs): int { o.start.ns }

  function VisitObs(visits: seq<Visit>): seq<Obs> {
    if visits == [] then []
    else
      var v := Last(visits);
      VisitObs(Front(visits)) + if v.loc.Some? then [Obs(v.start, v.end, v.loc.value)] else []
  }

  function EndpointObs(a: Activity): seq<Obs> {
    (if a.from.Some? then [Obs(a.start, a.start, a.from.value)] else [])
    + (if a.to.Some? then [Obs(a.end, a.end, a.to.value)] else [])
  }

  function ActivityObs(acts: seq<Activity>): seq<Obs> {
    if acts == [] then [] else ActivityObs(Front(acts)) + EndpointObs(Last(acts))
  }

  function PointObs(pts: seq<PathPoint>): seq<Obs> {
    if pts == [] then []
    else
      var p := Last(pts);
      PointObs(Front(pts)) + if p.loc.Some? then [Obs(p.time, p.time, p.loc.value)] else []
  }

  function FixObs(fixes: seq<RawPosition>): seq<Obs> {
    if fixes == [] then []
    else
      var f := Last(fixes);
      FixObs(Front(fixes)) + if f.loc.Some? then [Obs(f.time, f.time, f.loc.value)] else []
  }

  /** Everything located, in start order; equal starts keep visits, activities, points, photo fixes. */
  function Flattened(visits: seq<Visit>, acts: seq<Activity>, pts: seq<PathPoint>, fixes: seq<RawPosition>): seq<Obs> {
    SortStable(VisitObs(visits) + ActivityObs(acts) + PointObs(pts) + FixObs(fixes), ObsKey)
  }

  method FlattenAll(visits: seq<Visit>, acts: seq<Activity>, pts: seq<PathPoint>, fixes: seq<RawPosition>)
    returns (all: seq<Obs>)
    ensures all == Flattened(visits, acts, pts, fixes)
  {
    var a: seq<Obs> := [];
    for i := 0 to |visits|
      invariant a == VisitObs(visits[..i])
    {
      assert Front(visits[..i + 1]) == visits[..i];
      if visits[i].loc.Some? {
        a := a + [Obs(visits[i].start, visits[i].end, visits[i].loc.value)];
      }
    }
    assert visits[..|visits|] == visits;
    var b: seq<Obs> := [];
    for i := 0 to |acts|
      invariant b == ActivityObs(acts[..i])
    {
      assert Front(acts[..i + 1]) == acts[..i];
      ghost var before := b;
      if acts[i].from.Some? {
        b := b + [Obs(acts[i].start, acts[i].start, acts[i].from.value)];
      }
      if acts[i].to.Some? {
        b := b + [Obs(acts[i].end, acts[i].end, acts[i].to.value)];
      }
      assert b == before + EndpointObs(acts[i]);
    }
    assert acts[..|acts|] == acts;
    var c: seq<Obs> := [];
    for i := 0 to |pts|
      invariant c == PointObs(pts[..i])
    {
      assert Front(pts[..i + 1]) == pts[..i];
      if pts[i].loc.Some? {
        c := c + [Obs(pts[i].time, pts[i].time, pts[i].loc.value)];
      }
    }
    assert pts[..|pts|] == pts;
    var d: seq<Obs> := [];
    for i := 0 to |fixes|
      invariant d == FixObs(fixes[..i])
    {
      assert Front(fixes[..i + 1]) == fixes[..i];
      if fixes[i].loc.Some? {
        d := d + [Obs(fixes[i].time, fixes[i].time, fixes[i].loc.value)];
      }
    }
    assert fixes[..|fixes|] == fixes;
    all := SortStable(a + b + c + d, ObsKey);
  }

  // ---- The run ----

  /** The visits detection works on: the real ones, with synthesized stays merged in when there are any. */
  function RunVisits(o: Observations, p: DetectParams, dist: Distance): seq<Visit> {
    var stays := Synthesized(Filter(o.raws, PhotoFix()), p.synth, dist);
    if stays == [] then o.visits else MergedByStart(o.visits, stays)
  }

  /** The observations detection judges, before outliers are dropped. */
  function RunObs(o: Observations, p: DetectParams, dist: Distance): seq<Obs> {
    Flattened(RunVisits(o, p, dist), o.activities, o.points, Filter(o.raws, PhotoFix()))
  }

  function KeptObs(o: Observations, p: DetectParams, dist: Distance): seq<Obs> {
    Good(RunObs(o, p, dist), |RunObs(o, p, dist)|, p.maxKmh, dist)
  }

  lemma StaysSorted(stays: seq<Visit>)
    requires OrderedApart(stays)
    ensures SortedBy(stays, VisitStart)
  {
  }

  lemma RunVisitsSorted(o: Observations, p: DetectParams, dist: Distance)
    requires SortedBy(o.visits, VisitStart)
    ensures SortedBy(RunVisits(o, p, dist), VisitStart)
  {
    hide MergedByStart, SortStable, SortedBy, Synthesized, Filter;
    var photos := Filter(o.raws, PhotoFix());
    var stays := Synthesized(photos, p.synth, dist);
    SynthesizedOrderedApart(photos, p.synth, dist);
    StaysSorted(stays);
    MergedIsSorted(o.visits, stays);
    SortStableSorted(o.visits + stays, VisitStart);
  }

  /**
   On a chronological export, synthesized stays merged in or not, a span's dwells are exactly the located
   and long enough visits and stays that start in it.
   */
  lemma RunDwells(o: Observations, p: DetectParams, dist: Distance, t0: Time, t1: Time, bases: seq<Base>)
    requires SortedBy(o.visits, VisitStart)
    ensures Dwells(RunVisits(o, p, dist), t0, t1, bases, p, dist)
         == Map(Filter(RunVisits(o, p, dist), DwellIn(t0, t1, p.minDwellMin)), DwellOf(bases, dist))
  {
    RunVisitsSorted(o, p, dist);
    DwellsOfSpan(RunVisits(o, p, dist), t0, t1, bases, p, dist);
  }

  /** What home derivation needs beside the observations. */
  datatype HomeParams = HomeParams(bases: BaseParams, homeMinDays: int, grid: Grid)

  function AssertsHome(): Visit -> bool { (v: Visit) => v.semanticType == "INFERRED_HOME" && v.loc.Some? }

  function HasLoc(): Visit -> bool { (v: Visit) => v.loc.Some? }

  function EvidenceOf(): Visit -> Evidence {
    (v: Visit) => Evidence(CivilDay(v.start), if v.loc.Some? then v.loc.value else LatLng(0.0, 0.0))
  }

  function EvidenceIn(visits: seq<Visit>, keep: Visit -> bool): seq<Evidence> {
    Map(Filter(visits, keep), EvidenceOf())
  }

  /** Asserted homes first; recurring stays are consulted only when those yield nothing. */
  function RunBases(o: Observations, p: DetectParams, home: HomeParams, dist: Distance): seq<Base> {
    var asserted := ClusteredBases(EvidenceIn(RunVisits(o, p, dist), AssertsHome()), home.bases, 0, home.grid, dist);
    var stays := Synthesized(Filter(o.raws, PhotoFix()), p.synth, dist);
    if asserted != [] || stays == [] then asserted
    else ClusteredBases(EvidenceIn(stays, HasLoc()), home.bases, home.homeMinDays, home.grid, dist)
  }

  lemma {:induction false} StaysUnnamed(gs: seq<Group>, p: SynthParams)
    requires forall i | 0 <= i < |gs| :: gs[i] != []
    ensures Filter(StaysOf(gs, p), AssertsHome()) == []
  {
    hide Centroid, EndTime, LongEnough;
    if gs != [] {
      StaysUnnamed(Front(gs), p);
      if LongEnough(Last(gs), p) {
        FilterSnoc(StaysOf(Front(gs), p), StayOf(Last(gs)), AssertsHome());
      } else {
        assert StaysOf(Front(gs), p) + [] == StaysOf(Front(gs), p);
      }
    }
  }

  /** Merging stays in adds no assertion of home and moves none. */
  lemma StaysAssertNothing(o: Observations, p: DetectParams, dist: Distance)
    ensures EvidenceIn(RunVisits(o, p, dist), AssertsHome()) == EvidenceIn(o.visits, AssertsHome())
  {
    var sorted := SortStable(Filter(Filter(o.raws, PhotoFix()), Located()), FixKey);
    var stays := Synthesized(Filter(o.raws, PhotoFix()), p.synth, dist);
    StaysUnnamed(Groups(sorted, p.synth, dist), p.synth);
    NoneOfNone(stays, AssertsHome());
    hide Filter, SortStable, Synthesized, MergedByStart;
    MergedFilter(o.visits, stays, AssertsHome());
  }

  lemma NoneOfNone(stays: seq<Visit>, keep: Visit -> bool)
    requires Filter(stays, keep) == []
    ensures forall i | 0 <= i < |stays| :: !keep(stays[i])
  {
    FilterElements(stays, keep);
    forall i | 0 <= i < |stays| ensures !keep(stays[i]) {
      assert stays[i] in stays;
    }
  }

  /** Bases from asserted homes do not depend on photos; stays matter only where no asserted home makes a base. */
  lemma AssertedHomesIgnorePhotos(o: Observations, more: seq<RawPosition>, p: DetectParams, home: HomeParams,
                                  dist: Distance)
    ensures var asserted := ClusteredBases(EvidenceIn(o.visits, AssertsHome()), home.bases, 0, home.grid, dist);
            asserted != [] ==> RunBases(o, p, home, dist) == RunBases(o.(raws := more), p, home, dist) == asserted
  {
    StaysAssertNothing(o, p, dist);
    StaysAssertNothing(o.(raws := more), p, dist);
    hide EvidenceIn, ClusteredBases, Synthesized, RunVisits;
  }

  method CollectEvidence(visits: seq<Visit>, keep: Visit -> bool) returns (ev: seq<Evidence>)
    ensures ev == EvidenceIn(visits, keep)
  {
    hide CivilDay;
    ev := [];
    for i := 0 to |visits|
      invariant ev == EvidenceIn(visits[..i], keep)
    {
      assert visits[..i + 1] == visits[..i] + [visits[i]];
      FilterSnoc(visits[..i], visits[i], keep);
      if keep(visits[i]) {
        assert Front(Filter(visits[..i], keep) + [visits[i]]) == Filter(visits[..i], keep);
        ev := ev + [EvidenceOf()(visits[i])];
      }
    }
    assert visits[..|visits|] == visits;
  }

  method DeriveBases(visits: seq<Visit>, stays: seq<Visit>, home: HomeParams, dist: Distance) returns (bases: seq<Base>)
    ensures bases == (var asserted := ClusteredBases(EvidenceIn(visits, AssertsHome()), home.bases, 0, home.grid, dist);
                      if asserted != [] || stays == [] then asserted
                      else ClusteredBases(EvidenceIn(stays, HasLoc()), home.bases, home.homeMinDays, home.grid, dist))
  {
    hide ClusteredBases, EvidenceIn;
    var ev := CollectEvidence(visits, AssertsHome());
    bases := ClusterBases(ev, home.bases, 0, home.grid, dist);
    if |bases| == 0 && |stays| > 0 {
      ev := CollectEvidence(stays, HasLoc());
      bases := ClusterBases(ev, home.bases, home.homeMinDays, home.grid, dist);
    }
  }

  /** The candidates of a run, given its away-runs. */
  function RunCandidates(o: Observations, p: DetectParams, home: HomeParams, dist: Distance, rounded: LatLng -> LatLng,
                         spans: seq<Span>): seq<Candidate>
    requires forall k | 0 <= k < |spans| :: spans[k].s <= spans[k].e < |KeptObs(o, p, dist)|
  {
    CandidatesFor(KeptObs(o, p, dist), spans, RunVisits(o, p, dist), RunBases(o, p, home, dist), p, dist, rounded)
  }

  /** Detection; without home bases there is no "away" and no candidate. */
  method Run(o: Observations, p: DetectParams, home: HomeParams, dist: Distance, rounded: LatLng -> LatLng)
    returns (bases: seq<Base>, cands: seq<Candidate>, dropped: nat, ghost spans: seq<Span>)
    ensures bases == RunBases(o, p, home, dist)
    ensures exists asserted ::
      HomesMean(bases, asserted, RunVisits(o, p, dist), Synthesized(Filter(o.raws, PhotoFix()), p.synth, dist), home,
                dist)
    ensures dropped == |RunObs(o, p, dist)| - |KeptObs(o, p, dist)|
    ensures bases == [] ==> cands == []
    ensures bases != [] ==>
      AllRuns(HomeDists(KeptObs(o, p, dist), bases, dist), p.nearM, spans)
      && (forall k | 0 <= k < |spans| :: spans[k].s <= spans[k].e < |KeptObs(o, p, dist)|)
      && cands == RunCandidates(o, p, home, dist, rounded, spans)
    ensures bases != [] ==> AwayStretches(KeptObs(o, p, dist), spans, bases, p, dist)
    ensures bases != [] && SortedBy(o.visits, VisitStart) ==>
      exists idx ::
        Adventures(cands, idx, KeptObs(o, p, dist), spans, RunVisits(o, p, dist), bases, p, dist, rounded)
  {
    hide Synthesized, Flattened, Good, CandidatesFor, SortedBy, OrderedApart, SortStable, HomeDists, AllRuns,
      ClusteredBases, EvidenceIn, Adventures, AwayStretches, HomesMean;
    var photos := SelectPhotos(o.raws);
    var stays := SynthesizeStays(photos, p.synth, dist);
    var visits := o.visits;
    if |stays| > 0 {
      visits := MergeVisitsByStart(o.visits, stays);
    }
    if SortedBy(o.visits, VisitStart) {
      RunVisitsSorted(o, p, dist);
    }
    var flat := FlattenAll(visits, o.activities, o.points, photos);
    var all := new Obs[|flat|](i requires 0 <= i < |flat| => flat[i]);
    assert all[..] == flat;
    var n;
    n, dropped := RejectOutliers(all, p.maxKmh, dist);
    spans := [];
    bases := DeriveBases(visits, stays, home, dist);
    ghost var asserted := ClusteredBases(EvidenceIn(visits, AssertsHome()), home.bases, 0, home.grid, dist);
    RunBasesMean(visits, stays, bases, asserted, home, dist);
    if |bases| == 0 {
      cands := [];
      return;
    }
    cands, spans := DetectRuns(all[..n], visits, bases, p, dist, rounded);
  }

  method SelectPhotos(raws: seq<RawPosition>) returns (photos: seq<RawPosition>)
    ensures photos == Filter(raws, PhotoFix())
  {
    photos := [];
    for i := 0 to |raws|
      invariant photos == Filter(raws[..i], PhotoFix())
    {
      assert raws[..i + 1] == raws[..i] + [raws[i]];
      FilterSnoc(raws[..i], raws[i], PhotoFix());
      if raws[i].source == "PHOTO" && raws[i].loc.Some? {
        photos := photos + [raws[i]];
      }
    }
    assert raws[..|raws|] == raws;
  }

  /** What survives outlier rejection is still in start order. */
  lemma KeptInOrder(o: Observations, p: DetectParams, dist: Distance)
    ensures ObsOrdered(KeptObs(o, p, dist))
  {
    hide Good, Bad;
    var visits := RunVisits(o, p, dist);
    var raw := VisitObs(visits) + ActivityObs(o.activities) + PointObs(o.points) + FixObs(Filter(o.raws, PhotoFix()));
    var all := SortStable(raw, ObsKey);
    SortStableSorted(raw, ObsKey);
    var idx := GoodExact(all, |all|, p.maxKmh, dist);
    var kept := Good(all, |all|, p.maxKmh, dist);
    forall i, j | 0 <= i < j < |kept| ensures kept[i].start.ns <= kept[j].start.ns {
      assert idx[i] < idx[j] && ObsKey(all[idx[i]]) <= ObsKey(all[idx[j]]);
    }
  }

  // ---- Where home is ----

  function ClaimsHome(): Visit -> bool { (v: Visit) => v.loc.Some? && v.semanticType == "INFERRED_HOME" }

  /** The visits that count, as places on the civil days they begin. */
  ghost predicate EvidenceAt(ev: seq<Evidence>, idx: seq<nat>, visits: seq<Visit>, counts: Visit -> bool) {
    && PlacesWhere(idx, visits, counts) && |ev| == |idx|
    && forall k | 0 <= k < |idx| ::
         && idx[k] < |visits| && visits[idx[k]].loc.Some?
         && ev[k] == Evidence(CivilDay(visits[idx[k]].start), visits[idx[k]].loc.value)
  }

  /** Bases that `visits` give: those of the visits that count. */
  ghost predicate BasesOf(bases: seq<Base>, visits: seq<Visit>, counts: Visit -> bool, minDays: int, home: HomeParams,
                          dist: Distance)
  {
    exists ev, idx, f ::
      EvidenceAt(ev, idx, visits, counts) && BasesMean(bases, f, ev, home.bases, minDays, home.grid, dist)
  }

  /** Asserted homes, if they make a base; otherwise stays, on enough different days, if there are any. */
  ghost predicate HomesMean(bases: seq<Base>, asserted: seq<Base>, visits: seq<Visit>, stays: seq<Visit>,
                            home: HomeParams, dist: Distance)
  {
    && BasesOf(asserted, visits, ClaimsHome(), 0, home, dist)
    && (asserted != [] || stays == [] ==> bases == asserted)
    && (asserted == [] && stays != [] ==> BasesOf(bases, stays, HasLoc(), home.homeMinDays, home, dist))
  }

  lemma EvidenceListed(visits: seq<Visit>, keep: Visit -> bool, counts: Visit -> bool) returns (idx: seq<nat>)
    requires forall v :: keep(v) <==> counts(v)
    requires forall v :: keep(v) ==> v.loc.Some?
    ensures EvidenceAt(EvidenceIn(visits, keep), idx, visits, counts)
  {
    hide CivilDay;
    idx := FilterPlaces(visits, keep);
    assert forall k | 0 <= k < |idx| :: idx[k] in idx;
    hide Filter;
  }

  lemma ClusteredMeans(visits: seq<Visit>, keep: Visit -> bool, counts: Visit -> bool, minDays: int, home: HomeParams,
                       dist: Distance)
    requires forall v :: keep(v) <==> counts(v)
    requires forall v :: keep(v) ==> v.loc.Some?
    ensures BasesOf(ClusteredBases(EvidenceIn(visits, keep), home.bases, minDays, home.grid, dist), visits, counts,
                    minDays, home, dist)
  {
    hide EvidenceIn, ClusteredBases, EvidenceAt, BasesMean;
    var idx := EvidenceListed(visits, keep, counts);
    var f := BasesAccounted(EvidenceIn(visits, keep), home.bases, minDays, home.grid, dist);
  }

  /** The home bases of a run in plain terms. */
  lemma RunBasesMean(visits: seq<Visit>, stays: seq<Visit>, bases: seq<Base>, asserted: seq<Base>, home: HomeParams,
                     dist: Distance)
    requires asserted == ClusteredBases(EvidenceIn(visits, AssertsHome()), home.bases, 0, home.grid, dist)
    requires bases == if asserted != [] || stays == [] then asserted
                      else ClusteredBases(EvidenceIn(stays, HasLoc()), home.bases, home.homeMinDays, home.grid, dist)
    ensures HomesMean(bases, asserted, visits, stays, home, dist)
  {
    hide EvidenceIn, ClusteredBases, BasesOf;
    ClusteredMeans(visits, AssertsHome(), ClaimsHome(), 0, home, dist);
    ClusteredMeans(stays, HasLoc(), HasLoc(), home.homeMinDays, home, dist);
  }

  // ---- What is observed ----

  ghost predicate FromActivity(ob: Obs, acts: seq<Activity>) {
    exists a :: a in acts
      && ((a.from.Some? && ob == Obs(a.start, a.start, a.from.value))
          || (a.to.Some? && ob == Obs(a.end, a.end, a.to.value)))
  }

  ghost predicate FromPoint(ob: Obs, pts: seq<PathPoint>) {
    exists pt :: pt in pts && pt.loc.Some? && ob == Obs(pt.time, pt.time, pt.loc.value)
  }

  ghost predicate FromPhoto(ob: Obs, raws: seq<RawPosition>) {
    exists r :: r in raws && r.source == "PHOTO" && r.loc.Some? && ob == Obs(r.time, r.time, r.loc.value)
  }

  lemma {:induction false} VisitObsMean(visits: seq<Visit>, ob: Obs)
    ensures ob in VisitObs(visits) <==> exists v :: v in visits && v.loc.Some? && ob == Obs(v.start, v.end, v.loc.value)
  {
    if visits != [] {
      VisitObsMean(Front(visits), ob);
      assert visits == Front(visits) + [Last(visits)];
    }
  }

  lemma {:induction false} ActivityObsMean(acts: seq<Activity>, ob: Obs)
    ensures ob in ActivityObs(acts) <==> FromActivity(ob, acts)
  {
    if acts != [] {
      ActivityObsMean(Front(acts), ob);
      assert acts == Front(acts) + [Last(acts)];
    }
  }

  lemma {:induction false} PointObsMean(pts: seq<PathPoint>, ob: Obs)
    ensures ob in PointObs(pts) <==> FromPoint(ob, pts)
  {
    if pts != [] {
      PointObsMean(Front(pts), ob);
      assert pts == Front(pts) + [Last(pts)];
    }
  }

  lemma {:induction false} FixObsMean(fixes: seq<RawPosition>, ob: Obs)
    ensures ob in FixObs(fixes) <==> exists r :: r in fixes && r.loc.Some? && ob == Obs(r.time, r.time, r.loc.value)
  {
    if fixes != [] {
      FixObsMean(Front(fixes), ob);
      assert fixes == Front(fixes) + [Last(fixes)];
    }
  }

  lemma PhotoObsMean(raws: seq<RawPosition>, ob: Obs)
    ensures ob in FixObs(Filter(raws, PhotoFix())) <==> FromPhoto(ob, raws)
  {
    var fixes := Filter(raws, PhotoFix());
    FixObsMean(fixes, ob);
    FilterElements(raws, PhotoFix());
    hide FixObs, Filter;
    if r :| r in raws && r.source == "PHOTO" && r.loc.Some? && ob == Obs(r.time, r.time, r.loc.value) {
      assert r in fixes;
    }
    if r :| r in fixes && r.loc.Some? && ob == Obs(r.time, r.time, r.loc.value) {
      assert r in raws && PhotoFix()(r);
    }
  }

  /** Detection observes the located visits, activity ends, path points and photo fixes, and nothing else. */
  lemma ObservedIff(o: Observations, p: DetectParams, dist: Distance, ob: Obs)
    ensures ob in RunObs(o, p, dist) <==>
      || FromVisit(ob, RunVisits(o, p, dist)) || FromActivity(ob, o.activities)
      || FromPoint(ob, o.points) || FromPhoto(ob, o.raws)
  {
    var visits, fixes := RunVisits(o, p, dist), Filter(o.raws, PhotoFix());
    var raw := VisitObs(visits) + ActivityObs(o.activities) + PointObs(o.points) + FixObs(fixes);
    VisitObsMean(visits, ob);
    ActivityObsMean(o.activities, ob);
    PointObsMean(o.points, ob);
    PhotoObsMean(o.raws, ob);
    SortStableElements(raw, ObsKey);
    hide VisitObs, ActivityObs, PointObs, FixObs, SortStable, FromActivity, FromPoint, FromPhoto, Filter, RunVisits;
    assert ob in raw <==> ob in multiset(raw);
    assert ob in SortStable(raw, ObsKey) <==> ob in multiset(SortStable(raw, ObsKey));
    VisitsSame(ob, visits);
  }

  lemma VisitsSame(ob: Obs, visits: seq<Visit>)
    ensures FromVisit(ob, visits)
      <==> exists v :: v in visits && v.loc.Some? && ob == Obs(v.start, v.end, v.loc.value)
  {
    if v :| v in visits && v.loc.Some? && ob == ObsOf(v) {
      assert ob == Obs(v.start, v.end, v.loc.value);
    }
    if v :| v in visits && v.loc.Some? && ob == Obs(v.start, v.end, v.loc.value) {
      assert ob == ObsOf(v);
    }
  }

  // ---- When candidates overlap ----

  /** A located visit as detection observes it. */
  function ObsOf(v: Visit): Obs
    requires v.loc.Some?
  {
    Obs(v.start, v.end, v.loc.value)
  }

  ghost predicate FromVisit(ob: Obs, visits: seq<Visit>) {
    exists v :: v in visits && v.loc.Some? && ob == ObsOf(v)
  }

  lemma {:induction false} VisitObsFrom(visits: seq<Visit>)
    ensures forall ob | ob in VisitObs(visits) :: FromVisit(ob, visits)
  {
    if visits != [] {
      VisitObsFrom(Front(visits));
      assert visits == Front(visits) + [Last(visits)];
      forall ob | ob in VisitObs(visits) ensures FromVisit(ob, visits) {
        if ob in VisitObs(Front(visits)) {
          var v :| v in Front(visits) && v.loc.Some? && ob == ObsOf(v);
          assert v in visits;
        } else {
          assert Last(visits) in visits && ob == ObsOf(Last(visits));
        }
      }
    }
  }

  /** Everything but a visit is observed for an instant. */
  lemma {:induction false} ActivitiesAreInstants(acts: seq<Activity>)
    ensures forall ob | ob in ActivityObs(acts) :: ob.start == ob.end
  {
    if acts != [] {
      ActivitiesAreInstants(Front(acts));
    }
  }

  lemma {:induction false} PointsAreInstants(pts: seq<PathPoint>)
    ensures forall ob | ob in PointObs(pts) :: ob.start == ob.end
  {
    if pts != [] {
      PointsAreInstants(Front(pts));
    }
  }

  lemma {:induction false} FixesAreInstants(fixes: seq<RawPosition>)
    ensures forall ob | ob in FixObs(fixes) :: ob.start == ob.end
  {
    if fixes != [] {
      FixesAreInstants(Front(fixes));
    }
  }

  lemma LastingIsVisit(visits: seq<Visit>, acts: seq<Activity>, pts: seq<PathPoint>, fixes: seq<RawPosition>, ob: Obs)
    requires ob in Flattened(visits, acts, pts, fixes) && ob.start != ob.end
    ensures FromVisit(ob, visits)
  {
    hide FromVisit, SortStable, VisitObs, ActivityObs, PointObs, FixObs;
    var raw := VisitObs(visits) + ActivityObs(acts) + PointObs(pts) + FixObs(fixes);
    SortStableElements(raw, ObsKey);
    assert ob in multiset(SortStable(raw, ObsKey));
    assert ob in raw;
    VisitObsFrom(visits);
    ActivitiesAreInstants(acts);
    PointsAreInstants(pts);
    FixesAreInstants(fixes);
  }

  lemma KeptWasObserved(o: Observations, p: DetectParams, dist: Distance, i: nat)
    requires i < |KeptObs(o, p, dist)|
    ensures KeptObs(o, p, dist)[i] in RunObs(o, p, dist)
  {
    hide Good, Bad, RunObs;
    var all := RunObs(o, p, dist);
    var idx := GoodExact(all, |all|, p.maxKmh, dist);
    assert all[idx[i]] in all;
  }

  /**
   In terms of the input: candidates of a run can overlap only if a located visit, recorded or
   synthesized, away from home, lasts past a later observation at home that was kept.
   */
  lemma OverlapNeedsOverlongVisit(o: Observations, p: DetectParams, home: HomeParams, dist: Distance,
                                  rounded: LatLng -> LatLng, spans: seq<Span>)
    returns (v: Visit, i: nat, j: nat)
    requires AllRuns(RunDists(o, p, home, dist), p.nearM, spans)
    requires forall k | 0 <= k < |spans| :: spans[k].s <= spans[k].e < |KeptObs(o, p, dist)|
    requires !RunsApart(o, p, home, dist, rounded, spans)
    ensures i < j < |KeptObs(o, p, dist)| && v in RunVisits(o, p, dist) && v.loc.Some?
    ensures KeptObs(o, p, dist)[i] == ObsOf(v) && v.end.ns > KeptObs(o, p, dist)[j].start.ns
    ensures Away(RunDists(o, p, home, dist), p.nearM, i) && !Away(RunDists(o, p, home, dist), p.nearM, j)
  {
    KeptInOrder(o, p, dist);
    var all := KeptObs(o, p, dist);
    i, j := OverlapOutlastsHomecoming(all, spans, RunVisits(o, p, dist), RunBases(o, p, home, dist), p, dist, rounded);
    assert OutlastsHomecoming(all, RunDists(o, p, home, dist), p.nearM, i, j);
    assert all[i].start.ns <= all[j].start.ns < all[i].end.ns;
    KeptWasObserved(o, p, dist, i);
    hide KeptObs, RunBases, RunVisits, NeighboursApart, Flattened;
    LastingIsVisit(RunVisits(o, p, dist), o.activities, o.points, Filter(o.raws, PhotoFix()), all[i]);
    v :| v in RunVisits(o, p, dist) && v.loc.Some? && all[i] == ObsOf(v);
  }

  function RunDists(o: Observations, p: DetectParams, home: HomeParams, dist: Distance): (d: seq<real>)
    ensures |d| == |KeptObs(o, p, dist)|
  {
    HomeDists(KeptObs(o, p, dist), RunBases(o, p, home, dist), dist)
  }

  /** From each qualifying run to the next, the last observation ends before the next run begins. */
  ghost predicate RunsApart(o: Observations, p: DetectParams, home: HomeParams, dist: Distance,
                            rounded: LatLng -> LatLng, spans: seq<Span>)
    requires forall k | 0 <= k < |spans| :: spans[k].s <= spans[k].e < |KeptObs(o, p, dist)|
  {
    NeighboursApart(KeptObs(o, p, dist), spans, RunVisits(o, p, dist), RunBases(o, p, home, dist), p, dist, rounded)
  }

  /**
   A located visit closes one qualifying run and outlasts the start of the next qualifying run.
   */
  ghost predicate Outstays(o: Observations, p: DetectParams, home: HomeParams, dist: Distance,
                           rounded: LatLng -> LatLng, spans: seq<Span>, v: Visit, a: nat, b: nat)
    requires forall k | 0 <= k < |spans| :: spans[k].s <= spans[k].e < |KeptObs(o, p, dist)|
  {
    var all, visits, bases := KeptObs(o, p, dist), RunVisits(o, p, dist), RunBases(o, p, home, dist);
    && a < b < |spans| && v in visits && v.loc.Some?
    && QualifyingRun(all, spans[a], visits, bases, p, dist, rounded)
    && QualifyingRun(all, spans[b], visits, bases, p, dist, rounded)
    && (forall m | a < m < b :: !QualifyingRun(all, spans[m], visits, bases, p, dist, rounded))
    && all[spans[a].e] == ObsOf(v) && v.end.ns > all[spans[b].s].start.ns
  }

  /** The observation that reaches into a later run is a visit. */
  lemma LastOfRun(o: Observations, p: DetectParams, home: HomeParams, dist: Distance, spans: seq<Span>, a: nat, b: nat)
    returns (v: Visit)
    requires AllRuns(RunDists(o, p, home, dist), p.nearM, spans) && a < b < |spans|
    requires forall k | 0 <= k < |spans| :: spans[k].s <= spans[k].e < |KeptObs(o, p, dist)|
    requires KeptObs(o, p, dist)[spans[a].e].end.ns > KeptObs(o, p, dist)[spans[b].s].start.ns
    ensures v in RunVisits(o, p, dist) && v.loc.Some? && KeptObs(o, p, dist)[spans[a].e] == ObsOf(v)
  {
    KeptInOrder(o, p, dist);
    KeptWasObserved(o, p, dist, spans[a].e);
    hide KeptObs, RunBases, RunVisits, Flattened, HomeDists, MaximalRun;
    var all := KeptObs(o, p, dist);
    assert spans[a].e < spans[b].s;
    assert all[spans[a].e].start.ns <= all[spans[b].s].start.ns;
    LastingIsVisit(RunVisits(o, p, dist), o.activities, o.points, Filter(o.raws, PhotoFix()), all[spans[a].e]);
    v :| v in RunVisits(o, p, dist) && v.loc.Some? && all[spans[a].e] == ObsOf(v);
  }

  lemma SomeOutstays(o: Observations, p: DetectParams, home: HomeParams, dist: Distance,
                     rounded: LatLng -> LatLng, spans: seq<Span>)
    returns (v: Visit, a: nat, b: nat)
    requires AllRuns(RunDists(o, p, home, dist), p.nearM, spans)
    requires forall k | 0 <= k < |spans| :: spans[k].s <= spans[k].e < |KeptObs(o, p, dist)|
    requires !RunsApart(o, p, home, dist, rounded, spans)
    ensures Outstays(o, p, home, dist, rounded, spans, v, a, b)
  {
    hide KeptObs, RunBases, RunVisits, QualifyingRun, RunDists, AllRuns;
    var all, visits, bases := KeptObs(o, p, dist), RunVisits(o, p, dist), RunBases(o, p, home, dist);
    a, b :| a < b < |spans|
      && QualifyingRun(all, spans[a], visits, bases, p, dist, rounded)
      && QualifyingRun(all, spans[b], visits, bases, p, dist, rounded)
      && (forall m | a < m < b :: !QualifyingRun(all, spans[m], visits, bases, p, dist, rounded))
      && all[spans[a].e].end.ns > all[spans[b].s].start.ns;
    v := LastOfRun(o, p, home, dist, spans, a, b);
  }

  lemma OutstaysOverlaps(o: Observations, p: DetectParams, home: HomeParams, dist: Distance,
                         rounded: LatLng -> LatLng, spans: seq<Span>, v: Visit, a: nat, b: nat)
    requires forall k | 0 <= k < |spans| :: spans[k].s <= spans[k].e < |KeptObs(o, p, dist)|
    requires Outstays(o, p, home, dist, rounded, spans, v, a, b)
    ensures !RunsApart(o, p, home, dist, rounded, spans)
  {
    hide KeptObs, RunBases, RunVisits, QualifyingRun;
  }

  /** Qualifying runs fail to stand apart exactly when some visit outstays its run into the next one. */
  lemma OverlapIffOutstays(o: Observations, p: DetectParams, home: HomeParams, dist: Distance,
                           rounded: LatLng -> LatLng, spans: seq<Span>)
    requires AllRuns(RunDists(o, p, home, dist), p.nearM, spans)
    requires forall k | 0 <= k < |spans| :: spans[k].s <= spans[k].e < |KeptObs(o, p, dist)|
    ensures !RunsApart(o, p, home, dist, rounded, spans)
      <==> exists v, a: nat, b: nat :: Outstays(o, p, home, dist, rounded, spans, v, a, b)
  {
    hide KeptObs, RunDists, RunsApart, Outstays, AllRuns;
    if !RunsApart(o, p, home, dist, rounded, spans) {
      var v, a, b := SomeOutstays(o, p, home, dist, rounded, spans);
    } else {
      forall v, a: nat, b: nat ensures !Outstays(o, p, home, dist, rounded, spans, v, a, b) {
        if Outstays(o, p, home, dist, rounded, spans, v, a, b) {
          OutstaysOverlaps(o, p, home, dist, rounded, spans, v, a, b);
        }
      }
    }
  }

  /** A run's candidates meet what matching and triage assume exactly when its qualifying runs stand apart. */
  lemma RunIsTriageable(o: Observations, p: DetectParams, home: HomeParams, dist: Distance, rounded: LatLng -> LatLng,
                        spans: seq<Span>, ids: seq<int>)
    requires p.minHrs > 0.0 && AllRuns(RunDists(o, p, home, dist), p.nearM, spans)
    requires forall k | 0 <= k < |spans| :: spans[k].s <= spans[k].e < |KeptObs(o, p, dist)|
    requires |ids| == |RunCandidates(o, p, home, dist, rounded, spans)|
    requires forall i, j | 0 <= i < j < |ids| :: ids[i] != ids[j]
    ensures MatchingLaws.RunOk(Refs(RunCandidates(o, p, home, dist, rounded, spans), ids))
      <==> RunsApart(o, p, home, dist, rounded, spans)
  {
    KeptInOrder(o, p, dist);
    hide RunBases, KeptObs, RunVisits, HomeDists, ObsOrdered, Disjoint, CandidatesFor, NeighboursApart, StartsOrdered;
    CandidatesDisjointIff(KeptObs(o, p, dist), spans, RunVisits(o, p, dist), RunBases(o, p, home, dist), p, dist,
                          rounded);
    CandidatesInOrder(KeptObs(o, p, dist), spans, RunVisits(o, p, dist), RunBases(o, p, home, dist), p, dist, rounded);
    RunsAreTriageable(RunCandidates(o, p, home, dist, rounded, spans), ids);
  }
}
