/**
 An export on which two candidates of one run overlap: a visit recorded past the next homecoming
 (internal/detect/detect.go, Run).
 */
module Overlap {
  import opened Domain
  import opened Seqs
  import opened Detection
  import opened Stays
  import opened Bases
  import opened Candidates
  import opened DetectRun
  import MatchingLaws

  function At(minutes: int): Time { Time(minutes * 60 * NS_PER_SECOND, 0) }

  function FirstVisit(away: LatLng): Visit { Visit(At(0), At(600), Some(away), "") }

  function HomeVisit(home: LatLng): Visit { Visit(At(60), At(90), Some(home), "INFERRED_HOME") }

  function SecondVisit(away: LatLng): Visit { Visit(At(120), At(600), Some(away), "") }

  function Visits(home: LatLng, away: LatLng): seq<Visit> { [FirstVisit(away), HomeVisit(home), SecondVisit(away)] }

  function Export(home: LatLng, away: LatLng): Observations { Observations(Visits(home, away), [], [], []) }

  const PARAMS := DetectParams(25_000.0, 100.0, 1, 1.0, 60.0, 900.0, SynthParams(200.0, 30.0, 240.0))

  function Homes(grid: Grid): HomeParams { HomeParams(BaseParams(10_000.0, 1, 45), 8, grid) }

  function Seen(home: LatLng, away: LatLng): seq<Obs> {
    [Obs(At(0), At(600), away), Obs(At(60), At(90), home), Obs(At(120), At(600), away)]
  }

  const SPANS: seq<Span> := [Span(0, 0), Span(2, 2)]

  lemma NoPhotos(home: LatLng, away: LatLng, dist: Distance)
    ensures Filter(Export(home, away).raws, PhotoFix()) == []
    ensures RunVisits(Export(home, away), PARAMS, dist) == Visits(home, away)
  {
  }

  lemma VisitsObserved(home: LatLng, away: LatLng)
    ensures VisitObs(Visits(home, away)) == Seen(home, away)
  {
    var a, h, b := FirstVisit(away), HomeVisit(home), SecondVisit(away);
    assert Front([a, h, b]) == [a, h] && Front([a, h]) == [a] && Front([a]) == [];
    assert VisitObs([a]) == [ObsOf(a)];
    assert VisitObs([a, h]) == [ObsOf(a), ObsOf(h)];
  }

  lemma Observed(home: LatLng, away: LatLng, dist: Distance)
    ensures RunObs(Export(home, away), PARAMS, dist) == Seen(home, away)
  {
    NoPhotos(home, away, dist);
    VisitsObserved(home, away);
    var seen := Seen(home, away);
    assert seen + [] + [] + [] == seen;
    assert SortedBy(seen, ObsKey);
    SortedIsFixed(seen, ObsKey);
  }

  lemma HoursApart()
    ensures AbsHours(At(0), At(60)) == 1.0 && AbsHours(At(60), At(0)) == 1.0
    ensures AbsHours(At(60), At(120)) == 1.0 && AbsHours(At(120), At(60)) == 1.0
  {
  }

  /** Two hundred kilometres in an hour is no outlier. */
  lemma NoneBad(home: LatLng, away: LatLng, dist: Distance)
    requires dist(home, away) == dist(away, home) == 200_000.0
    ensures forall i | 0 <= i < 3 :: !Bad(Seen(home, away), i, 900.0, dist)
  {
    HoursApart();
    hide AbsHours;
    var all := Seen(home, away);
    assert !FastFrom(all, 0, 1, 900.0, dist) && Considered(all, 0, 1);
    assert !FastFrom(all, 1, 0, 900.0, dist) && Considered(all, 1, 0);
    assert !FastFrom(all, 2, 1, 900.0, dist) && Considered(all, 2, 1);
  }

  lemma AllKept(home: LatLng, away: LatLng, dist: Distance)
    requires dist(home, away) == dist(away, home) == 200_000.0
    ensures KeptObs(Export(home, away), PARAMS, dist) == Seen(home, away)
  {
    Observed(home, away, dist);
    NoneBad(home, away, dist);
    hide Bad, RunObs;
    var all := Seen(home, away);
    assert Good(all, 0, 900.0, dist) == [];
    assert Good(all, 1, 900.0, dist) == [all[0]];
    assert Good(all, 2, 900.0, dist) == [all[0], all[1]];
    assert Good(all, 3, 900.0, dist) == [all[0], all[1], all[2]];
  }

  function HomeBase(home: LatLng): Base { Base(home, -45, 45, 1) }

  lemma OnDayZero(minutes: int)
    requires 0 <= minutes < 1440
    ensures CivilDay(At(minutes)) == 0
  {
  }

  lemma HomeSelected(home: LatLng, away: LatLng)
    ensures Filter(Visits(home, away), AssertsHome()) == [HomeVisit(home)]
  {
    hide At;
    var a, h, b := FirstVisit(away), HomeVisit(home), SecondVisit(away);
    assert Front([a, h, b]) == [a, h] && Front([a, h]) == [a] && Front([a]) == [];
    assert Filter([a], AssertsHome()) == [] && Filter([a, h], AssertsHome()) == [h];
  }

  lemma OneHome(home: LatLng, away: LatLng)
    ensures EvidenceIn(Visits(home, away), AssertsHome()) == [Evidence(0, home)]
  {
    HomeSelected(home, away);
    OnDayZero(60);
    hide At, CivilDay, Filter;
    var h := HomeVisit(home);
    assert Front([h]) == [] && EvidenceOf()(h) == Evidence(0, home);
    assert Map([h], EvidenceOf()) == [EvidenceOf()(h)];
  }

  lemma HomeFound(home: LatLng, away: LatLng, dist: Distance, grid: Grid)
    requires grid.publish(home) == home
    ensures RunBases(Export(home, away), PARAMS, Homes(grid), dist) == [HomeBase(home)]
  {
    NoPhotos(home, away, dist);
    OneHome(home, away);
    hide RunVisits, EvidenceIn, ClusteredBases;
    LoneEvidence(Evidence(0, home), Homes(grid).bases, grid, dist);
  }

  lemma FromHome(home: LatLng, minutes: int, loc: LatLng, dist: Distance)
    requires 0 <= minutes < 1440
    ensures HomeDist([HomeBase(home)], At(minutes), loc, dist) == dist(home, loc)
  {
    hide HomeDist, CivilDay, At;
    OnDayZero(minutes);
    OneBase(HomeBase(home), At(minutes), loc, dist);
  }

  lemma Distances(home: LatLng, away: LatLng, dist: Distance)
    requires dist(home, away) == 200_000.0
    ensures HomeDists(Seen(home, away), [HomeBase(home)], dist) == [200_000.0, 0.0, 200_000.0]
  {
    hide HomeDist;
    FromHome(home, 0, away, dist);
    FromHome(home, 60, home, dist);
    FromHome(home, 120, away, dist);
    assert dist(home, home) == 0.0;
  }

  lemma RunsFound()
    ensures AllRuns([200_000.0, 0.0, 200_000.0], PARAMS.nearM, SPANS)
  {
    assert SPANS[0].s <= 0 <= SPANS[0].e && SPANS[1].s <= 2 <= SPANS[1].e;
  }

  lemma DwellsFrom(home: LatLng, away: LatLng)
    ensures Filter(Visits(home, away), DwellIn(At(0), At(600), 60.0)) == [FirstVisit(away), SecondVisit(away)]
    ensures Filter(Visits(home, away), DwellIn(At(120), At(600), 60.0)) == [SecondVisit(away)]
  {
    var a, h, b := FirstVisit(away), HomeVisit(home), SecondVisit(away);
    var first, second := DwellIn(At(0), At(600), 60.0), DwellIn(At(120), At(600), 60.0);
    assert first(a) && !first(h) && first(b) && !second(a) && !second(h) && second(b);
    hide Minutes, At;
    assert Front([a, h, b]) == [a, h] && Front([a, h]) == [a] && Front([a]) == [];
    assert Filter([a, h], first) == [a] && Filter([a, h], second) == [];
  }

  lemma SortedVisits(home: LatLng, away: LatLng)
    ensures SortedBy(Visits(home, away), VisitStart)
  {
  }

  /** The two away visits as dwells. */
  lemma AsDwells(home: LatLng, away: LatLng, dist: Distance)
    requires dist(home, away) == 200_000.0
    ensures var far := Dwell(200_000.0, away); var f := DwellOf([HomeBase(home)], dist);
            Map([FirstVisit(away), SecondVisit(away)], f) == [far, far] && Map([SecondVisit(away)], f) == [far]
  {
    FromHome(home, 0, away, dist);
    FromHome(home, 120, away, dist);
    hide HomeDist, At;
    var a, b := FirstVisit(away), SecondVisit(away);
    assert Front([a, b]) == [a] && Front([b]) == [] && Front([a]) == [];
    var f := DwellOf([HomeBase(home)], dist);
    assert f(a) == Dwell(200_000.0, away) && f(b) == Dwell(200_000.0, away);
    assert Map([a], f) == [f(a)];
  }

  lemma Dwelt(home: LatLng, away: LatLng, dist: Distance)
    requires dist(home, away) == 200_000.0
    ensures var far := Dwell(200_000.0, away); var bases := [HomeBase(home)];
            && Dwells(Visits(home, away), At(0), At(600), bases, PARAMS, dist) == [far, far]
            && Dwells(Visits(home, away), At(120), At(600), bases, PARAMS, dist) == [far]
  {
    AsDwells(home, away, dist);
    DwellsFrom(home, away);
    SortedVisits(home, away);
    hide HomeDist, Filter, At, Dwells, SortedBy, Map, DwellOf, DwellIn, Visits, FirstVisit, SecondVisit;
    DwellsOfSpan(Visits(home, away), At(0), At(600), [HomeBase(home)], PARAMS, dist);
    DwellsOfSpan(Visits(home, away), At(120), At(600), [HomeBase(home)], PARAMS, dist);
  }

  /** What it takes for a run of one observation. */
  lemma OneQualifies(all: seq<Obs>, i: nat, visits: seq<Visit>, bases: seq<Base>, dist: Distance,
                     rounded: LatLng -> LatLng)
    requires i < |all| && Hours(all[i].start, all[i].end) >= 1.0
    requires var dwells := Dwells(visits, all[i].start, all[i].end, bases, PARAMS, dist);
             dwells != [] && forall k | 0 <= k < |dwells| :: dwells[k].distM == 200_000.0
    ensures QualifyingRun(all, Span(i, i), visits, bases, PARAMS, dist, rounded)
  {
    hide Dwells, Hours;
    var dwells := Dwells(visits, all[i].start, all[i].end, bases, PARAMS, dist);
    BestIsFarthest(dwells);
    hide Best;
    assert Best(dwells).distM == 200_000.0;
  }

  lemma LongRuns()
    ensures Hours(At(0), At(600)) >= 1.0 && Hours(At(120), At(600)) >= 1.0
  {
  }

  lemma BothQualify(home: LatLng, away: LatLng, dist: Distance, rounded: LatLng -> LatLng)
    requires dist(home, away) == 200_000.0
    ensures QualifyingRun(Seen(home, away), Span(0, 0), Visits(home, away), [HomeBase(home)], PARAMS, dist, rounded)
    ensures QualifyingRun(Seen(home, away), Span(2, 2), Visits(home, away), [HomeBase(home)], PARAMS, dist, rounded)
  {
    LongRuns();
    Dwelt(home, away, dist);
    hide Dwells, Hours, At, Visits, QualifyingRun;
    OneQualifies(Seen(home, away), 0, Visits(home, away), [HomeBase(home)], dist, rounded);
    OneQualifies(Seen(home, away), 2, Visits(home, away), [HomeBase(home)], dist, rounded);
  }

  lemma TwoOfTwo(all: seq<Obs>, a: Span, b: Span, visits: seq<Visit>, bases: seq<Base>, dist: Distance,
                 rounded: LatLng -> LatLng)
    requires a.s <= a.e < |all| && b.s <= b.e < |all|
    requires QualifyingRun(all, a, visits, bases, PARAMS, dist, rounded)
    requires QualifyingRun(all, b, visits, bases, PARAMS, dist, rounded)
    ensures |CandidatesFor(all, [a, b], visits, bases, PARAMS, dist, rounded)| == 2
  {
    hide CandidateFor;
    assert Front([a, b]) == [a] && Front([a]) == [];
    assert |CandidatesFor(all, [a], visits, bases, PARAMS, dist, rounded)| == 1;
  }

  lemma TwoCandidates(home: LatLng, away: LatLng, dist: Distance, rounded: LatLng -> LatLng)
    requires dist(home, away) == 200_000.0
    ensures |CandidatesFor(Seen(home, away), SPANS, Visits(home, away), [HomeBase(home)], PARAMS, dist, rounded)| == 2
  {
    BothQualify(home, away, dist, rounded);
    hide QualifyingRun, Visits, HomeBase;
    TwoOfTwo(Seen(home, away), Span(0, 0), Span(2, 2), Visits(home, away), [HomeBase(home)], dist, rounded);
  }

  lemma NotApart(home: LatLng, away: LatLng, dist: Distance, rounded: LatLng -> LatLng)
    requires dist(home, away) == 200_000.0
    ensures !NeighboursApart(Seen(home, away), SPANS, Visits(home, away), [HomeBase(home)], PARAMS, dist, rounded)
  {
    BothQualify(home, away, dist, rounded);
    hide QualifyingRun;
    assert SPANS[0] == Span(0, 0) && SPANS[1] == Span(2, 2);
    assert QualifyingRun(Seen(home, away), SPANS[0], Visits(home, away), [HomeBase(home)], PARAMS, dist, rounded);
    assert QualifyingRun(Seen(home, away), SPANS[1], Visits(home, away), [HomeBase(home)], PARAMS, dist, rounded);
  }

  /** What detection derives from the export. */
  lemma Derived(home: LatLng, away: LatLng, dist: Distance, grid: Grid)
    requires dist(home, away) == dist(away, home) == 200_000.0 && grid.publish(home) == home
    ensures var o := Export(home, away);
            && RunVisits(o, PARAMS, dist) == Visits(home, away) && KeptObs(o, PARAMS, dist) == Seen(home, away)
            && RunBases(o, PARAMS, Homes(grid), dist) == [HomeBase(home)]
            && RunDists(o, PARAMS, Homes(grid), dist) == [200_000.0, 0.0, 200_000.0]
  {
    NoPhotos(home, away, dist);
    AllKept(home, away, dist);
    HomeFound(home, away, dist, grid);
    Distances(home, away, dist);
    hide RunVisits, KeptObs, RunBases, HomeDists;
  }

  /** Detection finds these runs, and their candidates break what matching assumes about a run. */
  ghost predicate Overlaps(o: Observations, p: DetectParams, home: HomeParams, dist: Distance,
                           rounded: LatLng -> LatLng, spans: seq<Span>, ids: seq<int>)
  {
    && AllRuns(RunDists(o, p, home, dist), p.nearM, spans)
    && (forall k | 0 <= k < |spans| :: spans[k].s <= spans[k].e < |KeptObs(o, p, dist)|)
    && !RunsApart(o, p, home, dist, rounded, spans)
    && |RunCandidates(o, p, home, dist, rounded, spans)| == |ids|
    && !MatchingLaws.RunOk(Refs(RunCandidates(o, p, home, dist, rounded, spans), ids))
  }

  /**
   Two located visits, a homecoming recorded between their starts, and a home that clusters: detection
   gives two candidates that overlap. One observation is enough for a span here, and one
   visit for a home (-min-obs 1, -base-min-visits 1).
   */
  lemma OverlongVisitOverlaps(home: LatLng, away: LatLng, dist: Distance, grid: Grid, rounded: LatLng -> LatLng,
                              ids: seq<int>)
    requires dist(home, away) == dist(away, home) == 200_000.0 && grid.publish(home) == home
    requires |ids| == 2 && ids[0] != ids[1]
    ensures SortedBy(Export(home, away).visits, VisitStart) && PARAMS.minHrs > 0.0
    ensures Overlaps(Export(home, away), PARAMS, Homes(grid), dist, rounded, SPANS, ids)
  {
    hide RunVisits, KeptObs, RunBases, RunDists, AllRuns, CandidatesFor, NeighboursApart;
    var o := Export(home, away);
    Derived(home, away, dist, grid);
    RunsFound();
    NotApart(home, away, dist, rounded);
    TwoCandidates(home, away, dist, rounded);
    RunIsTriageable(o, PARAMS, Homes(grid), dist, rounded, SPANS, ids);
  }
}
