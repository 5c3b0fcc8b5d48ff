/**
 From away-runs to candidates (internal/detect/detect.go, Run): the dwell scan, the choice of destination,
 and what the candidates of one run promise to matching.
 */
module Candidates {
  import opened Domain
  import opened Seqs
  import opened Detection
  import opened Stays
  import Matching
  import MatchingLaws

  datatype DetectParams = DetectParams(nearM: real, farKm: real, minObs: int, minHrs: real, minDwellMin: real,
                                       maxKmh: real, synth: SynthParams)

  /** A stay long enough to count, with its distance from home. */
  datatype Dwell = Dwell(distM: real, loc: LatLng)

  datatype Candidate = Candidate(start: Time, end: Time, dest: LatLng, destM: real, stops: nat, obsCount: nat,
                                 startTruncated: bool, endTruncated: bool)

  // ---- The dwell scan ----

  /** A visit that may count as a dwell: located and long enough. */
  function LongStay(minDwellMin: real): Visit -> bool {
    (v: Visit) => v.loc.Some? && Minutes(v.start, v.end) >= minDwellMin
  }

  /** The same, among those that start in the span. */
  function DwellIn(t0: Time, t1: Time, minDwellMin: real): Visit -> bool {
    (v: Visit) => t0.ns <= v.start.ns <= t1.ns && v.loc.Some? && Minutes(v.start, v.end) >= minDwellMin
  }

  function DwellOf(bases: seq<Base>, dist: Distance): Visit -> Dwell {
    (v: Visit) =>
      var loc := if v.loc.Some? then v.loc.value else LatLng(0.0, 0.0);
      Dwell(HomeDist(bases, v.start, loc, dist), loc)
  }

  function StartsOf(visits: seq<Visit>): (starts: seq<int>)
    ensures |starts| == |visits|
  {
    seq(|visits|, i requires 0 <= i < |visits| => visits[i].start.ns)
  }

  /** The visits between the two points bisection finds for the span, whatever order the visits are in. */
  function Stretch(visits: seq<Visit>, t0: Time, t1: Time): seq<Visit> {
    var lo := LeftPoint(StartsOf(visits), t0.ns, 0, |visits|);
    var hi := RightPoint(StartsOf(visits), t1.ns, 0, |visits|);
    if lo <= hi then visits[lo..hi] else []
  }

  /** The dwells a span is judged by. */
  function Dwells(visits: seq<Visit>, t0: Time, t1: Time, bases: seq<Base>, p: DetectParams,
                  dist: Distance): seq<Dwell> {
    Map(Filter(Stretch(visits, t0, t1), LongStay(p.minDwellMin)), DwellOf(bases, dist))
  }

  /** A selection whose hits all lie in the middle is the selection over the middle. */
  lemma FilterMiddle<T>(a: seq<T>, b: seq<T>, c: seq<T>, keep: T -> bool)
    requires forall i | 0 <= i < |a| :: !keep(a[i])
    requires forall i | 0 <= i < |c| :: !keep(c[i])
    ensures Filter(a + b + c, keep) == Filter(b, keep)
  {
    hide Filter;
    FilterNone(a, keep);
    FilterNone(c, keep);
    FilterConcat(a, b, keep);
    FilterConcat(a + b, c, keep);
    assert [] + Filter(b, keep) + [] == Filter(b, keep);
  }

  /** Only the stretch between the two partition points can hold a hit. */
  lemma FilterStretch<T>(s: seq<T>, lo: nat, hi: nat, keep: T -> bool)
    requires lo <= |s| && hi <= |s|
    requires forall i | 0 <= i < lo :: !keep(s[i])
    requires forall i | hi <= i < |s| :: !keep(s[i])
    ensures Filter(s, keep) == if lo <= hi then Filter(s[lo..hi], keep) else []
  {
    hide Filter;
    if lo <= hi {
      assert s == s[..lo] + s[lo..hi] + s[hi..];
      FilterMiddle(s[..lo], s[lo..hi], s[hi..], keep);
    } else {
      FilterNone(s, keep);
    }
  }

  /** One more visit of the stretch. */
  lemma ScanStep(visits: seq<Visit>, lo: nat, j: nat, keep: Visit -> bool, f: Visit -> Dwell)
    requires lo <= j < |visits|
    ensures Map(Filter(visits[lo..j + 1], keep), f)
         == Map(Filter(visits[lo..j], keep), f) + if keep(visits[j]) then [f(visits[j])] else []
  {
    hide Map, Filter;
    assert visits[lo..j + 1] == visits[lo..j] + [visits[j]];
    FilterSnoc(visits[lo..j], visits[j], keep);
    if keep(visits[j]) {
      MapOneMore(Filter(visits[lo..j], keep), visits[j], f);
    }
  }

  lemma {:induction false} FilterSame<T>(s: seq<T>, f: T -> bool, g: T -> bool)
    requires forall i | 0 <= i < |s| :: f(s[i]) == g(s[i])
    ensures Filter(s, f) == Filter(s, g)
  {
    if s != [] {
      FilterSame(Front(s), f, g);
      assert s[|s| - 1] == Last(s);
    }
  }

  /** With visits in start order, the scan sees exactly the long stays that start in the span. */
  lemma DwellsOfSpan(visits: seq<Visit>, t0: Time, t1: Time, bases: seq<Base>, p: DetectParams, dist: Distance)
    requires SortedBy(visits, VisitStart)
    ensures Dwells(visits, t0, t1, bases, p, dist)
         == Map(Filter(visits, DwellIn(t0, t1, p.minDwellMin)), DwellOf(bases, dist))
  {
    hide Filter, Map, Minutes, LeftPoint, RightPoint;
    var starts := StartsOf(visits);
    StartsAscend(visits);
    LeftPointSplits(starts, t0.ns, 0, |visits|);
    RightPointSplits(starts, t1.ns, 0, |visits|);
    hide SortedBy, Ascending;
    var lo, hi := LeftPoint(starts, t0.ns, 0, |visits|), RightPoint(starts, t1.ns, 0, |visits|);
    var keep := DwellIn(t0, t1, p.minDwellMin);
    assert forall i | 0 <= i < |visits| :: starts[i] == visits[i].start.ns;
    FilterStretch(visits, lo, hi, keep);
    FilterNone([], keep);
    FilterNone([], LongStay(p.minDwellMin));
    if lo <= hi {
      FilterSame(visits[lo..hi], keep, LongStay(p.minDwellMin));
    }
  }

  /** The bisect-bounded scan. */
  method ScanDwells(visits: seq<Visit>, starts: seq<int>, t0: Time, t1: Time, bases: seq<Base>,
                    p: DetectParams, dist: Distance)
    returns (dwells: seq<Dwell>)
    requires starts == StartsOf(visits)
    ensures dwells == Dwells(visits, t0, t1, bases, p, dist)
  {
    hide HomeDist, Minutes, Map, Filter, LeftPoint, RightPoint;
    ghost var keep, f := LongStay(p.minDwellMin), DwellOf(bases, dist);
    var lo := BisectLeft(starts, t0.ns);
    var hi := BisectRight(starts, t1.ns);
    EmptyScan(visits, lo, keep, f);
    dwells := [];
    var j := lo;
    while j < hi
      invariant lo <= j && (j <= hi || j == lo)
      invariant lo <= hi ==> dwells == Map(Filter(visits[lo..j], keep), f)
      invariant hi < lo ==> dwells == []
    {
      var v := visits[j];
      ScanStep(visits, lo, j, keep, f);
      if v.loc.Some? && Minutes(v.start, v.end) >= p.minDwellMin {
        var d := HomeDistM(bases, v.start, v.loc.value, dist);
        dwells := dwells + [Dwell(d, v.loc.value)];
      }
      j := j + 1;
    }
    FilterNone([], keep);
    NothingSelected(keep, f);
  }

  lemma EmptyScan(visits: seq<Visit>, lo: nat, keep: Visit -> bool, f: Visit -> Dwell)
    requires lo <= |visits|
    ensures Map(Filter(visits[lo..lo], keep), f) == []
  {
    assert visits[lo..lo] == [];
  }

  lemma NothingSelected(keep: Visit -> bool, f: Visit -> Dwell)
    ensures Map([], f) == []
  {
  }

  lemma MapOneMore<A, B>(s: seq<A>, x: A, f: A -> B)
    ensures Map(s + [x], f) == Map(s, f) + [f(x)]
  {
    assert Front(s + [x]) == s;
  }

  // ---- The destination ----

  /** Farther from home; exact ties go to the larger latitude, then longitude. */
  predicate Beats(d: Dwell, best: Dwell) {
    d.distM > best.distM
    || (d.distM == best.distM
        && (d.loc.lat > best.loc.lat || (d.loc.lat == best.loc.lat && d.loc.lon > best.loc.lon)))
  }

  function Best(dwells: seq<Dwell>): Dwell
    requires dwells != []
  {
    if |dwells| == 1 then dwells[0]
    else
      var best := Best(Front(dwells));
      if Beats(Last(dwells), best) then Last(dwells) else best
  }

  /** The destination is a dwell that no other dwell beats. */
  lemma {:induction false} BestIsFarthest(dwells: seq<Dwell>)
    requires dwells != []
    ensures Best(dwells) in dwells && forall i | 0 <= i < |dwells| :: !Beats(dwells[i], Best(dwells))
  {
    if |dwells| > 1 {
      BestIsFarthest(Front(dwells));
      assert dwells[|dwells| - 1] == Last(dwells);
      assert forall i | 0 <= i < |dwells| - 1 :: dwells[i] == Front(dwells)[i];
    }
  }

  method PickDestination(dwells: seq<Dwell>) returns (best: Dwell)
    requires dwells != []
    ensures best == Best(dwells)
  {
    best := dwells[0];
    assert dwells[..1] == [dwells[0]];
    for i := 1 to |dwells|
      invariant best == Best(dwells[..i])
    {
      assert Front(dwells[..i + 1]) == dwells[..i];
      var d := dwells[i];
      if d.distM > best.distM
         || (d.distM == best.distM
             && (d.loc.lat > best.loc.lat || (d.loc.lat == best.loc.lat && d.loc.lon > best.loc.lon))) {
        best := d;
      }
    }
    assert dwells[..|dwells|] == dwells;
  }

  // ---- Candidates ----

  /** What an away-run becomes: nothing, unless it dwells far enough, long enough and often enough. */
  function CandidateFor(all: seq<Obs>, r: Span, visits: seq<Visit>, bases: seq<Base>, p: DetectParams,
                        dist: Distance, rounded: LatLng -> LatLng): Option<Candidate>
    requires r.s <= r.e < |all|
  {
    var t0, t1 := all[r.s].start, all[r.e].end;
    var dwells := Dwells(visits, t0, t1, bases, p, dist);
    if dwells == [] then None
    else
      var best := Best(dwells);
      if best.distM / 1000.0 <= p.farKm || r.e - r.s + 1 < p.minObs || Hours(t0, t1) < p.minHrs then None
      else Some(Candidate(t0, t1, rounded(best.loc), best.distM, |dwells|, r.e - r.s + 1, r.s == 0, r.e == |all| - 1))
  }

  function CandidatesFor(all: seq<Obs>, spans: seq<Span>, visits: seq<Visit>, bases: seq<Base>, p: DetectParams,
                         dist: Distance, rounded: LatLng -> LatLng): seq<Candidate>
    requires forall k | 0 <= k < |spans| :: spans[k].s <= spans[k].e < |all|
  {
    if spans == [] then []
    else
      var c := CandidateFor(all, Last(spans), visits, bases, p, dist, rounded);
      CandidatesFor(all, Front(spans), visits, bases, p, dist, rounded) + if c.Some? then [c.value] else []
  }

  /** Distance from home of every observation. */
  function HomeDists(all: seq<Obs>, bases: seq<Base>, dist: Distance): (d: seq<real>)
    ensures |d| == |all| && forall i | 0 <= i < |all| :: d[i] == HomeDist(bases, all[i].start, all[i].loc, dist)
  {
    seq(|all|, i requires 0 <= i < |all| => HomeDist(bases, all[i].start, all[i].loc, dist))
  }

  ghost predicate AllRuns(d: seq<real>, nearM: real, spans: seq<Span>) {
    && (forall k | 0 <= k < |spans| :: MaximalRun(d, nearM, spans[k]))
    && Separated(spans)
    && (forall i | Away(d, nearM, i) :: InSome(spans, i))
  }

  method JudgeRuns(all: seq<Obs>, spans: seq<Span>, visits: seq<Visit>, bases: seq<Base>, p: DetectParams,
                   dist: Distance, rounded: LatLng -> LatLng)
    returns (cands: seq<Candidate>)
    requires forall k | 0 <= k < |spans| :: spans[k].s <= spans[k].e < |all|
    ensures cands == CandidatesFor(all, spans, visits, bases, p, dist, rounded)
  {
    hide HomeDist, Dwells, Best, Hours;
    var starts := seq(|visits|, i requires 0 <= i < |visits| => visits[i].start.ns);
    cands := [];
    for k := 0 to |spans|
      invariant cands == CandidatesFor(all, spans[..k], visits, bases, p, dist, rounded)
    {
      var r := spans[k];
      assert Front(spans[..k + 1]) == spans[..k];
      assert cands + [] == cands;
      var t0, t1 := all[r.s].start, all[r.e].end;
      var dwells := ScanDwells(visits, starts, t0, t1, bases, p, dist);
      if |dwells| == 0 {
        continue;
      }
      var best := PickDestination(dwells);
      if best.distM / 1000.0 <= p.farKm || r.e - r.s + 1 < p.minObs || Hours(t0, t1) < p.minHrs {
        continue;
      }
      cands := cands + [Candidate(t0, t1, rounded(best.loc), best.distM, |dwells|, r.e - r.s + 1,
                                  r.s == 0, r.e == |all| - 1)];
    }
    assert spans[..|spans|] == spans;
  }

  lemma StartsAscend(visits: seq<Visit>)
    requires SortedBy(visits, VisitStart)
    ensures Ascending(StartsOf(visits))
  {
    var starts := StartsOf(visits);
    forall i, j | 0 <= i < j < |starts| ensures starts[i] <= starts[j] {
      assert VisitStart(visits[i]) <= VisitStart(visits[j]);
    }
  }

  /** In order, and apart, the stretches of observations farther from home than the near threshold. */
  ghost predicate AwayStretches(all: seq<Obs>, spans: seq<Span>, bases: seq<Base>, p: DetectParams, dist: Distance) {
    && (forall k | 0 <= k < |spans| :: spans[k].s <= spans[k].e < |all|)
    && (forall a, b | 0 <= a < b < |spans| :: spans[a].e + 1 < spans[b].s)
    && (forall i | 0 <= i < |all| ::
          (HomeDist(bases, all[i].start, all[i].loc, dist) > p.nearM)
          <==> (exists k :: 0 <= k < |spans| && spans[k].s <= i <= spans[k].e))
  }

  lemma RunsAreStretches(all: seq<Obs>, spans: seq<Span>, bases: seq<Base>, p: DetectParams, dist: Distance)
    requires AllRuns(HomeDists(all, bases, dist), p.nearM, spans)
    ensures AwayStretches(all, spans, bases, p, dist)
  {
    hide HomeDist;
    var d := HomeDists(all, bases, dist);
    assert forall k | 0 <= k < |spans| :: MaximalRun(d, p.nearM, spans[k]);
    forall i | 0 <= i < |all|
      ensures (HomeDist(bases, all[i].start, all[i].loc, dist) > p.nearM)
        <==> exists k :: 0 <= k < |spans| && spans[k].s <= i <= spans[k].e
    {
      assert d[i] == HomeDist(bases, all[i].start, all[i].loc, dist);
      if Away(d, p.nearM, i) {
        assert InSome(spans, i);
      }
      if k :| 0 <= k < |spans| && spans[k].s <= i <= spans[k].e {
        assert MaximalRun(d, p.nearM, spans[k]) && Away(d, p.nearM, i);
      }
    }
  }

  method DetectRuns(all: seq<Obs>, visits: seq<Visit>, bases: seq<Base>, p: DetectParams, dist: Distance,
                    rounded: LatLng -> LatLng)
    returns (cands: seq<Candidate>, ghost spans: seq<Span>)
    ensures AllRuns(HomeDists(all, bases, dist), p.nearM, spans)
    ensures forall k | 0 <= k < |spans| :: spans[k].s <= spans[k].e < |all|
    ensures cands == CandidatesFor(all, spans, visits, bases, p, dist, rounded)
    ensures AwayStretches(all, spans, bases, p, dist)
    ensures SortedBy(visits, VisitStart) ==>
      exists idx :: Adventures(cands, idx, all, spans, visits, bases, p, dist, rounded)
  {
    hide HomeDist, CandidatesFor, Adventures, AwayStretches;
    var d: seq<real> := [];
    for i := 0 to |all|
      invariant |d| == i && forall k | 0 <= k < i :: d[k] == HomeDist(bases, all[k].start, all[k].loc, dist)
    {
      var m := HomeDistM(bases, all[i].start, all[i].loc, dist);
      d := d + [m];
    }
    assert d == HomeDists(all, bases, dist);
    var found := FindSpans(d, p.nearM);
    assert forall k | 0 <= k < |found| :: MaximalRun(d, p.nearM, found[k]);
    spans := found;
    cands := JudgeRuns(all, found, visits, bases, p, dist, rounded);
    RunsAreStretches(all, spans, bases, p, dist);
    if SortedBy(visits, VisitStart) {
      ghost var idx := CandidatesMean(all, spans, visits, bases, p, dist, rounded);
    }
  }

  // ---- What makes an away-run an adventure ----

  /** A visit that starts between the two instants, at a known place, and lasts long enough. */
  ghost predicate Dwelling(v: Visit, t0: Time, t1: Time, minDwellMin: real) {
    && t0.ns <= v.start.ns <= t1.ns && v.loc.Some?
    && (v.end.ns - v.start.ns) as real / 60_000_000_000.0 >= minDwellMin
  }

  /** How far from home such a visit was. */
  ghost function AwayM(v: Visit, bases: seq<Base>, dist: Distance): real
    requires v.loc.Some?
  {
    HomeDist(bases, v.start, v.loc.value, dist)
  }

  /** Enough observations over enough hours, and a dwell beyond the far threshold. */
  ghost predicate Adventurous(all: seq<Obs>, r: Span, visits: seq<Visit>, bases: seq<Base>, p: DetectParams,
                              dist: Distance)
    requires r.s <= r.e < |all|
  {
    var t0, t1 := all[r.s].start, all[r.e].end;
    && r.e - r.s + 1 >= p.minObs
    && (t1.ns - t0.ns) as real / 3_600_000_000_000.0 >= p.minHrs
    && exists i :: 0 <= i < |visits| && Dwelling(visits[i], t0, t1, p.minDwellMin)
         && AwayM(visits[i], bases, dist) / 1000.0 > p.farKm
  }

  /** The candidate's destination is that dwell: none is farther, and none as far is further north, then east. */
  ghost predicate DestinationOf(c: Candidate, v: Visit, all: seq<Obs>, r: Span, visits: seq<Visit>, bases: seq<Base>,
                                p: DetectParams, dist: Distance, rounded: LatLng -> LatLng)
    requires r.s <= r.e < |all|
  {
    var t0, t1 := all[r.s].start, all[r.e].end;
    && Dwelling(v, t0, t1, p.minDwellMin) && v in visits
    && c.dest == rounded(v.loc.value) && c.destM == AwayM(v, bases, dist)
    && forall w | w in visits && Dwelling(w, t0, t1, p.minDwellMin) ::
         AwayM(w, bases, dist) <= c.destM
         && (AwayM(w, bases, dist) == c.destM ==>
               w.loc.value.lat < v.loc.value.lat
               || (w.loc.value.lat == v.loc.value.lat && w.loc.value.lon <= v.loc.value.lon))
  }

  ghost predicate AdventureOf(c: Candidate, all: seq<Obs>, r: Span, visits: seq<Visit>, bases: seq<Base>,
                              p: DetectParams, dist: Distance, rounded: LatLng -> LatLng)
    requires r.s <= r.e < |all|
  {
    && c.start == all[r.s].start && c.end == all[r.e].end
    && c.obsCount == r.e - r.s + 1
    && (c.startTruncated <==> r.s == 0) && (c.endTruncated <==> r.e == |all| - 1)
    && c.stops == |set i | 0 <= i < |visits| && Dwelling(visits[i], c.start, c.end, p.minDwellMin)|
    && c.destM / 1000.0 > p.farKm
    && exists v :: DestinationOf(c, v, all, r, visits, bases, p, dist, rounded)
  }

  /** The adventurous runs, in order, and only those, each as a candidate. */
  ghost predicate Adventures(cands: seq<Candidate>, idx: seq<nat>, all: seq<Obs>, spans: seq<Span>, visits: seq<Visit>,
                             bases: seq<Base>, p: DetectParams, dist: Distance, rounded: LatLng -> LatLng)
    requires forall k | 0 <= k < |spans| :: spans[k].s <= spans[k].e < |all|
  {
    && |idx| == |cands|
    && (forall i, j | 0 <= i < j < |idx| :: idx[i] < idx[j])
    && (forall i | 0 <= i < |idx| :: idx[i] < |spans|)
    && (forall i | 0 <= i < |idx| ::
          AdventureOf(cands[i], all, spans[idx[i]], visits, bases, p, dist, rounded))
    && (forall k: nat | k < |spans| :: k in idx <==> Adventurous(all, spans[k], visits, bases, p, dist))
  }

  /** The dwell is this visit, among those of the span. */
  ghost predicate DwellFrom(d: Dwell, v: Visit, visits: seq<Visit>, t0: Time, t1: Time, bases: seq<Base>,
                            p: DetectParams, dist: Distance)
  {
    v in visits && Dwelling(v, t0, t1, p.minDwellMin) && d == Dwell(AwayM(v, bases, dist), v.loc.value)
  }

  lemma DwellCount(visits: seq<Visit>, t0: Time, t1: Time, minDwellMin: real)
    ensures |Filter(visits, DwellIn(t0, t1, minDwellMin))|
         == |set i | 0 <= i < |visits| && Dwelling(visits[i], t0, t1, minDwellMin)|
  {
    var keep := DwellIn(t0, t1, minDwellMin);
    forall v ensures keep(v) <==> Dwelling(v, t0, t1, minDwellMin) {
      DwellingLocated(v, t0, t1, minDwellMin);
    }
    hide Filter, Dwelling, DwellIn;
    FilterSize(visits, keep, set i | 0 <= i < |visits| && Dwelling(visits[i], t0, t1, minDwellMin));
  }

  lemma DwellValue(v: Visit, bases: seq<Base>, dist: Distance)
    requires v.loc.Some?
    ensures DwellOf(bases, dist)(v) == Dwell(AwayM(v, bases, dist), v.loc.value)
  {
    hide HomeDist;
  }

  /** The dwells of a span, as the visits they are. */
  lemma DwellsMean(visits: seq<Visit>, t0: Time, t1: Time, bases: seq<Base>, p: DetectParams, dist: Distance)
    requires SortedBy(visits, VisitStart)
    ensures var dwells := Dwells(visits, t0, t1, bases, p, dist);
            && |dwells| == |set i | 0 <= i < |visits| && Dwelling(visits[i], t0, t1, p.minDwellMin)|
            && (forall v | v in visits && Dwelling(v, t0, t1, p.minDwellMin) ::
                  Dwell(AwayM(v, bases, dist), v.loc.value) in dwells)
            && (forall d | d in dwells :: exists v :: DwellFrom(d, v, visits, t0, t1, bases, p, dist))
  {
    DwellsOfSpan(visits, t0, t1, bases, p, dist);
    DwellCount(visits, t0, t1, p.minDwellMin);
    var keep, f := DwellIn(t0, t1, p.minDwellMin), DwellOf(bases, dist);
    var hits, dwells := Filter(visits, keep), Dwells(visits, t0, t1, bases, p, dist);
    FilterElements(visits, keep);
    hide Dwells, Filter, SortedBy, AwayM, DwellOf, DwellIn, Dwelling;
    forall v | v in visits && Dwelling(v, t0, t1, p.minDwellMin)
      ensures v.loc.Some? && Dwell(AwayM(v, bases, dist), v.loc.value) in dwells
    {
      DwellingLocated(v, t0, t1, p.minDwellMin);
      DwellValue(v, bases, dist);
      var k :| 0 <= k < |hits| && hits[k] == v;
      assert dwells[k] == f(v);
    }
    forall d | d in dwells ensures exists v :: DwellFrom(d, v, visits, t0, t1, bases, p, dist) {
      var k :| 0 <= k < |dwells| && dwells[k] == d;
      assert hits[k] in hits && d == f(hits[k]);
      DwellingLocated(hits[k], t0, t1, p.minDwellMin);
      DwellValue(hits[k], bases, dist);
      assert DwellFrom(d, hits[k], visits, t0, t1, bases, p, dist);
    }
  }

  lemma DwellingLocated(v: Visit, t0: Time, t1: Time, minDwellMin: real)
    ensures DwellIn(t0, t1, minDwellMin)(v) <==> Dwelling(v, t0, t1, minDwellMin)
    ensures Dwelling(v, t0, t1, minDwellMin) ==> v.loc.Some?
  {
  }

  /** A run becomes a candidate exactly if it is adventurous, and then the candidate says so. */
  lemma CandidateMeans(all: seq<Obs>, r: Span, visits: seq<Visit>, bases: seq<Base>, p: DetectParams, dist: Distance,
                       rounded: LatLng -> LatLng)
    requires r.s <= r.e < |all| && SortedBy(visits, VisitStart)
    ensures var c := CandidateFor(all, r, visits, bases, p, dist, rounded);
            && (c.Some? <==> Adventurous(all, r, visits, bases, p, dist))
            && (c.Some? ==> AdventureOf(c.value, all, r, visits, bases, p, dist, rounded))
  {
    var t0, t1 := all[r.s].start, all[r.e].end;
    DwellsMean(visits, t0, t1, bases, p, dist);
    hide SortedBy, Dwells, Dwelling, AwayM;
    var dwells := Dwells(visits, t0, t1, bases, p, dist);
    if dwells != [] {
      BestIsFarthest(dwells);
      hide Best;
      var best := Best(dwells);
      var v :| DwellFrom(best, v, visits, t0, t1, bases, p, dist);
      BestIsDestination(all, r, visits, bases, p, dist, best, v);
      FarIsBest(all, r, visits, bases, p, dist, best, v);
      var c := CandidateFor(all, r, visits, bases, p, dist, rounded);
      if c.Some? {
        assert DestinationOf(c.value, v, all, r, visits, bases, p, dist, rounded);
      }
    } else {
      forall i | 0 <= i < |visits| ensures !Dwelling(visits[i], t0, t1, p.minDwellMin) {
        assert visits[i] in visits;
      }
    }
  }

  /** Nothing among the dwells beats the best, so no dwelling visit does. */
  lemma BestIsDestination(all: seq<Obs>, r: Span, visits: seq<Visit>, bases: seq<Base>, p: DetectParams, dist: Distance,
                          best: Dwell, v: Visit)
    requires r.s <= r.e < |all|
    requires DwellFrom(best, v, visits, all[r.s].start, all[r.e].end, bases, p, dist)
    requires var dwells := Dwells(visits, all[r.s].start, all[r.e].end, bases, p, dist);
             && (forall i | 0 <= i < |dwells| :: !Beats(dwells[i], best))
             && (forall w | w in visits && Dwelling(w, all[r.s].start, all[r.e].end, p.minDwellMin) ::
                   Dwell(AwayM(w, bases, dist), w.loc.value) in dwells)
    ensures forall w | w in visits && Dwelling(w, all[r.s].start, all[r.e].end, p.minDwellMin) ::
              AwayM(w, bases, dist) <= best.distM
              && (AwayM(w, bases, dist) == best.distM ==>
                    w.loc.value.lat < v.loc.value.lat
                    || (w.loc.value.lat == v.loc.value.lat && w.loc.value.lon <= v.loc.value.lon))
  {
    hide Dwells, AwayM;
    var dwells := Dwells(visits, all[r.s].start, all[r.e].end, bases, p, dist);
    forall w | w in visits && Dwelling(w, all[r.s].start, all[r.e].end, p.minDwellMin)
      ensures !Beats(Dwell(AwayM(w, bases, dist), w.loc.value), best)
    {
      var d := Dwell(AwayM(w, bases, dist), w.loc.value);
      var k :| 0 <= k < |dwells| && dwells[k] == d;
    }
  }

  lemma FarIsBest(all: seq<Obs>, r: Span, visits: seq<Visit>, bases: seq<Base>, p: DetectParams, dist: Distance,
                  best: Dwell, v: Visit)
    requires r.s <= r.e < |all|
    requires DwellFrom(best, v, visits, all[r.s].start, all[r.e].end, bases, p, dist)
    requires forall w | w in visits && Dwelling(w, all[r.s].start, all[r.e].end, p.minDwellMin) ::
      AwayM(w, bases, dist) <= best.distM
    ensures Adventurous(all, r, visits, bases, p, dist) <==>
      && best.distM / 1000.0 > p.farKm && r.e - r.s + 1 >= p.minObs
      && Hours(all[r.s].start, all[r.e].end) >= p.minHrs
  {
    hide AwayM;
    var i :| 0 <= i < |visits| && visits[i] == v;
    assert forall k | 0 <= k < |visits| :: visits[k] in visits;
  }

  /** Every run's candidates, on visits in start order, are its adventures. */
  lemma CandidatesMean(all: seq<Obs>, spans: seq<Span>, visits: seq<Visit>, bases: seq<Base>, p: DetectParams,
                       dist: Distance, rounded: LatLng -> LatLng)
    returns (idx: seq<nat>)
    requires forall k | 0 <= k < |spans| :: spans[k].s <= spans[k].e < |all|
    requires SortedBy(visits, VisitStart)
    ensures Adventures(CandidatesFor(all, spans, visits, bases, p, dist, rounded), idx, all, spans, visits, bases, p,
                       dist, rounded)
  {
    hide CandidateFor, CandidatesFor, Adventurous, AdventureOf, SortedBy;
    var cands := CandidatesFor(all, spans, visits, bases, p, dist, rounded);
    idx := CandidateOrigins(all, spans, visits, bases, p, dist, rounded);
    forall k: nat | k < |spans|
      ensures k in idx <==> Adventurous(all, spans[k], visits, bases, p, dist)
    {
      CandidateMeans(all, spans[k], visits, bases, p, dist, rounded);
      if k in idx {
        var i :| 0 <= i < |idx| && idx[i] == k;
        assert CandidateFor(all, spans[idx[i]], visits, bases, p, dist, rounded) == Some(cands[i]);
      }
    }
    forall i | 0 <= i < |idx|
      ensures idx[i] < |spans| && AdventureOf(cands[i], all, spans[idx[i]], visits, bases, p, dist, rounded)
    {
      assert CandidateFor(all, spans[idx[i]], visits, bases, p, dist, rounded) == Some(cands[i]);
      CandidateMeans(all, spans[idx[i]], visits, bases, p, dist, rounded);
    }
  }

  // ---- The candidates of one run do not overlap ----

  ghost predicate ObsOrdered(all: seq<Obs>) {
    forall i, j | 0 <= i < j < |all| :: all[i].start.ns <= all[j].start.ns
  }

  ghost predicate Disjoint(cands: seq<Candidate>) {
    && (forall i | 0 <= i < |cands| :: cands[i].start.ns < cands[i].end.ns)
    && (forall i, j | 0 <= i < j < |cands| :: cands[i].end.ns <= cands[j].start.ns)
  }

  ghost predicate FromSpans(cands: seq<Candidate>, idx: seq<nat>, all: seq<Obs>, spans: seq<Span>, visits: seq<Visit>,
                            bases: seq<Base>, p: DetectParams, dist: Distance, rounded: LatLng -> LatLng)
    requires forall k | 0 <= k < |spans| :: spans[k].s <= spans[k].e < |all|
  {
    && |idx| == |cands|
    && (forall i | 0 <= i < |idx| ::
          idx[i] < |spans| && CandidateFor(all, spans[idx[i]], visits, bases, p, dist, rounded) == Some(cands[i]))
    && (forall i, j | 0 <= i < j < |idx| :: idx[i] < idx[j])
    && (forall k: nat | k < |spans| && CandidateFor(all, spans[k], visits, bases, p, dist, rounded).Some? :: k in idx)
  }

  /** One more run: a run that qualifies adds its candidate and its index, any other adds nothing. */
  lemma OriginsStep(cands: seq<Candidate>, idx: seq<nat>, all: seq<Obs>, spans: seq<Span>, visits: seq<Visit>,
                    bases: seq<Base>, p: DetectParams, dist: Distance, rounded: LatLng -> LatLng, c: Option<Candidate>)
    requires spans != [] && forall k | 0 <= k < |spans| :: spans[k].s <= spans[k].e < |all|
    requires c == CandidateFor(all, Last(spans), visits, bases, p, dist, rounded)
    requires FromSpans(cands, idx, all, Front(spans), visits, bases, p, dist, rounded)
    ensures c.Some? ==> FromSpans(cands + [c.value], idx + [|spans| - 1], all, spans, visits, bases, p, dist, rounded)
    ensures c.None? ==> FromSpans(cands, idx, all, spans, visits, bases, p, dist, rounded)
  {
    hide CandidateFor;
    assert forall k | 0 <= k < |spans| - 1 :: Front(spans)[k] == spans[k];
    assert spans[|spans| - 1] == Last(spans);
    if c.Some? {
      assert forall k | k in idx :: k in idx + [|spans| - 1];
      assert (idx + [|spans| - 1])[|idx|] == |spans| - 1;
    }
  }

  lemma NoOrigins(all: seq<Obs>, visits: seq<Visit>, bases: seq<Base>, p: DetectParams, dist: Distance,
                  rounded: LatLng -> LatLng)
    ensures FromSpans([], [], all, [], visits, bases, p, dist, rounded)
  {
    hide CandidateFor;
  }

  /** Every run that qualifies gives its own candidate, in run order, and nothing else does. */
  lemma {:induction false} CandidateOrigins(all: seq<Obs>, spans: seq<Span>, visits: seq<Visit>, bases: seq<Base>,
                                            p: DetectParams, dist: Distance, rounded: LatLng -> LatLng)
    returns (idx: seq<nat>)
    requires forall k | 0 <= k < |spans| :: spans[k].s <= spans[k].e < |all|
    ensures var cands := CandidatesFor(all, spans, visits, bases, p, dist, rounded);
            FromSpans(cands, idx, all, spans, visits, bases, p, dist, rounded)
  {
    hide CandidateFor, FromSpans;
    if spans == [] {
      idx := [];
      NoOrigins(all, visits, bases, p, dist, rounded);
    } else {
      assert forall k | 0 <= k < |spans| - 1 :: Front(spans)[k] == spans[k];
      var front, c := Front(spans), CandidateFor(all, Last(spans), visits, bases, p, dist, rounded);
      var before := CandidateOrigins(all, front, visits, bases, p, dist, rounded);
      var cands := CandidatesFor(all, front, visits, bases, p, dist, rounded);
      OriginsStep(cands, before, all, spans, visits, bases, p, dist, rounded, c);
      assert cands + [] == cands;
      idx := if c.Some? then before + [|spans| - 1] else before;
    }
  }

  ghost predicate QualifyingRun(all: seq<Obs>, r: Span, visits: seq<Visit>, bases: seq<Base>, p: DetectParams,
                            dist: Distance, rounded: LatLng -> LatLng)
    requires r.s <= r.e < |all|
  {
    CandidateFor(all, r, visits, bases, p, dist, rounded).Some?
  }

  /** Between two neighbouring runs that qualify, the earlier one's last observation ends in time. */
  ghost predicate NeighboursApart(all: seq<Obs>, spans: seq<Span>, visits: seq<Visit>, bases: seq<Base>,
                                  p: DetectParams, dist: Distance, rounded: LatLng -> LatLng)
    requires forall k | 0 <= k < |spans| :: spans[k].s <= spans[k].e < |all|
  {
    forall j, k | 0 <= j < k < |spans|
      && QualifyingRun(all, spans[j], visits, bases, p, dist, rounded)
      && QualifyingRun(all, spans[k], visits, bases, p, dist, rounded)
      && (forall m | j < m < k :: !QualifyingRun(all, spans[m], visits, bases, p, dist, rounded)) ::
      all[spans[j].e].end.ns <= all[spans[k].s].start.ns
  }

  /** Runs, and so candidates, come out in order of their starts. */
  ghost predicate StartsOrdered(cands: seq<Candidate>) {
    forall i, j | 0 <= i < j < |cands| :: cands[i].start.ns <= cands[j].start.ns
  }

  lemma OriginSpan(all: seq<Obs>, r: Span, visits: seq<Visit>, bases: seq<Base>, p: DetectParams, dist: Distance,
                   rounded: LatLng -> LatLng, c: Candidate)
    requires r.s <= r.e < |all| && CandidateFor(all, r, visits, bases, p, dist, rounded) == Some(c)
    ensures c.start == all[r.s].start && c.end == all[r.e].end
    ensures p.minHrs > 0.0 ==> c.start.ns < c.end.ns
  {
    hide Dwells, Best;
  }

  /** Candidates with the spans they come from. */
  lemma Origins(all: seq<Obs>, spans: seq<Span>, visits: seq<Visit>, bases: seq<Base>, p: DetectParams,
                dist: Distance, rounded: LatLng -> LatLng, cands: seq<Candidate>, idx: seq<nat>)
    requires forall k | 0 <= k < |spans| :: spans[k].s <= spans[k].e < |all|
    requires FromSpans(cands, idx, all, spans, visits, bases, p, dist, rounded)
    ensures forall i | 0 <= i < |cands| ::
      idx[i] < |spans| && cands[i].start == all[spans[idx[i]].s].start && cands[i].end == all[spans[idx[i]].e].end
      && (p.minHrs > 0.0 ==> cands[i].start.ns < cands[i].end.ns)
      && QualifyingRun(all, spans[idx[i]], visits, bases, p, dist, rounded)
  {
    hide CandidateFor;
    forall i | 0 <= i < |cands|
      ensures idx[i] < |spans|
      ensures cands[i].start == all[spans[idx[i]].s].start && cands[i].end == all[spans[idx[i]].e].end
      ensures p.minHrs > 0.0 ==> cands[i].start.ns < cands[i].end.ns
      ensures QualifyingRun(all, spans[idx[i]], visits, bases, p, dist, rounded)
    {
      assert CandidateFor(all, spans[idx[i]], visits, bases, p, dist, rounded) == Some(cands[i]);
      OriginSpan(all, spans[idx[i]], visits, bases, p, dist, rounded, cands[i]);
    }
  }

  /** No qualifying run lies between those of two neighbouring candidates. */
  lemma NoneBetween(all: seq<Obs>, spans: seq<Span>, visits: seq<Visit>, bases: seq<Base>, p: DetectParams,
                    dist: Distance, rounded: LatLng -> LatLng, cands: seq<Candidate>, idx: seq<nat>, i: nat)
    requires forall k | 0 <= k < |spans| :: spans[k].s <= spans[k].e < |all|
    requires FromSpans(cands, idx, all, spans, visits, bases, p, dist, rounded) && i + 1 < |idx|
    ensures forall m | idx[i] < m < idx[i + 1] ::
      m < |spans| && !QualifyingRun(all, spans[m], visits, bases, p, dist, rounded)
  {
    hide CandidateFor;
    forall m | idx[i] < m < idx[i + 1]
      ensures m < |spans| && !QualifyingRun(all, spans[m], visits, bases, p, dist, rounded)
    {
      assert idx[i + 1] < |spans|;
      forall a | 0 <= a < |idx| ensures idx[a] != m {
        if a < i {
          assert idx[a] < idx[i];
        } else if a > i + 1 {
          assert idx[i + 1] < idx[a];
        }
      }
    }
  }

  lemma ApartFromDisjoint(all: seq<Obs>, spans: seq<Span>, visits: seq<Visit>, bases: seq<Base>, p: DetectParams,
                          dist: Distance, rounded: LatLng -> LatLng, cands: seq<Candidate>, idx: seq<nat>)
    requires forall k | 0 <= k < |spans| :: spans[k].s <= spans[k].e < |all|
    requires FromSpans(cands, idx, all, spans, visits, bases, p, dist, rounded) && Disjoint(cands)
    ensures NeighboursApart(all, spans, visits, bases, p, dist, rounded)
  {
    hide CandidateFor;
    Origins(all, spans, visits, bases, p, dist, rounded, cands, idx);
    forall j, k | 0 <= j < k < |spans| && QualifyingRun(all, spans[j], visits, bases, p, dist, rounded)
      && QualifyingRun(all, spans[k], visits, bases, p, dist, rounded)
      ensures all[spans[j].e].end.ns <= all[spans[k].s].start.ns
    {
      assert j in idx && k in idx;
      var a :| 0 <= a < |idx| && idx[a] == j;
      var b :| 0 <= b < |idx| && idx[b] == k;
      assert a < b;
    }
  }

  /** Neighbouring candidates come from neighbouring qualifying runs. */
  lemma NextApart(all: seq<Obs>, spans: seq<Span>, visits: seq<Visit>, bases: seq<Base>, p: DetectParams,
                  dist: Distance, rounded: LatLng -> LatLng, cands: seq<Candidate>, idx: seq<nat>, i: nat)
    requires forall k | 0 <= k < |spans| :: spans[k].s <= spans[k].e < |all|
    requires FromSpans(cands, idx, all, spans, visits, bases, p, dist, rounded) && i + 1 < |cands|
    requires NeighboursApart(all, spans, visits, bases, p, dist, rounded)
    ensures cands[i].end.ns <= cands[i + 1].start.ns
  {
    Origins(all, spans, visits, bases, p, dist, rounded, cands, idx);
    NoneBetween(all, spans, visits, bases, p, dist, rounded, cands, idx, i);
    hide QualifyingRun, FromSpans;
    var j, k := idx[i], idx[i + 1];
    assert j < k by { LaterSpan(all, spans, visits, bases, p, dist, rounded, cands, idx, i); }
    assert QualifyingRun(all, spans[j], visits, bases, p, dist, rounded);
    assert QualifyingRun(all, spans[k], visits, bases, p, dist, rounded);
    assert all[spans[j].e].end.ns <= all[spans[k].s].start.ns;
  }

  lemma LaterSpan(all: seq<Obs>, spans: seq<Span>, visits: seq<Visit>, bases: seq<Base>, p: DetectParams,
                  dist: Distance, rounded: LatLng -> LatLng, cands: seq<Candidate>, idx: seq<nat>, i: nat)
    requires forall k | 0 <= k < |spans| :: spans[k].s <= spans[k].e < |all|
    requires FromSpans(cands, idx, all, spans, visits, bases, p, dist, rounded) && i + 1 < |cands|
    ensures i + 1 < |idx| && idx[i] < idx[i + 1]
  {
    hide CandidateFor;
  }

  lemma LastingCandidates(all: seq<Obs>, spans: seq<Span>, visits: seq<Visit>, bases: seq<Base>, p: DetectParams,
                          dist: Distance, rounded: LatLng -> LatLng, cands: seq<Candidate>, idx: seq<nat>)
    requires forall k | 0 <= k < |spans| :: spans[k].s <= spans[k].e < |all|
    requires FromSpans(cands, idx, all, spans, visits, bases, p, dist, rounded) && p.minHrs > 0.0
    ensures forall i | 0 <= i < |cands| :: cands[i].start.ns < cands[i].end.ns
  {
    Origins(all, spans, visits, bases, p, dist, rounded, cands, idx);
    hide FromSpans, QualifyingRun;
  }

  lemma EachEndsByNext(all: seq<Obs>, spans: seq<Span>, visits: seq<Visit>, bases: seq<Base>, p: DetectParams,
                       dist: Distance, rounded: LatLng -> LatLng, cands: seq<Candidate>, idx: seq<nat>)
    requires forall k | 0 <= k < |spans| :: spans[k].s <= spans[k].e < |all|
    requires FromSpans(cands, idx, all, spans, visits, bases, p, dist, rounded)
    requires NeighboursApart(all, spans, visits, bases, p, dist, rounded) && StartsOrdered(cands)
    ensures forall i, j | 0 <= i < j < |cands| :: cands[i].end.ns <= cands[j].start.ns
  {
    hide NeighboursApart, FromSpans;
    forall i, j | 0 <= i < j < |cands| ensures cands[i].end.ns <= cands[j].start.ns {
      NextApart(all, spans, visits, bases, p, dist, rounded, cands, idx, i);
      assert i + 1 == j || cands[i + 1].start.ns <= cands[j].start.ns;
    }
  }

  lemma DisjointFromApart(all: seq<Obs>, spans: seq<Span>, visits: seq<Visit>, bases: seq<Base>, p: DetectParams,
                          dist: Distance, rounded: LatLng -> LatLng, cands: seq<Candidate>, idx: seq<nat>)
    requires forall k | 0 <= k < |spans| :: spans[k].s <= spans[k].e < |all|
    requires FromSpans(cands, idx, all, spans, visits, bases, p, dist, rounded) && p.minHrs > 0.0
    requires NeighboursApart(all, spans, visits, bases, p, dist, rounded) && StartsOrdered(cands)
    ensures Disjoint(cands)
  {
    LastingCandidates(all, spans, visits, bases, p, dist, rounded, cands, idx);
    EachEndsByNext(all, spans, visits, bases, p, dist, rounded, cands, idx);
    hide NeighboursApart, FromSpans;
  }

  lemma CandidatesInOrder(all: seq<Obs>, spans: seq<Span>, visits: seq<Visit>, bases: seq<Base>, p: DetectParams,
                          dist: Distance, rounded: LatLng -> LatLng)
    requires ObsOrdered(all) && Separated(spans)
    requires forall k | 0 <= k < |spans| :: spans[k].s <= spans[k].e < |all|
    ensures StartsOrdered(CandidatesFor(all, spans, visits, bases, p, dist, rounded))
  {
    hide CandidateFor, CandidatesFor, QualifyingRun;
    var cands := CandidatesFor(all, spans, visits, bases, p, dist, rounded);
    var idx := CandidateOrigins(all, spans, visits, bases, p, dist, rounded);
    Origins(all, spans, visits, bases, p, dist, rounded, cands, idx);
    forall i, j | 0 <= i < j < |cands| ensures cands[i].start.ns <= cands[j].start.ns {
      assert idx[i] < idx[j];
      assert spans[idx[i]].s <= spans[idx[i]].e < spans[idx[j]].s;
    }
  }

  /**
   Candidates are disjoint if and only if, from each run that qualifies to the next one that does, the
   last observation of the earlier ends no later than the later begins.
   */
  lemma CandidatesDisjointIff(all: seq<Obs>, spans: seq<Span>, visits: seq<Visit>, bases: seq<Base>,
                              p: DetectParams, dist: Distance, rounded: LatLng -> LatLng)
    requires ObsOrdered(all) && p.minHrs > 0.0 && AllRuns(HomeDists(all, bases, dist), p.nearM, spans)
    ensures forall k | 0 <= k < |spans| :: spans[k].s <= spans[k].e < |all|
    ensures Disjoint(CandidatesFor(all, spans, visits, bases, p, dist, rounded))
      <==> NeighboursApart(all, spans, visits, bases, p, dist, rounded)
  {
    assert forall k | 0 <= k < |spans| :: MaximalRun(HomeDists(all, bases, dist), p.nearM, spans[k]);
    hide HomeDists, CandidatesFor, ObsOrdered, NeighboursApart, Disjoint, FromSpans, StartsOrdered;
    var cands := CandidatesFor(all, spans, visits, bases, p, dist, rounded);
    var idx := CandidateOrigins(all, spans, visits, bases, p, dist, rounded);
    CandidatesInOrder(all, spans, visits, bases, p, dist, rounded);
    if Disjoint(cands) {
      ApartFromDisjoint(all, spans, visits, bases, p, dist, rounded, cands, idx);
    }
    if NeighboursApart(all, spans, visits, bases, p, dist, rounded) {
      DisjointFromApart(all, spans, visits, bases, p, dist, rounded, cands, idx);
    }
  }

  /** Somebody recorded away is still recorded there when next recorded at home. */
  ghost predicate OutlastsHomecoming(all: seq<Obs>, d: seq<real>, nearM: real, i: nat, j: nat)
    requires |d| == |all|
  {
    i < j < |all| && Away(d, nearM, i) && !Away(d, nearM, j) && all[i].end.ns > all[j].start.ns
  }

  /** What it takes for two candidates to overlap: an away observation that lasts past a later one at home. */
  lemma OverlapOutlastsHomecoming(all: seq<Obs>, spans: seq<Span>, visits: seq<Visit>, bases: seq<Base>,
                                  p: DetectParams, dist: Distance, rounded: LatLng -> LatLng)
    returns (i: nat, j: nat)
    requires ObsOrdered(all) && AllRuns(HomeDists(all, bases, dist), p.nearM, spans)
    requires forall k | 0 <= k < |spans| :: spans[k].s <= spans[k].e < |all|
    requires !NeighboursApart(all, spans, visits, bases, p, dist, rounded)
    ensures OutlastsHomecoming(all, HomeDists(all, bases, dist), p.nearM, i, j)
  {
    hide QualifyingRun, HomeDists;
    var d := HomeDists(all, bases, dist);
    var a, b :| 0 <= a < b < |spans| && all[spans[a].e].end.ns > all[spans[b].s].start.ns;
    assert MaximalRun(d, p.nearM, spans[a]) && MaximalRun(d, p.nearM, spans[b]);
    i, j := spans[a].e, spans[a].e + 1;
    assert spans[a].e + 1 < spans[b].s;
    assert all[j].start.ns <= all[spans[b].s].start.ns;
  }

  // ---- What matching is given ----

  ghost function RefAt(cands: seq<Candidate>, ids: seq<int>, i: nat): Matching.SpanRef
    requires |ids| == |cands| && i < |cands|
  {
    Matching.SpanRef(ids[i], cands[i].start.ns, cands[i].end.ns, cands[i].dest)
  }

  /** The run's rows as matching sees them: one id per candidate. */
  ghost function Refs(cands: seq<Candidate>, ids: seq<int>): set<Matching.SpanRef>
    requires |ids| == |cands|
  {
    set i: nat | i < |cands| :: RefAt(cands, ids, i)
  }

  /** Matching's assumption about a run is that its candidates are disjoint. */
  lemma RunsAreTriageable(cands: seq<Candidate>, ids: seq<int>)
    requires |ids| == |cands| && StartsOrdered(cands)
    requires forall i, j | 0 <= i < j < |ids| :: ids[i] != ids[j]
    ensures MatchingLaws.RunOk(Refs(cands, ids)) <==> Disjoint(cands)
  {
    if Disjoint(cands) {
      DisjointRefs(cands, ids);
    }
    if MatchingLaws.RunOk(Refs(cands, ids)) {
      forall i | 0 <= i < |cands| ensures cands[i].start.ns < cands[i].end.ns {
        assert RefAt(cands, ids, i) in Refs(cands, ids);
      }
      forall i, j | 0 <= i < j < |cands| ensures cands[i].end.ns <= cands[j].start.ns {
        assert RefAt(cands, ids, i) in Refs(cands, ids) && RefAt(cands, ids, j) in Refs(cands, ids);
        assert RefAt(cands, ids, i) != RefAt(cands, ids, j);
      }
    }
  }

  lemma DisjointRefs(cands: seq<Candidate>, ids: seq<int>)
    requires |ids| == |cands| && Disjoint(cands)
    requires forall i, j | 0 <= i < j < |ids| :: ids[i] != ids[j]
    ensures MatchingLaws.RunOk(Refs(cands, ids))
  {
    forall c, c' | c in Refs(cands, ids) && c' in Refs(cands, ids) && c != c'
      ensures c.id != c'.id && (c.end <= c'.start || c'.end <= c.start)
    {
      var i: nat :| i < |cands| && c == RefAt(cands, ids, i);
      var j: nat :| j < |cands| && c' == RefAt(cands, ids, j);
      assert i < j || j < i;
    }
  }

  lemma OneBase(b: Base, t: Time, loc: LatLng, dist: Distance)
    requires Active(b, CivilDay(t))
    ensures HomeDist([b], t, loc, dist) == dist(b.center, loc)
  {
    hide CivilDay, HomeDist;
    HomeIsNearest([b], t, loc, dist);
  }
}
