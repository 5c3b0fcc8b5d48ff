/**
 Triage (internal/api/server.go): the decide handlers, and the proof that recomputed matching plus
 in-place re-deciding behaves like a plain map from candidate to verdict.
 */
module Triage {
  import opened Domain
  import opened Matching
  import opened MatchingLaws
  import opened Decisions

  /** One detection run as triage sees it: its candidates and how they are matched. */
  datatype Run = Run(cands: set<SpanRef>, p: MatchParams, dist: Distance)

  ghost predicate ValidRun(run: Run) {
    RunOk(run.cands) && run.p.matchKm >= 0.0
  }

  ghost function AnchorsOf(t: Table): set<Anchor> { set id | id in t.rows :: AnchorOf(t.rows[id]) }

  lemma AnchorsDistinct(t: Table)
    requires ValidTable(t)
    ensures DistinctDecs(AnchorsOf(t))
  {
  }

  ghost function Assoc(t: Table, run: Run): (m: set<Edge>)
    requires ValidTable(t) && DistinctCands(run.cands)
    ensures Identified(m) && OneToOne(m)
  {
    AnchorsDistinct(t);
    Association(run.cands, AnchorsOf(t), run.p, run.dist)
  }

  /** Candidate id to decision id, as every read recomputes it. */
  ghost function Links(t: Table, run: Run): (l: map<int, int>)
    requires ValidTable(t) && DistinctCands(run.cands)
  {
    Ids(Assoc(t, run))
  }

  /** The edge behind a link. */
  lemma LinkEdge(t: Table, run: Run, k: int) returns (c: SpanRef)
    requires ValidTable(t) && DistinctCands(run.cands) && k in Links(t, run)
    ensures c in run.cands && c.id == k && Links(t, run)[k] in t.rows
    ensures Edge(c, AnchorOf(t.rows[Links(t, run)[k]])) in Assoc(t, run)
    ensures Compatible(c, AnchorOf(t.rows[Links(t, run)[k]]), run.p, run.dist)
  {
    hide OneToOne, Identified, Greedy, Better, Compatible;
    var e :| e in Assoc(t, run) && e.cand.id == k;
    assert e in Edges(run.cands, AnchorsOf(t), run.p, run.dist);
    var id :| id in t.rows && AnchorOf(t.rows[id]) == e.dec;
    c := e.cand;
  }

  lemma LinksAreRows(t: Table, run: Run)
    requires ValidTable(t) && DistinctCands(run.cands)
    ensures forall k | k in Links(t, run) :: Links(t, run)[k] in t.rows
    ensures forall c | c in run.cands :: c.id in Links(t, run) <==> c in CandsOf(Assoc(t, run))
    ensures forall c | c in run.cands && c.id in Links(t, run) ::
      Edge(c, AnchorOf(t.rows[Links(t, run)[c.id]])) in Assoc(t, run)
  {
    forall k | k in Links(t, run)
      ensures Links(t, run)[k] in t.rows
      ensures forall c | c in run.cands && c.id == k :: Edge(c, AnchorOf(t.rows[Links(t, run)[k]])) in Assoc(t, run)
    {
      var e := LinkEdge(t, run, k);
    }
  }

  datatype Verdict = Verdict(action: Action, name: Option<string>)

  ghost function VerdictsOf(rows: map<int, Decision>, links: map<int, int>): map<int, Verdict>
    requires forall k | k in links :: links[k] in rows
  {
    map k | k in links :: Verdict(rows[links[k]].action, rows[links[k]].name)
  }

  ghost function Linked(links: map<int, int>): set<int> { set k | k in links :: links[k] }

  ghost function OrphansOf(rows: map<int, Decision>, links: map<int, int>): map<int, Decision> {
    map id | id in rows && id !in Linked(links) :: rows[id]
  }

  /** What the user sees on each candidate. */
  ghost function Verdicts(t: Table, run: Run): map<int, Verdict>
    requires ValidTable(t) && DistinctCands(run.cands)
  {
    LinksAreRows(t, run);
    VerdictsOf(t.rows, Links(t, run))
  }

  /** The decisions no candidate carries; they are surfaced, never dropped. */
  ghost function Orphans(t: Table, run: Run): map<int, Decision>
    requires ValidTable(t) && DistinctCands(run.cands)
  {
    OrphansOf(t.rows, Links(t, run))
  }

  /** An orphan already holds the anchor a decision on `c` would take. */
  ghost predicate Shadowed(t: Table, run: Run, c: SpanRef)
    requires ValidTable(t) && DistinctCands(run.cands)
  {
    exists id :: id in Orphans(t, run) && KeyOf(Orphans(t, run)[id]) == CandKey(c)
  }

  /** The row a decision on `c` writes: the matched one, else a fresh one. */
  ghost function Target(t: Table, run: Run, c: SpanRef): int
    requires ValidTable(t) && DistinctCands(run.cands)
  {
    if c.id in Links(t, run) then Links(t, run)[c.id] else t.nextId
  }

  /** One decide: re-decide the matched row in place, else insert. None is a failed write. */
  ghost function Decide(t: Table, run: Run, c: SpanRef, v: Verdict, now: int): Option<Table>
    requires ValidTable(t) && DistinctCands(run.cands)
  {
    LinksAreRows(t, run);
    if c.id in Links(t, run) then Update(t, Links(t, run)[c.id], v.action, v.name, c, now)
    else Insert(t, v.action, v.name, c, now)
  }

  ghost predicate VerdictOk(v: Verdict) { v.action == Confirmed ==> v.name.Some? }

  // ---- A row anchored exactly on a candidate ----

  /** Whoever holds a candidate's exact anchor is that candidate's match or an orphan. */
  lemma ExactAnchorHolder(t: Table, run: Run, c: SpanRef, id: int)
    requires ValidTable(t) && ValidRun(run) && c in run.cands
    requires id in t.rows && KeyOf(t.rows[id]) == CandKey(c)
    ensures c.id in Links(t, run)
    ensures Links(t, run)[c.id] == id || id in Orphans(t, run)
  {
    hide Links, Association, Compatible, OneToOne, Identified;
    AnchorsDistinct(t);
    var d := AnchorOf(t.rows[id]);
    UnmatchedHasNoAnchor(run.cands, AnchorsOf(t), c, d, run.p, run.dist);
    LinksAreRows(t, run);
    AnchoredOnlyThere(run.cands, c, d, run.p, run.dist);
    if id in Linked(Links(t, run)) {
      var k :| k in Links(t, run) && Links(t, run)[k] == id;
      var x := LinkEdge(t, run, k);
    }
  }

  /** The write fails exactly when an orphan holds the candidate's anchor. */
  lemma DecideFailsIff(t: Table, run: Run, c: SpanRef, v: Verdict, now: int)
    requires ValidTable(t) && ValidRun(run) && c in run.cands && VerdictOk(v)
    ensures Decide(t, run, c, v, now).None? <==> Shadowed(t, run, c)
  {
    hide Links, ValidTable;
    LinksAreRows(t, run);
    if Decide(t, run, c, v, now).None? {
      var id :| id in t.rows && KeyOf(t.rows[id]) == CandKey(c)
                && !(c.id in Links(t, run) && Links(t, run)[c.id] == id);
      ExactAnchorHolder(t, run, c, id);
    }
    if Shadowed(t, run, c) {
      var id :| id in Orphans(t, run) && KeyOf(t.rows[id]) == CandKey(c);
      ExactAnchorHolder(t, run, c, id);
    }
  }

  // ---- The effect of one decide ----

  lemma AnchorsAfterInsert(t: Table, t': Table, id: int)
    requires id !in t.rows && id in t'.rows && t'.rows == t.rows[id := t'.rows[id]]
    ensures AnchorsOf(t') == AnchorsOf(t) + {AnchorOf(t'.rows[id])}
  {
    forall a ensures a in AnchorsOf(t') <==> a in AnchorsOf(t) + {AnchorOf(t'.rows[id])} {
      if a in AnchorsOf(t) {
        var i :| i in t.rows && AnchorOf(t.rows[i]) == a;
        assert t'.rows[i] == t.rows[i];
      }
    }
  }

  lemma InsertEffect(t: Table, run: Run, c: SpanRef, v: Verdict, now: int, t': Table)
    requires ValidTable(t) && ValidRun(run) && c in run.cands && c.id !in Links(t, run)
    requires Insert(t, v.action, v.name, c, now) == Some(t')
    ensures ValidTable(t') && Links(t', run) == Links(t, run)[c.id := t.nextId]
  {
    hide Association, Identified, OneToOne, ValidTable, Insert, AnchorsOf, DistinctDecs;
    InsertWrites(t, v.action, v.name, c, now, t');
    var d := AnchorOf(t'.rows[t.nextId]);
    AnchorsDistinct(t);
    AnchorsDistinct(t');
    AnchorsAfterInsert(t, t', t.nextId);
    LinksAreRows(t, run);
    FreshEdge(t, run, c, d);
    FreshAnchor(t, d);
    InsertAddsOne(run.cands, AnchorsOf(t), c, d, run.p, run.dist);
    TakeIds(Assoc(t, run), Edge(c, d));
  }

  lemma FreshAnchor(t: Table, d: Anchor)
    requires ValidTable(t) && d.id == t.nextId
    ensures d !in AnchorsOf(t)
  {
  }

  /** Only stored decisions are associated, so a fresh id is free. */
  lemma FreshEdge(t: Table, run: Run, c: SpanRef, d: Anchor)
    requires ValidTable(t) && DistinctCands(run.cands) && d.id == t.nextId
    ensures Edge(c, d) !in Assoc(t, run)
  {
    hide OneToOne, Identified, Greedy, Better, Compatible;
    forall e | e in Assoc(t, run) ensures e.dec.id in t.rows {
      assert e in Edges(run.cands, AnchorsOf(t), run.p, run.dist);
    }
  }

  lemma AnchorsAfterUpdate(t: Table, t': Table, id: int)
    requires ValidTable(t) && ValidTable(t') && id in t.rows && id in t'.rows
    requires t'.rows == t.rows[id := t'.rows[id]]
    ensures AnchorsOf(t') == AnchorsOf(t) - {AnchorOf(t.rows[id])} + {AnchorOf(t'.rows[id])}
  {
    forall a ensures a in AnchorsOf(t') <==> a in AnchorsOf(t) - {AnchorOf(t.rows[id])} + {AnchorOf(t'.rows[id])} {
      if a.id in t.rows && a.id != id {
        assert t'.rows[a.id] == t.rows[a.id];
      }
    }
  }

  lemma UpdateEffect(t: Table, run: Run, c: SpanRef, v: Verdict, now: int, t': Table)
    requires ValidTable(t) && ValidRun(run) && c in run.cands && c.id in Links(t, run)
    requires Links(t, run)[c.id] in t.rows
    requires Update(t, Links(t, run)[c.id], v.action, v.name, c, now) == Some(t')
    ensures ValidTable(t') && Links(t', run) == Links(t, run)
  {
    hide Association, Refreshed, Identified, OneToOne, ValidTable, Update, AnchorsOf, DistinctDecs;
    var did := Links(t, run)[c.id];
    UpdateWrites(t, did, v.action, v.name, c, now, t');
    var d, d' := AnchorOf(t.rows[did]), AnchorOf(t'.rows[did]);
    AnchorsDistinct(t);
    AnchorsDistinct(t');
    LinksAreRows(t, run);
    AnchorsAfterUpdate(t, t', did);
    AnchorStored(t, did);
    UpdateMovesNothing(run.cands, AnchorsOf(t), c, d, d', run.p, run.dist);
    RefreshedIds(Assoc(t, run), c, d, d');
  }

  lemma AnchorStored(t: Table, id: int)
    requires id in t.rows
    ensures AnchorOf(t.rows[id]) in AnchorsOf(t)
  {
  }

  lemma RefreshedIds(m: set<Edge>, c: SpanRef, d: Anchor, d': Anchor)
    requires Identified(m) && OneToOne(m) && Edge(c, d) in m && d'.id == d.id
    requires Identified(Refreshed(m, c, d, d')) && OneToOne(Refreshed(m, c, d, d'))
    ensures Ids(Refreshed(m, c, d, d')) == Ids(m)
  {
    var m' := Refreshed(m, c, d, d');
    OnePerCand(m);
    OnePerCand(m');
    assert forall e | e in m && e != Edge(c, d) :: e in m';
    assert Ids(m').Keys == Ids(m).Keys;
    forall k | k in Ids(m) ensures Ids(m')[k] == Ids(m)[k] {
      var e :| e in m && e.cand.id == k;
      assert e == Edge(c, d) || e in m';
    }
  }

  /** Writing one row and one link moves one verdict and no orphan. */
  lemma OneLinkWritten(rows: map<int, Decision>, links: map<int, int>, k: int, target: int, row: Decision)
    requires forall j | j in links :: links[j] in rows
    requires forall i, j | i in links && j in links :: links[i] == links[j] ==> i == j
    requires if k in links then links[k] == target else target !in rows
    ensures OrphansOf(rows[target := row], links[k := target]) == OrphansOf(rows, links)
    ensures VerdictsOf(rows[target := row], links[k := target])
         == VerdictsOf(rows, links)[k := Verdict(row.action, row.name)]
  {
    var links', rows' := links[k := target], rows[target := row];
    forall x ensures x in Linked(links') <==> x in Linked(links) || x == target {
      if x in Linked(links) && x != target {
        var j :| j in links && links[j] == x;
        assert j in links' && links'[j] == x;
      }
      if x == target {
        assert k in links' && links'[k] == x;
      }
    }
    assert forall id | id in rows && id != target :: rows'[id] == rows[id];
    if k !in links {
      assert target !in Linked(links);
    }
    assert VerdictsOf(rows', links').Keys == links'.Keys;
    forall j | j in links && j != k ensures links'[j] == links[j] != target {
    }
  }

  /** What one written decide does to the rows. */
  lemma DecideWrites(t: Table, run: Run, c: SpanRef, v: Verdict, now: int, t': Table)
    requires ValidTable(t) && DistinctCands(run.cands)
    requires Decide(t, run, c, v, now) == Some(t')
    ensures ValidTable(t') && t'.nextId == (if c.id in Links(t, run) then t.nextId else t.nextId + 1)
    ensures Target(t, run, c) in t'.rows && t'.rows == t.rows[Target(t, run, c) := t'.rows[Target(t, run, c)]]
    ensures var row := t'.rows[Target(t, run, c)];
            Verdict(row.action, row.name) == v && KeyOf(row) == CandKey(c)
  {
    LinksAreRows(t, run);
    if c.id in Links(t, run) {
      UpdateWrites(t, Links(t, run)[c.id], v.action, v.name, c, now, t');
    } else {
      InsertWrites(t, v.action, v.name, c, now, t');
    }
  }

  lemma SameLink(links: map<int, int>, k: int)
    requires k in links
    ensures links[k := links[k]] == links
  {
  }

  lemma DecideLinks(t: Table, run: Run, c: SpanRef, v: Verdict, now: int, t': Table)
    requires ValidTable(t) && ValidRun(run) && c in run.cands
    requires Decide(t, run, c, v, now) == Some(t') && ValidTable(t')
    ensures Links(t', run) == Links(t, run)[c.id := Target(t, run, c)]
  {
    LinksAreRows(t, run);
    if c.id in Links(t, run) {
      UpdateEffect(t, run, c, v, now, t');
      SameLink(Links(t, run), c.id);
    } else {
      InsertEffect(t, run, c, v, now, t');
    }
  }

  /**
   A decide that is written changes the verdict of its own candidate and nothing else: every other
   association, every other verdict and every orphan stays as it was.
   */
  lemma DecideEffect(t: Table, run: Run, c: SpanRef, v: Verdict, now: int, t': Table)
    requires ValidTable(t) && ValidRun(run) && c in run.cands
    requires Decide(t, run, c, v, now) == Some(t')
    ensures ValidTable(t')
    ensures Links(t', run) == Links(t, run)[c.id := Target(t, run, c)]
    ensures Verdicts(t', run) == Verdicts(t, run)[c.id := v]
    ensures Orphans(t', run) == Orphans(t, run)
  {
    DecideWrites(t, run, c, v, now, t');
    DecideLinks(t, run, c, v, now, t');
    LinksAreRows(t, run);
    LinksInjective(t, run);
    OneLinkWritten(t.rows, Links(t, run), c.id, Target(t, run, c), t'.rows[Target(t, run, c)]);
  }

  /** No decision is shown on two candidates. */
  lemma LinksInjective(t: Table, run: Run)
    requires ValidTable(t) && DistinctCands(run.cands)
    ensures forall j, k | j in Links(t, run) && k in Links(t, run) :: Links(t, run)[j] == Links(t, run)[k] ==> j == k
  {
    var m, l := Assoc(t, run), Links(t, run);
    forall j, k | j in l && k in l && l[j] == l[k] ensures j == k {
      var e :| e in m && e.cand.id == j;
      var f :| f in m && f.cand.id == k;
      assert SameRows(e, f) && Touches(e, f);
    }
  }

  // ---- Any sequence of decides ----

  /** One request that reached the write: candidate, verdict, and the clock at that moment. */
  datatype Call = Call(cand: SpanRef, verdict: Verdict, now: int)

  ghost predicate CallsOk(run: Run, calls: seq<Call>) {
    forall i | 0 <= i < |calls| :: calls[i].cand in run.cands && VerdictOk(calls[i].verdict)
  }

  /** The table after a sequence of decides; a failed write leaves it as it was. */
  ghost function AfterDecides(t: Table, run: Run, calls: seq<Call>): Table
    requires ValidTable(t) && ValidRun(run) && CallsOk(run, calls)
    ensures ValidTable(AfterDecides(t, run, calls))
  {
    if calls == [] then t
    else
      var call := calls[|calls| - 1];
      var before := AfterDecides(t, run, calls[..|calls| - 1]);
      match Decide(before, run, call.cand, call.verdict, call.now)
      case None => before
      case Some(after) =>
        DecideWrites(before, run, call.cand, call.verdict, call.now, after);
        after
  }

  /** The abstraction: a plain map from candidate to verdict, closed to the shadowed candidates. */
  ghost function PlainMap(m: map<int, Verdict>, t: Table, run: Run, calls: seq<Call>): map<int, Verdict>
    requires ValidTable(t) && ValidRun(run)
  {
    if calls == [] then m
    else
      var call := calls[|calls| - 1];
      var before := PlainMap(m, t, run, calls[..|calls| - 1]);
      if Shadowed(t, run, call.cand) then before else before[call.cand.id := call.verdict]
  }

  /**
   Over any sequence of decides on one run, stored anchors and recomputed matching implement a plain
   map from candidate to verdict. The candidates whose writes fail are those an orphan shadowed at the
   start, and no orphan is ever created, changed or lost.
   */
  lemma {:induction false} DecidesRefineMap(t: Table, run: Run, calls: seq<Call>)
    requires ValidTable(t) && ValidRun(run) && CallsOk(run, calls)
    ensures Verdicts(AfterDecides(t, run, calls), run) == PlainMap(Verdicts(t, run), t, run, calls)
    ensures Orphans(AfterDecides(t, run, calls), run) == Orphans(t, run)
  {
    hide Links, Verdicts, Orphans, Decide;
    if calls != [] {
      var call, front := calls[|calls| - 1], calls[..|calls| - 1];
      DecidesRefineMap(t, run, front);
      var before := AfterDecides(t, run, front);
      DecideFailsIff(before, run, call.cand, call.verdict, call.now);
      assert Shadowed(before, run, call.cand) <==> Shadowed(t, run, call.cand);
      match Decide(before, run, call.cand, call.verdict, call.now)
      case None =>
      case Some(after) => DecideEffect(before, run, call.cand, call.verdict, call.now, after);
    }
  }

  // ---- Bulk triage ----

  ghost predicate DistinctCalls(calls: seq<Call>) {
    forall i, j | 0 <= i < j < |calls| :: calls[i].cand.id != calls[j].cand.id
  }

  /** Deciding one at a time, stopping at the first failed write. */
  ghost function DecideAll(t: Table, run: Run, calls: seq<Call>): (r: Option<Table>)
    requires ValidTable(t) && ValidRun(run) && CallsOk(run, calls)
    ensures r.Some? ==> ValidTable(r.value)
  {
    if calls == [] then Some(t)
    else
      match DecideAll(t, run, calls[..|calls| - 1])
      case None => None
      case Some(before) =>
        var call := calls[|calls| - 1];
        var r := Decide(before, run, call.cand, call.verdict, call.now);
        if r.Some? then DecideWrites(before, run, call.cand, call.verdict, call.now, r.value); r else r
  }

  /** The associations after distinct decides: matched candidates keep their row, others get the next id. */
  ghost function LinksAfter(links: map<int, int>, nextId: int, calls: seq<Call>): (map<int, int>, int) {
    if calls == [] then (links, nextId)
    else
      var (l, n) := LinksAfter(links, nextId, calls[..|calls| - 1]);
      var k := calls[|calls| - 1].cand.id;
      if k in l then (l, n) else (l[k := n], n + 1)
  }

  lemma {:induction false} LinksAfterElsewhere(links: map<int, int>, nextId: int, calls: seq<Call>, k: int)
    requires forall i | 0 <= i < |calls| :: calls[i].cand.id != k
    ensures k in LinksAfter(links, nextId, calls).0 <==> k in links
    ensures k in links ==> LinksAfter(links, nextId, calls).0[k] == links[k]
  {
    if calls != [] {
      LinksAfterElsewhere(links, nextId, calls[..|calls| - 1], k);
    }
  }

  /** One at a time, the decides all succeed exactly when no candidate is shadowed at the start. */
  lemma {:induction false} DecideAllOutcome(t: Table, run: Run, calls: seq<Call>)
    requires ValidTable(t) && ValidRun(run) && CallsOk(run, calls)
    ensures DecideAll(t, run, calls).Some? <==> forall i | 0 <= i < |calls| :: !Shadowed(t, run, calls[i].cand)
    ensures DecideAll(t, run, calls).Some? ==> DecideAll(t, run, calls).value == AfterDecides(t, run, calls)
  {
    hide Links, Orphans, Verdicts, Decide;
    if calls != [] {
      var front, call := calls[..|calls| - 1], calls[|calls| - 1];
      DecideAllOutcome(t, run, front);
      if DecideAll(t, run, front).Some? {
        var before := DecideAll(t, run, front).value;
        DecidesRefineMap(t, run, front);
        DecideFailsIff(before, run, call.cand, call.verdict, call.now);
        assert Shadowed(before, run, call.cand) <==> Shadowed(t, run, call.cand);
      }
    }
  }

  lemma DecideAllSnoc(t: Table, run: Run, calls: seq<Call>, t': Table) returns (before: Table)
    requires ValidTable(t) && ValidRun(run) && CallsOk(run, calls) && calls != []
    requires DecideAll(t, run, calls) == Some(t')
    ensures DecideAll(t, run, calls[..|calls| - 1]) == Some(before) && ValidTable(before)
    ensures var call := calls[|calls| - 1];
            Decide(before, run, call.cand, call.verdict, call.now) == Some(t')
  {
    before := DecideAll(t, run, calls[..|calls| - 1]).value;
  }

  lemma {:induction false} DecideAllLinks(t: Table, run: Run, calls: seq<Call>, t': Table)
    requires ValidTable(t) && ValidRun(run) && CallsOk(run, calls)
    requires DecideAll(t, run, calls) == Some(t') && ValidTable(t')
    ensures (Links(t', run), t'.nextId) == LinksAfter(Links(t, run), t.nextId, calls)
  {
    hide Links, Orphans, Verdicts, Decide;
    if calls != [] {
      var before := DecideAllSnoc(t, run, calls, t');
      var call := calls[|calls| - 1];
      DecideAllLinks(t, run, calls[..|calls| - 1], before);
      DecideWrites(before, run, call.cand, call.verdict, call.now, t');
      DecideLinks(before, run, call.cand, call.verdict, call.now, t');
      var links := Links(before, run);
      if call.cand.id in links {
        SameLink(links, call.cand.id);
      }
    }
  }

  /** The bulk handler's items: every link is read from the one matching computed up front. */
  ghost function BulkOf(links: map<int, int>, calls: seq<Call>): seq<BulkDecision> {
    seq(|calls|, i requires 0 <= i < |calls| =>
      var c := calls[i].cand;
      BulkDecision(c, calls[i].verdict.action, calls[i].verdict.name,
                   if c.id in links then Some(links[c.id]) else None))
  }

  ghost function Timeless(d: Decision): Decision { d.(createdAt := 0, updatedAt := 0) }

  /** Equal tables, but for the clock readings stored in them. */
  ghost predicate SameButTimes(t: Table, u: Table) {
    && t.nextId == u.nextId
    && t.rows.Keys == u.rows.Keys
    && forall id | id in t.rows :: Timeless(t.rows[id]) == Timeless(u.rows[id])
  }

  lemma SameKeysTaken(t: Table, u: Table, id: int, key: AnchorKey)
    requires SameButTimes(t, u)
    ensures KeyTaken(t.rows, key) <==> KeyTaken(u.rows, key)
    ensures KeyTakenByOther(t.rows, id, key) <==> KeyTakenByOther(u.rows, id, key)
  {
    assert forall i | i in t.rows :: KeyOf(Timeless(t.rows[i])) == KeyOf(t.rows[i]) == KeyOf(u.rows[i]);
  }

  /** The same item written at two moments into tables that agree but for times. */
  lemma BulkItemTimes(t: Table, u: Table, item: BulkDecision, now: int, now': int)
    requires SameButTimes(t, u)
    ensures BulkItem(t, item, now).Some? <==> BulkItem(u, item, now').Some?
    ensures BulkItem(t, item, now).Some? ==> SameButTimes(BulkItem(t, item, now).value, BulkItem(u, item, now').value)
  {
    var id := if item.updateId.Some? then item.updateId.value else 0;
    SameKeysTaken(t, u, id, CandKey(item.anchor));
  }

  /** The same calls, all at one moment. */
  ghost function AtOnce(calls: seq<Call>, now: int): seq<Call> {
    seq(|calls|, i requires 0 <= i < |calls| => calls[i].(now := now))
  }

  /** The bulk write links every item up front; deciding one at a time at the same moment writes the same table. */
  lemma {:induction false} BulkIsAtOnce(t: Table, run: Run, calls: seq<Call>, now: int)
    requires ValidTable(t) && ValidRun(run) && CallsOk(run, calls) && DistinctCalls(calls)
    ensures CallsOk(run, AtOnce(calls, now))
    ensures BulkItems(t, BulkOf(Links(t, run), calls), now) == DecideAll(t, run, AtOnce(calls, now))
  {
    hide Links, Orphans, Verdicts, Update, Insert, BulkItem;
    if calls != [] {
      var front, call := calls[..|calls| - 1], calls[|calls| - 1];
      var links := Links(t, run);
      var items, at := BulkOf(links, calls), AtOnce(calls, now);
      assert items[..|items| - 1] == BulkOf(links, front);
      assert at[..|at| - 1] == AtOnce(front, now);
      BulkIsAtOnce(t, run, front, now);
      if DecideAll(t, run, AtOnce(front, now)).Some? {
        var s := DecideAll(t, run, AtOnce(front, now)).value;
        DecideAllLinks(t, run, AtOnce(front, now), s);
        LinksAfterElsewhere(links, t.nextId, AtOnce(front, now), call.cand.id);
        LinksAreRows(s, run);
        DecideIsItem(s, run, at[|at| - 1], links, items[|items| - 1]);
      }
    }
  }

  /** A decide is the bulk item its link asks for. */
  lemma DecideIsItem(s: Table, run: Run, call: Call, links: map<int, int>, item: BulkDecision)
    requires ValidTable(s) && ValidRun(run) && call.cand in run.cands
    requires call.cand.id in Links(s, run) ==> Links(s, run)[call.cand.id] in s.rows
    requires call.cand.id in links <==> call.cand.id in Links(s, run)
    requires call.cand.id in links ==> links[call.cand.id] == Links(s, run)[call.cand.id]
    requires item == BulkDecision(call.cand, call.verdict.action, call.verdict.name,
                                  if call.cand.id in links then Some(links[call.cand.id]) else None)
    ensures Decide(s, run, call.cand, call.verdict, call.now) == BulkItem(s, item, call.now)
  {
    hide Links, Update, Insert;
  }

  /** Which associations a sequence of decides leaves does not depend on when each was made. */
  lemma {:induction false} LinksIgnoreClocks(links: map<int, int>, nextId: int, calls: seq<Call>, now: int)
    ensures LinksAfter(links, nextId, AtOnce(calls, now)) == LinksAfter(links, nextId, calls)
  {
    if calls != [] {
      assert AtOnce(calls, now)[..|calls| - 1] == AtOnce(calls[..|calls| - 1], now);
      LinksIgnoreClocks(links, nextId, calls[..|calls| - 1], now);
    }
  }

  lemma {:induction false} PlainMapIgnoresClocks(m: map<int, Verdict>, t: Table, run: Run, calls: seq<Call>, now: int)
    requires ValidTable(t) && ValidRun(run)
    ensures PlainMap(m, t, run, AtOnce(calls, now)) == PlainMap(m, t, run, calls)
  {
    hide Shadowed;
    if calls != [] {
      assert AtOnce(calls, now)[..|calls| - 1] == AtOnce(calls[..|calls| - 1], now);
      PlainMapIgnoresClocks(m, t, run, calls[..|calls| - 1], now);
    }
  }

  /** The rows two moments apart agree but for the times. */
  lemma {:induction false} RowsIgnoreClocks(t: Table, run: Run, calls: seq<Call>, now: int)
    requires ValidTable(t) && ValidRun(run) && CallsOk(run, calls) && CallsOk(run, AtOnce(calls, now))
    requires DecideAll(t, run, calls).Some? && DecideAll(t, run, AtOnce(calls, now)).Some?
    ensures SameButTimes(DecideAll(t, run, AtOnce(calls, now)).value, DecideAll(t, run, calls).value)
  {
    hide Links, Orphans, Verdicts, SameButTimes, Decide;
    var at := AtOnce(calls, now);
    if calls == [] {
      SameAsItself(t);
    } else {
      var front, call := calls[..|calls| - 1], calls[|calls| - 1];
      assert at[..|at| - 1] == AtOnce(front, now);
      RowsIgnoreClocks(t, run, front, now);
      var s, u := DecideAll(t, run, AtOnce(front, now)).value, DecideAll(t, run, front).value;
      DecideAllLinks(t, run, front, u);
      DecideAllLinks(t, run, AtOnce(front, now), s);
      LinksIgnoreClocks(Links(t, run), t.nextId, front, now);
      LinksAreRows(s, run);
      LinksAreRows(u, run);
      var links := Links(s, run);
      var item := BulkDecision(call.cand, call.verdict.action, call.verdict.name,
                               if call.cand.id in links then Some(links[call.cand.id]) else None);
      DecideIsItem(s, run, at[|at| - 1], links, item);
      DecideIsItem(u, run, call, links, item);
      BulkItemTimes(s, u, item, now, call.now);
    }
  }

  lemma SameAsItself(t: Table)
    ensures SameButTimes(t, t)
  {
  }

  /**
   The bulk write, which links every item up front and lands in one transaction, fails exactly when
   deciding the same candidates one at a time would. When it lands, rows agree but for the clock
   readings, and although creation times take part in the ranking every association, verdict and orphan
   is the same.
   */
  lemma BulkIsSequential(t: Table, run: Run, calls: seq<Call>, now: int)
    requires ValidTable(t) && ValidRun(run) && CallsOk(run, calls) && DistinctCalls(calls)
    ensures var bulk, single := BulkItems(t, BulkOf(Links(t, run), calls), now), DecideAll(t, run, calls);
            && (bulk.Some? <==> single.Some?)
            && (bulk.Some? ==>
                  ValidTable(bulk.value) && SameButTimes(bulk.value, single.value)
                  && Links(bulk.value, run) == Links(single.value, run)
                  && Verdicts(bulk.value, run) == Verdicts(single.value, run)
                  && Orphans(bulk.value, run) == Orphans(single.value, run))
  {
    hide Links, Orphans, Verdicts, Shadowed, BulkItems, SameButTimes, ValidTable;
    var at := AtOnce(calls, now);
    BulkIsAtOnce(t, run, calls, now);
    DecideAllOutcome(t, run, calls);
    DecideAllOutcome(t, run, at);
    assert forall i | 0 <= i < |calls| :: at[i].cand == calls[i].cand;
    if DecideAll(t, run, at).Some? {
      RowsIgnoreClocks(t, run, calls, now);
      DecideAllLinks(t, run, calls, DecideAll(t, run, calls).value);
      DecideAllLinks(t, run, at, DecideAll(t, run, at).value);
      LinksIgnoreClocks(Links(t, run), t.nextId, calls, now);
      DecidesRefineMap(t, run, calls);
      DecidesRefineMap(t, run, at);
      PlainMapIgnoresClocks(Verdicts(t, run), t, run, calls, now);
    }
  }

  /**
   Re-deciding can fail, after three runs and two decisions: a decision on a long adventure drifts, when
   a later run splits it, onto the span of a newer decision; once only that span is left it takes the
   candidate by age, and cannot move its anchor there because the newer row, now an orphan, holds it.
   */
  lemma ShadowedExample(dest: LatLng, dist: Distance)
    returns (first: Run, second: Run, third: Run, a: SpanRef, b: SpanRef, c: SpanRef, t1: Table, t2: Table)
    ensures ValidRun(first) && a in first.cands && ValidRun(second) && b in second.cands
    ensures ValidRun(third) && c in third.cands
    ensures ValidTable(NO_DECISIONS) && Decide(NO_DECISIONS, first, a, Verdict(Dismissed, None), 100) == Some(t1)
    ensures ValidTable(t1) && Decide(t1, second, b, Verdict(Dismissed, None), 200) == Some(t2)
    ensures ValidTable(t2) && Shadowed(t2, third, c)
    ensures forall v, now | VerdictOk(v) :: Decide(t2, third, c, v, now).None?
  {
    a, b, c := SpanRef(3, 0, 10, dest), SpanRef(5, 5, 8, dest), SpanRef(7, 5, 8, dest);
    var other := SpanRef(4, 0, 4, dest);
    first := Run({a}, MatchParams(50.0), dist);
    second := Run({other, b}, MatchParams(50.0), dist);
    third := Run({c}, MatchParams(50.0), dist);
    var older := Decision(1, Dismissed, None, 0, 10, dest, 100, 100);
    var newer := Decision(2, Dismissed, None, 5, 8, dest, 200, 200);
    t1 := Table(map[1 := older], 2);
    t2 := Table(map[1 := older, 2 := newer], 3);
    assert ValidRun(first) && ValidRun(second) && ValidRun(third);
    AgeDecides(dest, dist);
    hide Better, Compatible, ValidTable, Links, Orphans, Decide, Shadowed, ValidRun;
    FirstDecided(first, a, t1, older);
    ShadowedTable(t2, older, newer);
    SecondDecided(t1, second, other, b, older, newer);
    ShadowedLink(t2, third, c, older, newer);
    ShadowedOrphan(t2, third, c, older, newer);
    AlwaysRefused(t2, third, c);
  }

  /** The comparisons the history turns on: overlap first, then age. */
  lemma AgeDecides(dest: LatLng, dist: Distance)
    ensures var older, newer := Anchor(1, 0, 10, dest, 100), Anchor(2, 5, 8, dest, 200);
            && Better(Edge(SpanRef(4, 0, 4, dest), older), Edge(SpanRef(5, 5, 8, dest), older))
            && Better(Edge(SpanRef(7, 5, 8, dest), older), Edge(SpanRef(7, 5, 8, dest), newer))
            && Compatible(SpanRef(4, 0, 4, dest), older, MatchParams(50.0), dist)
            && Compatible(SpanRef(7, 5, 8, dest), older, MatchParams(50.0), dist)
  {
  }

  lemma AlwaysRefused(t: Table, run: Run, c: SpanRef)
    requires ValidTable(t) && ValidRun(run) && c in run.cands && Shadowed(t, run, c)
    ensures forall v, now | VerdictOk(v) :: Decide(t, run, c, v, now).None?
  {
    hide Shadowed, Decide, ValidTable;
    forall v, now | VerdictOk(v) ensures Decide(t, run, c, v, now).None? {
      DecideFailsIff(t, run, c, v, now);
    }
  }

  lemma SecondDecided(t: Table, run: Run, x: SpanRef, b: SpanRef, older: Decision, newer: Decision)
    requires ValidTable(t) && t == Table(map[1 := older], 2) && older.id == 1
    requires run.cands == {x, b} && DistinctCands(run.cands) && x.id != b.id
    requires newer == Decision(2, Dismissed, None, b.start, b.end, b.dest, 200, 200) && KeyOf(older) != CandKey(b)
    requires Compatible(x, AnchorOf(older), run.p, run.dist)
    requires Better(Edge(x, AnchorOf(older)), Edge(b, AnchorOf(older)))
    ensures Decide(t, run, b, Verdict(Dismissed, None), 200) == Some(Table(map[1 := older, 2 := newer], 3))
  {
    hide Better, Compatible, ValidTable, Links;
    DriftedLink(t, run, x, b, older);
    assert t.rows[1] == older;
    assert t.rows[2 := newer] == map[1 := older, 2 := newer];
  }

  const NO_DECISIONS: Table := Table(map[], 1)

  lemma FirstDecided(run: Run, a: SpanRef, t: Table, row: Decision)
    requires ValidRun(run) && a in run.cands
    requires row == Decision(1, Dismissed, None, a.start, a.end, a.dest, 100, 100) && t == Table(map[1 := row], 2)
    ensures ValidTable(NO_DECISIONS) && ValidTable(t)
    ensures Decide(NO_DECISIONS, run, a, Verdict(Dismissed, None), 100) == Some(t)
  {
    AnchorsDistinct(NO_DECISIONS);
    AssociationIsTheStableOne(run.cands, {}, run.p, run.dist, {});
    assert AnchorsOf(NO_DECISIONS) == {} && Links(NO_DECISIONS, run) == map[];
  }

  /** A decision shared by two candidates goes to the one it overlaps longer; the other is free. */
  lemma DriftedLink(t: Table, run: Run, x: SpanRef, b: SpanRef, row: Decision)
    requires ValidTable(t) && t.rows == map[1 := row] && run.cands == {x, b} && DistinctCands(run.cands)
    requires Compatible(x, AnchorOf(row), run.p, run.dist) && Better(Edge(x, AnchorOf(row)), Edge(b, AnchorOf(row)))
    ensures Links(t, run) == map[x.id := row.id]
  {
    var best, other := Edge(x, AnchorOf(row)), Edge(b, AnchorOf(row));
    AnchorsDistinct(t);
    assert t.rows[1] == row && AnchorsOf(t) == {best.dec};
    var edges := Edges({x, b}, {best.dec}, run.p, run.dist);
    assert best in edges && edges <= {best, other};
    hide Better, ValidTable, AnchorsOf, Compatible;
    assert Blocked(other, {best}) by {
      assert best in {best} && Touches(best, other);
    }
    assert Stable(edges, {best});
    hide Stable, Edges, Association, DistinctDecs;
    AssociationIsTheStableOne(run.cands, AnchorsOf(t), run.p, run.dist, {best});
    LinkOfOne(t, run, best);
  }

  lemma ShadowedTable(t: Table, older: Decision, newer: Decision)
    requires t == Table(map[1 := older, 2 := newer], 3) && older.id == 1 && newer.id == 2
    requires KeyOf(older) != KeyOf(newer) && older.action == Dismissed && newer.action == Dismissed
    ensures ValidTable(t)
  {
    assert t.rows[1] == older && t.rows[2] == newer;
  }

  lemma ShadowedOrphan(t: Table, run: Run, c: SpanRef, older: Decision, newer: Decision)
    requires ValidTable(t) && t.rows == map[1 := older, 2 := newer] && DistinctCands(run.cands)
    requires Links(t, run) == map[c.id := 1] && KeyOf(newer) == CandKey(c)
    ensures Shadowed(t, run, c)
  {
    hide Links, ValidTable;
    assert t.rows[2] == newer && 2 in Orphans(t, run);
  }

  lemma ShadowedLink(t: Table, run: Run, c: SpanRef, older: Decision, newer: Decision)
    requires ValidTable(t) && t.rows == map[1 := older, 2 := newer] && run.cands == {c}
    requires Compatible(c, AnchorOf(older), run.p, run.dist)
    requires Better(Edge(c, AnchorOf(older)), Edge(c, AnchorOf(newer)))
    ensures Links(t, run) == map[c.id := older.id]
  {
    var best, other := Edge(c, AnchorOf(older)), Edge(c, AnchorOf(newer));
    assert best != other by { BetterIsStrict(best); }
    TwoAnchors(t, older, newer);
    AnchorsDistinct(t);
    hide Better, ValidTable, AnchorsOf;
    TwoEdges(c, best, other, run.p, run.dist);
    BestAlone(Edges({c}, AnchorsOf(t), run.p, run.dist), best, other);
    hide Compatible, Stable, Edges, Association, DistinctDecs;
    AssociationIsTheStableOne(run.cands, AnchorsOf(t), run.p, run.dist, {best});
    LinkOfOne(t, run, best);
  }

  lemma LinkOfOne(t: Table, run: Run, e: Edge)
    requires ValidTable(t) && DistinctCands(run.cands) && Assoc(t, run) == {e}
    ensures Links(t, run) == map[e.cand.id := e.dec.id]
  {
    hide Assoc, ValidTable, DistinctCands;
    assert Links(t, run).Keys == {e.cand.id};
  }

  lemma BetterIsStrict(e: Edge)
    ensures !Better(e, e)
  {
  }

  lemma TwoEdges(c: SpanRef, best: Edge, other: Edge, p: MatchParams, dist: Distance)
    requires best.cand == c && other.cand == c && Compatible(c, best.dec, p, dist)
    ensures best in Edges({c}, {best.dec, other.dec}, p, dist)
    ensures Edges({c}, {best.dec, other.dec}, p, dist) <= {best, other}
  {
  }

  lemma TwoAnchors(t: Table, older: Decision, newer: Decision)
    requires t.rows == map[1 := older, 2 := newer]
    ensures AnchorsOf(t) == {AnchorOf(older), AnchorOf(newer)}
  {
    assert t.rows[1] == older && t.rows[2] == newer;
  }

  lemma BestAlone(edges: set<Edge>, best: Edge, other: Edge)
    requires best in edges && edges <= {best, other} && best.cand == other.cand && Better(best, other)
    ensures Stable(edges, {best})
  {
    hide Better;
    assert Blocked(other, {best}) by {
      assert best in {best} && Touches(best, other);
    }
  }
}
