/** The triage handlers (internal/api/server.go): requests in, one store write or none, a response out. */
module Server {
  import opened Domain
  import opened Seqs
  import opened Matching
  import opened Decisions
  import opened Triage

  // ---- Requests ----

  predicate IsSpace(c: char) {
    || '\U{0009}' <= c <= '\U{000D}' || c == ' ' || c == '\U{0085}' || c == '\U{00A0}' || c == '\U{1680}'
    || '\U{2000}' <= c <= '\U{200A}' || c == '\U{2028}' || c == '\U{2029}' || c == '\U{202F}'
    || c == '\U{205F}' || c == '\U{3000}'
  }

  function TrimLeft(s: string): string {
    if s != "" && IsSpace(s[0]) then TrimLeft(s[1..]) else s
  }

  function TrimRight(s: string): string {
    if s != "" && IsSpace(s[|s| - 1]) then TrimRight(s[..|s| - 1]) else s
  }

  function TrimSpace(s: string): string { TrimRight(TrimLeft(s)) }

  datatype DecideRequest = DecideRequest(candId: int, action: string, name: Option<string>)

  /** A confirmation needs a name that is not blank; a dismissal carries none. */
  function ParseVerdict(r: DecideRequest): Option<Verdict> {
    if r.action == "confirmed" then
      var trimmed := if r.name.Some? then TrimSpace(r.name.value) else "";
      if trimmed == "" then None else Some(Verdict(Confirmed, Some(trimmed)))
    else if r.action == "dismissed" then Some(Verdict(Dismissed, None))
    else None
  }

  lemma {:induction false} TrimLeftBlank(s: string)
    ensures TrimLeft(s) == "" <==> forall i | 0 <= i < |s| :: IsSpace(s[i])
  {
    if s != "" && IsSpace(s[0]) {
      TrimLeftBlank(s[1..]);
      assert forall i | 1 <= i < |s| :: s[i] == s[1..][i - 1];
    }
  }

  lemma {:induction false} TrimLeftHead(s: string)
    ensures TrimLeft(s) != "" ==> !IsSpace(TrimLeft(s)[0])
  {
    if s != "" && IsSpace(s[0]) {
      TrimLeftHead(s[1..]);
    }
  }

  lemma {:induction false} TrimRightKeepsHead(s: string)
    ensures s != "" && !IsSpace(s[0]) ==> TrimRight(s) != ""
  {
    if s != "" && IsSpace(s[|s| - 1]) && !IsSpace(s[0]) {
      TrimRightKeepsHead(s[..|s| - 1]);
    }
  }

  /** Which requests are accepted: the two known actions, a confirmation only under a visible name. */
  lemma AcceptedRequests(r: DecideRequest)
    ensures ParseVerdict(r).Some? <==>
      || r.action == "dismissed"
      || (r.action == "confirmed" && r.name.Some? && exists i :: 0 <= i < |r.name.value| && !IsSpace(r.name.value[i]))
    ensures ParseVerdict(r).Some? ==> VerdictOk(ParseVerdict(r).value)
  {
    if r.name.Some? {
      TrimLeftBlank(r.name.value);
      TrimLeftHead(r.name.value);
      TrimRightKeepsHead(TrimLeft(r.name.value));
    }
  }

  /** What is left of a text without the blanks at its two ends. */
  ghost predicate Trimmed(raw: string, name: string) {
    exists i, j :: 0 <= i < j <= |raw| && name == raw[i..j] && TrimmedAt(raw, i, j)
  }

  ghost predicate TrimmedAt(raw: string, i: int, j: int)
    requires 0 <= i < j <= |raw|
  {
    && !IsSpace(raw[i]) && !IsSpace(raw[j - 1])
    && (forall k | 0 <= k < i :: IsSpace(raw[k])) && (forall k | j <= k < |raw| :: IsSpace(raw[k]))
  }

  /** A row does what the request asks: it confirms under the trimmed name, or dismisses without one. */
  ghost predicate Obeys(req: DecideRequest, action: Action, name: Option<string>) {
    if req.action == "confirmed" then
      action == Confirmed && req.name.Some? && name.Some? && Trimmed(req.name.value, name.value)
    else req.action == "dismissed" && action == Dismissed && name == None
  }

  lemma {:induction false} TrimLeftCut(s: string) returns (i: nat)
    ensures i <= |s| && TrimLeft(s) == s[i..] && forall k | 0 <= k < i :: IsSpace(s[k])
    ensures i < |s| ==> !IsSpace(s[i])
  {
    i := 0;
    if s != "" && IsSpace(s[0]) {
      var j := TrimLeftCut(s[1..]);
      i := j + 1;
      assert forall k | 1 <= k < |s| :: s[k] == s[1..][k - 1];
    }
  }

  lemma {:induction false} TrimRightCut(s: string) returns (j: nat)
    ensures j <= |s| && TrimRight(s) == s[..j] && forall k | j <= k < |s| :: IsSpace(s[k])
    ensures j > 0 ==> !IsSpace(s[j - 1])
  {
    j := |s|;
    if s != "" && IsSpace(s[|s| - 1]) {
      j := TrimRightCut(s[..|s| - 1]);
      assert forall k | 0 <= k < |s| - 1 :: s[k] == s[..|s| - 1][k];
    }
  }

  lemma TrimSpaceTrims(raw: string)
    ensures TrimSpace(raw) != "" ==> Trimmed(raw, TrimSpace(raw))
  {
    var i := TrimLeftCut(raw);
    var rest := raw[i..];
    var n := TrimRightCut(rest);
    if n > 0 {
      assert raw[i..i + n] == rest[..n] && rest[0] == raw[i] && rest[n - 1] == raw[i + n - 1];
      forall k | i + n <= k < |raw| ensures IsSpace(raw[k]) {
        assert rest[k - i] == raw[k];
      }
      assert TrimmedAt(raw, i, i + n);
    }
  }

  /** An accepted request turns into the verdict it asks for. */
  lemma VerdictObeys(req: DecideRequest)
    requires ParseVerdict(req).Some?
    ensures Obeys(req, ParseVerdict(req).value.action, ParseVerdict(req).value.name)
  {
    if req.name.Some? {
      TrimSpaceTrims(req.name.value);
    }
    hide TrimSpace, Trimmed;
  }

  // ---- Responses ----

  datatype DecideResponse = Decided(row: Decision) | BadRequest | NotFound | WriteFailed

  datatype BulkResponse = BulkDecided(n: nat) | BulkBadRequest | BulkNotFound(missing: seq<int>) | BulkWriteFailed

  datatype ListedCandidate = ListedCandidate(cand: SpanRef, decision: Option<Decision>)

  /** Some candidate is shown with this decision. */
  ghost predicate Carried(listed: seq<ListedCandidate>, d: Decision) {
    exists i :: 0 <= i < |listed| && listed[i].decision == Some(d)
  }

  ghost predicate Known(cands: seq<SpanRef>, id: int) { exists c :: c in cands && c.id == id }

  ghost function ById(cands: seq<SpanRef>, id: int): SpanRef
    requires Known(cands, id)
  {
    var c :| c in cands && c.id == id;
    c
  }

  lemma ByIdUnique(cands: seq<SpanRef>, c: SpanRef)
    requires forall i, j | 0 <= i < j < |cands| :: cands[i].id != cands[j].id
    requires c in cands
    ensures Known(cands, c.id) && ById(cands, c.id) == c
  {
    var i :| 0 <= i < |cands| && cands[i] == c;
    var j :| 0 <= j < |cands| && cands[j] == ById(cands, c.id);
  }

  /** Every item acceptable on its own, and no candidate named twice. */
  ghost predicate BulkAcceptable(items: seq<DecideRequest>) {
    && items != []
    && (forall i | 0 <= i < |items| :: ParseVerdict(items[i]).Some?)
    && (forall i, j | 0 <= i < j < |items| :: items[i].candId != items[j].candId)
  }

  ghost function Missing(items: seq<DecideRequest>, cands: seq<SpanRef>): seq<int> {
    if items == [] then []
    else Missing(Front(items), cands) + if Known(cands, Last(items).candId) then [] else [Last(items).candId]
  }

  /** The decides an acceptable bulk request asks for, leaving out unknown candidates. */
  ghost function CallsOf(items: seq<DecideRequest>, cands: seq<SpanRef>, now: int): seq<Call>
    requires forall i | 0 <= i < |items| :: ParseVerdict(items[i]).Some?
  {
    if items == [] then []
    else
      var it := Last(items);
      CallsOf(Front(items), cands, now)
        + if Known(cands, it.candId) then [Call(ById(cands, it.candId), ParseVerdict(it).value, now)] else []
  }

  /** The decides an acceptable request without unknown candidates asks for, each at its own moment. */
  ghost function OneByOne(items: seq<DecideRequest>, cands: seq<SpanRef>, clocks: seq<int>): seq<Call>
    requires |clocks| == |items| && forall i | 0 <= i < |items| ::
      ParseVerdict(items[i]).Some? && Known(cands, items[i].candId)
  {
    seq(|items|, i requires 0 <= i < |items| =>
      Call(ById(cands, items[i].candId), ParseVerdict(items[i]).value, clocks[i]))
  }

  lemma {:induction false} NoneMissing(items: seq<DecideRequest>, cands: seq<SpanRef>)
    requires Missing(items, cands) == []
    ensures forall i | 0 <= i < |items| :: Known(cands, items[i].candId)
  {
    hide Known;
    if items != [] {
      NoneMissing(Front(items), cands);
      assert forall i | 0 <= i < |items| - 1 :: Front(items)[i] == items[i];
    }
  }

  lemma {:induction false} CallsOfExact(items: seq<DecideRequest>, cands: seq<SpanRef>, now: int)
    requires forall i | 0 <= i < |items| :: ParseVerdict(items[i]).Some? && Known(cands, items[i].candId)
    ensures |CallsOf(items, cands, now)| == |items|
    ensures forall i | 0 <= i < |items| ::
      CallsOf(items, cands, now)[i] == Call(ById(cands, items[i].candId), ParseVerdict(items[i]).value, now)
  {
    hide ParseVerdict, Known, ById;
    if items != [] {
      CallsOfExact(Front(items), cands, now);
    }
  }

  lemma OneByOneOk(items: seq<DecideRequest>, cands: seq<SpanRef>, clocks: seq<int>, run: Run)
    requires BulkAcceptable(items) && |clocks| == |items| && run.cands == CandSet(cands)
    requires forall i | 0 <= i < |items| :: Known(cands, items[i].candId)
    ensures CallsOk(run, OneByOne(items, cands, clocks)) && DistinctCalls(OneByOne(items, cands, clocks))
  {
    forall i | 0 <= i < |items| ensures VerdictOk(ParseVerdict(items[i]).value) {
      AcceptedRequests(items[i]);
    }
    hide ParseVerdict;
  }

  /** Some candidate named by the request is held by an orphan, so a write would be refused. */
  ghost predicate SomeShadowed(t: Table, run: Run, items: seq<DecideRequest>, cands: seq<SpanRef>)
    requires ValidTable(t) && DistinctCands(run.cands)
    requires forall i | 0 <= i < |items| :: Known(cands, items[i].candId)
  {
    exists i :: 0 <= i < |items| && Shadowed(t, run, ById(cands, items[i].candId))
  }

  /**
   An acceptable bulk request writes what deciding its items one request at a time would, whenever those
   requests came; and it fails exactly when one of its candidates is shadowed.
   */
  lemma BulkIsManyDecides(t: Table, run: Run, items: seq<DecideRequest>, cands: seq<SpanRef>, now: int,
                          clocks: seq<int>)
    requires ValidTable(t) && ValidRun(run) && run.cands == CandSet(cands)
    requires BulkAcceptable(items) && Missing(items, cands) == [] && |clocks| == |items|
    ensures forall i | 0 <= i < |items| :: Known(cands, items[i].candId)
    ensures CallsOk(run, OneByOne(items, cands, clocks))
    ensures var bulk := BulkItems(t, BulkOf(Links(t, run), CallsOf(items, cands, now)), now);
            var single := DecideAll(t, run, OneByOne(items, cands, clocks));
            && (bulk.None? <==> SomeShadowed(t, run, items, cands))
            && (single.None? <==> bulk.None?)
            && (bulk.Some? ==>
                  ValidTable(bulk.value) && SameButTimes(bulk.value, single.value)
                  && Links(bulk.value, run) == Links(single.value, run)
                  && Verdicts(bulk.value, run) == Verdicts(single.value, run)
                  && Orphans(bulk.value, run) == Orphans(single.value, run))
  {
    hide Links, Orphans, Verdicts, Shadowed, BulkItems, SameButTimes, ValidTable, ParseVerdict, Known, ById, Missing,
      CallsOf;
    NoneMissing(items, cands);
    CallsOfExact(items, cands, now);
    OneByOneOk(items, cands, clocks, run);
    var calls := OneByOne(items, cands, clocks);
    assert BulkOf(Links(t, run), CallsOf(items, cands, now)) == BulkOf(Links(t, run), calls);
    BulkIsSequential(t, run, calls, now);
    DecideAllOutcome(t, run, calls);
    assert forall i | 0 <= i < |items| :: calls[i].cand == ById(cands, items[i].candId);
  }

  // ---- What an accepted bulk request leaves behind ----

  /** One item's row: what the item asks, about its candidate, in the matched row or a fresh one. */
  ghost predicate ItemObeyed(was: Table, t: Table, cands: seq<SpanRef>, links: map<int, int>, item: DecideRequest,
                             now: int, id: int)
  {
    && Known(cands, item.candId) && id in t.rows && t.rows[id].id == id
    && Obeys(item, t.rows[id].action, t.rows[id].name)
    && Records(t.rows[id], t.rows[id].action, t.rows[id].name, ById(cands, item.candId), now)
    && (if item.candId in links
        then id == links[item.candId] && id in was.rows && t.rows[id].createdAt == was.rows[id].createdAt
        else id !in was.rows && t.rows[id].createdAt == now)
  }

  /** Every item has its own row, and no other row is new or changed. */
  ghost predicate BulkObeyed(was: Table, t: Table, cands: seq<SpanRef>, links: map<int, int>,
                             items: seq<DecideRequest>, now: int, ids: seq<int>)
  {
    && |ids| == |items|
    && (forall i, j | 0 <= i < j < |ids| :: ids[i] != ids[j])
    && (forall k | 0 <= k < |ids| :: ItemObeyed(was, t, cands, links, items[k], now, ids[k]))
    && (forall id | id in was.rows :: id in t.rows)
    && (forall id | id in t.rows :: id in ids || (id in was.rows && t.rows[id] == was.rows[id]))
  }

  lemma BulkIsUpdatable(t: Table, run: Run, calls: seq<Call>)
    requires ValidTable(t) && DistinctCands(run.cands) && DistinctCalls(calls)
    ensures Updatable(t, BulkOf(Links(t, run), calls))
  {
    LinksAreRows(t, run);
    LinksInjective(t, run);
    hide Links, ValidTable, DistinctCands;
  }

  lemma BulkObeys(was: Table, run: Run, items: seq<DecideRequest>, cands: seq<SpanRef>, now: int, t: Table)
    returns (ids: seq<int>)
    requires ValidTable(was) && DistinctCands(run.cands)
    requires forall i, j | 0 <= i < j < |cands| :: cands[i].id != cands[j].id
    requires BulkAcceptable(items) && Missing(items, cands) == []
    requires BulkItems(was, BulkOf(Links(was, run), CallsOf(items, cands, now)), now) == Some(t)
    ensures BulkObeyed(was, t, cands, Links(was, run), items, now, ids)
  {
    hide Links, ParseVerdict, BulkItems, ValidTable, DistinctCands, Obeys, BulkOf, CallsOf, Missing;
    NoneMissing(items, cands);
    CallsOfExact(items, cands, now);
    var calls := CallsOf(items, cands, now);
    DistinctItems(items, cands, calls);
    BulkIsUpdatable(was, run, calls);
    var bulk := BulkOf(Links(was, run), calls);
    ids := BulkWrites(was, bulk, now, t);
    hide Updatable;
    BulkOfItems(Links(was, run), calls);
    forall k | 0 <= k < |ids| ensures ItemObeyed(was, t, cands, Links(was, run), items[k], now, ids[k]) {
      VerdictObeys(items[k]);
      assert ItemRow(was, t, bulk[k], now, ids[k]);
      assert Records(t.rows[ids[k]], bulk[k].action, bulk[k].name, bulk[k].anchor, now);
    }
  }

  lemma DistinctItems(items: seq<DecideRequest>, cands: seq<SpanRef>, calls: seq<Call>)
    requires BulkAcceptable(items) && |calls| == |items|
    requires forall i | 0 <= i < |items| :: Known(cands, items[i].candId)
    requires forall i | 0 <= i < |items| :: calls[i].cand == ById(cands, items[i].candId)
    ensures DistinctCalls(calls)
  {
  }

  lemma BulkOfItems(links: map<int, int>, calls: seq<Call>)
    ensures |BulkOf(links, calls)| == |calls|
    ensures forall i | 0 <= i < |calls| ::
      BulkOf(links, calls)[i] == BulkDecision(calls[i].cand, calls[i].verdict.action, calls[i].verdict.name,
                                              if calls[i].cand.id in links then Some(links[calls[i].cand.id]) else None)
  {
  }

  class TriageServer {
    const store: DecisionStore
    const p: MatchParams
    const dist: Distance
    var cands: seq<SpanRef>

    ghost predicate Valid()
      reads this, store
    {
      && store.Valid()
      && forall i, j | 0 <= i < j < |cands| :: cands[i].id != cands[j].id
    }

    ghost function CurrentRun(): Run
      reads this
    {
      Run(CandSet(cands), p, dist)
    }

    constructor (store: DecisionStore, p: MatchParams, dist: Distance, cands: seq<SpanRef>)
      requires store.Valid() && forall i, j | 0 <= i < j < |cands| :: cands[i].id != cands[j].id
      ensures Valid() && this.store == store && this.cands == cands && this.p == p && this.dist == dist
    {
      this.store, this.p, this.dist, this.cands := store, p, dist, cands;
    }

    /** The stored decisions and their recomputed association with the current run. */
    method MatchedState() returns (decs: seq<Decision>, matched: map<int, int>)
      requires Valid()
      ensures DistinctCands(CurrentRun().cands)
      ensures matched == Links(store.Contents(), CurrentRun())
      ensures forall i, j | 0 <= i < j < |decs| :: decs[i].id < decs[j].id
      ensures forall d | d in decs :: d.id in store.rows && store.rows[d.id] == d
      ensures forall id | id in store.rows :: store.rows[id] in decs
    {
      decs := store.ListDecisions();
      var anchors := seq(|decs|, i requires 0 <= i < |decs| => AnchorOf(decs[i]));
      matched := Match(cands, anchors, p, dist);
      ListedAnchors(store.Contents(), decs, anchors);
    }

    method FindCandidate(id: int) returns (c: Option<SpanRef>)
      ensures c.Some? <==> Known(cands, id)
      ensures c.Some? ==> c.value in cands && c.value.id == id
    {
      for i := 0 to |cands|
        invariant forall j | 0 <= j < i :: cands[j].id != id
      {
        if cands[i].id == id {
          return Some(cands[i]);
        }
      }
      return None;
    }

    /** Re-decide the matched decision in place, else record a fresh one. */
    method DecideCandidate(req: DecideRequest, now: int) returns (resp: DecideResponse)
      requires Valid()
      modifies store
      ensures Valid() && DistinctCands(CurrentRun().cands)
      ensures (ParseVerdict(req).None? || !Known(cands, req.candId)) ==> store.Contents() == old(store.Contents())
      ensures ParseVerdict(req).None? ==> resp == BadRequest
      ensures ParseVerdict(req).Some? && !Known(cands, req.candId) ==> resp == NotFound
      ensures ParseVerdict(req).Some? && Known(cands, req.candId) ==>
        var c := ById(cands, req.candId);
        var was := old(store.Contents());
        match Decide(was, CurrentRun(), c, ParseVerdict(req).value, now)
        case Some(t) =>
          store.Contents() == t && Target(was, CurrentRun(), c) in t.rows
          && resp == Decided(t.rows[Target(was, CurrentRun(), c)])
        case None => store.Contents() == was && resp == WriteFailed
      ensures !resp.Decided? ==> store.Contents() == old(store.Contents())
      ensures resp.Decided? ==>
        && Known(cands, req.candId) && Obeys(req, resp.row.action, resp.row.name)
        && Records(resp.row, resp.row.action, resp.row.name, ById(cands, req.candId), now)
        && store.rows == old(store.rows)[resp.row.id := resp.row]
        && (var links := Links(old(store.Contents()), CurrentRun());
            if req.candId in links
            then resp.row.id == links[req.candId] && links[req.candId] in old(store.rows)
                 && resp.row.createdAt == old(store.rows)[links[req.candId]].createdAt
            else resp.row.id == old(store.nextId) && resp.row.createdAt == now)
    {
      hide Links, ValidTable, ParseVerdict, Obeys;
      DistinctRows(cands, [], p, dist);
      var verdict := ParseVerdict(req);
      if verdict.None? {
        return BadRequest;
      }
      var cand := FindCandidate(req.candId);
      if cand.None? {
        return NotFound;
      }
      VerdictObeys(req);
      AcceptedRequests(req);
      var v, c := verdict.value, cand.value;
      ByIdUnique(cands, c);
      var decs, matched := MatchedState();
      LinksAreRows(store.Contents(), CurrentRun());
      var row;
      if c.id in matched {
        row := store.UpdateDecision(matched[c.id], v.action, v.name, c, now);
      } else {
        row := store.InsertDecision(v.action, v.name, c, now);
      }
      resp := if row.Some? then Decided(row.value) else WriteFailed;
    }

    /** Validating a bulk request against one matching: None refuses it, else what is missing and what to write. */
    method PlanBulk(items: seq<DecideRequest>, matched: map<int, int>, now: int)
      returns (plan: Option<(seq<int>, seq<BulkDecision>)>)
      requires Valid() && items != []
      ensures plan.Some? <==> BulkAcceptable(items)
      ensures plan.Some? ==> plan.value.0 == Missing(items, cands)
      ensures plan.Some? ==> plan.value.1 == BulkOf(matched, CallsOf(items, cands, now))
      ensures plan.Some? ==> |plan.value.0| + |plan.value.1| == |items|
    {
      hide BulkOf, ParseVerdict, ById, Known;
      BulkOfNone(matched);
      var seen: set<int> := {};
      var missing: seq<int> := [];
      var bulk: seq<BulkDecision> := [];
      for k := 0 to |items|
        invariant forall i | 0 <= i < k :: ParseVerdict(items[i]).Some?
        invariant forall i, j | 0 <= i < j < k :: items[i].candId != items[j].candId
        invariant seen == set i | 0 <= i < k :: items[i].candId
        invariant missing == Missing(items[..k], cands)
        invariant bulk == BulkOf(matched, CallsOf(items[..k], cands, now))
        invariant |bulk| + |missing| == k
      {
        var it := items[k];
        assert Front(items[..k + 1]) == items[..k] && Last(items[..k + 1]) == it;
        var verdict := ParseVerdict(it);
        if verdict.None? || it.candId in seen {
          return None;
        }
        seen := seen + {it.candId};
        var cand := FindCandidate(it.candId);
        ghost var calls := CallsOf(items[..k], cands, now);
        if cand.None? {
          assert CallsOf(items[..k + 1], cands, now) == calls;
          missing := missing + [it.candId];
          continue;
        }
        var c := cand.value;
        ByIdUnique(cands, c);
        assert CallsOf(items[..k + 1], cands, now) == calls + [Call(c, verdict.value, now)];
        BulkOfSnoc(matched, calls, Call(c, verdict.value, now));
        bulk := bulk + [BulkDecision(c, verdict.value.action, verdict.value.name,
                                     if c.id in matched then Some(matched[c.id]) else None)];
      }
      assert items[..|items|] == items;
      plan := Some((missing, bulk));
    }

    /** Validate everything against one matching, then write everything in one transaction. */
    method DecideCandidatesBulk(items: seq<DecideRequest>, now: int) returns (resp: BulkResponse)
      requires Valid()
      modifies store
      ensures Valid() && DistinctCands(CurrentRun().cands)
      ensures !BulkAcceptable(items) ==> resp == BulkBadRequest && store.Contents() == old(store.Contents())
      ensures BulkAcceptable(items) && Missing(items, cands) != [] ==>
        resp == BulkNotFound(Missing(items, cands)) && store.Contents() == old(store.Contents())
      ensures BulkAcceptable(items) && Missing(items, cands) == [] ==>
        var was := old(store.Contents());
        match BulkItems(was, BulkOf(Links(was, CurrentRun()), CallsOf(items, cands, now)), now)
        case Some(t) => store.Contents() == t && resp == BulkDecided(|items|)
        case None => store.Contents() == was && resp == BulkWriteFailed
      ensures BulkAcceptable(items) && Missing(items, cands) == [] && ValidRun(CurrentRun()) ==>
        && (forall i | 0 <= i < |items| :: Known(cands, items[i].candId))
        && (resp == BulkWriteFailed <==> SomeShadowed(old(store.Contents()), CurrentRun(), items, cands))
      ensures !resp.BulkDecided? ==> store.Contents() == old(store.Contents())
      ensures resp.BulkDecided? ==>
        var was := old(store.Contents());
        resp.n == |items|
        && exists ids :: BulkObeyed(was, store.Contents(), cands, Links(was, CurrentRun()), items, now, ids)
    {
      hide Links, ValidTable, BulkOf, BulkItems, Missing, CallsOf, BulkObeyed;
      DistinctRows(cands, [], p, dist);
      if items == [] {
        return BulkBadRequest;
      }
      var decs, matched := MatchedState();
      var plan := PlanBulk(items, matched, now);
      if plan.None? {
        return BulkBadRequest;
      }
      var (missing, bulk) := plan.value;
      if missing != [] {
        return BulkNotFound(missing);
      }
      if ValidRun(CurrentRun()) {
        BulkIsManyDecides(store.Contents(), CurrentRun(), items, cands, now, seq(|items|, _ => now));
      }
      ghost var was := store.Contents();
      var ok := store.DecideBulk(bulk, now);
      if ok {
        ghost var ids := BulkObeys(was, CurrentRun(), items, cands, now, store.Contents());
      }
      resp := if ok then BulkDecided(|bulk|) else BulkWriteFailed;
    }

    /** Pairing the candidates with the rows they are matched to. */
    method Attach(decs: seq<Decision>, matched: map<int, int>, ghost rows: map<int, Decision>)
      returns (listed: seq<ListedCandidate>, attached: set<int>)
      requires forall d | d in decs :: d.id in rows && rows[d.id] == d
      requires forall id | id in rows :: rows[id].id == id && rows[id] in decs
      requires forall k | k in matched :: matched[k] in rows
      ensures |listed| == |cands| && forall i | 0 <= i < |cands| ::
        listed[i].cand == cands[i]
        && listed[i].decision == if cands[i].id in matched then Some(rows[matched[cands[i].id]]) else None
      ensures attached == set i | 0 <= i < |cands| && cands[i].id in matched :: matched[cands[i].id]
    {
      var decByID: map<int, Decision> := map[];
      for k := 0 to |decs|
        invariant forall i | 0 <= i < k :: decs[i].id in decByID
        invariant forall id | id in decByID :: id in rows && decByID[id] == rows[id]
      {
        assert decs[k] in decs;
        decByID := decByID[decs[k].id := decs[k]];
      }
      AllListed(rows, decs, decByID);
      attached := {};
      listed := [];
      for k := 0 to |cands|
        invariant |listed| == k
        invariant forall i | 0 <= i < k ::
          listed[i].cand == cands[i]
          && listed[i].decision == if cands[i].id in matched then Some(rows[matched[cands[i].id]]) else None
        invariant attached == set i | 0 <= i < k && cands[i].id in matched :: matched[cands[i].id]
      {
        var c := cands[k];
        var decision := None;
        if c.id in matched {
          decision := Some(decByID[matched[c.id]]);
          attached := attached + {matched[c.id]};
        }
        listed := listed + [ListedCandidate(c, decision)];
      }
    }

    /** The decisions that were not attached, in listing order. */
    method CollectOrphans(decs: seq<Decision>, attached: set<int>) returns (orphans: seq<Decision>)
      requires forall i, j | 0 <= i < j < |decs| :: decs[i].id < decs[j].id
      ensures forall i, j | 0 <= i < j < |orphans| :: orphans[i].id < orphans[j].id
      ensures forall d :: d in orphans <==> d in decs && d.id !in attached
    {
      orphans := [];
      for k := 0 to |decs|
        invariant forall d :: d in orphans <==> d in decs[..k] && d.id !in attached
        invariant forall i | 0 <= i < |orphans| :: orphans[i] in decs[..k]
        invariant forall i, j | 0 <= i < j < |orphans| :: orphans[i].id < orphans[j].id
      {
        assert decs[..k + 1] == decs[..k] + [decs[k]];
        if decs[k].id !in attached {
          orphans := orphans + [decs[k]];
        }
      }
      assert decs[..|decs|] == decs;
    }

    /** Every candidate with its decision, and every decision no candidate carries. */
    method ListCandidates() returns (listed: seq<ListedCandidate>, orphans: seq<Decision>)
      requires Valid()
      ensures DistinctCands(CurrentRun().cands)
      ensures forall k | k in Links(store.Contents(), CurrentRun()) ::
        Links(store.Contents(), CurrentRun())[k] in store.rows
      ensures |listed| == |cands|
      ensures var links := Links(store.Contents(), CurrentRun());
              forall i | 0 <= i < |cands| ::
                listed[i].cand == cands[i]
                && listed[i].decision == if cands[i].id in links then Some(store.rows[links[cands[i].id]]) else None
      ensures forall i, j | 0 <= i < j < |orphans| :: orphans[i].id < orphans[j].id
      ensures forall d | d in orphans :: d.id in store.rows && store.rows[d.id] == d
      ensures forall id | id in store.rows :: (store.rows[id] in orphans) <==> !Carried(listed, store.rows[id])
      ensures forall i, j | 0 <= i < j < |listed| && listed[i].decision.Some? ::
        listed[i].decision != listed[j].decision
    {
      hide Links, Carried;
      var decs, matched := MatchedState();
      LinksAreRows(store.Contents(), CurrentRun());
      LinksInjective(store.Contents(), CurrentRun());
      var attached;
      listed, attached := Attach(decs, matched, store.rows);
      orphans := CollectOrphans(decs, attached);
      forall id | id in store.rows ensures (store.rows[id] in orphans) <==> !Carried(listed, store.rows[id]) {
        CarriedIffAttached(store.rows, cands, matched, listed, attached, id);
      }
    }
  }

  lemma BulkOfNone(links: map<int, int>)
    ensures BulkOf(links, []) == []
  {
  }

  lemma CarriedIffAttached(rows: map<int, Decision>, cands: seq<SpanRef>, matched: map<int, int>,
                           listed: seq<ListedCandidate>, attached: set<int>, id: int)
    requires id in rows && forall i | i in rows :: rows[i].id == i
    requires forall k | k in matched :: matched[k] in rows
    requires |listed| == |cands| && forall i | 0 <= i < |cands| ::
      listed[i].decision == if cands[i].id in matched then Some(rows[matched[cands[i].id]]) else None
    requires attached == set i | 0 <= i < |cands| && cands[i].id in matched :: matched[cands[i].id]
    ensures Carried(listed, rows[id]) <==> id in attached
  {
    if id in attached {
      var i :| 0 <= i < |cands| && cands[i].id in matched && matched[cands[i].id] == id;
      assert listed[i].decision == Some(rows[id]);
      assert Carried(listed, rows[id]);
    }
    if Carried(listed, rows[id]) {
      var i :| 0 <= i < |listed| && listed[i].decision == Some(rows[id]);
      assert cands[i].id in matched && rows[matched[cands[i].id]].id == id;
      assert matched[cands[i].id] == id;
      assert id in attached;
    }
  }

  lemma BulkOfSnoc(links: map<int, int>, calls: seq<Call>, call: Call)
    ensures BulkOf(links, calls + [call]) == BulkOf(links, calls)
      + [BulkDecision(call.cand, call.verdict.action, call.verdict.name,
                      if call.cand.id in links then Some(links[call.cand.id]) else None)]
  {
  }

  lemma AllListed(rows: map<int, Decision>, decs: seq<Decision>, decByID: map<int, Decision>)
    requires forall id | id in rows :: rows[id].id == id && rows[id] in decs
    requires forall i | 0 <= i < |decs| :: decs[i].id in decByID
    ensures forall id | id in rows :: id in decByID
  {
    forall id | id in rows ensures id in decByID {
      var i :| 0 <= i < |decs| && decs[i] == rows[id];
    }
  }


  /** Listing the rows loses and invents no anchor. */
  lemma ListedAnchors(t: Table, decs: seq<Decision>, anchors: seq<Anchor>)
    requires ValidTable(t)
    requires |anchors| == |decs| && forall i | 0 <= i < |decs| :: anchors[i] == AnchorOf(decs[i])
    requires forall d | d in decs :: d.id in t.rows && t.rows[d.id] == d
    requires forall id | id in t.rows :: t.rows[id] in decs
    ensures DecSet(anchors) == AnchorsOf(t)
  {
    forall a ensures a in DecSet(anchors) <==> a in AnchorsOf(t) {
      if a in DecSet(anchors) {
        var i :| 0 <= i < |anchors| && anchors[i] == a;
        assert decs[i] in decs;
      }
      if a in AnchorsOf(t) {
        var id :| id in t.rows && AnchorOf(t.rows[id]) == a;
        var i :| 0 <= i < |decs| && decs[i] == t.rows[id];
        assert anchors[i] == a;
      }
    }
  }
}
