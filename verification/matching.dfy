/**
 Candidate-decision matching (internal/detect/match.go): which stored decision belongs to which
 candidate of the current run is recomputed by a greedy assignment and never stored.
 */
module Matching {
  import opened Domain
  import opened Seqs

  /** A candidate as matching sees it: row id, span in nanoseconds, destination. */
  datatype SpanRef = SpanRef(id: int, start: int, end: int, dest: LatLng)

  /** The span and destination a decision was recorded against. */
  datatype Anchor = Anchor(id: int, start: int, end: int, dest: LatLng, createdAt: int)

  datatype MatchParams = MatchParams(matchKm: real)

  /** A candidate and a decision that may be associated. */
  datatype Edge = Edge(cand: SpanRef, dec: Anchor)

  function MinTime(a: int, b: int): int { if a < b then a else b }

  function MaxTime(a: int, b: int): int { if a > b then a else b }

  function Overlap(c: SpanRef, d: Anchor): int {
    MinTime(c.end, d.end) - MaxTime(c.start, d.start)
  }

  predicate Compatible(c: SpanRef, d: Anchor, p: MatchParams, dist: Distance) {
    Overlap(c, d) > 0 && dist(c.dest, d.dest) <= p.matchKm * 1000.0
  }

  /** The ranking: longer overlap, then earlier candidate start, then earlier creation, then ids. */
  predicate Better(a: Edge, b: Edge) {
    var oa, ob := Overlap(a.cand, a.dec), Overlap(b.cand, b.dec);
    if oa != ob then oa > ob
    else if a.cand.start != b.cand.start then a.cand.start < b.cand.start
    else if a.dec.createdAt != b.dec.createdAt then a.dec.createdAt < b.dec.createdAt
    else if a.cand.id != b.cand.id then a.cand.id < b.cand.id
    else a.dec.id < b.dec.id
  }

  predicate Touches(a: Edge, b: Edge) { a.cand == b.cand || a.dec == b.dec }

  /** Row ids identify rows. */
  ghost predicate Identified(edges: set<Edge>) {
    forall e, f {:trigger SameRows(e, f)} | e in edges && f in edges :: SameRows(e, f)
  }

  ghost predicate SameRows(e: Edge, f: Edge) {
    && (e.cand.id == f.cand.id ==> e.cand == f.cand)
    && (e.dec.id == f.dec.id ==> e.dec == f.dec)
  }

  ghost predicate DistinctCands(cands: set<SpanRef>) {
    forall c, c' | c in cands && c' in cands :: c.id == c'.id ==> c == c'
  }

  ghost predicate DistinctDecs(decs: set<Anchor>) {
    forall d, d' | d in decs && d' in decs :: d.id == d'.id ==> d == d'
  }

  ghost function Edges(cands: set<SpanRef>, decs: set<Anchor>, p: MatchParams, dist: Distance): set<Edge> {
    set c, d | c in cands && d in decs && Compatible(c, d, p, dist) :: Edge(c, d)
  }

  /** Each candidate and each decision is used at most once. */
  ghost predicate OneToOne(m: set<Edge>) {
    forall e, f {:trigger Touches(e, f)} | e in m && f in m :: Touches(e, f) ==> e == f
  }

  ghost predicate Blocked(e: Edge, m: set<Edge>) {
    exists f :: f in m && Touches(f, e) && Better(f, e)
  }

  /** A matching in which every edge left out loses to a better chosen edge on one of its sides. */
  ghost predicate Stable(edges: set<Edge>, m: set<Edge>) {
    && m <= edges
    && OneToOne(m)
    && forall e | e in edges :: e in m || Blocked(e, m)
  }

  ghost predicate IsBest(b: Edge, edges: set<Edge>) {
    b in edges && forall e | e in edges :: e == b || Better(b, e)
  }

  lemma BetterTransitive(a: Edge, b: Edge, c: Edge)
    requires Better(a, b) && Better(b, c)
    ensures Better(a, c)
  {
  }

  lemma BetterTotal(edges: set<Edge>, a: Edge, b: Edge)
    requires Identified(edges) && a in edges && b in edges
    ensures a == b || Better(a, b) || Better(b, a)
    ensures !(Better(a, b) && Better(b, a))
  {
    assert SameRows(a, b);
  }

  lemma {:induction false} BestExists(edges: set<Edge>)
    requires Identified(edges) && edges != {}
    ensures exists b :: IsBest(b, edges)
    decreases edges
  {
    var e :| e in edges;
    var rest := edges - {e};
    if rest == {} {
      assert edges == rest + {e};
      assert IsBest(e, edges);
    } else {
      BestExists(rest);
      var b :| IsBest(b, rest);
      BetterTotal(edges, e, b);
      var top := if Better(b, e) then b else e;
      forall f | f in edges ensures f == top || Better(top, f) {
        if f != e && f != b && top == e {
          BetterTransitive(e, b, f);
        }
      }
      assert IsBest(top, edges);
    }
  }

  /** Greedy assignment: take the best edge, discard what it touches, repeat. */
  ghost function Greedy(edges: set<Edge>): (m: set<Edge>)
    requires Identified(edges)
    ensures m <= edges
    decreases edges
  {
    if edges == {} then {}
    else
      BestExists(edges);
      var b :| IsBest(b, edges);
      {b} + Greedy(Untouched(edges, b))
  }

  ghost function Untouched(edges: set<Edge>, b: Edge): (rest: set<Edge>)
    requires b in edges
    ensures rest < edges
  {
    var rest := set e | e in edges && !Touches(b, e);
    assert b !in rest;
    rest
  }

  /** The association of a run's candidates with the stored decisions. */
  ghost function Association(cands: set<SpanRef>, decs: set<Anchor>, p: MatchParams, dist: Distance): set<Edge>
    requires DistinctCands(cands) && DistinctDecs(decs)
    ensures Identified(Association(cands, decs, p, dist)) && OneToOne(Association(cands, decs, p, dist))
  {
    GreedyStable(Edges(cands, decs, p, dist));
    Greedy(Edges(cands, decs, p, dist))
  }

  lemma {:induction false} GreedyStable(edges: set<Edge>)
    requires Identified(edges)
    ensures Stable(edges, Greedy(edges))
    decreases edges
  {
    if edges != {} {
      BestExists(edges);
      var b :| IsBest(b, edges) && Greedy(edges) == {b} + Greedy(Untouched(edges, b));
      var rest := Untouched(edges, b);
      GreedyStable(rest);
      var m := Greedy(edges);
      forall e | e in edges ensures e in m || Blocked(e, m) {
        if e in rest && e !in m {
          assert Blocked(e, Greedy(rest));
          var f :| f in Greedy(rest) && Touches(f, e) && Better(f, e);
          assert f in m;
        } else if e !in rest && e != b {
          assert b in m && Touches(b, e) && Better(b, e);
        }
      }
    }
  }

  /** Where two stable matchings differ, they differ on something better still. */
  lemma BetterDifference(edges: set<Edge>, m: set<Edge>, n: set<Edge>, e: Edge) returns (f: Edge)
    requires Stable(edges, m) && Stable(edges, n) && Identified(edges)
    requires e in m && e !in n
    ensures f in n && f !in m && Better(f, e)
  {
    assert Blocked(e, n);
    f :| f in n && Touches(f, e) && Better(f, e);
  }

  /** There is only one stable matching, so any way of computing one computes the association. */
  lemma StableUnique(edges: set<Edge>, m: set<Edge>, n: set<Edge>)
    requires Identified(edges) && Stable(edges, m) && Stable(edges, n)
    ensures m == n
  {
    var diff := (m - n) + (n - m);
    if diff != {} {
      BestExists(diff);
      var e :| IsBest(e, diff);
      var f;
      if e in m {
        f := BetterDifference(edges, m, n, e);
      } else {
        f := BetterDifference(edges, n, m, e);
      }
      BetterTotal(edges, e, f);
      assert false;
    }
  }

  lemma AssociationIsTheStableOne(cands: set<SpanRef>, decs: set<Anchor>, p: MatchParams, dist: Distance, m: set<Edge>)
    requires DistinctCands(cands) && DistinctDecs(decs)
    ensures Stable(Edges(cands, decs, p, dist), m) <==> m == Association(cands, decs, p, dist)
  {
    var edges := Edges(cands, decs, p, dist);
    GreedyStable(edges);
    if Stable(edges, m) {
      StableUnique(edges, m, Greedy(edges));
    }
  }

  // ---- The method ----

  /** The association as the API hands it out: candidate id to decision id. */
  ghost function Ids(m: set<Edge>): (ids: map<int, int>)
    requires Identified(m) && OneToOne(m)
    ensures ids.Keys == set e | e in m :: e.cand.id
    ensures forall e | e in m :: ids[e.cand.id] == e.dec.id
  {
    OnePerCand(m);
    map e | e in m :: e.cand.id := e.dec.id
  }

  lemma OnePerCand(m: set<Edge>)
    requires Identified(m) && OneToOne(m)
    ensures forall e, f | e in m && f in m :: e.cand.id == f.cand.id ==> e == f
  {
    forall e, f | e in m && f in m && e.cand.id == f.cand.id ensures e == f {
      assert SameRows(e, f) && Touches(e, f);
    }
  }

  ghost predicate DistinctIds(cands: seq<SpanRef>, decs: seq<Anchor>) {
    && (forall i, j | 0 <= i < j < |cands| :: cands[i].id != cands[j].id)
    && (forall i, j | 0 <= i < j < |decs| :: decs[i].id != decs[j].id)
  }

  ghost function CandSet(cands: seq<SpanRef>): set<SpanRef> { set c | c in cands }

  ghost function DecSet(decs: seq<Anchor>): set<Anchor> { set d | d in decs }

  /** An index pair, with the overlap computed when the pair was built. */
  datatype Pair = Pair(cand: nat, dec: nat, overlap: int)

  ghost predicate PairOk(cands: seq<SpanRef>, decs: seq<Anchor>, q: Pair) {
    && q.cand < |cands| && q.dec < |decs|
    && q.overlap == Overlap(cands[q.cand], decs[q.dec])
  }

  ghost function EdgeOf(cands: seq<SpanRef>, decs: seq<Anchor>, q: Pair): Edge
    requires PairOk(cands, decs, q)
  {
    Edge(cands[q.cand], decs[q.dec])
  }

  /** The comparator handed to the library sort; only ever applied to pairs that were built. */
  predicate Less(cands: seq<SpanRef>, decs: seq<Anchor>, a: Pair, b: Pair) {
    if a.cand >= |cands| || b.cand >= |cands| || a.dec >= |decs| || b.dec >= |decs| then false
    else
      var ca, cb := cands[a.cand], cands[b.cand];
      var da, db := decs[a.dec], decs[b.dec];
      if a.overlap != b.overlap then a.overlap > b.overlap
      else if ca.start != cb.start then ca.start < cb.start
      else if da.createdAt != db.createdAt then da.createdAt < db.createdAt
      else if ca.id != cb.id then ca.id < cb.id
      else da.id < db.id
  }

  lemma LessOrders(cands: seq<SpanRef>, decs: seq<Anchor>, elems: set<Pair>)
    requires forall q | q in elems :: PairOk(cands, decs, q)
    ensures Orders((a, b) => Less(cands, decs, a, b), elems)
  {
  }

  method BuildPairs(cands: seq<SpanRef>, decs: seq<Anchor>, p: MatchParams, dist: Distance)
    returns (pairs: seq<Pair>)
    ensures forall q | q in pairs :: PairOk(cands, decs, q) && Compatible(cands[q.cand], decs[q.dec], p, dist)
    ensures forall i, j | 0 <= i < |cands| && 0 <= j < |decs| && Compatible(cands[i], decs[j], p, dist) ::
      Pair(i, j, Overlap(cands[i], decs[j])) in pairs
  {
    pairs := [];
    for ci := 0 to |cands|
      invariant forall q | q in pairs :: PairOk(cands, decs, q) && Compatible(cands[q.cand], decs[q.dec], p, dist)
      invariant forall i, j | 0 <= i < ci && 0 <= j < |decs| && Compatible(cands[i], decs[j], p, dist) ::
        Pair(i, j, Overlap(cands[i], decs[j])) in pairs
    {
      for di := 0 to |decs|
        invariant forall q | q in pairs :: PairOk(cands, decs, q) && Compatible(cands[q.cand], decs[q.dec], p, dist)
        invariant forall i, j |
          0 <= i <= ci && 0 <= j < (if i < ci then |decs| else di) && Compatible(cands[i], decs[j], p, dist) ::
          Pair(i, j, Overlap(cands[i], decs[j])) in pairs
      {
        var overlap := Overlap(cands[ci], decs[di]);
        if overlap <= 0 {
          continue;
        }
        if dist(cands[ci].dest, decs[di].dest) > p.matchKm * 1000.0 {
          continue;
        }
        pairs := pairs + [Pair(ci, di, overlap)];
      }
    }
  }

  ghost function CandsOf(m: set<Edge>): set<SpanRef> { set e | e in m :: e.cand }

  ghost function DecsOf(m: set<Edge>): set<Anchor> { set e | e in m :: e.dec }

  /** The places in a row list that hold one of the given rows. */
  ghost function Places<T>(rows: seq<T>, s: set<T>): set<nat> { set i: nat | i < |rows| && rows[i] in s }

  lemma PlacesAdd<T>(rows: seq<T>, s: set<T>, k: nat)
    requires k < |rows| && forall i | 0 <= i < |rows| && i != k :: rows[i] != rows[k]
    ensures Places(rows, s + {rows[k]}) == Places(rows, s) + {k}
  {
  }

  /** A ranked edge with a side already taken loses; the choice so far stays stable. */
  lemma SkipStable(seen: set<Edge>, chosen: set<Edge>, e: Edge)
    requires Stable(seen, chosen) && Identified(seen + {e})
    requires forall f | f in seen :: !Better(e, f)
    requires e.cand in CandsOf(chosen) || e.dec in DecsOf(chosen)
    ensures Stable(seen + {e}, chosen)
  {
    var f :| f in chosen && Touches(f, e);
    BetterTotal(seen + {e}, e, f);
    assert e == f || Blocked(e, chosen);
  }

  /** A ranked edge with both sides free is taken; the choice so far stays stable. */
  lemma TakeStable(seen: set<Edge>, chosen: set<Edge>, e: Edge)
    requires Stable(seen, chosen)
    requires e.cand !in CandsOf(chosen) && e.dec !in DecsOf(chosen)
    ensures Stable(seen + {e}, chosen + {e})
    ensures CandsOf(chosen + {e}) == CandsOf(chosen) + {e.cand}
    ensures DecsOf(chosen + {e}) == DecsOf(chosen) + {e.dec}
  {
    forall f | f in seen && f !in chosen ensures Blocked(f, chosen + {e}) {
      assert Blocked(f, chosen);
      var g :| g in chosen && Touches(g, f) && Better(g, f);
      assert g in chosen + {e};
    }
  }

  lemma TakeIds(chosen: set<Edge>, e: Edge)
    requires Identified(chosen) && OneToOne(chosen)
    requires Identified(chosen + {e}) && OneToOne(chosen + {e}) && e !in chosen
    ensures Ids(chosen + {e}) == Ids(chosen)[e.cand.id := e.dec.id]
  {
    OnePerCand(chosen + {e});
    var l, r := Ids(chosen + {e}), Ids(chosen)[e.cand.id := e.dec.id];
    assert l.Keys == r.Keys;
    forall k | k in l ensures l[k] == r[k] {
      var f :| f in chosen + {e} && f.cand.id == k;
    }
  }

  lemma DistinctRows(cands: seq<SpanRef>, decs: seq<Anchor>, p: MatchParams, dist: Distance)
    requires DistinctIds(cands, decs)
    ensures DistinctCands(CandSet(cands)) && DistinctDecs(DecSet(decs))
    ensures Identified(Edges(CandSet(cands), DecSet(decs), p, dist))
  {
  }

  ghost predicate RankedEdges(es: seq<Edge>) {
    forall i, j {:trigger Better(es[j], es[i])} | 0 <= i < j < |es| :: !Better(es[j], es[i])
  }

  ghost predicate Represents(cands: seq<SpanRef>, decs: seq<Anchor>, s: seq<Pair>, es: seq<Edge>) {
    |s| == |es| && forall i | 0 <= i < |s| :: PairOk(cands, decs, s[i]) && es[i] == EdgeOf(cands, decs, s[i])
  }

  ghost function EdgeSet(es: seq<Edge>): set<Edge> { set e | e in es }

  /** Going through the ranked pairs and taking each one whose sides are both free. */
  method Assign(cands: seq<SpanRef>, decs: seq<Anchor>, ranked: seq<Pair>, ghost es: seq<Edge>)
    returns (matched: map<int, int>, ghost chosen: set<Edge>)
    requires DistinctIds(cands, decs) && Identified(EdgeSet(es))
    requires Represents(cands, decs, ranked, es) && RankedEdges(es)
    ensures Stable(EdgeSet(es), chosen) && matched == Ids(chosen)
  {
    matched := map[];
    var usedCand: set<nat>, usedDec: set<nat> := {}, {};
    chosen := {};
    for k := 0 to |ranked|
      invariant Stable(EdgeSet(es[..k]), chosen) && matched == Ids(chosen)
      invariant usedCand == Places(cands, CandsOf(chosen)) && usedDec == Places(decs, DecsOf(chosen))
    {
      var q := ranked[k];
      ghost var e := es[k];
      RankStep(es, k);
      if q.cand in usedCand || q.dec in usedDec {
        SkipStable(EdgeSet(es[..k]), chosen, e);
        continue;
      }
      TakeStable(EdgeSet(es[..k]), chosen, e);
      TakeIds(chosen, e);
      PlacesAdd(cands, CandsOf(chosen), q.cand);
      PlacesAdd(decs, DecsOf(chosen), q.dec);
      usedCand := usedCand + {q.cand};
      usedDec := usedDec + {q.dec};
      matched := matched[cands[q.cand].id := decs[q.dec].id];
      chosen := chosen + {e};
    }
    assert es[..|es|] == es;
  }

  /** The next ranked edge does not beat any edge before it. */
  lemma RankStep(es: seq<Edge>, k: nat)
    requires RankedEdges(es) && k < |es| && Identified(EdgeSet(es))
    ensures EdgeSet(es[..k + 1]) == EdgeSet(es[..k]) + {es[k]} <= EdgeSet(es)
    ensures forall f | f in EdgeSet(es[..k]) :: !Better(es[k], f)
  {
    forall f | f in EdgeSet(es[..k]) ensures !Better(es[k], f) {
      var i :| 0 <= i < k && es[i] == f;
      assert !Better(es[k], es[i]);
    }
  }

  // ---- What a link means ----

  predicate During(start: int, end: int, t: int) { start <= t < end }

  /** Some instant lies in both spans, and the destinations are within the given kilometres. */
  ghost predicate MayBelong(c: SpanRef, d: Anchor, p: MatchParams, dist: Distance) {
    && (exists t :: During(c.start, c.end, t) && During(d.start, d.end, t))
    && dist(c.dest, d.dest) / 1000.0 <= p.matchKm
  }

  /** The instants of both spans are `n` nanoseconds in a row. */
  ghost predicate Share(c: SpanRef, d: Anchor, n: int) {
    n > 0 && exists lo :: ShareFrom(c, d, lo, n)
  }

  ghost predicate ShareFrom(c: SpanRef, d: Anchor, lo: int, n: int) {
    forall t :: During(c.start, c.end, t) && During(d.start, d.end, t) <==> During(lo, lo + n, t)
  }

  /** More time shared; then the earlier candidate, the older decision, the lower ids. */
  ghost predicate RanksBefore(c: SpanRef, d: Anchor, e: SpanRef, f: Anchor) {
    exists n, m :: Share(c, d, n) && Share(e, f, m)
      && (n > m || (n == m
          && (c.start < e.start || (c.start == e.start
              && (d.createdAt < f.createdAt || (d.createdAt == f.createdAt
                  && (c.id < e.id || (c.id == e.id && d.id < f.id))))))))
  }

  ghost predicate Linked(cands: seq<SpanRef>, decs: seq<Anchor>, matched: map<int, int>, i: int, j: int) {
    && 0 <= i < |cands| && 0 <= j < |decs|
    && cands[i].id in matched && matched[cands[i].id] == decs[j].id
  }

  /** A linked pair that shares a row with this one ranks before it. */
  ghost predicate Outranked(cands: seq<SpanRef>, decs: seq<Anchor>, matched: map<int, int>, i: nat, j: nat)
    requires i < |cands| && j < |decs|
  {
    exists k, l :: Linked(cands, decs, matched, k, l) && (k == i || l == j)
      && RanksBefore(cands[k], decs[l], cands[i], decs[j])
  }

  lemma CompatibleMeans(c: SpanRef, d: Anchor, p: MatchParams, dist: Distance)
    ensures Compatible(c, d, p, dist) <==> MayBelong(c, d, p, dist)
    ensures Overlap(c, d) > 0 ==> Share(c, d, Overlap(c, d))
  {
    var lo := MaxTime(c.start, d.start);
    if Overlap(c, d) > 0 {
      assert During(c.start, c.end, lo) && During(d.start, d.end, lo);
      assert ShareFrom(c, d, lo, Overlap(c, d));
    }
  }

  lemma BetterMeans(e: Edge, f: Edge)
    requires Overlap(e.cand, e.dec) > 0 && Overlap(f.cand, f.dec) > 0 && Better(e, f)
    ensures RanksBefore(e.cand, e.dec, f.cand, f.dec)
  {
    var n, m := Overlap(e.cand, e.dec), Overlap(f.cand, f.dec);
    assert ShareFrom(e.cand, e.dec, MaxTime(e.cand.start, e.dec.start), n);
    assert ShareFrom(f.cand, f.dec, MaxTime(f.cand.start, f.dec.start), m);
    hide Overlap, ShareFrom;
    assert Share(e.cand, e.dec, n) && Share(f.cand, f.dec, m);
  }

  /** Every link joins rows of the two lists. */
  lemma LinkAt(cands: seq<SpanRef>, decs: seq<Anchor>, matched: map<int, int>, m: set<Edge>, k: int)
    returns (i: nat, j: nat)
    requires DistinctIds(cands, decs) && Identified(m) && OneToOne(m) && matched == Ids(m)
    requires forall e | e in m :: e.cand in cands && e.dec in decs
    requires k in matched
    ensures Linked(cands, decs, matched, i, j) && cands[i].id == k && Edge(cands[i], decs[j]) in m
  {
    var e :| e in m && e.cand.id == k;
    i :| 0 <= i < |cands| && cands[i] == e.cand;
    j :| 0 <= j < |decs| && decs[j] == e.dec;
  }

  lemma LinkIsEdge(cands: seq<SpanRef>, decs: seq<Anchor>, matched: map<int, int>, m: set<Edge>, i: nat, j: nat)
    requires DistinctIds(cands, decs) && Identified(m) && OneToOne(m) && matched == Ids(m)
    requires forall e | e in m :: e.cand in cands && e.dec in decs
    ensures Linked(cands, decs, matched, i, j) <==> i < |cands| && j < |decs| && Edge(cands[i], decs[j]) in m
  {
    if Linked(cands, decs, matched, i, j) {
      var k, l := LinkAt(cands, decs, matched, m, cands[i].id);
      assert k == i && l == j;
    }
  }

  /** In plain terms: linked rows may belong together, and a pair left out is outranked by a linked one. */
  lemma LinksMean(cands: seq<SpanRef>, decs: seq<Anchor>, p: MatchParams, dist: Distance, matched: map<int, int>)
    requires DistinctIds(cands, decs)
    requires DistinctCands(CandSet(cands)) && DistinctDecs(DecSet(decs))
    requires matched == Ids(Association(CandSet(cands), DecSet(decs), p, dist))
    ensures forall k | k in matched :: exists i, j :: Linked(cands, decs, matched, i, j) && cands[i].id == k
    ensures forall i, j | Linked(cands, decs, matched, i, j) :: MayBelong(cands[i], decs[j], p, dist)
    ensures forall i, j, k | Linked(cands, decs, matched, i, j) && Linked(cands, decs, matched, k, j) :: i == k
    ensures forall i: nat, j: nat | i < |cands| && j < |decs| && MayBelong(cands[i], decs[j], p, dist) ::
      Linked(cands, decs, matched, i, j) || Outranked(cands, decs, matched, i, j)
  {
    var m := Association(CandSet(cands), DecSet(decs), p, dist);
    AssociationIsTheStableOne(CandSet(cands), DecSet(decs), p, dist, m);
    hide Association, Better, Overlap, MayBelong, RanksBefore;
    forall k | k in matched ensures exists i, j :: Linked(cands, decs, matched, i, j) && cands[i].id == k {
      var i, j := LinkAt(cands, decs, matched, m, k);
    }
    forall i, j | Linked(cands, decs, matched, i, j)
      ensures i < |cands| && j < |decs| && MayBelong(cands[i], decs[j], p, dist)
    {
      LinkIsEdge(cands, decs, matched, m, i, j);
      CompatibleMeans(cands[i], decs[j], p, dist);
    }
    forall i, j, k | Linked(cands, decs, matched, i, j) && Linked(cands, decs, matched, k, j) ensures i == k {
      LinkIsEdge(cands, decs, matched, m, i, j);
      LinkIsEdge(cands, decs, matched, m, k, j);
      assert Touches(Edge(cands[i], decs[j]), Edge(cands[k], decs[j]));
    }
    forall i: nat, j: nat | i < |cands| && j < |decs| && MayBelong(cands[i], decs[j], p, dist)
      ensures Linked(cands, decs, matched, i, j) || Outranked(cands, decs, matched, i, j)
    {
      LeftOut(cands, decs, p, dist, matched, m, i, j);
    }
  }

  lemma LeftOut(cands: seq<SpanRef>, decs: seq<Anchor>, p: MatchParams, dist: Distance, matched: map<int, int>,
                m: set<Edge>, i: nat, j: nat)
    requires DistinctIds(cands, decs) && Identified(m) && OneToOne(m) && matched == Ids(m)
    requires Stable(Edges(CandSet(cands), DecSet(decs), p, dist), m)
    requires i < |cands| && j < |decs| && MayBelong(cands[i], decs[j], p, dist)
    ensures Linked(cands, decs, matched, i, j) || Outranked(cands, decs, matched, i, j)
  {
    hide Better, Overlap, MayBelong, RanksBefore;
    var e := Edge(cands[i], decs[j]);
    CompatibleMeans(e.cand, e.dec, p, dist);
    assert e in Edges(CandSet(cands), DecSet(decs), p, dist);
    if e in m {
      LinkIsEdge(cands, decs, matched, m, i, j);
    } else {
      assert Blocked(e, m);
      var f :| f in m && Touches(f, e) && Better(f, e);
      assert Compatible(f.cand, f.dec, p, dist) && Compatible(e.cand, e.dec, p, dist);
      BothOverlap(f, e, p, dist);
      hide Stable, Edges, Blocked, Compatible;
      var k, l := PlaceOf(cands, decs, matched, m, f);
      TouchingPlaces(cands, decs, i, j, k, l);
    }
  }

  lemma PlaceOf(cands: seq<SpanRef>, decs: seq<Anchor>, matched: map<int, int>, m: set<Edge>, f: Edge)
    returns (k: nat, l: nat)
    requires DistinctIds(cands, decs) && Identified(m) && OneToOne(m) && matched == Ids(m)
    requires forall e | e in m :: e.cand in cands && e.dec in decs
    requires f in m
    ensures Linked(cands, decs, matched, k, l) && cands[k] == f.cand && decs[l] == f.dec
  {
    k :| 0 <= k < |cands| && cands[k] == f.cand;
    l :| 0 <= l < |decs| && decs[l] == f.dec;
  }

  lemma TouchingPlaces(cands: seq<SpanRef>, decs: seq<Anchor>, i: nat, j: nat, k: nat, l: nat)
    requires DistinctIds(cands, decs) && i < |cands| && k < |cands| && j < |decs| && l < |decs|
    requires Touches(Edge(cands[k], decs[l]), Edge(cands[i], decs[j]))
    ensures k == i || l == j
  {
  }

  lemma BothOverlap(f: Edge, e: Edge, p: MatchParams, dist: Distance)
    requires Compatible(f.cand, f.dec, p, dist) && Compatible(e.cand, e.dec, p, dist) && Better(f, e)
    ensures RanksBefore(f.cand, f.dec, e.cand, e.dec)
  {
    BetterMeans(f, e);
  }

  method Match(cands: seq<SpanRef>, decs: seq<Anchor>, p: MatchParams, dist: Distance)
    returns (matched: map<int, int>)
    requires DistinctIds(cands, decs)
    ensures DistinctCands(CandSet(cands)) && DistinctDecs(DecSet(decs))
    ensures matched == Ids(Association(CandSet(cands), DecSet(decs), p, dist))
    ensures forall k | k in matched :: exists i, j :: Linked(cands, decs, matched, i, j) && cands[i].id == k
    ensures forall i, j | Linked(cands, decs, matched, i, j) :: MayBelong(cands[i], decs[j], p, dist)
    ensures forall i, j, k | Linked(cands, decs, matched, i, j) && Linked(cands, decs, matched, k, j) :: i == k
    ensures forall i: nat, j: nat | i < |cands| && j < |decs| && MayBelong(cands[i], decs[j], p, dist) ::
      Linked(cands, decs, matched, i, j) || Outranked(cands, decs, matched, i, j)
  {
    DistinctRows(cands, decs, p, dist);
    var pairs := BuildPairs(cands, decs, p, dist);
    var a := new Pair[|pairs|](i requires 0 <= i < |pairs| => pairs[i]);
    assert a[..] == pairs;
    ghost var elems := set q | q in pairs;
    LessOrders(cands, decs, elems);
    var less := (x, y) => Less(cands, decs, x, y);
    SortByLess(a, less, elems);
    SameElements(a[..], pairs);
    ghost var es := RankedPairs(cands, decs, p, dist, pairs, a[..]);
    ghost var chosen;
    matched, chosen := Assign(cands, decs, a[..], es);
    AssociationIsTheStableOne(CandSet(cands), DecSet(decs), p, dist, chosen);
    LinksMean(cands, decs, p, dist, matched);
  }

  /** The sorted pairs are the compatible edges, best first. */
  lemma RankedPairs(cands: seq<SpanRef>, decs: seq<Anchor>, p: MatchParams, dist: Distance,
                    pairs: seq<Pair>, s: seq<Pair>)
    returns (es: seq<Edge>)
    requires forall q :: q in s <==> q in pairs
    requires Ranked(s, (x, y) => Less(cands, decs, x, y))
    requires forall q | q in pairs :: PairOk(cands, decs, q) && Compatible(cands[q.cand], decs[q.dec], p, dist)
    requires forall i, j | 0 <= i < |cands| && 0 <= j < |decs| && Compatible(cands[i], decs[j], p, dist) ::
      Pair(i, j, Overlap(cands[i], decs[j])) in pairs
    ensures Represents(cands, decs, s, es) && RankedEdges(es)
    ensures EdgeSet(es) == Edges(CandSet(cands), DecSet(decs), p, dist)
  {
    assert forall i | 0 <= i < |s| :: s[i] in s;
    es := seq(|s|, i requires 0 <= i < |s| => EdgeOf(cands, decs, s[i]));
    forall i, j | 0 <= i < j < |es| ensures !Better(es[j], es[i]) {
      LessIsBetter(cands, decs, s[j], s[i]);
    }
    forall e | e in Edges(CandSet(cands), DecSet(decs), p, dist) ensures e in es {
      var ci :| 0 <= ci < |cands| && cands[ci] == e.cand;
      var di :| 0 <= di < |decs| && decs[di] == e.dec;
      var q := Pair(ci, di, Overlap(e.cand, e.dec));
      assert q in s;
      var k :| 0 <= k < |s| && s[k] == q;
      assert es[k] == e;
    }
  }

  lemma LessIsBetter(cands: seq<SpanRef>, decs: seq<Anchor>, a: Pair, b: Pair)
    requires PairOk(cands, decs, a) && PairOk(cands, decs, b)
    ensures Less(cands, decs, a, b) <==> Better(EdgeOf(cands, decs, a), EdgeOf(cands, decs, b))
  {
  }
}
