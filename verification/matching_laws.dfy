/** What the association promises: near-optimality, and stability under every write the API makes. */
module MatchingLaws {
  import opened Domain
  import opened Matching

  // ---- The greedy choice is within a factor two of the best ----

  ghost function Value(m: set<Edge>): int {
    if m == {} then 0
    else
      var e :| e in m;
      Overlap(e.cand, e.dec) + Value(m - {e})
  }

  lemma {:induction false} ValueSplit(m: set<Edge>, e: Edge)
    requires e in m
    ensures Value(m) == Overlap(e.cand, e.dec) + Value(m - {e})
    decreases m
  {
    var f :| f in m && Value(m) == Overlap(f.cand, f.dec) + Value(m - {f});
    if f != e {
      ValueSplit(m - {f}, e);
      ValueSplit(m - {e}, f);
      assert m - {f} - {e} == m - {e} - {f};
    }
  }

  lemma {:induction false} ValueUnion(m: set<Edge>, n: set<Edge>)
    requires m !! n
    ensures Value(m + n) == Value(m) + Value(n)
    decreases m
  {
    if m == {} {
      assert m + n == n;
    } else {
      var e :| e in m;
      ValueSplit(m, e);
      ValueSplit(m + n, e);
      assert (m + n) - {e} == (m - {e}) + n;
      ValueUnion(m - {e}, n);
    }
  }

  /** A best edge outweighs half of whatever a one-to-one assignment spends on its two ends. */
  lemma TouchedValue(b: Edge, t: set<Edge>)
    requires OneToOne(t) && Overlap(b.cand, b.dec) >= 0
    requires forall e | e in t :: Touches(b, e) && Overlap(e.cand, e.dec) <= Overlap(b.cand, b.dec)
    ensures Value(t) <= 2 * Overlap(b.cand, b.dec)
  {
    if e :| e in t {
      ValueSplit(t, e);
      if f :| f in t - {e} {
        ValueSplit(t - {e}, f);
        assert !Touches(e, f);
        assert forall g | g in t - {e} - {f} :: !Touches(e, g) && !Touches(f, g);
        assert t - {e} - {f} == {};
      }
    }
  }

  /** No one-to-one assignment of compatible pairs has more than twice the association's overlap. */
  lemma {:induction false} HalfOptimal(edges: set<Edge>, other: set<Edge>)
    requires Identified(edges) && other <= edges && OneToOne(other)
    requires forall e | e in edges :: Overlap(e.cand, e.dec) > 0
    ensures Value(other) <= 2 * Value(Greedy(edges))
    decreases edges
  {
    if edges != {} {
      hide Value, Better, SameRows;
      BestExists(edges);
      var b :| IsBest(b, edges) && Greedy(edges) == {b} + Greedy(Untouched(edges, b));
      BestOverlaps(b, edges);
      var rest := Untouched(edges, b);
      var touched := set e | e in other && Touches(b, e);
      HalfOptimal(rest, other - touched);
      TouchedValue(b, touched);
      ValueUnion(touched, other - touched);
      assert touched + (other - touched) == other;
      ValueSplit(Greedy(edges), b);
      assert Greedy(edges) - {b} == Greedy(rest);
    }
  }

  lemma BestOverlaps(b: Edge, edges: set<Edge>)
    requires IsBest(b, edges)
    ensures forall e | e in edges :: Overlap(e.cand, e.dec) <= Overlap(b.cand, b.dec)
  {
  }

  /** What the API computes has at least half the total overlap of every other assignment. */
  lemma AssociationIsHalfOptimal(cands: set<SpanRef>, decs: set<Anchor>, p: MatchParams, dist: Distance,
                                 other: set<Edge>)
    requires DistinctCands(cands) && DistinctDecs(decs) && OneToOne(other)
    requires forall e | e in other :: e.cand in cands && e.dec in decs && Compatible(e.cand, e.dec, p, dist)
    ensures Value(other) <= 2 * Value(Association(cands, decs, p, dist))
  {
    var edges := Edges(cands, decs, p, dist);
    assert forall e | e in edges :: Overlap(e.cand, e.dec) > 0;
    hide Value, Greedy, Overlap;
    HalfOptimal(edges, other);
  }

  // ---- One run's candidates, and the effect of one write ----

  /** What is assumed of a run: candidates have ids, non-empty spans, and do not overlap in time. */
  ghost predicate RunOk(cands: set<SpanRef>) {
    && DistinctCands(cands)
    && (forall c | c in cands :: c.start < c.end)
    && (forall c, c' | c in cands && c' in cands && c != c' :: c.end <= c'.start || c'.end <= c.start)
  }

  /** The decision's anchor is exactly the candidate as the user sees it. */
  ghost predicate AnchoredOn(d: Anchor, c: SpanRef) {
    d.start == c.start && d.end == c.end && d.dest == c.dest
  }

  /** An anchor taken from a candidate is compatible with that candidate and with no other. */
  lemma AnchoredOnlyThere(cands: set<SpanRef>, c: SpanRef, d: Anchor, p: MatchParams, dist: Distance)
    requires RunOk(cands) && c in cands && AnchoredOn(d, c) && p.matchKm >= 0.0
    ensures Overlap(c, d) == c.end - c.start
    ensures forall x | x in cands :: Compatible(x, d, p, dist) <==> x == c
  {
  }

  /** A decision recorded for an unmatched candidate adds exactly that association. */
  lemma InsertAddsOne(cands: set<SpanRef>, decs: set<Anchor>, c: SpanRef, d: Anchor, p: MatchParams, dist: Distance)
    requires RunOk(cands) && DistinctDecs(decs) && DistinctDecs(decs + {d}) && p.matchKm >= 0.0
    requires c in cands && d !in decs && AnchoredOn(d, c)
    requires c !in CandsOf(Association(cands, decs, p, dist))
    ensures Association(cands, decs + {d}, p, dist) == Association(cands, decs, p, dist) + {Edge(c, d)}
  {
    var m := Association(cands, decs, p, dist);
    var edges, edges' := Edges(cands, decs, p, dist), Edges(cands, decs + {d}, p, dist);
    AssociationIsTheStableOne(cands, decs, p, dist, m);
    AnchoredOnlyThere(cands, c, d, p, dist);
    assert edges' == edges + {Edge(c, d)};
    TakeStable(edges, m, Edge(c, d));
    AssociationIsTheStableOne(cands, decs + {d}, p, dist, m + {Edge(c, d)});
  }

  /** Refreshing a decision's anchor to its candidate only raises its rank there. */
  lemma RefreshedStillBetter(c: SpanRef, d: Anchor, d': Anchor, e: Edge)
    requires AnchoredOn(d', c) && d'.id == d.id && d'.createdAt == d.createdAt
    requires c.start < c.end && e.cand == c && Better(Edge(c, d), e)
    ensures Better(Edge(c, d'), e)
  {
  }

  ghost function Refreshed(m: set<Edge>, c: SpanRef, d: Anchor, d': Anchor): set<Edge> {
    m - {Edge(c, d)} + {Edge(c, d')}
  }

  lemma RefreshedStable(edges: set<Edge>, edges': set<Edge>, m: set<Edge>, c: SpanRef, d: Anchor, d': Anchor)
    requires Stable(edges, m) && Edge(c, d) in m
    requires AnchoredOn(d', c) && d'.id == d.id && d'.createdAt == d.createdAt && c.start < c.end
    requires forall e | e in edges' :: e == Edge(c, d') || (e in edges && e.dec != d)
    requires forall e | e in edges && e.dec != d :: e in edges' && e.dec != d'
    requires Edge(c, d') in edges'
    ensures Stable(edges', Refreshed(m, c, d, d'))
  {
    var m' := Refreshed(m, c, d, d');
    forall e | e in edges' && e !in m' ensures Blocked(e, m') {
      assert Blocked(e, m);
      var f :| f in m && Touches(f, e) && Better(f, e);
      if f == Edge(c, d) {
        RefreshedStillBetter(c, d, d', e);
        assert Touches(Edge(c, d'), e);
      } else {
        assert f in m';
      }
    }
    forall e, f | e in m' && f in m' && Touches(e, f) ensures e == f {
      var e0 := if e == Edge(c, d') then Edge(c, d) else e;
      var f0 := if f == Edge(c, d') then Edge(c, d) else f;
      assert Touches(e0, f0) || e == f;
    }
    forall e | e in m' ensures e in edges' {
      if e != Edge(c, d') {
        assert !Touches(e, Edge(c, d));
      }
    }
  }

  /** Re-deciding a matched candidate moves the decision's anchor and no association. */
  lemma UpdateMovesNothing(cands: set<SpanRef>, decs: set<Anchor>, c: SpanRef, d: Anchor, d': Anchor,
                           p: MatchParams, dist: Distance)
    requires RunOk(cands) && DistinctDecs(decs) && p.matchKm >= 0.0
    requires c in cands && d in decs && AnchoredOn(d', c)
    requires d'.id == d.id && d'.createdAt == d.createdAt
    requires Edge(c, d) in Association(cands, decs, p, dist)
    ensures DistinctDecs(decs - {d} + {d'})
    ensures Association(cands, decs - {d} + {d'}, p, dist)
         == Refreshed(Association(cands, decs, p, dist), c, d, d')
  {
    var decs' := decs - {d} + {d'};
    var m := Association(cands, decs, p, dist);
    AssociationIsTheStableOne(cands, decs, p, dist, m);
    AnchoredOnlyThere(cands, c, d', p, dist);
    RefreshedStable(Edges(cands, decs, p, dist), Edges(cands, decs', p, dist), m, c, d, d');
    AssociationIsTheStableOne(cands, decs', p, dist, Refreshed(m, c, d, d'));
  }

  /**
   A row anchored exactly on an unmatched candidate cannot exist, so a fresh decision never collides
   with the unique anchor index.
   */
  lemma UnmatchedHasNoAnchor(cands: set<SpanRef>, decs: set<Anchor>, c: SpanRef, d: Anchor,
                             p: MatchParams, dist: Distance)
    requires RunOk(cands) && DistinctDecs(decs) && p.matchKm >= 0.0
    requires c in cands && d in decs && AnchoredOn(d, c)
    ensures c in CandsOf(Association(cands, decs, p, dist))
  {
    var m := Association(cands, decs, p, dist);
    AssociationIsTheStableOne(cands, decs, p, dist, m);
    AnchoredOnlyThere(cands, c, d, p, dist);
    var e := Edge(c, d);
    assert e in Edges(cands, decs, p, dist);
    if e !in m {
      var f :| f in m && Touches(f, e) && Better(f, e);
      assert f.cand == c;
    }
  }

  // ---- Renumbering decisions ----

  ghost function Renumbered(d: Anchor, ids: map<int, int>): Anchor
    requires d.id in ids
  {
    d.(id := ids[d.id])
  }

  ghost predicate OrderPreserving(ids: map<int, int>) {
    forall i, j | i in ids && j in ids :: i < j ==> ids[i] < ids[j]
  }

  ghost predicate Covers(ids: map<int, int>, decs: set<Anchor>) {
    forall d | d in decs :: d.id in ids
  }

  ghost function RenumberedDecs(decs: set<Anchor>, ids: map<int, int>): set<Anchor>
    requires Covers(ids, decs)
  {
    set d | d in decs :: Renumbered(d, ids)
  }

  ghost predicate EdgesCovered(m: set<Edge>, ids: map<int, int>) {
    forall e | e in m :: e.dec.id in ids
  }

  ghost function RenumberedEdges(m: set<Edge>, ids: map<int, int>): set<Edge>
    requires EdgesCovered(m, ids)
  {
    set e | e in m :: RenumberedEdge(e, ids)
  }

  ghost function RenumberedEdge(e: Edge, ids: map<int, int>): Edge
    requires e.dec.id in ids
  {
    Edge(e.cand, Renumbered(e.dec, ids))
  }

  lemma RenumberedRank(e: Edge, f: Edge, ids: map<int, int>)
    requires e.dec.id in ids && f.dec.id in ids && OrderPreserving(ids)
    ensures Better(RenumberedEdge(e, ids), RenumberedEdge(f, ids)) <==> Better(e, f)
  {
    assert e.dec.id < f.dec.id ==> ids[e.dec.id] < ids[f.dec.id];
    assert f.dec.id < e.dec.id ==> ids[f.dec.id] < ids[e.dec.id];
  }

  lemma RenumberedTouch(e: Edge, f: Edge, ids: map<int, int>)
    requires e.dec.id in ids && f.dec.id in ids && OrderPreserving(ids) && SameRows(e, f)
    ensures Touches(RenumberedEdge(e, ids), RenumberedEdge(f, ids)) <==> Touches(e, f)
  {
    assert e.dec.id < f.dec.id ==> ids[e.dec.id] < ids[f.dec.id];
    assert f.dec.id < e.dec.id ==> ids[f.dec.id] < ids[e.dec.id];
  }

  lemma RenumberedStable(edges: set<Edge>, m: set<Edge>, ids: map<int, int>)
    requires Identified(edges) && Stable(edges, m) && EdgesCovered(edges, ids) && OrderPreserving(ids)
    ensures EdgesCovered(m, ids) && Stable(RenumberedEdges(edges, ids), RenumberedEdges(m, ids))
  {
    assert EdgesCovered(m, ids);
    var edges', m' := RenumberedEdges(edges, ids), RenumberedEdges(m, ids);
    forall e' | e' in edges' && e' !in m' ensures Blocked(e', m') {
      var e :| e in edges && e' == RenumberedEdge(e, ids);
      assert Blocked(e, m);
      var f :| f in m && Touches(f, e) && Better(f, e);
      RenumberedRank(f, e, ids);
      assert RenumberedEdge(f, ids) in m' && Touches(RenumberedEdge(f, ids), e');
    }
    forall e', f' | e' in m' && f' in m' && Touches(e', f') ensures e' == f' {
      var e :| e in m && e' == RenumberedEdge(e, ids);
      var f :| f in m && f' == RenumberedEdge(f, ids);
      assert SameRows(e, f);
      RenumberedTouch(e, f, ids);
    }
  }

  /** Renumbering rows without changing their order renumbers the association and does nothing else. */
  lemma RenumberingIsHarmless(cands: set<SpanRef>, decs: set<Anchor>, ids: map<int, int>, p: MatchParams,
                              dist: Distance)
    requires DistinctCands(cands) && DistinctDecs(decs) && Covers(ids, decs) && OrderPreserving(ids)
    ensures DistinctDecs(RenumberedDecs(decs, ids))
    ensures EdgesCovered(Association(cands, decs, p, dist), ids)
    ensures Association(cands, RenumberedDecs(decs, ids), p, dist)
         == RenumberedEdges(Association(cands, decs, p, dist), ids)
  {
    var m, decs' := Association(cands, decs, p, dist), RenumberedDecs(decs, ids);
    var edges := Edges(cands, decs, p, dist);
    forall d, e | d in decs && e in decs && d != e ensures ids[d.id] != ids[e.id] {
      assert d.id < e.id || e.id < d.id;
    }
    AssociationIsTheStableOne(cands, decs, p, dist, m);
    RenumberedStable(edges, m, ids);
    forall e' ensures e' in Edges(cands, decs', p, dist) <==> e' in RenumberedEdges(edges, ids) {
      if e' in Edges(cands, decs', p, dist) {
        var d :| d in decs && Renumbered(d, ids) == e'.dec;
        assert Edge(e'.cand, d) in edges;
      }
    }
    AssociationIsTheStableOne(cands, decs', p, dist, RenumberedEdges(m, ids));
  }
}
