/**
 Home bases (internal/detect/bases.go): evidence is bucketed on a grid, nearby buckets are merged, and a
 cluster with enough evidence becomes a base with an era.
 */
module Bases {
  import opened Domain
  import opened Seqs
  import opened Detection

  /** One piece of home evidence: a place and the civil date it was asserted on. */
  datatype Evidence = Evidence(day: int, loc: LatLng)

  datatype BaseParams = BaseParams(mergeM: real, minVisits: nat, eraPadDays: nat)

  /** The grid cell of a place, and the rounding of a published centre. */
  datatype Grid = Grid(cell: LatLng -> LatLng, publish: LatLng -> LatLng)

  /** Evidence merged around the centre of its founding group. */
  datatype Cluster = Cluster(center: LatLng, items: seq<Evidence>)

  // ---- Median ----

  ghost predicate SortedReals(s: seq<real>) { forall i, j | 0 <= i < j < |s| :: s[i] <= s[j] }

  function InsertReal(s: seq<real>, x: real): seq<real> {
    if s == [] || Last(s) <= x then s + [x] else InsertReal(Front(s), x) + [Last(s)]
  }

  function SortReals(s: seq<real>): seq<real> {
    if s == [] then [] else InsertReal(SortReals(Front(s)), Last(s))
  }

  lemma {:induction false} InsertRealElements(s: seq<real>, x: real)
    ensures multiset(InsertReal(s, x)) == multiset(s) + multiset{x}
  {
    if s != [] && Last(s) > x {
      InsertRealElements(Front(s), x);
      assert s == Front(s) + [Last(s)];
    }
  }

  lemma {:induction false} InsertRealBounded(s: seq<real>, x: real, m: real)
    requires x <= m && forall i | 0 <= i < |s| :: s[i] <= m
    ensures forall i | 0 <= i < |InsertReal(s, x)| :: InsertReal(s, x)[i] <= m
  {
    if s != [] && Last(s) > x {
      InsertRealBounded(Front(s), x, m);
    }
  }

  lemma {:induction false} InsertRealSorts(s: seq<real>, x: real)
    requires SortedReals(s)
    ensures SortedReals(InsertReal(s, x))
  {
    if s != [] && Last(s) > x {
      InsertRealSorts(Front(s), x);
      InsertRealBounded(Front(s), x, Last(s));
    }
  }

  lemma {:induction false} SortRealsSorts(s: seq<real>)
    ensures SortedReals(SortReals(s)) && multiset(SortReals(s)) == multiset(s) && |SortReals(s)| == |s|
  {
    if s != [] {
      SortRealsSorts(Front(s));
      InsertRealSorts(SortReals(Front(s)), Last(s));
      InsertRealElements(SortReals(Front(s)), Last(s));
      assert s == Front(s) + [Last(s)];
      assert |multiset(SortReals(s))| == |multiset(s)|;
    }
  }

  lemma LastIsGreatest(s: seq<real>, t: seq<real>)
    requires SortedReals(t) && s != [] && t != [] && multiset(s) == multiset(t)
    ensures Last(s) <= Last(t)
  {
    assert Last(s) in multiset(t);
    var i :| 0 <= i < |t| && t[i] == Last(s);
  }

  lemma SameFronts(s: seq<real>, t: seq<real>)
    requires s != [] && t != [] && multiset(s) == multiset(t) && Last(s) == Last(t)
    ensures multiset(Front(s)) == multiset(Front(t))
  {
    assert s == Front(s) + [Last(s)] && t == Front(t) + [Last(t)];
    assert multiset(Front(s)) == multiset(s) - multiset{Last(s)};
    assert multiset(Front(t)) == multiset(t) - multiset{Last(t)};
  }

  lemma FrontSorted(s: seq<real>)
    requires SortedReals(s) && s != []
    ensures SortedReals(Front(s))
  {
  }

  lemma SameSize(s: seq<real>, t: seq<real>)
    requires multiset(s) == multiset(t)
    ensures |s| == |t|
  {
    assert |s| == |multiset(s)| == |multiset(t)| == |t|;
  }

  lemma {:induction false} SortedRealsUnique(s: seq<real>, t: seq<real>)
    requires SortedReals(s) && SortedReals(t) && multiset(s) == multiset(t)
    ensures s == t
  {
    hide SortedReals;
    SameSize(s, t);
    if s != [] {
      LastIsGreatest(s, t);
      LastIsGreatest(t, s);
      SameFronts(s, t);
      FrontSorted(s);
      FrontSorted(t);
      SortedRealsUnique(Front(s), Front(t));
      assert s == Front(s) + [Last(s)] && t == Front(t) + [Last(t)];
    }
  }

  function Middle(s: seq<real>): real
    requires s != []
  {
    if |s| % 2 == 1 then s[|s| / 2] else (s[|s| / 2 - 1] + s[|s| / 2]) / 2.0
  }

  function Median(s: seq<real>): real
    requires s != []
  {
    SortRealsSorts(s);
    Middle(SortReals(s))
  }

  predicate LessReal(x: real, y: real) { x < y }

  method SortedCopy(vals: seq<real>) returns (sorted: seq<real>)
    ensures sorted == SortReals(vals)
  {
    hide SortReals;
    var a := new real[|vals|](i requires 0 <= i < |vals| => vals[i]);
    assert a[..] == vals;
    ghost var elems := set x | x in vals;
    SortByLess(a, LessReal, elems);
    sorted := a[..];
    SortRealsSorts(vals);
    RankedIsSorted(sorted);
    SortedRealsUnique(sorted, SortReals(vals));
  }

  lemma RankedIsSorted(s: seq<real>)
    requires Ranked(s, LessReal)
    ensures SortedReals(s)
  {
    forall i, j | 0 <= i < j < |s| ensures s[i] <= s[j] {
      assert !LessReal(s[j], s[i]);
    }
  }

  method MedianOf(vals: seq<real>) returns (m: real)
    requires vals != []
    ensures m == Median(vals)
  {
    var sorted := SortedCopy(vals);
    SortRealsSorts(vals);
    hide SortReals;
    var n := |sorted|;
    m := if n % 2 == 1 then sorted[n / 2] else (sorted[n / 2 - 1] + sorted[n / 2]) / 2.0;
  }

  /** No more than half of the values lie on either side of the median. */
  lemma MedianSplits(s: seq<real>) returns (t: seq<real>)
    requires s != []
    ensures multiset(t) == multiset(s) && |t| == |s| && SortedReals(t)
    ensures t[(|s| - 1) / 2] <= Median(s) <= t[|s| / 2]
    ensures forall i | 0 <= i < |s| / 2 :: t[i] <= Median(s)
    ensures forall i | (|s| + 1) / 2 <= i < |s| :: Median(s) <= t[i]
  {
    SortRealsSorts(s);
    t := SortReals(s);
  }

  function EvLat(): Evidence -> real { (e: Evidence) => e.loc.lat }

  function EvLon(): Evidence -> real { (e: Evidence) => e.loc.lon }

  function Center(items: seq<Evidence>): LatLng
    requires items != []
  {
    LatLng(Median(Map(items, EvLat())), Median(Map(items, EvLon())))
  }

  // ---- Grouping on the grid ----

  function InCell(c: LatLng, grid: Grid): Evidence -> bool { (e: Evidence) => grid.cell(e.loc) == c }

  /** The cells in the order their first evidence appears. */
  function CellsSeen(ev: seq<Evidence>, grid: Grid): seq<LatLng> {
    if ev == [] then []
    else
      var before := CellsSeen(Front(ev), grid);
      var c := grid.cell(Last(ev).loc);
      if c in before then before else before + [c]
  }

  function GroupIn(ev: seq<Evidence>, c: LatLng, grid: Grid): seq<Evidence> { Filter(ev, InCell(c, grid)) }

  /** Cells by falling number of pieces of evidence, ties as they first occurred. */
  function CellOrder(ev: seq<Evidence>, grid: Grid): seq<LatLng> {
    SortStable(CellsSeen(ev, grid), c => -|GroupIn(ev, c, grid)|)
  }

  function GroupsIn(ev: seq<Evidence>, cells: seq<LatLng>, grid: Grid): seq<seq<Evidence>> {
    Map(cells, c => GroupIn(ev, c, grid))
  }

  // ---- Merging ----

  /** The first cluster whose centre is near enough. */
  function FirstNear(clusters: seq<Cluster>, center: LatLng, p: BaseParams, dist: Distance): (i: Option<nat>)
    ensures i.Some? ==> i.value < |clusters|
  {
    if clusters == [] then None
    else
      match FirstNear(Front(clusters), center, p, dist)
      case Some(i) => Some(i)
      case None => if dist(Last(clusters).center, center) < p.mergeM then Some(|clusters| - 1) else None
  }

  function Place(clusters: seq<Cluster>, items: seq<Evidence>, p: BaseParams, dist: Distance): seq<Cluster>
    requires items != []
  {
    match FirstNear(clusters, Center(items), p, dist)
    case Some(i) => clusters[i := clusters[i].(items := clusters[i].items + items)]
    case None => clusters + [Cluster(Center(items), items)]
  }

  function Merged(groups: seq<seq<Evidence>>, p: BaseParams, dist: Distance): seq<Cluster>
    requires forall i | 0 <= i < |groups| :: groups[i] != []
  {
    if groups == [] then [] else Place(Merged(Front(groups), p, dist), Last(groups), p, dist)
  }

  // ---- Bases ----

  function DaysOf(items: seq<Evidence>): seq<int> { Map(items, (e: Evidence) => e.day) }

  function SortedDays(items: seq<Evidence>): seq<int> { SortStable(DaysOf(items), d => d) }

  function DaySet(items: seq<Evidence>): set<int> { set e | e in items :: e.day }

  predicate Qualifies(c: Cluster, p: BaseParams, minDays: int) {
    |c.items| >= p.minVisits && (minDays > 0 ==> |DaySet(c.items)| >= minDays)
  }

  function BaseOf(c: Cluster, p: BaseParams, grid: Grid): Base
    requires c.items != []
  {
    SortStableElements(DaysOf(c.items), d => d);
    var days := SortedDays(c.items);
    Base(grid.publish(Center(c.items)), days[0] - p.eraPadDays, days[|days| - 1] + p.eraPadDays, |c.items|)
  }

  function BasesFrom(clusters: seq<Cluster>, p: BaseParams, minDays: int, grid: Grid): seq<Base>
    requires forall i | 0 <= i < |clusters| :: clusters[i].items != []
  {
    if clusters == [] then []
    else
      BasesFrom(Front(clusters), p, minDays, grid)
      + if Qualifies(Last(clusters), p, minDays) then [BaseOf(Last(clusters), p, grid)] else []
  }

  // ---- Nothing is lost in grouping and merging ----

  lemma {:induction false} CellsSeenDistinct(ev: seq<Evidence>, grid: Grid)
    ensures Distinct(CellsSeen(ev, grid))
    ensures forall e | e in ev :: grid.cell(e.loc) in CellsSeen(ev, grid)
    ensures forall c | c in CellsSeen(ev, grid) :: exists e | e in ev :: grid.cell(e.loc) == c
  {
    if ev != [] {
      CellsSeenDistinct(Front(ev), grid);
      assert ev == Front(ev) + [Last(ev)];
    }
  }

  lemma {:induction false} FilterCount(ev: seq<Evidence>, keep: Evidence -> bool, e: Evidence)
    ensures multiset(Filter(ev, keep))[e] == if keep(e) then multiset(ev)[e] else 0
  {
    if ev != [] {
      FilterCount(Front(ev), keep, e);
      assert ev == Front(ev) + [Last(ev)];
    }
  }

  /** Every piece of evidence is in the group of its own cell and in no other. */
  lemma {:induction false} GroupsCount(ev: seq<Evidence>, cells: seq<LatLng>, grid: Grid, e: Evidence)
    requires Distinct(cells)
    ensures multiset(Flatten(GroupsIn(ev, cells, grid)))[e] == if grid.cell(e.loc) in cells then multiset(ev)[e] else 0
  {
    if cells != [] {
      GroupsCount(ev, Front(cells), grid, e);
      FilterCount(ev, InCell(Last(cells), grid), e);
      assert Front(GroupsIn(ev, cells, grid)) == GroupsIn(ev, Front(cells), grid);
      assert cells == Front(cells) + [Last(cells)];
    }
  }

  ghost function AllItems(clusters: seq<Cluster>): multiset<Evidence> {
    if clusters == [] then multiset{} else AllItems(Front(clusters)) + multiset(Last(clusters).items)
  }

  lemma {:induction false} AllItemsGrow(clusters: seq<Cluster>, i: nat, items: seq<Evidence>)
    requires i < |clusters|
    ensures AllItems(clusters[i := clusters[i].(items := clusters[i].items + items)])
         == AllItems(clusters) + multiset(items)
  {
    var grown := clusters[i := clusters[i].(items := clusters[i].items + items)];
    if i < |clusters| - 1 {
      AllItemsGrow(Front(clusters), i, items);
      assert Front(grown) == Front(clusters)[i := clusters[i].(items := clusters[i].items + items)];
    } else {
      assert Front(grown) == Front(clusters);
    }
  }

  ghost predicate NonEmpty(clusters: seq<Cluster>) { forall i | 0 <= i < |clusters| :: clusters[i].items != [] }

  lemma PlaceKeeps(clusters: seq<Cluster>, items: seq<Evidence>, p: BaseParams, dist: Distance)
    requires items != [] && NonEmpty(clusters)
    ensures AllItems(Place(clusters, items, p, dist)) == AllItems(clusters) + multiset(items)
    ensures NonEmpty(Place(clusters, items, p, dist))
  {
    hide FirstNear, Center;
    match FirstNear(clusters, Center(items), p, dist)
    case Some(i) => AllItemsGrow(clusters, i, items);
    case None => assert Front(clusters + [Cluster(Center(items), items)]) == clusters;
  }

  lemma {:induction false} MergedKeeps(groups: seq<seq<Evidence>>, p: BaseParams, dist: Distance)
    requires forall i | 0 <= i < |groups| :: groups[i] != []
    ensures AllItems(Merged(groups, p, dist)) == multiset(Flatten(groups)) && NonEmpty(Merged(groups, p, dist))
  {
    hide Place;
    if groups != [] {
      MergedKeeps(Front(groups), p, dist);
      PlaceKeeps(Merged(Front(groups), p, dist), Last(groups), p, dist);
    }
  }

  // ---- Clusters stand apart ----

  lemma {:induction false} FirstNearNone(clusters: seq<Cluster>, center: LatLng, p: BaseParams, dist: Distance)
    requires FirstNear(clusters, center, p, dist).None?
    ensures forall i | 0 <= i < |clusters| :: dist(clusters[i].center, center) >= p.mergeM
  {
    if clusters != [] {
      FirstNearNone(Front(clusters), center, p, dist);
      assert clusters[|clusters| - 1] == Last(clusters);
      assert forall i | 0 <= i < |clusters| - 1 :: clusters[i] == Front(clusters)[i];
    }
  }

  ghost predicate CentersApart(clusters: seq<Cluster>, p: BaseParams, dist: Distance) {
    forall i, j | 0 <= i < j < |clusters| :: dist(clusters[i].center, clusters[j].center) >= p.mergeM
  }

  /** Founding centres of different clusters are at least the merge distance apart. */
  lemma {:induction false} MergedApart(groups: seq<seq<Evidence>>, p: BaseParams, dist: Distance)
    requires forall i | 0 <= i < |groups| :: groups[i] != []
    ensures CentersApart(Merged(groups, p, dist), p, dist)
  {
    hide FirstNear, Center;
    if groups != [] {
      MergedApart(Front(groups), p, dist);
      var before := Merged(Front(groups), p, dist);
      if FirstNear(before, Center(Last(groups)), p, dist).None? {
        FirstNearNone(before, Center(Last(groups)), p, dist);
      }
    }
  }

  // ---- The clusters of a body of evidence ----

  lemma OrderCells(ev: seq<Evidence>, grid: Grid)
    ensures Distinct(CellOrder(ev, grid))
    ensures forall c :: c in CellOrder(ev, grid) <==> c in CellsSeen(ev, grid)
  {
    hide SortStable, CellsSeen;
    CellsSeenDistinct(ev, grid);
    var key := (c: LatLng) => -|GroupIn(ev, c, grid)|;
    SortStableElements(CellsSeen(ev, grid), key);
    PermutedDistinct(CellsSeen(ev, grid), CellOrder(ev, grid));
  }

  lemma GroupsNonEmpty(ev: seq<Evidence>, grid: Grid)
    ensures forall i | 0 <= i < |CellOrder(ev, grid)| :: GroupsIn(ev, CellOrder(ev, grid), grid)[i] != []
  {
    OrderCells(ev, grid);
    CellsSeenDistinct(ev, grid);
    hide CellOrder, CellsSeen;
    var cells := CellOrder(ev, grid);
    forall i | 0 <= i < |cells| ensures GroupsIn(ev, cells, grid)[i] != [] {
      assert cells[i] in cells;
      var e :| e in ev && grid.cell(e.loc) == cells[i];
      FilterCount(ev, InCell(cells[i], grid), e);
      assert e in multiset(GroupIn(ev, cells[i], grid));
    }
  }

  function Clusters(ev: seq<Evidence>, p: BaseParams, grid: Grid, dist: Distance): (clusters: seq<Cluster>)
    ensures NonEmpty(clusters)
  {
    GroupsNonEmpty(ev, grid);
    MergedKeeps(GroupsIn(ev, CellOrder(ev, grid), grid), p, dist);
    Merged(GroupsIn(ev, CellOrder(ev, grid), grid), p, dist)
  }

  /** Each piece of evidence ends up in exactly one cluster, and clusters stand apart. */
  lemma EvidenceIsPartitioned(ev: seq<Evidence>, p: BaseParams, grid: Grid, dist: Distance)
    ensures AllItems(Clusters(ev, p, grid, dist)) == multiset(ev)
    ensures CentersApart(Clusters(ev, p, grid, dist), p, dist)
  {
    var cells := CellOrder(ev, grid);
    var groups := GroupsIn(ev, cells, grid);
    GroupsNonEmpty(ev, grid);
    MergedKeeps(groups, p, dist);
    MergedApart(groups, p, dist);
    OrderCells(ev, grid);
    CellsSeenDistinct(ev, grid);
    hide CellOrder, CellsSeen, Merged, GroupsIn, AllItems, CentersApart;
    forall e ensures multiset(Flatten(groups))[e] == multiset(ev)[e] {
      GroupsCount(ev, cells, grid, e);
    }
  }

  /** The bases of a body of evidence. */
  function ClusteredBases(ev: seq<Evidence>, p: BaseParams, minDays: int, grid: Grid, dist: Distance): seq<Base> {
    BasesFrom(Clusters(ev, p, grid, dist), p, minDays, grid)
  }

  // ---- What a base promises ----

  /** A base is at the median of one cluster with enough evidence, and its era is that evidence's days, padded. */
  ghost predicate Grounded(b: Base, c: Cluster, p: BaseParams, minDays: int, grid: Grid) {
    && c.items != [] && b.n == |c.items| >= p.minVisits && b.center == grid.publish(Center(c.items))
    && (minDays > 0 ==> |DaySet(c.items)| >= minDays)
    && (forall e | e in c.items :: b.from + p.eraPadDays <= e.day <= b.to - p.eraPadDays)
    && b.from + p.eraPadDays in DaySet(c.items) && b.to - p.eraPadDays in DaySet(c.items)
  }

  lemma BaseIsGrounded(c: Cluster, p: BaseParams, minDays: int, grid: Grid)
    requires c.items != [] && Qualifies(c, p, minDays)
    ensures Grounded(BaseOf(c, p, grid), c, p, minDays, grid)
  {
    hide SortStable, Center;
    var listed, days := DaysOf(c.items), SortedDays(c.items);
    SortStableElements(listed, d => d);
    SortStableSorted(listed, d => d);
    assert SortedBy(days, d => d);
    forall e | e in c.items ensures days[0] <= e.day <= days[|days| - 1] {
      var i :| 0 <= i < |c.items| && c.items[i] == e;
      assert listed[i] == e.day && e.day in multiset(days);
      var k :| 0 <= k < |days| && days[k] == e.day;
      DaysAscend(days, 0, k);
      DaysAscend(days, k, |days| - 1);
    }
    forall d | d in days ensures d in DaySet(c.items) {
      assert d in multiset(listed);
      var i :| 0 <= i < |listed| && listed[i] == d;
      assert c.items[i] in c.items;
    }
  }

  lemma DaysAscend(days: seq<int>, i: nat, j: nat)
    requires SortedBy(days, d => d) && i <= j < |days|
    ensures days[i] <= days[j]
  {
    var key := (d: int) => d;
    if i < j {
      assert key(days[i]) <= key(days[j]);
    }
  }

  ghost predicate Rests(b: Base, clusters: seq<Cluster>, p: BaseParams, minDays: int, grid: Grid) {
    exists i | 0 <= i < |clusters| :: Grounded(b, clusters[i], p, minDays, grid)
  }

  lemma {:induction false} BasesAreGrounded(clusters: seq<Cluster>, p: BaseParams, minDays: int, grid: Grid)
    requires NonEmpty(clusters)
    ensures forall b | b in BasesFrom(clusters, p, minDays, grid) :: Rests(b, clusters, p, minDays, grid)
    ensures forall i | 0 <= i < |clusters| && Qualifies(clusters[i], p, minDays) ::
      BaseOf(clusters[i], p, grid) in BasesFrom(clusters, p, minDays, grid)
  {
    hide BaseOf, Qualifies, Grounded;
    if clusters != [] {
      BasesAreGrounded(Front(clusters), p, minDays, grid);
      forall b | b in BasesFrom(Front(clusters), p, minDays, grid) ensures Rests(b, clusters, p, minDays, grid) {
        var i :| 0 <= i < |clusters| - 1 && Grounded(b, Front(clusters)[i], p, minDays, grid);
        assert clusters[i] == Front(clusters)[i];
      }
      if Qualifies(Last(clusters), p, minDays) {
        BaseIsGrounded(Last(clusters), p, minDays, grid);
        assert clusters[|clusters| - 1] == Last(clusters);
      }
    }
  }

  lemma LoneMedian(x: real)
    ensures Median([x]) == x
  {
    assert SortReals([x]) == [x] by {
      assert Front([x]) == [];
    }
  }

  /** A single piece of evidence, where one is enough, makes a base around it. */
  lemma LoneEvidence(e: Evidence, p: BaseParams, grid: Grid, dist: Distance)
    requires p.minVisits <= 1
    ensures ClusteredBases([e], p, 0, grid, dist)
         == [Base(grid.publish(e.loc), e.day - p.eraPadDays, e.day + p.eraPadDays, 1)]
  {
    hide Median;
    var c := Cluster(e.loc, [e]);
    assert Front([e]) == [];
    assert Map([e], EvLat()) == [e.loc.lat] && Map([e], EvLon()) == [e.loc.lon];
    LoneMedian(e.loc.lat);
    LoneMedian(e.loc.lon);
    assert Center([e]) == e.loc;
    var cell := grid.cell(e.loc);
    assert CellsSeen([e], grid) == [cell];
    LoneOrder(e, grid);
    assert GroupIn([e], cell, grid) == [e];
    assert GroupsIn([e], [cell], grid) == [[e]];
    LoneCluster(e, p, dist);
    assert Clusters([e], p, grid, dist) == [c];
    LoneBase(c, p, grid);
  }

  lemma LoneOrder(e: Evidence, grid: Grid)
    ensures CellOrder([e], grid) == [grid.cell(e.loc)]
  {
    assert Front([e]) == [];
    assert CellsSeen([e], grid) == [grid.cell(e.loc)];
    SortedIsFixed([grid.cell(e.loc)], c => -|GroupIn([e], c, grid)|);
  }

  lemma LoneCluster(e: Evidence, p: BaseParams, dist: Distance)
    requires Center([e]) == e.loc
    ensures Merged([[e]], p, dist) == [Cluster(e.loc, [e])]
  {
    hide Center;
    assert Front([[e]]) == [];
  }

  lemma LoneDay(e: Evidence)
    ensures SortedDays([e]) == [e.day]
  {
    assert Front([e]) == [];
    assert DaysOf([e]) == [e.day];
    SortedIsFixed(DaysOf([e]), d => d);
  }

  lemma LoneBase(c: Cluster, p: BaseParams, grid: Grid)
    requires |c.items| == 1 && p.minVisits <= 1 && Center(c.items) == c.items[0].loc
    ensures BasesFrom([c], p, 0, grid)
         == [Base(grid.publish(c.items[0].loc), c.items[0].day - p.eraPadDays, c.items[0].day + p.eraPadDays, 1)]
  {
    hide Center, SortedDays, DaysOf, SortStable;
    assert Front([c]) == [];
    assert c.items == [c.items[0]];
    LoneDay(c.items[0]);
    assert BasesFrom([], p, 0, grid) == [];
  }

  // ---- The derivation, step by step ----

  /** `groups` and `order` after the first pieces of evidence. */
  ghost predicate Grouped(groups: map<LatLng, seq<Evidence>>, order: seq<LatLng>, ev: seq<Evidence>, grid: Grid) {
    && order == CellsSeen(ev, grid)
    && groups.Keys == (set c | c in order)
    && (forall c | c in groups :: groups[c] == GroupIn(ev, c, grid))
  }

  lemma {:induction false} UnseenCell(ev: seq<Evidence>, c: LatLng, grid: Grid)
    requires c !in CellsSeen(ev, grid)
    ensures GroupIn(ev, c, grid) == []
  {
    if ev != [] {
      UnseenCell(Front(ev), c, grid);
    }
  }

  lemma GroupGrows(ev: seq<Evidence>, e: Evidence, x: LatLng, grid: Grid)
    ensures GroupIn(ev + [e], x, grid) == GroupIn(ev, x, grid) + if x == grid.cell(e.loc) then [e] else []
  {
    FilterSnoc(ev, e, InCell(x, grid));
  }

  lemma CellsGrow(ev: seq<Evidence>, e: Evidence, grid: Grid)
    ensures var c, seen := grid.cell(e.loc), CellsSeen(ev, grid);
            CellsSeen(ev + [e], grid) == if c in seen then seen else seen + [c]
  {
    assert Front(ev + [e]) == ev;
  }

  lemma GroupedStep(groups: map<LatLng, seq<Evidence>>, order: seq<LatLng>, ev: seq<Evidence>, e: Evidence, grid: Grid)
    requires Grouped(groups, order, ev, grid)
    ensures var c := grid.cell(e.loc);
            Grouped(groups[c := (if c in groups then groups[c] else []) + [e]],
                    if c in groups then order else order + [c], ev + [e], grid)
  {
    var c := grid.cell(e.loc);
    CellsGrow(ev, e, grid);
    if c !in groups {
      UnseenCell(ev, c, grid);
    }
    hide GroupIn, CellsSeen;
    var next := groups[c := (if c in groups then groups[c] else []) + [e]];
    forall x | x in next ensures next[x] == GroupIn(ev + [e], x, grid) {
      GroupGrows(ev, e, x, grid);
      assert GroupIn(ev, x, grid) + [] == GroupIn(ev, x, grid);
    }
  }

  method GroupEvidence(ev: seq<Evidence>, grid: Grid) returns (groups: map<LatLng, seq<Evidence>>, order: seq<LatLng>)
    ensures Grouped(groups, order, ev, grid)
  {
    groups, order := map[], [];
    for i := 0 to |ev|
      invariant Grouped(groups, order, ev[..i], grid)
    {
      hide Grouped;
      var c := grid.cell(ev[i].loc);
      GroupedStep(groups, order, ev[..i], ev[i], grid);
      assert ev[..i + 1] == ev[..i] + [ev[i]];
      if c !in groups {
        order := order + [c];
      }
      groups := groups[c := (if c in groups then groups[c] else []) + [ev[i]]];
    }
    assert ev[..|ev|] == ev;
  }

  method PlaceGroup(clusters: seq<Cluster>, items: seq<Evidence>, p: BaseParams, dist: Distance)
    returns (more: seq<Cluster>)
    requires items != []
    ensures more == Place(clusters, items, p, dist)
  {
    hide Median;
    var lat := MedianOf(Map(items, EvLat()));
    var lon := MedianOf(Map(items, EvLon()));
    var center := LatLng(lat, lon);
    for k := 0 to |clusters|
      invariant FirstNear(clusters[..k], center, p, dist) == None
    {
      assert Front(clusters[..k + 1]) == clusters[..k];
      if dist(clusters[k].center, center) < p.mergeM {
        NearHere(clusters, k, center, p, dist);
        return clusters[k := clusters[k].(items := clusters[k].items + items)];
      }
    }
    assert clusters[..|clusters|] == clusters;
    more := clusters + [Cluster(center, items)];
  }

  lemma {:induction false} NearHere(clusters: seq<Cluster>, k: nat, center: LatLng, p: BaseParams, dist: Distance)
    requires k < |clusters| && FirstNear(clusters[..k], center, p, dist) == None
    requires dist(clusters[k].center, center) < p.mergeM
    ensures FirstNear(clusters, center, p, dist) == Some(k)
    decreases |clusters|
  {
    if k < |clusters| - 1 {
      assert Front(clusters)[..k] == clusters[..k];
      NearHere(Front(clusters), k, center, p, dist);
    } else {
      assert Front(clusters) == clusters[..k];
    }
  }

  method EraOf(c: Cluster, p: BaseParams, grid: Grid) returns (b: Base)
    requires c.items != []
    ensures b == BaseOf(c, p, grid)
  {
    hide Median, SortStable;
    var days := SortStable(DaysOf(c.items), d => d);
    var lat := MedianOf(Map(c.items, EvLat()));
    var lon := MedianOf(Map(c.items, EvLon()));
    b := Base(grid.publish(LatLng(lat, lon)), days[0] - p.eraPadDays, days[|days| - 1] + p.eraPadDays, |c.items|);
  }

  method DistinctDays(items: seq<Evidence>) returns (days: set<int>)
    ensures days == DaySet(items)
  {
    days := {};
    for i := 0 to |items|
      invariant days == DaySet(items[..i])
    {
      assert items[..i + 1] == items[..i] + [items[i]];
      days := days + {items[i].day};
    }
    assert items[..|items|] == items;
  }

  method BuildBases(clusters: seq<Cluster>, p: BaseParams, minDays: int, grid: Grid) returns (bases: seq<Base>)
    requires NonEmpty(clusters)
    ensures bases == BasesFrom(clusters, p, minDays, grid)
  {
    hide BaseOf, DaySet;
    bases := [];
    for k := 0 to |clusters|
      invariant bases == BasesFrom(clusters[..k], p, minDays, grid)
    {
      assert Front(clusters[..k + 1]) == clusters[..k];
      assert bases + [] == bases;
      if |clusters[k].items| < p.minVisits {
        continue;
      }
      if minDays > 0 {
        var days := DistinctDays(clusters[k].items);
        if |days| < minDays {
          continue;
        }
      }
      var b := EraOf(clusters[k], p, grid);
      bases := bases + [b];
    }
    assert clusters[..|clusters|] == clusters;
  }

  method ClusterBases(ev: seq<Evidence>, p: BaseParams, minDays: int, grid: Grid, dist: Distance)
    returns (bases: seq<Base>)
    ensures bases == ClusteredBases(ev, p, minDays, grid, dist)
  {
    hide CellsSeen, SortStable, Place, BasesFrom;
    var groups, order := GroupEvidence(ev, grid);
    var sorted := SortStable(order, c => -|GroupIn(ev, c, grid)|);
    assert sorted == CellOrder(ev, grid);
    OrderCells(ev, grid);
    GroupsNonEmpty(ev, grid);
    var clusters: seq<Cluster> := [];
    ghost var lists := GroupsIn(ev, sorted, grid);
    for k := 0 to |sorted|
      invariant clusters == Merged(lists[..k], p, dist)
    {
      assert Front(lists[..k + 1]) == lists[..k];
      assert sorted[k] in sorted;
      clusters := PlaceGroup(clusters, groups[sorted[k]], p, dist);
    }
    assert lists[..|sorted|] == lists;
    assert clusters == Clusters(ev, p, grid, dist);
    bases := BuildBases(clusters, p, minDays, grid);
  }
}
