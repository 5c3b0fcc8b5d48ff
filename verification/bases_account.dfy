/** Home bases in terms of their evidence (internal/detect/bases.go): which pieces share a base, and what it says. */
module BasesAccount {
  import opened Domain
  import opened Seqs
  import opened Detection
  import opened Bases

  // ---- Groups of one cell, the largest first ----

  function CellIs(c: LatLng, grid: Grid): Evidence -> bool { (e: Evidence) => grid.cell(e.loc) == c }

  /** One group for each cell, holding its evidence as given; no group is larger than one before it. */
  ghost predicate ByCell(groups: seq<seq<Evidence>>, cells: seq<LatLng>, ev: seq<Evidence>, grid: Grid) {
    && |groups| == |cells| && Distinct(cells)
    && (forall e | e in ev :: grid.cell(e.loc) in cells)
    && (forall i | 0 <= i < |groups| :: groups[i] != [] && groups[i] == Filter(ev, CellIs(cells[i], grid)))
    && (forall i, j | 0 <= i < j < |groups| :: |groups[i]| >= |groups[j]|)
  }

  lemma GroupedByCell(ev: seq<Evidence>, grid: Grid)
    ensures ByCell(GroupsIn(ev, CellOrder(ev, grid), grid), CellOrder(ev, grid), ev, grid)
    ensures forall g | 0 <= g < |GroupsIn(ev, CellOrder(ev, grid), grid)| ::
      GroupsIn(ev, CellOrder(ev, grid), grid)[g] != []
  {
    var cells := CellOrder(ev, grid);
    var size := (c: LatLng) => -|GroupIn(ev, c, grid)|;
    OrderCells(ev, grid);
    CellsSeenDistinct(ev, grid);
    GroupsNonEmpty(ev, grid);
    SortStableSorted(CellsSeen(ev, grid), size);
    hide SortStable, CellsSeen, Filter;
    var groups := GroupsIn(ev, cells, grid);
    forall i | 0 <= i < |groups| ensures groups[i] == Filter(ev, CellIs(cells[i], grid)) {
      SameCells(ev, cells[i], grid);
    }
    forall i, j | 0 <= i < j < |groups| ensures |groups[i]| >= |groups[j]| {
      assert size(cells[i]) <= size(cells[j]);
    }
  }

  lemma {:induction false} SameCells(ev: seq<Evidence>, c: LatLng, grid: Grid)
    ensures GroupIn(ev, c, grid) == Filter(ev, CellIs(c, grid))
  {
    if ev != [] {
      SameCells(Front(ev), c, grid);
    }
  }

  // ---- Who joins whom ----

  /** What the groups that make up one cluster hold, in order. */
  function Gathered(groups: seq<seq<Evidence>>, home: seq<nat>, i: nat): seq<Evidence>
    requires |home| == |groups|
  {
    if groups == [] then []
    else Gathered(Front(groups), Front(home), i) + if Last(home) == i then Last(groups) else []
  }

  /**
   A group joins the first cluster whose centre is near its own; with none near it founds one, at its own
   centre. `before` says where the groups before it went.
   */
  ghost predicate AtHome(items: seq<Evidence>, h: nat, before: seq<nat>, centers: seq<LatLng>, p: BaseParams,
                         dist: Distance)
    requires items != []
  {
    && h < |centers|
    && (forall k: nat | k < h :: k in before && dist(centers[k], Center(items)) >= p.mergeM)
    && (if h in before then dist(centers[h], Center(items)) < p.mergeM
        else centers[h] == Center(items) && forall k | k in before :: k < h)
  }

  function Centers(clusters: seq<Cluster>): seq<LatLng> {
    seq(|clusters|, i requires 0 <= i < |clusters| => clusters[i].center)
  }

  /** Each group has gone where it belongs, and the clusters hold what has gone to them. */
  ghost predicate Housed(clusters: seq<Cluster>, groups: seq<seq<Evidence>>, home: seq<nat>, p: BaseParams,
                         dist: Distance)
  {
    && |home| == |groups|
    && (forall g | 0 <= g < |groups| ::
          groups[g] != [] && AtHome(groups[g], home[g], home[..g], Centers(clusters), p, dist))
    && (forall i: nat | i < |clusters| :: i in home && clusters[i].items == Gathered(groups, home, i))
  }

  lemma FirstNearFirst(clusters: seq<Cluster>, center: LatLng, p: BaseParams, dist: Distance)
    ensures match FirstNear(clusters, center, p, dist)
            case None => forall k | 0 <= k < |clusters| :: dist(clusters[k].center, center) >= p.mergeM
            case Some(i) =>
              && i < |clusters| && dist(clusters[i].center, center) < p.mergeM
              && forall k | 0 <= k < i :: dist(clusters[k].center, center) >= p.mergeM
  {
    if clusters != [] {
      FirstNearFirst(Front(clusters), center, p, dist);
    }
  }

  lemma GatheredSnoc(groups: seq<seq<Evidence>>, home: seq<nat>, items: seq<Evidence>, h: nat, i: nat)
    requires |home| == |groups|
    ensures Gathered(groups + [items], home + [h], i) == Gathered(groups, home, i) + if h == i then items else []
  {
    assert Front(groups + [items]) == groups && Front(home + [h]) == home;
  }

  lemma {:induction false} NoneGathered(groups: seq<seq<Evidence>>, home: seq<nat>, i: nat)
    requires |home| == |groups| && i !in home
    ensures Gathered(groups, home, i) == []
  {
    if groups != [] {
      NoneGathered(Front(groups), Front(home), i);
    }
  }

  /** More centres, behind those there were, move no group. */
  lemma AtHomeStill(items: seq<Evidence>, h: nat, before: seq<nat>, centers: seq<LatLng>, more: seq<LatLng>,
                    p: BaseParams, dist: Distance)
    requires items != [] && AtHome(items, h, before, centers, p, dist) && centers <= more
    ensures AtHome(items, h, before, more, p, dist)
  {
    hide Center;
    assert forall k | 0 <= k < |centers| :: more[k] == centers[k];
  }

  lemma HousedInRange(clusters: seq<Cluster>, groups: seq<seq<Evidence>>, home: seq<nat>, p: BaseParams, dist: Distance)
    requires Housed(clusters, groups, home, p, dist)
    ensures forall h | h in home :: h < |clusters|
  {
    hide Center;
    forall h | h in home ensures h < |clusters| {
      var g :| 0 <= g < |home| && home[g] == h;
      assert AtHome(groups[g], home[g], home[..g], Centers(clusters), p, dist);
    }
  }

  /** One more group, where it belongs. */
  lemma HouseOne(clusters: seq<Cluster>, groups: seq<seq<Evidence>>, home: seq<nat>, items: seq<Evidence>, h: nat,
                 next: seq<Cluster>, p: BaseParams, dist: Distance)
    requires Housed(clusters, groups, home, p, dist) && items != [] && Centers(clusters) <= Centers(next)
    requires AtHome(items, h, home, Centers(next), p, dist)
    requires forall i: nat | i < |next| :: i in home + [h] && next[i].items == Gathered(groups + [items], home + [h], i)
    ensures Housed(next, groups + [items], home + [h], p, dist)
  {
    hide Center, AtHome, Centers, Gathered;
    var groups', home' := groups + [items], home + [h];
    forall g | 0 <= g < |groups'|
      ensures groups'[g] != [] && AtHome(groups'[g], home'[g], home'[..g], Centers(next), p, dist)
    {
      if g < |groups| {
        assert home'[..g] == home[..g];
        AtHomeStill(groups[g], home[g], home[..g], Centers(clusters), Centers(next), p, dist);
      } else {
        assert home'[..g] == home;
      }
    }
  }

  lemma GroupJoins(clusters: seq<Cluster>, groups: seq<seq<Evidence>>, home: seq<nat>, items: seq<Evidence>, h: nat,
                   p: BaseParams, dist: Distance)
    requires Housed(clusters, groups, home, p, dist) && items != [] && h < |clusters|
    requires dist(clusters[h].center, Center(items)) < p.mergeM
    requires forall k | 0 <= k < h :: dist(clusters[k].center, Center(items)) >= p.mergeM
    ensures Housed(clusters[h := clusters[h].(items := clusters[h].items + items)], groups + [items], home + [h],
                   p, dist)
  {
    hide Center, Gathered;
    var next := clusters[h := clusters[h].(items := clusters[h].items + items)];
    assert Centers(next) == Centers(clusters);
    assert AtHome(items, h, home, Centers(next), p, dist) by {
      assert h in home && forall k: nat | k < h :: k in home;
    }
    hide AtHome, Centers;
    forall i: nat | i < |next|
      ensures i in home + [h] && next[i].items == Gathered(groups + [items], home + [h], i)
    {
      GatheredSnoc(groups, home, items, h, i);
    }
    HouseOne(clusters, groups, home, items, h, next, p, dist);
  }

  lemma FoundsHere(clusters: seq<Cluster>, home: seq<nat>, items: seq<Evidence>, p: BaseParams, dist: Distance)
    requires items != []
    requires forall k: nat | k < |clusters| :: k in home && dist(clusters[k].center, Center(items)) >= p.mergeM
    requires forall h | h in home :: h < |clusters|
    ensures var next := clusters + [Cluster(Center(items), items)];
            Centers(clusters) <= Centers(next) && AtHome(items, |clusters|, home, Centers(next), p, dist)
  {
    hide Center;
  }

  lemma GroupFounds(clusters: seq<Cluster>, groups: seq<seq<Evidence>>, home: seq<nat>, items: seq<Evidence>,
                    p: BaseParams, dist: Distance)
    requires Housed(clusters, groups, home, p, dist) && items != []
    requires forall h | h in home :: h < |clusters|
    requires forall k | 0 <= k < |clusters| :: dist(clusters[k].center, Center(items)) >= p.mergeM
    ensures Housed(clusters + [Cluster(Center(items), items)], groups + [items], home + [|clusters|], p, dist)
  {
    hide Center, Gathered;
    var next, h := clusters + [Cluster(Center(items), items)], |clusters|;
    FoundsHere(clusters, home, items, p, dist) by {
      assert forall k: nat | k < h :: k in home;
    }
    hide AtHome, Centers;
    forall i: nat | i < |next|
      ensures i in home + [h] && next[i].items == Gathered(groups + [items], home + [h], i)
    {
      GatheredSnoc(groups, home, items, h, i);
      if i == h {
        NoneGathered(groups, home, i);
        assert (home + [h])[|home|] == i;
      }
    }
    HouseOne(clusters, groups, home, items, h, next, p, dist);
  }

  lemma PlacedHoused(clusters: seq<Cluster>, groups: seq<seq<Evidence>>, home: seq<nat>, items: seq<Evidence>,
                     p: BaseParams, dist: Distance) returns (h: nat)
    requires Housed(clusters, groups, home, p, dist) && items != []
    ensures Housed(Place(clusters, items, p, dist), groups + [items], home + [h], p, dist)
  {
    hide Housed, FirstNear, Center;
    FirstNearFirst(clusters, Center(items), p, dist);
    match FirstNear(clusters, Center(items), p, dist)
    case Some(i) =>
      h := i;
      GroupJoins(clusters, groups, home, items, h, p, dist);
    case None =>
      h := |clusters|;
      HousedInRange(clusters, groups, home, p, dist);
      GroupFounds(clusters, groups, home, items, p, dist);
  }

  lemma {:induction false} MergedHoused(groups: seq<seq<Evidence>>, p: BaseParams, dist: Distance)
    returns (home: seq<nat>)
    requires forall g | 0 <= g < |groups| :: groups[g] != []
    ensures Housed(Merged(groups, p, dist), groups, home, p, dist)
  {
    if groups == [] {
      home := [];
    } else {
      hide Housed, Place;
      FrontLast(groups);
      var before := MergedHoused(Front(groups), p, dist);
      var h := PlacedHoused(Merged(Front(groups), p, dist), Front(groups), before, Last(groups), p, dist);
      home := before + [h];
    }
  }

  // ---- The bases ----

  function Enough(p: BaseParams, minDays: int): Cluster -> bool {
    (c: Cluster) => |c.items| >= p.minVisits && (minDays > 0 ==> |set e | e in c.items :: e.day| >= minDays)
  }

  /** How the bases came about: the groups, the clusters they went to, and the clusters that are bases. */
  datatype Founding = Founding(groups: seq<seq<Evidence>>, cells: seq<LatLng>, home: seq<nat>, clusters: seq<Cluster>,
                               idx: seq<nat>)

  /** The bases are the clusters with enough evidence, in order, each grounded in its own. */
  ghost predicate BasesMean(bases: seq<Base>, f: Founding, ev: seq<Evidence>, p: BaseParams, minDays: int, grid: Grid,
                            dist: Distance)
  {
    && ByCell(f.groups, f.cells, ev, grid) && Housed(f.clusters, f.groups, f.home, p, dist)
    && PlacesWhere(f.idx, f.clusters, Enough(p, minDays)) && |bases| == |f.idx|
    && (forall k | 0 <= k < |f.idx| ::
          f.idx[k] < |f.clusters| && Grounded(bases[k], f.clusters[f.idx[k]], p, minDays, grid))
  }

  lemma EnoughQualifies(c: Cluster, p: BaseParams, minDays: int)
    ensures Enough(p, minDays)(c) <==> Qualifies(c, p, minDays)
  {
  }

  lemma {:induction false} BasesFiltered(clusters: seq<Cluster>, p: BaseParams, minDays: int, grid: Grid)
    requires NonEmpty(clusters)
    ensures |BasesFrom(clusters, p, minDays, grid)| == |Filter(clusters, Enough(p, minDays))|
    ensures forall k | 0 <= k < |Filter(clusters, Enough(p, minDays))| ::
      var c := Filter(clusters, Enough(p, minDays))[k];
      c.items != [] && Qualifies(c, p, minDays) && BasesFrom(clusters, p, minDays, grid)[k] == BaseOf(c, p, grid)
  {
    hide Enough, Qualifies, BaseOf;
    if clusters != [] {
      BasesFiltered(Front(clusters), p, minDays, grid);
      EnoughQualifies(Last(clusters), p, minDays);
    }
  }

  lemma BasesArePlaces(clusters: seq<Cluster>, p: BaseParams, minDays: int, grid: Grid) returns (idx: seq<nat>)
    requires NonEmpty(clusters)
    ensures PlacesWhere(idx, clusters, Enough(p, minDays)) && |BasesFrom(clusters, p, minDays, grid)| == |idx|
    ensures forall k | 0 <= k < |idx| ::
      idx[k] < |clusters| && Grounded(BasesFrom(clusters, p, minDays, grid)[k], clusters[idx[k]], p, minDays, grid)
  {
    hide PlacesWhere, Enough, Qualifies, Grounded, BaseOf, Filter, BasesFrom;
    idx := FilterPlaces(clusters, Enough(p, minDays));
    BasesFiltered(clusters, p, minDays, grid);
    forall k | 0 <= k < |idx|
      ensures Grounded(BasesFrom(clusters, p, minDays, grid)[k], clusters[idx[k]], p, minDays, grid)
    {
      BaseIsGrounded(clusters[idx[k]], p, minDays, grid);
    }
  }

  /** Clustering in plain terms. */
  lemma BasesAccounted(ev: seq<Evidence>, p: BaseParams, minDays: int, grid: Grid, dist: Distance)
    returns (f: Founding)
    ensures BasesMean(ClusteredBases(ev, p, minDays, grid, dist), f, ev, p, minDays, grid, dist)
  {
    hide Merged, GroupsIn, CellOrder, ByCell, Housed, PlacesWhere, Grounded, BasesFrom;
    var cells := CellOrder(ev, grid);
    var groups := GroupsIn(ev, cells, grid);
    GroupedByCell(ev, grid);
    var home := MergedHoused(groups, p, dist);
    var clusters := Clusters(ev, p, grid, dist);
    var idx := BasesArePlaces(clusters, p, minDays, grid);
    f := Founding(groups, cells, home, clusters, idx);
  }
}
