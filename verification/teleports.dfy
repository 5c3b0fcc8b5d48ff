/**
 Teleport rejection (internal/journey/journey.go, rejectTeleports): clusters of mislocated fixes are
 dropped from the sorted stream.
 */
module Teleports {
  import opened Domain
  import opened Seqs

  datatype Params = Params(
    gapThresholdMinutes: real, thinSpacingSeconds: real, minStopDwellSeconds: real, maxAccuracyM: real,
    airSpeedMinKmh: real, maxSpeedKmh: real, clusterRadiusM: real, divergenceWarnPct: real)

  datatype PointSource = Trace | Raw

  datatype TimedPoint = TimedPoint(time: Time, loc: LatLng, source: PointSource)

  // ---- Implied speed ----

  function MaxReal(a: real, b: real): real { if a > b then a else b }

  /**
   Whether the implied speed between two points is above the limit. The elapsed time is floored at the
   thinning spacing; with no time at all, any displacement is infinitely fast.
   */
  predicate TooFast(a: TimedPoint, b: TimedPoint, p: Params, dist: Distance) {
    var km := dist(a.loc, b.loc) / 1000.0;
    var h := MaxReal(Hours(a.time, b.time), p.thinSpacingSeconds / 3600.0);
    if h <= 0.0 then km != 0.0 else km / h > p.maxSpeedKmh
  }

  // ---- Clusters ----

  type Cluster = seq<TimedPoint>

  /** Maximal runs of consecutive points within the radius of the run's first point. */
  function Clusters(pts: seq<TimedPoint>, radiusM: real, dist: Distance): (cs: seq<Cluster>)
    ensures pts != [] ==> cs != []
    ensures forall i | 0 <= i < |cs| :: cs[i] != []
  {
    if pts == [] then []
    else
      var cs := Clusters(Front(pts), radiusM, dist);
      if cs == [] || dist(Last(cs)[0].loc, Last(pts).loc) > radiusM then cs + [[Last(pts)]]
      else Front(cs) + [Last(cs) + [Last(pts)]]
  }

  /**
   The last accepted cluster before cluster `i`, and with it whether cluster `i` is rejected: an edge to
   it is impossible while bridging over it is not. The first and last clusters are never judged.
   */
  function Anchor(cs: seq<Cluster>, i: nat, p: Params, dist: Distance): (a: nat)
    requires 1 <= i <= |cs| && forall j | 0 <= j < |cs| :: cs[j] != []
    ensures a < i
    decreases i, 0
  {
    if i == 1 then 0
    else if Rejected(cs, i - 1, p, dist) then Anchor(cs, i - 1, p, dist)
    else i - 1
  }

  predicate Rejected(cs: seq<Cluster>, i: nat, p: Params, dist: Distance)
    requires i < |cs| && forall j | 0 <= j < |cs| :: cs[j] != []
    decreases i, 1
  {
    0 < i < |cs| - 1
    && var entryFrom := Last(cs[Anchor(cs, i, p, dist)]);
       var next := cs[i + 1][0];
       (TooFast(entryFrom, cs[i][0], p, dist) || TooFast(Last(cs[i]), next, p, dist))
       && !TooFast(entryFrom, next, p, dist)
  }

  /** The points of the accepted clusters among the first `k`. */
  function Accepted(cs: seq<Cluster>, k: nat, p: Params, dist: Distance): seq<TimedPoint>
    requires k <= |cs| && forall j | 0 <= j < |cs| :: cs[j] != []
  {
    if k == 0 then []
    else Accepted(cs, k - 1, p, dist) + if Rejected(cs, k - 1, p, dist) then [] else cs[k - 1]
  }

  /** The stream without its teleports. */
  function WithoutTeleports(pts: seq<TimedPoint>, p: Params, dist: Distance): seq<TimedPoint> {
    if p.maxSpeedKmh <= 0.0 || |pts| < 3 then pts
    else
      var cs := Clusters(pts, p.clusterRadiusM, dist);
      Accepted(cs, |cs|, p, dist)
  }

  // ---- What survives ----

  lemma {:induction false} ClustersCover(pts: seq<TimedPoint>, radiusM: real, dist: Distance)
    ensures Flatten(Clusters(pts, radiusM, dist)) == pts
  {
    if pts != [] {
      var cs: seq<Cluster> := Clusters(Front(pts), radiusM, dist);
      ClustersCover(Front(pts), radiusM, dist);
      if cs == [] || dist(Last(cs)[0].loc, Last(pts).loc) > radiusM {
        FlattenSnoc(cs, [Last(pts)]);
      } else {
        FlattenSnoc(Front(cs), Last(cs) + [Last(pts)]);
      }
      assert pts == Front(pts) + [Last(pts)];
    }
  }

  ghost predicate NearFirst(c: Cluster, radiusM: real, dist: Distance) {
    forall k | 0 < k < |c| :: dist(c[0].loc, c[k].loc) <= radiusM
  }

  /** Within a cluster every point is near the first; the next cluster starts with a point that is not. */
  ghost predicate Maximal(cs: seq<Cluster>, radiusM: real, dist: Distance)
    requires forall i | 0 <= i < |cs| :: cs[i] != []
  {
    && (forall i | 0 <= i < |cs| :: NearFirst(cs[i], radiusM, dist))
    && (forall i | 0 < i < |cs| :: dist(cs[i - 1][0].loc, cs[i][0].loc) > radiusM)
  }

  lemma GrowLast(cs: seq<Cluster>, pt: TimedPoint, radiusM: real, dist: Distance)
    requires forall i | 0 <= i < |cs| :: cs[i] != []
    requires cs != [] && Maximal(cs, radiusM, dist) && dist(Last(cs)[0].loc, pt.loc) <= radiusM
    ensures Maximal(Front(cs) + [Last(cs) + [pt]], radiusM, dist)
  {
    var grown := Front(cs) + [Last(cs) + [pt]];
    forall i | 0 <= i < |grown| ensures NearFirst(grown[i], radiusM, dist) {
      assert NearFirst(cs[i], radiusM, dist);
    }
    assert forall i | 0 <= i < |grown| :: grown[i][0] == cs[i][0];
  }

  lemma {:induction false} ClustersMaximal(pts: seq<TimedPoint>, radiusM: real, dist: Distance)
    ensures Maximal(Clusters(pts, radiusM, dist), radiusM, dist)
  {
    if pts != [] {
      ClustersMaximal(Front(pts), radiusM, dist);
      var cs: seq<Cluster> := Clusters(Front(pts), radiusM, dist);
      if cs != [] && dist(Last(cs)[0].loc, Last(pts).loc) <= radiusM {
        GrowLast(cs, Last(pts), radiusM, dist);
      }
    }
  }

  /** A strictly increasing list of positions in a stream, and the points they select. */
  ghost predicate Selects(idx: seq<nat>, pts: seq<TimedPoint>, kept: seq<TimedPoint>) {
    && |idx| == |kept|
    && (forall k | 0 <= k < |idx| :: idx[k] < |pts| && kept[k] == pts[idx[k]])
    && (forall j, k | 0 <= j < k < |idx| :: idx[j] < idx[k])
  }

  /** Neighbours in the result were neighbours in the stream, or the hop between them is plausible. */
  ghost predicate PlausibleJoins(idx: seq<nat>, kept: seq<TimedPoint>, p: Params, dist: Distance)
    requires |idx| == |kept|
  {
    forall k | 0 <= k < |kept| - 1 :: idx[k + 1] == idx[k] + 1 || !TooFast(kept[k], kept[k + 1], p, dist)
  }

  /** The positions after one more cluster: unchanged if it is rejected, else its whole stretch. */
  lemma JoinCluster(idx: seq<nat>, pts: seq<TimedPoint>, kept: seq<TimedPoint>, c: Cluster, p: Params, dist: Distance)
    returns (idx': seq<nat>)
    requires c != [] && Selects(idx, pts, kept) && PlausibleJoins(idx, kept, p, dist)
    requires kept != [] ==> Last(idx) == |pts| - 1 || !TooFast(Last(kept), c[0], p, dist)
    ensures Selects(idx', pts + c, kept + c) && PlausibleJoins(idx', kept + c, p, dist)
    ensures idx' != [] && Last(idx') == |pts + c| - 1
    ensures idx'[0] == (if idx == [] then |pts| else idx[0])
  {
    hide TooFast;
    var kept' := kept + c;
    idx' := idx + seq(|c|, j requires 0 <= j < |c| => |pts| + j);
    forall k | 0 <= k < |kept'| - 1
      ensures idx'[k + 1] == idx'[k] + 1 || !TooFast(kept'[k], kept'[k + 1], p, dist)
    {
      if k < |kept| - 1 {
        assert idx[k + 1] == idx[k] + 1 || !TooFast(kept[k], kept[k + 1], p, dist);
      }
    }
    assert Selects(idx', pts + c, kept') by {
      assert forall k | 0 <= k < |idx| :: (pts + c)[idx[k]] == pts[idx[k]];
      assert forall j | 0 <= j < |c| :: (pts + c)[|pts| + j] == c[j];
    }
  }

  lemma SelectsMore(idx: seq<nat>, pts: seq<TimedPoint>, kept: seq<TimedPoint>, more: seq<TimedPoint>)
    requires Selects(idx, pts, kept)
    ensures Selects(idx, pts + more, kept)
  {
  }

  /** The positions found so far: a bridged selection that starts at the start and can be continued. */
  ghost predicate Bridged(idx: seq<nat>, pts: seq<TimedPoint>, kept: seq<TimedPoint>, p: Params, dist: Distance) {
    && Selects(idx, pts, kept) && PlausibleJoins(idx, kept, p, dist)
    && idx != [] && idx[0] == 0
  }

  ghost function Positions(n: nat): (idx: seq<nat>) { seq(n, i requires 0 <= i < n => i) }

  lemma AllPositions(pts: seq<TimedPoint>, p: Params, dist: Distance)
    ensures Selects(Positions(|pts|), pts, pts) && PlausibleJoins(Positions(|pts|), pts, p, dist)
  {
    hide TooFast;
  }

  lemma NextCluster(idx: seq<nat>, pts: seq<TimedPoint>, kept: seq<TimedPoint>, c: Cluster, p: Params, dist: Distance)
    returns (idx': seq<nat>)
    requires c != [] && Bridged(idx, pts, kept, p, dist)
    requires Last(idx) == |pts| - 1 || !TooFast(Last(kept), c[0], p, dist)
    ensures Bridged(idx', pts + c, kept + c, p, dist) && Last(idx') == |pts + c| - 1
  {
    hide TooFast;
    idx' := JoinCluster(idx, pts, kept, c, p, dist);
  }

  /** One cluster more: dropped, it leaves a plausible hop ahead; accepted, it is joined on. */
  lemma {:induction false} KeptPositions(cs: seq<Cluster>, k: nat, p: Params, dist: Distance) returns (idx: seq<nat>)
    requires 1 <= k <= |cs| && forall j | 0 <= j < |cs| :: cs[j] != []
    ensures Bridged(idx, Flatten(cs[..k]), Accepted(cs, k, p, dist), p, dist)
    ensures Last(Accepted(cs, k, p, dist)) == Last(cs[Anchor(cs, k, p, dist)])
    ensures Last(idx) == |Flatten(cs[..k])| - 1
      || (k < |cs| && !TooFast(Last(Accepted(cs, k, p, dist)), cs[k][0], p, dist))
  {
    hide TooFast, Selects, PlausibleJoins, Flatten;
    PrefixSnoc(cs, k - 1);
    if k == 1 {
      AcceptedFirst(cs, p, dist);
      AllPositions(cs[0], p, dist);
      idx := Positions(|cs[0]|);
    } else {
      var before := KeptPositions(cs, k - 1, p, dist);
      var pts, kept := Flatten(cs[..k - 1]), Accepted(cs, k - 1, p, dist);
      if Rejected(cs, k - 1, p, dist) {
        idx := before;
        SelectsMore(idx, pts, kept, cs[k - 1]);
        assert Accepted(cs, k, p, dist) == kept + [] == kept;
      } else {
        idx := NextCluster(before, pts, kept, cs[k - 1], p, dist);
      }
    }
  }

  lemma PrefixSnoc(cs: seq<Cluster>, k: nat)
    requires k < |cs|
    ensures Flatten(cs[..k + 1]) == Flatten(cs[..k]) + cs[k]
    ensures k == 0 ==> Flatten(cs[..k + 1]) == cs[0]
  {
    assert cs[..k + 1] == cs[..k] + [cs[k]];
    FlattenSnoc(cs[..k], cs[k]);
  }

  lemma AcceptedFirst(cs: seq<Cluster>, p: Params, dist: Distance)
    requires cs != [] && forall j | 0 <= j < |cs| :: cs[j] != []
    ensures Accepted(cs, 1, p, dist) == cs[0] && Anchor(cs, 1, p, dist) == 0
  {
    assert Accepted(cs, 1, p, dist) == [] + cs[0];
  }

  /**
   Teleport rejection keeps a subsequence of the stream with its first and last points, and every hop it
   creates by dropping points is a plausible one.
   */
  lemma TeleportsAreBridged(pts: seq<TimedPoint>, p: Params, dist: Distance) returns (idx: seq<nat>)
    ensures Selects(idx, pts, WithoutTeleports(pts, p, dist))
    ensures PlausibleJoins(idx, WithoutTeleports(pts, p, dist), p, dist)
    ensures pts != [] ==> idx != [] && idx[0] == 0 && Last(idx) == |pts| - 1
  {
    hide TooFast, Selects, PlausibleJoins, Clusters, Accepted;
    if p.maxSpeedKmh <= 0.0 || |pts| < 3 {
      AllPositions(pts, p, dist);
      idx := Positions(|pts|);
    } else {
      var cs := Clusters(pts, p.clusterRadiusM, dist);
      ClustersCover(pts, p.clusterRadiusM, dist);
      idx := KeptPositions(cs, |cs|, p, dist);
      assert cs[..|cs|] == cs;
    }
  }

  // ---- What is dropped ----

  /** More kilometres than the limit allows in the time, which counts as the thinning spacing if it is less. */
  ghost predicate AboveLimit(a: TimedPoint, b: TimedPoint, p: Params, dist: Distance) {
    var km := dist(a.loc, b.loc) / 1000.0;
    && km > 0.0
    && km > p.maxSpeedKmh * ((b.time.ns - a.time.ns) as real / 3_600_000_000_000.0)
    && km > p.maxSpeedKmh * (p.thinSpacingSeconds / 3600.0)
  }

  lemma LimitIsTooFast(a: TimedPoint, b: TimedPoint, p: Params, dist: Distance)
    requires p.maxSpeedKmh > 0.0
    ensures AboveLimit(a, b, p, dist) <==> TooFast(a, b, p, dist)
  {
    var km, h, floor := dist(a.loc, b.loc) / 1000.0, Hours(a.time, b.time), p.thinSpacingSeconds / 3600.0;
    LimitByHours(km, p.maxSpeedKmh, h, floor);
  }

  lemma LimitByHours(km: real, limit: real, h: real, floor: real)
    requires limit > 0.0 && km >= 0.0
    ensures var most := MaxReal(h, floor);
            (if most <= 0.0 then km != 0.0 else km / most > limit)
              <==> km > 0.0 && km > limit * h && km > limit * floor
  {
    var most := MaxReal(h, floor);
    Scaled(limit, h, most);
    Scaled(limit, floor, most);
    if most > 0.0 {
      RateAbove(km, most, limit);
    } else {
      Scaled(limit, most, 0.0);
    }
  }

  lemma Scaled(limit: real, x: real, y: real)
    requires limit > 0.0 && x <= y
    ensures limit * x <= limit * y
  {
  }

  /**
   Coming from cluster `a`, cluster `i` is reached or left too fast, while going straight on from `a` to
   the next cluster is not too fast.
   */
  ghost predicate Bogus(cs: seq<Cluster>, a: nat, i: nat, p: Params, dist: Distance)
    requires forall j | 0 <= j < |cs| :: cs[j] != []
  {
    && a < i < |cs| - 1
    && (AboveLimit(Last(cs[a]), cs[i][0], p, dist) || AboveLimit(Last(cs[i]), cs[i + 1][0], p, dist))
    && !AboveLimit(Last(cs[a]), cs[i + 1][0], p, dist)
  }

  function Picked(cs: seq<Cluster>, chosen: seq<nat>): seq<Cluster>
    requires forall k | 0 <= k < |chosen| :: chosen[k] < |cs|
  {
    seq(|chosen|, k requires 0 <= k < |chosen| => cs[chosen[k]])
  }

  /** The choice of clusters among the first `n`: each skipped one is bogus, each kept one is not. */
  ghost predicate Choice(cs: seq<Cluster>, n: nat, chosen: seq<nat>, p: Params, dist: Distance)
    requires forall j | 0 <= j < |cs| :: cs[j] != []
  {
    && chosen != [] && chosen[0] == 0 && Last(chosen) < n <= |cs|
    && (forall k | 0 <= k < |chosen| - 1 :: chosen[k] < chosen[k + 1])
    && (forall k | 0 <= k < |chosen| :: chosen[k] < n)
    && (forall k, i: nat | 0 <= k < |chosen| - 1 && chosen[k] < i < chosen[k + 1] :: Bogus(cs, chosen[k], i, p, dist))
    && (forall i: nat | Last(chosen) < i < n :: Bogus(cs, Last(chosen), i, p, dist))
    && (forall k | 0 < k < |chosen| :: !Bogus(cs, chosen[k - 1], chosen[k], p, dist))
  }

  lemma RejectedIsBogus(cs: seq<Cluster>, i: nat, p: Params, dist: Distance)
    requires 1 <= i < |cs| && (forall j | 0 <= j < |cs| :: cs[j] != []) && p.maxSpeedKmh > 0.0
    ensures Rejected(cs, i, p, dist) <==> Bogus(cs, Anchor(cs, i, p, dist), i, p, dist)
  {
    hide TooFast, AboveLimit, Anchor;
    if i < |cs| - 1 {
      var from := Last(cs[Anchor(cs, i, p, dist)]);
      LimitIsTooFast(from, cs[i][0], p, dist);
      LimitIsTooFast(Last(cs[i]), cs[i + 1][0], p, dist);
      LimitIsTooFast(from, cs[i + 1][0], p, dist);
    }
  }

  lemma ChoiceSkips(cs: seq<Cluster>, n: nat, chosen: seq<nat>, p: Params, dist: Distance)
    requires (forall j | 0 <= j < |cs| :: cs[j] != []) && n < |cs|
    requires Choice(cs, n, chosen, p, dist) && Bogus(cs, Last(chosen), n, p, dist)
    ensures Choice(cs, n + 1, chosen, p, dist)
  {
    hide Bogus;
  }

  lemma ChoiceTakes(cs: seq<Cluster>, n: nat, chosen: seq<nat>, p: Params, dist: Distance)
    requires (forall j | 0 <= j < |cs| :: cs[j] != []) && n < |cs|
    requires Choice(cs, n, chosen, p, dist) && !Bogus(cs, Last(chosen), n, p, dist)
    ensures Choice(cs, n + 1, chosen + [n], p, dist)
    ensures Picked(cs, chosen + [n]) == Picked(cs, chosen) + [cs[n]]
  {
    hide Bogus;
  }

  lemma {:induction false} ChoiceMade(cs: seq<Cluster>, n: nat, p: Params, dist: Distance) returns (chosen: seq<nat>)
    requires 1 <= n <= |cs| && (forall j | 0 <= j < |cs| :: cs[j] != []) && p.maxSpeedKmh > 0.0
    ensures Choice(cs, n, chosen, p, dist) && Last(chosen) == Anchor(cs, n, p, dist)
    ensures Accepted(cs, n, p, dist) == Flatten(Picked(cs, chosen))
  {
    hide Bogus, Choice, Flatten, Picked;
    if n == 1 {
      chosen := [0];
      FirstChoice(cs, p, dist);
    } else {
      var before := ChoiceMade(cs, n - 1, p, dist);
      RejectedIsBogus(cs, n - 1, p, dist);
      ChoiceBounds(cs, n - 1, before, p, dist);
      AcceptedStep(cs, n - 1, p, dist);
      if Rejected(cs, n - 1, p, dist) {
        chosen := before;
        ChoiceSkips(cs, n - 1, before, p, dist);
      } else {
        chosen := before + [n - 1];
        ChoiceTakes(cs, n - 1, before, p, dist);
        FlattenSnoc(Picked(cs, before), cs[n - 1]);
      }
    }
  }

  lemma ChoiceBounds(cs: seq<Cluster>, n: nat, chosen: seq<nat>, p: Params, dist: Distance)
    requires (forall j | 0 <= j < |cs| :: cs[j] != []) && Choice(cs, n, chosen, p, dist)
    ensures chosen != [] && forall k | 0 <= k < |chosen| :: chosen[k] < |cs|
  {
  }

  lemma FirstChoice(cs: seq<Cluster>, p: Params, dist: Distance)
    requires cs != [] && forall j | 0 <= j < |cs| :: cs[j] != []
    ensures Choice(cs, 1, [0], p, dist) && Anchor(cs, 1, p, dist) == 0
    ensures Accepted(cs, 1, p, dist) == Flatten(Picked(cs, [0]))
  {
    AcceptedFirst(cs, p, dist);
    hide Accepted, Anchor, Bogus, Flatten;
    assert Picked(cs, [0]) == [] + [cs[0]];
    FlattenSnoc([], cs[0]);
    assert [] + cs[0] == cs[0];
  }

  /**
   The result of rejection in plain terms: the stream's clusters, of which some are left out. The first and
   the last stay, every one left out is bogus seen from the one kept before it, no other is.
   */
  ghost predicate Purged(pts: seq<TimedPoint>, kept: seq<TimedPoint>, cs: seq<Cluster>, chosen: seq<nat>,
                         p: Params, dist: Distance)
  {
    && (forall j | 0 <= j < |cs| :: cs[j] != [])
    && Flatten(cs) == pts && Maximal(cs, p.clusterRadiusM, dist)
    && Choice(cs, |cs|, chosen, p, dist) && Last(chosen) == |cs| - 1
    && kept == Flatten(Picked(cs, chosen))
  }

  /** With a speed limit, a stream of three points or more loses exactly its teleports. */
  lemma TeleportsAreDropped(pts: seq<TimedPoint>, p: Params, dist: Distance)
    returns (cs: seq<Cluster>, chosen: seq<nat>)
    requires p.maxSpeedKmh > 0.0 && |pts| >= 3
    ensures Purged(pts, WithoutTeleports(pts, p, dist), cs, chosen, p, dist)
  {
    hide Clusters, Accepted, Choice, Maximal, Flatten, Rejected, Picked;
    cs := Clusters(pts, p.clusterRadiusM, dist);
    ClustersCover(pts, p.clusterRadiusM, dist);
    ClustersMaximal(pts, p.clusterRadiusM, dist);
    chosen := ChoiceMade(cs, |cs|, p, dist);
    LastStays(cs, p, dist);
  }

  lemma LastStays(cs: seq<Cluster>, p: Params, dist: Distance)
    requires cs != [] && forall j | 0 <= j < |cs| :: cs[j] != []
    ensures Anchor(cs, |cs|, p, dist) == |cs| - 1
  {
    hide TooFast;
  }

  /** Consecutive points of a cluster sequence are consecutive points of the stream. */
  lemma {:induction false} ClusterEdge(cs: seq<Cluster>, i: nat, n: nat) returns (k: nat)
    requires i + 1 < n <= |cs| && forall j | 0 <= j < |cs| :: cs[j] != []
    ensures k + 1 < |Flatten(cs[..n])|
    ensures Flatten(cs[..n])[k] == Last(cs[i]) && Flatten(cs[..n])[k + 1] == cs[i + 1][0]
    decreases n
  {
    assert cs[..n] == cs[..n - 1] + [cs[n - 1]];
    FlattenSnoc(cs[..n - 1], cs[n - 1]);
    if n == i + 2 {
      assert cs[..n - 1] == cs[..i] + [cs[i]];
      FlattenSnoc(cs[..i], cs[i]);
      k := |Flatten(cs[..n - 1])| - 1;
    } else {
      k := ClusterEdge(cs, i, n - 1);
    }
  }

  lemma {:induction false} NothingRejected(cs: seq<Cluster>, k: nat, p: Params, dist: Distance)
    requires k <= |cs| && forall j | 0 <= j < |cs| :: cs[j] != []
    requires forall i | 0 <= i < |cs| - 1 :: !TooFast(Last(cs[i]), cs[i + 1][0], p, dist)
    ensures k > 0 ==> Anchor(cs, k, p, dist) == k - 1
    ensures k < |cs| ==> !Rejected(cs, k, p, dist)
    ensures Accepted(cs, k, p, dist) == Flatten(cs[..k])
  {
    hide TooFast;
    if k > 0 {
      NothingRejected(cs, k - 1, p, dist);
      assert cs[..k] == cs[..k - 1] + [cs[k - 1]];
      FlattenSnoc(cs[..k - 1], cs[k - 1]);
    }
  }

  /** A stream with no implausible hop is returned as it is. */
  lemma PlausibleStreamsPass(pts: seq<TimedPoint>, p: Params, dist: Distance)
    requires forall k | 0 <= k < |pts| - 1 :: !TooFast(pts[k], pts[k + 1], p, dist)
    ensures WithoutTeleports(pts, p, dist) == pts
  {
    hide TooFast;
    var cs := Clusters(pts, p.clusterRadiusM, dist);
    ClustersCover(pts, p.clusterRadiusM, dist);
    assert cs[..|cs|] == cs;
    forall i | 0 <= i < |cs| - 1 ensures !TooFast(Last(cs[i]), cs[i + 1][0], p, dist) {
      var k := ClusterEdge(cs, i, |cs|);
      assert pts[k] == Last(cs[i]) && pts[k + 1] == cs[i + 1][0];
    }
    NothingRejected(cs, |cs|, p, dist);
  }

  // ---- The method ----

  /** A cluster by its place in the stream, half open. */
  datatype Range = Range(start: nat, end: nat)

  ghost predicate Cut(pts: seq<TimedPoint>, r: Range, c: Cluster) {
    r.start < r.end <= |pts| && c == pts[r.start..r.end]
  }

  ghost predicate Cuts(pts: seq<TimedPoint>, rs: seq<Range>, cs: seq<Cluster>) {
    |rs| == |cs| && forall k | 0 <= k < |rs| :: Cut(pts, rs[k], cs[k])
  }

  /** One more point either extends the open cluster or closes it and opens the next. */
  lemma ClustersStep(pts: seq<TimedPoint>, closed: seq<Cluster>, start: nat, i: nat, radiusM: real, dist: Distance)
    requires start < i < |pts| && closed + [pts[start..i]] == Clusters(pts[..i], radiusM, dist)
    ensures Clusters(pts[..i + 1], radiusM, dist)
         == if dist(pts[start].loc, pts[i].loc) > radiusM then closed + [pts[start..i]] + [pts[i..i + 1]]
            else closed + [pts[start..i + 1]]
  {
    var cs: seq<Cluster> := closed + [pts[start..i]];
    assert Front(pts[..i + 1]) == pts[..i] && Last(pts[..i + 1]) == pts[i];
    assert Last(cs) == pts[start..i] && Last(cs)[0] == pts[start] && Front(cs) == closed;
    assert pts[start..i + 1] == pts[start..i] + [pts[i]];
    assert pts[i..i + 1] == [pts[i]];
  }

  lemma FirstPoint(pts: seq<TimedPoint>, radiusM: real, dist: Distance)
    requires pts != []
    ensures Clusters(pts[..1], radiusM, dist) == [pts[0..1]]
  {
    assert Front(pts[..1]) == [] && pts[0..1] == [pts[0]];
    assert Clusters(pts[..1], radiusM, dist) == [] + [[pts[0]]];
  }

  method FindClusters(pts: seq<TimedPoint>, radiusM: real, dist: Distance)
    returns (clusters: seq<Range>, ghost cs: seq<Cluster>)
    requires pts != []
    ensures cs == Clusters(pts, radiusM, dist) && Cuts(pts, clusters, cs) && |clusters| == |cs|
  {
    hide Clusters;
    clusters, cs := [], [];
    var start, i := 0, 1;
    FirstPoint(pts, radiusM, dist);
    while i <= |pts|
      invariant 1 <= i <= |pts| + 1 && Cuts(pts, clusters, cs)
      invariant i <= |pts| ==> start < i && cs + [pts[start..i]] == Clusters(pts[..i], radiusM, dist)
      invariant i == |pts| + 1 ==> cs == Clusters(pts, radiusM, dist)
    {
      if i < |pts| {
        ClustersStep(pts, cs, start, i, radiusM, dist);
      }
      if i == |pts| || dist(pts[start].loc, pts[i].loc) > radiusM {
        assert Cut(pts, Range(start, i), pts[start..i]);
        clusters, cs := clusters + [Range(start, i)], cs + [pts[start..i]];
        start := i;
      }
      i := i + 1;
      assert pts[..|pts|] == pts;
    }
  }

  lemma CutEnds(pts: seq<TimedPoint>, rs: seq<Range>, cs: seq<Cluster>, k: nat)
    requires Cuts(pts, rs, cs) && k < |rs|
    ensures rs[k].start < rs[k].end <= |pts| && cs[k] != []
    ensures cs[k][0] == pts[rs[k].start] && Last(cs[k]) == pts[rs[k].end - 1]
    ensures cs[k] == pts[rs[k].start..rs[k].end]
  {
    assert Cut(pts, rs[k], cs[k]);
  }

  method FlagClusters(pts: seq<TimedPoint>, clusters: seq<Range>, p: Params, dist: Distance, ghost cs: seq<Cluster>)
    returns (rejected: array<bool>)
    requires clusters != [] && |clusters| == |cs| && Cuts(pts, clusters, cs) && forall k | 0 <= k < |cs| :: cs[k] != []
    ensures rejected.Length == |clusters|
    ensures forall k | 0 <= k < |clusters| :: rejected[k] == Rejected(cs, k, p, dist)
  {
    hide TooFast, Cuts;
    rejected := new bool[|clusters|](_ => false);
    var prev, i := 0, 1;
    while i < |clusters| - 1
      invariant |cs| == |clusters| && 1 <= i <= |clusters|
      invariant prev == Anchor(cs, i, p, dist)
      invariant forall k | 0 <= k < i :: rejected[k] == Rejected(cs, k, p, dist)
      invariant forall k | i <= k < |clusters| :: !rejected[k]
    {
      CutEnds(pts, clusters, cs, prev);
      CutEnds(pts, clusters, cs, i);
      CutEnds(pts, clusters, cs, i + 1);
      var entryFrom := pts[clusters[prev].end - 1];
      var first := pts[clusters[i].start];
      var last := pts[clusters[i].end - 1];
      var next := pts[clusters[i + 1].start];
      var impossible := TooFast(entryFrom, first, p, dist) || TooFast(last, next, p, dist);
      var bridgeable := !TooFast(entryFrom, next, p, dist);
      if impossible && bridgeable {
        rejected[i] := true;
      } else {
        prev := i;
      }
      i := i + 1;
    }
  }

  /** The stream without its teleports, and how many points that dropped. */
  method RejectTeleports(pts: seq<TimedPoint>, p: Params, dist: Distance)
    returns (kept: seq<TimedPoint>, dropped: nat)
    ensures kept == WithoutTeleports(pts, p, dist)
    ensures dropped + |kept| == |pts|
    ensures p.maxSpeedKmh <= 0.0 || |pts| < 3 ==> kept == pts
    ensures p.maxSpeedKmh > 0.0 && |pts| >= 3 ==> exists cs, chosen :: Purged(pts, kept, cs, chosen, p, dist)
  {
    hide TooFast, Rejected, Clusters, Cuts, Flatten, Purged;
    if p.maxSpeedKmh <= 0.0 || |pts| < 3 {
      return pts, 0;
    }
    ghost var parts, chosen := TeleportsAreDropped(pts, p, dist);
    ghost var cs: seq<Cluster>;
    var clusters;
    clusters, cs := FindClusters(pts, p.clusterRadiusM, dist);
    ClustersCover(pts, p.clusterRadiusM, dist);
    var rejected := FlagClusters(pts, clusters, p, dist, cs);
    kept, dropped := [], 0;
    FlattenNone(cs);
    for i := 0 to |clusters|
      invariant |cs| == |clusters|
      invariant forall k | 0 <= k < |clusters| :: rejected[k] == Rejected(cs, k, p, dist)
      invariant kept == Accepted(cs, i, p, dist)
      invariant dropped + |kept| == |Flatten(cs[..i])|
    {
      PrefixSnoc(cs, i);
      CutEnds(pts, clusters, cs, i);
      AcceptedStep(cs, i, p, dist);
      var c := clusters[i];
      if rejected[i] {
        dropped := dropped + (c.end - c.start);
        continue;
      }
      kept := kept + pts[c.start..c.end];
    }
    assert cs[..|cs|] == cs;
    if dropped == 0 {
      AllAccepted(cs, |cs|, p, dist);
      return pts, 0;
    }
  }

  lemma AcceptedStep(cs: seq<Cluster>, i: nat, p: Params, dist: Distance)
    requires i < |cs| && forall j | 0 <= j < |cs| :: cs[j] != []
    ensures Accepted(cs, i + 1, p, dist)
         == if Rejected(cs, i, p, dist) then Accepted(cs, i, p, dist) else Accepted(cs, i, p, dist) + cs[i]
  {
    hide TooFast, Rejected;
    assert Accepted(cs, i, p, dist) + [] == Accepted(cs, i, p, dist);
  }

  lemma FlattenNone(cs: seq<Cluster>)
    ensures Flatten(cs[..0]) == []
  {
  }

  /** Dropping nothing leaves the stream itself. */
  lemma {:induction false} AllAccepted(cs: seq<Cluster>, k: nat, p: Params, dist: Distance)
    requires k <= |cs| && forall j | 0 <= j < |cs| :: cs[j] != []
    ensures |Accepted(cs, k, p, dist)| <= |Flatten(cs[..k])|
    ensures |Accepted(cs, k, p, dist)| == |Flatten(cs[..k])| ==> Accepted(cs, k, p, dist) == Flatten(cs[..k])
  {
    hide TooFast, Rejected;
    if k > 0 {
      AllAccepted(cs, k - 1, p, dist);
      PrefixSnoc(cs, k - 1);
    }
  }
}