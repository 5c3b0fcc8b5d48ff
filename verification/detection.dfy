/**
 Detection passes (internal/detect/detect.go, pyport.go): binary search over start times, in-place outlier
 compaction, maximal away-runs, and the candidates they give.
 */
module Detection {
  import opened Domain
  import opened Seqs

  // ---- Binary search, as Python's bisect ----

  ghost predicate Ascending(ts: seq<int>) { forall i, j | 0 <= i < j < |ts| :: ts[i] <= ts[j] }

  /** Where bisection for the first entry not below the target ends up between `lo` and `hi`, on any list. */
  function LeftPoint(ts: seq<int>, target: int, lo: nat, hi: nat): (r: nat)
    requires lo <= hi <= |ts|
    ensures lo <= r <= hi
    decreases hi - lo
  {
    if lo == hi then lo
    else
      var mid := (lo + hi) / 2;
      if ts[mid] < target then LeftPoint(ts, target, mid + 1, hi) else LeftPoint(ts, target, lo, mid)
  }

  /** The same for the first entry above the target. */
  function RightPoint(ts: seq<int>, target: int, lo: nat, hi: nat): (r: nat)
    requires lo <= hi <= |ts|
    ensures lo <= r <= hi
    decreases hi - lo
  {
    if lo == hi then lo
    else
      var mid := (lo + hi) / 2;
      if target < ts[mid] then RightPoint(ts, target, lo, mid) else RightPoint(ts, target, mid + 1, hi)
  }

  lemma {:induction false} LeftPointSplits(ts: seq<int>, target: int, lo: nat, hi: nat)
    requires lo <= hi <= |ts| && Ascending(ts)
    requires (forall i | 0 <= i < lo :: ts[i] < target) && (forall i | hi <= i < |ts| :: ts[i] >= target)
    ensures var r := LeftPoint(ts, target, lo, hi);
            (forall i | 0 <= i < r :: ts[i] < target) && (forall i | r <= i < |ts| :: ts[i] >= target)
    decreases hi - lo
  {
    if lo < hi {
      var mid := (lo + hi) / 2;
      if ts[mid] < target {
        assert forall i | 0 <= i < mid :: ts[i] <= ts[mid];
        LeftPointSplits(ts, target, mid + 1, hi);
      } else {
        assert forall i | mid < i < |ts| :: ts[mid] <= ts[i];
        LeftPointSplits(ts, target, lo, mid);
      }
    }
  }

  lemma {:induction false} RightPointSplits(ts: seq<int>, target: int, lo: nat, hi: nat)
    requires lo <= hi <= |ts| && Ascending(ts)
    requires (forall i | 0 <= i < lo :: ts[i] <= target) && (forall i | hi <= i < |ts| :: ts[i] > target)
    ensures var r := RightPoint(ts, target, lo, hi);
            (forall i | 0 <= i < r :: ts[i] <= target) && (forall i | r <= i < |ts| :: ts[i] > target)
    decreases hi - lo
  {
    if lo < hi {
      var mid := (lo + hi) / 2;
      if target < ts[mid] {
        RightPointSplits(ts, target, lo, mid);
      } else {
        RightPointSplits(ts, target, mid + 1, hi);
      }
    }
  }

  /** On ascending input: everything before `r` is below the target, everything from `r` on is not. */
  method BisectLeft(ts: seq<int>, target: int) returns (r: nat)
    ensures r <= |ts| && r == LeftPoint(ts, target, 0, |ts|)
    ensures Ascending(ts) ==> (forall i | 0 <= i < r :: ts[i] < target) && (forall i | r <= i < |ts| :: ts[i] >= target)
  {
    var lo, hi := 0, |ts|;
    while lo < hi
      invariant 0 <= lo <= hi <= |ts|
      invariant LeftPoint(ts, target, 0, |ts|) == LeftPoint(ts, target, lo, hi)
    {
      var mid := (lo + hi) / 2;
      if ts[mid] < target {
        lo := mid + 1;
      } else {
        hi := mid;
      }
    }
    r := lo;
    if Ascending(ts) {
      LeftPointSplits(ts, target, 0, |ts|);
    }
  }

  method BisectRight(ts: seq<int>, target: int) returns (r: nat)
    ensures r <= |ts| && r == RightPoint(ts, target, 0, |ts|)
    ensures Ascending(ts) ==> (forall i | 0 <= i < r :: ts[i] <= target) && (forall i | r <= i < |ts| :: ts[i] > target)
  {
    var lo, hi := 0, |ts|;
    while lo < hi
      invariant 0 <= lo <= hi <= |ts|
      invariant RightPoint(ts, target, 0, |ts|) == RightPoint(ts, target, lo, hi)
    {
      var mid := (lo + hi) / 2;
      if target < ts[mid] {
        hi := mid;
      } else {
        lo := mid + 1;
      }
    }
    r := lo;
    if Ascending(ts) {
      RightPointSplits(ts, target, 0, |ts|);
    }
  }

  // ---- Outliers ----

  /** A located stretch of the timeline, possibly a single instant. */
  datatype Obs = Obs(start: Time, end: Time, loc: LatLng)

  function AbsHours(a: Time, b: Time): real {
    var h := Hours(a, b);
    if h < 0.0 then -h else h
  }

  /** Neighbour `j` exists and is some time away from `i`. */
  predicate Considered(all: seq<Obs>, i: nat, j: int)
    requires i < |all|
  {
    0 <= j < |all| && AbsHours(all[i].start, all[j].start) > 0.0
  }

  predicate FastFrom(all: seq<Obs>, i: nat, j: int, maxKmh: real, dist: Distance)
    requires i < |all|
  {
    Considered(all, i, j)
    && dist(all[i].loc, all[j].loc) / 1000.0 / AbsHours(all[i].start, all[j].start) > maxKmh
  }

  /** Too fast from every neighbour that can tell, and at least one can. */
  predicate Bad(all: seq<Obs>, i: nat, maxKmh: real, dist: Distance)
    requires i < |all|
  {
    && (Considered(all, i, i - 1) || Considered(all, i, i + 1))
    && (Considered(all, i, i - 1) ==> FastFrom(all, i, i - 1, maxKmh, dist))
    && (Considered(all, i, i + 1) ==> FastFrom(all, i, i + 1, maxKmh, dist))
  }

  /** The good observations among the first `k`, judged against the whole original list. */
  function Good(all: seq<Obs>, k: nat, maxKmh: real, dist: Distance): (r: seq<Obs>)
    requires k <= |all|
    ensures |r| <= k
  {
    if k == 0 then []
    else Good(all, k - 1, maxKmh, dist) + if Bad(all, k - 1, maxKmh, dist) then [] else [all[k - 1]]
  }

  method FlagOutliers(all: array<Obs>, maxKmh: real, dist: Distance) returns (bad: array<bool>)
    ensures fresh(bad) && bad.Length == all.Length
    ensures forall i | 0 <= i < all.Length :: bad[i] == Bad(all[..], i, maxKmh, dist)
  {
    bad := new bool[all.Length](_ => false);
    ghost var was := all[..];
    for i := 0 to all.Length
      invariant all[..] == was
      invariant forall k | 0 <= k < i :: bad[k] == Bad(was, k, maxKmh, dist)
    {
      var considered, fast := 0, 0;
      if 0 <= i - 1 {
        considered, fast := Judge(all, i, i - 1, maxKmh, dist);
      }
      if i + 1 < all.Length {
        var c, f := Judge(all, i, i + 1, maxKmh, dist);
        considered, fast := considered + c, fast + f;
      }
      bad[i] := considered > 0 && fast == considered;
    }
  }

  method Judge(all: array<Obs>, i: nat, j: nat, maxKmh: real, dist: Distance) returns (considered: nat, fast: nat)
    requires i < all.Length && j < all.Length
    ensures considered == if Considered(all[..], i, j) then 1 else 0
    ensures fast == if FastFrom(all[..], i, j, maxKmh, dist) then 1 else 0
  {
    var dtHrs := AbsHours(all[i].start, all[j].start);
    if dtHrs <= 0.0 {
      return 0, 0;
    }
    considered, fast := 1, 0;
    if dist(all[i].loc, all[j].loc) / 1000.0 / dtHrs > maxKmh {
      fast := 1;
    }
  }

  /** Flags first, on the untouched list; then one pass that moves the good observations to the front. */
  method RejectOutliers(all: array<Obs>, maxKmh: real, dist: Distance) returns (n: nat, dropped: nat)
    modifies all
    ensures n + dropped == all.Length
    ensures all[..n] == Good(old(all[..]), all.Length, maxKmh, dist)
    ensures all[n..] == old(all[n..])
  {
    hide Bad;
    var bad := FlagOutliers(all, maxKmh, dist);
    ghost var was := all[..];
    n, dropped := 0, 0;
    for i := 0 to all.Length
      invariant n + dropped == i
      invariant forall k | 0 <= k < all.Length :: bad[k] == Bad(was, k, maxKmh, dist)
      invariant all[..n] == Good(was, i, maxKmh, dist)
      invariant forall k | n <= k < all.Length :: all[k] == was[k]
    {
      if bad[i] {
        dropped := dropped + 1;
        assert Good(was, i, maxKmh, dist) + [] == Good(was, i, maxKmh, dist);
      } else {
        ghost var front := all[..n];
        all[n] := all[i];
        n := n + 1;
        assert all[..n] == front + [was[i]];
      }
    }
    assert all[n..] == was[n..];
  }

  /** A neighbour that was observed at another instant. */
  ghost predicate TimedNeighbour(all: seq<Obs>, i: nat, j: int)
    requires i < |all|
  {
    0 <= j < |all| && (j == i - 1 || j == i + 1) && all[j].start.ns != all[i].start.ns
  }

  /** More kilometres apart than the limit allows in the time between. */
  ghost predicate TooFarApart(a: Obs, b: Obs, maxKmh: real, dist: Distance) {
    var ns := if a.start.ns < b.start.ns then b.start.ns - a.start.ns else a.start.ns - b.start.ns;
    dist(a.loc, b.loc) / 1000.0 > maxKmh * (ns as real / 3_600_000_000_000.0)
  }

  /** There is a timed neighbour, and the observation is too far from every one there is. */
  ghost predicate Outlier(all: seq<Obs>, i: nat, maxKmh: real, dist: Distance)
    requires i < |all|
  {
    && (exists j :: TimedNeighbour(all, i, j))
    && (forall j | TimedNeighbour(all, i, j) :: TooFarApart(all[i], all[j], maxKmh, dist))
  }

  lemma FastFromMeans(all: seq<Obs>, i: nat, j: int, maxKmh: real, dist: Distance)
    requires i < |all| && (j == i - 1 || j == i + 1)
    ensures Considered(all, i, j) <==> TimedNeighbour(all, i, j)
    ensures Considered(all, i, j) ==> (FastFrom(all, i, j, maxKmh, dist) <==> TooFarApart(all[i], all[j], maxKmh, dist))
  {
    if Considered(all, i, j) {
      RateAbove(dist(all[i].loc, all[j].loc) / 1000.0, AbsHours(all[i].start, all[j].start), maxKmh);
    }
  }

  lemma BadIsOutlier(all: seq<Obs>, i: nat, maxKmh: real, dist: Distance)
    requires i < |all|
    ensures Bad(all, i, maxKmh, dist) <==> Outlier(all, i, maxKmh, dist)
  {
    FastFromMeans(all, i, i - 1, maxKmh, dist);
    FastFromMeans(all, i, i + 1, maxKmh, dist);
    hide Considered, FastFrom, TooFarApart;
  }

  /** Judged good, an observation stays; the survivors keep their order. */
  lemma {:induction false} GoodExact(all: seq<Obs>, k: nat, maxKmh: real, dist: Distance) returns (idx: seq<nat>)
    requires k <= |all|
    ensures |idx| == |Good(all, k, maxKmh, dist)|
    ensures forall a | 0 <= a < |idx| ::
      idx[a] < k && !Bad(all, idx[a], maxKmh, dist) && Good(all, k, maxKmh, dist)[a] == all[idx[a]]
    ensures forall a, b | 0 <= a < b < |idx| :: idx[a] < idx[b]
    ensures forall i: nat | i < k && !Bad(all, i, maxKmh, dist) :: i in idx
    ensures forall i: nat | i < k :: i in idx <==> !Outlier(all, i, maxKmh, dist)
  {
    hide Bad, Good, Outlier;
    if k > 0 {
      BadIsOutlier(all, k - 1, maxKmh, dist);
    }
    GoodStep(all, k, maxKmh, dist);
    if k == 0 {
      idx := [];
    } else {
      idx := GoodExact(all, k - 1, maxKmh, dist);
      if !Bad(all, k - 1, maxKmh, dist) {
        ghost var longer := idx + [k - 1];
        assert longer[|idx|] == k - 1;
        assert forall i | i in idx :: i in longer;
        idx := longer;
      }
    }
  }

  lemma GoodStep(all: seq<Obs>, k: nat, maxKmh: real, dist: Distance)
    requires k <= |all|
    ensures k == 0 ==> Good(all, k, maxKmh, dist) == []
    ensures k > 0 && Bad(all, k - 1, maxKmh, dist) ==> Good(all, k, maxKmh, dist) == Good(all, k - 1, maxKmh, dist)
    ensures k > 0 && !Bad(all, k - 1, maxKmh, dist) ==>
      Good(all, k, maxKmh, dist) == Good(all, k - 1, maxKmh, dist) + [all[k - 1]]
  {
    hide Bad;
  }

  // ---- Away-runs ----

  datatype Span = Span(s: nat, e: nat)

  ghost predicate Away(dist: seq<real>, nearM: real, i: int)
  {
    0 <= i < |dist| && dist[i] > nearM
  }

  /** Away throughout, and at home (or nowhere) on either side. */
  ghost predicate MaximalRun(dist: seq<real>, nearM: real, r: Span) {
    && r.s <= r.e < |dist|
    && (forall i | r.s <= i <= r.e :: Away(dist, nearM, i))
    && !Away(dist, nearM, r.s - 1) && !Away(dist, nearM, r.e + 1)
  }

  ghost predicate InSome(spans: seq<Span>, i: int) { exists k :: 0 <= k < |spans| && spans[k].s <= i <= spans[k].e }

  ghost predicate Separated(spans: seq<Span>) {
    forall a, b | 0 <= a < b < |spans| :: spans[a].e + 1 < spans[b].s
  }

  /** Exactly the maximal away-runs, in order, with a home observation between any two. */
  method FindSpans(dist: seq<real>, nearM: real) returns (spans: seq<Span>)
    ensures forall k | 0 <= k < |spans| :: MaximalRun(dist, nearM, spans[k])
    ensures Separated(spans)
    ensures forall i | Away(dist, nearM, i) :: InSome(spans, i)
  {
    spans := [];
    var cur, last := -1, -1;
    for i := 0 to |dist|
      invariant forall k | 0 <= k < |spans| :: MaximalRun(dist, nearM, spans[k]) && spans[k].e + 1 < i
      invariant Separated(spans)
      invariant cur >= 0 ==> 0 <= cur <= last == i - 1 && !Away(dist, nearM, cur - 1)
      invariant cur >= 0 ==> forall k | cur <= k < i :: Away(dist, nearM, k)
      invariant cur >= 0 ==> forall k | 0 <= k < |spans| :: spans[k].e + 1 < cur
      invariant cur < 0 ==> !Away(dist, nearM, i - 1)
      invariant forall k | 0 <= k < i && Away(dist, nearM, k) :: InSome(spans, k) || (cur >= 0 && cur <= k)
    {
      if dist[i] > nearM {
        if cur < 0 {
          cur := i;
        }
        last := i;
      } else if cur >= 0 {
        spans := CloseSpan(dist, nearM, spans, cur, last, i);
        cur := -1;
      }
    }
    if cur >= 0 {
      spans := CloseSpan(dist, nearM, spans, cur, last, |dist|);
    }
  }

  /** Recording the run that ends just before `i`. */
  method CloseSpan(dist: seq<real>, nearM: real, spans: seq<Span>, cur: nat, last: nat, ghost i: nat)
    returns (more: seq<Span>)
    requires cur <= last == i - 1 < |dist| && !Away(dist, nearM, cur - 1) && !Away(dist, nearM, i)
    requires forall k | cur <= k < i :: Away(dist, nearM, k)
    requires forall k | 0 <= k < |spans| :: MaximalRun(dist, nearM, spans[k]) && spans[k].e + 1 < cur
    requires Separated(spans)
    requires forall k | 0 <= k < i && Away(dist, nearM, k) :: InSome(spans, k) || cur <= k
    ensures more == spans + [Span(cur, last)] && Separated(more)
    ensures forall k | 0 <= k < |more| :: MaximalRun(dist, nearM, more[k]) && more[k].e + 1 < i + 1
    ensures forall k | 0 <= k < i && Away(dist, nearM, k) :: InSome(more, k)
  {
    more := spans + [Span(cur, last)];
    forall k | 0 <= k < i && Away(dist, nearM, k) ensures InSome(more, k) {
      if InSome(spans, k) {
        var m :| 0 <= m < |spans| && spans[m].s <= k <= spans[m].e;
        assert more[m] == spans[m];
      } else {
        assert more[|spans|] == Span(cur, last);
      }
    }
  }

  /** A list with those three properties leaves out no maximal run. */
  lemma SpansAreAllRuns(dist: seq<real>, nearM: real, spans: seq<Span>, r: Span)
    requires forall k | 0 <= k < |spans| :: MaximalRun(dist, nearM, spans[k])
    requires forall i | Away(dist, nearM, i) :: InSome(spans, i)
    requires MaximalRun(dist, nearM, r)
    ensures r in spans
  {
    assert Away(dist, nearM, r.s);
    var k :| 0 <= k < |spans| && spans[k].s <= r.s <= spans[k].e;
    var q := spans[k];
    assert MaximalRun(dist, nearM, q);
    SameRun(dist, nearM, q, r);
  }

  lemma InRun(dist: seq<real>, nearM: real, q: Span, i: int)
    requires MaximalRun(dist, nearM, q)
    ensures q.s <= i <= q.e ==> Away(dist, nearM, i)
  {
  }

  lemma SameRun(dist: seq<real>, nearM: real, q: Span, r: Span)
    requires MaximalRun(dist, nearM, q) && MaximalRun(dist, nearM, r) && q.s <= r.s <= q.e
    ensures q == r
  {
    InRun(dist, nearM, q, r.s - 1);
    InRun(dist, nearM, r, q.e + 1);
    InRun(dist, nearM, q, r.e + 1);
  }

  // ---- Distance from home ----

  /** A home base, the civil dates it was active on, and how much evidence it rests on. */
  datatype Base = Base(center: LatLng, from: int, to: int, n: nat)

  predicate Active(b: Base, day: int) { b.from <= day <= b.to }

  ghost predicate NearestOf(d: real, bases: seq<Base>, among: Base -> bool, loc: LatLng, dist: Distance) {
    && (exists k :: 0 <= k < |bases| && among(bases[k]) && d == dist(bases[k].center, loc))
    && (forall k | 0 <= k < |bases| && among(bases[k]) :: d <= dist(bases[k].center, loc))
  }

  /** Distance to the nearest base that qualifies, -1 when none does. */
  function NearestM(bases: seq<Base>, among: Base -> bool, loc: LatLng, dist: Distance): real {
    if bases == [] then -1.0
    else
      var before := NearestM(Front(bases), among, loc, dist);
      var m := dist(Last(bases).center, loc);
      if among(Last(bases)) && (before < 0.0 || m < before) then m else before
  }

  lemma {:induction false} NearestIsNearest(bases: seq<Base>, among: Base -> bool, loc: LatLng, dist: Distance)
    ensures if exists k :: 0 <= k < |bases| && among(bases[k])
            then NearestOf(NearestM(bases, among, loc, dist), bases, among, loc, dist)
            else NearestM(bases, among, loc, dist) == -1.0
  {
    if bases != [] {
      var front := Front(bases);
      NearestIsNearest(front, among, loc, dist);
      assert bases[|bases| - 1] == Last(bases) && dist(Last(bases).center, loc) >= 0.0;
      assert forall k | 0 <= k < |front| :: bases[k] == front[k];
      if k :| 0 <= k < |bases| && among(bases[k]) {
        assert k < |front| ==> among(front[k]);
      }
      if k :| 0 <= k < |front| && among(front[k]) {
        assert among(bases[k]);
        var w :| 0 <= w < |front| && among(front[w]) && NearestM(front, among, loc, dist) == dist(front[w].center, loc);
        assert among(bases[w]);
      }
    }
  }

  function ActiveOn(day: int): Base -> bool { b => Active(b, day) }

  function AnyBase(): Base -> bool { _ => true }

  /** The nearest base active on the day; with none active, the nearest of all. */
  function HomeDist(bases: seq<Base>, t: Time, loc: LatLng, dist: Distance): real {
    var min := NearestM(bases, ActiveOn(CivilDay(t)), loc, dist);
    if min >= 0.0 then min else NearestM(bases, AnyBase(), loc, dist)
  }

  /** Which base the distance is measured to. */
  lemma HomeIsNearest(bases: seq<Base>, t: Time, loc: LatLng, dist: Distance)
    ensures var day, d := CivilDay(t), HomeDist(bases, t, loc, dist);
            if exists k :: 0 <= k < |bases| && bases[k].from <= day <= bases[k].to then
              (exists k :: 0 <= k < |bases| && bases[k].from <= day <= bases[k].to && d == dist(bases[k].center, loc))
              && forall k | 0 <= k < |bases| && bases[k].from <= day <= bases[k].to :: d <= dist(bases[k].center, loc)
            else if bases != [] then
              (exists k :: 0 <= k < |bases| && d == dist(bases[k].center, loc))
              && forall k | 0 <= k < |bases| :: d <= dist(bases[k].center, loc)
            else d == -1.0
  {
    hide CivilDay, NearestM;
    var day := CivilDay(t);
    NearestIsNearest(bases, ActiveOn(day), loc, dist);
    NearestIsNearest(bases, AnyBase(), loc, dist);
    if k :| 0 <= k < |bases| && Active(bases[k], day) {
      assert ActiveOn(day)(bases[k]);
    }
    if bases != [] {
      assert AnyBase()(bases[0]);
    }
  }

  method HomeDistM(bases: seq<Base>, t: Time, loc: LatLng, dist: Distance) returns (min: real)
    ensures min == HomeDist(bases, t, loc, dist)
  {
    hide CivilDay;
    var day := CivilDay(t);
    min := -1.0;
    for i := 0 to |bases|
      invariant min == NearestM(bases[..i], ActiveOn(day), loc, dist)
    {
      assert Front(bases[..i + 1]) == bases[..i];
      if !(bases[i].from <= day <= bases[i].to) {
        continue;
      }
      var m := dist(bases[i].center, loc);
      if min < 0.0 || m < min {
        min := m;
      }
    }
    assert bases[..|bases|] == bases;
    if min >= 0.0 {
      return;
    }
    NearestIsNearest(bases, ActiveOn(day), loc, dist);
    for i := 0 to |bases|
      invariant min == NearestM(bases[..i], AnyBase(), loc, dist)
    {
      assert Front(bases[..i + 1]) == bases[..i];
      var m := dist(bases[i].center, loc);
      if min < 0.0 || m < min {
        min := m;
      }
    }
  }
}
