/**
 The routing seam (internal/route/route.go) and its cache (internal/store/routes.go): unknown gaps become
 road legs from answers a batch collected earlier.
 */
module Routing {
  import opened Domain
  import opened Seqs
  import opened Teleports
  import opened Stops
  import opened Journeys

  // ---- Keys ----

  /** Half away from zero. */
  function Round(x: real): int { if x >= 0.0 then (x + 0.5).Floor else -((-x + 0.5).Floor) }

  function E4(deg: real): int { Round(deg * 10_000.0) }

  function FromE4(v: int): real { v as real / 10_000.0 }

  /** A cached request: the endpoints to four decimals, and the profile. Directional. */
  datatype Key = Key(fromLatE4: int, fromLonE4: int, toLatE4: int, toLonE4: int, profile: string) {
    function From(): LatLng { LatLng(FromE4(fromLatE4), FromE4(fromLonE4)) }

    function To(): LatLng { LatLng(FromE4(toLatE4), FromE4(toLonE4)) }
  }

  function KeyFor(from: LatLng, to: LatLng, profile: string): Key {
    Key(E4(from.lat), E4(from.lon), E4(to.lat), E4(to.lon), profile)
  }

  /** The number of ten-thousandths nearest to the degrees, halves going away from zero. */
  ghost predicate NearestE4(v: int, deg: real) {
    var x := deg * 10_000.0;
    if x >= 0.0 then v as real - 0.5 <= x < v as real + 0.5 else v as real - 0.5 < x <= v as real + 0.5
  }

  /** The key asks for the way from one place to the other, coordinates to four decimals. */
  ghost predicate Asks(k: Key, from: LatLng, to: LatLng, profile: string) {
    && NearestE4(k.fromLatE4, from.lat) && NearestE4(k.fromLonE4, from.lon)
    && NearestE4(k.toLatE4, to.lat) && NearestE4(k.toLonE4, to.lon)
    && k.profile == profile
  }

  lemma NearestIsE4(v: int, deg: real)
    ensures NearestE4(v, deg) <==> v == E4(deg)
  {
    var x := deg * 10_000.0;
    if x >= 0.0 {
      assert (x + 0.5).Floor as real <= x + 0.5 < (x + 0.5).Floor as real + 1.0;
    } else {
      assert (-x + 0.5).Floor as real <= -x + 0.5 < (-x + 0.5).Floor as real + 1.0;
    }
  }

  lemma AsksIsKey(k: Key, from: LatLng, to: LatLng, profile: string)
    ensures Asks(k, from, to, profile) <==> k == KeyFor(from, to, profile)
  {
    NearestIsE4(k.fromLatE4, from.lat);
    NearestIsE4(k.fromLonE4, from.lon);
    NearestIsE4(k.toLatE4, to.lat);
    NearestIsE4(k.toLonE4, to.lon);
    hide NearestE4, E4;
  }

  lemma RoundExact(v: int)
    ensures E4(FromE4(v)) == v
  {
    assert FromE4(v) * 10_000.0 == v as real;
    if v >= 0 {
      assert (v as real + 0.5).Floor == v;
    } else {
      assert (-(v as real) + 0.5).Floor == -v;
    }
  }

  /** The rounded coordinates are the request: asking for them again is the same key. */
  lemma KeyIsTheRequest(k: Key)
    ensures KeyFor(k.From(), k.To(), k.profile) == k
  {
    RoundExact(k.fromLatE4);
    RoundExact(k.fromLonE4);
    RoundExact(k.toLatE4);
    RoundExact(k.toLonE4);
  }

  // ---- Which gaps are asked about ----

  datatype Status = Routed | NoRoute

  datatype Cached = Cached(status: Status, points: seq<LatLng>, distanceM: real, durationS: real)

  /** An unknown gap: the only kind of leg that is ever routed. */
  predicate Open(l: Leg) { l.kind == Gap && l.gapKind == Unknown }

  ghost predicate GapsHaveEnds(legs: seq<Leg>) {
    forall i | 0 <= i < |legs| && legs[i].kind == Gap :: |legs[i].points| == 2
  }

  function LegKey(l: Leg, profile: string): Key
    requires |l.points| == 2
  {
    KeyFor(l.points[0].loc, l.points[1].loc, profile)
  }

  function OpenKeys(legs: seq<Leg>, profile: string): seq<Key>
    requires GapsHaveEnds(legs)
  {
    if legs == [] then []
    else
      var keys := OpenKeys(Front(legs), profile);
      if Open(Last(legs)) && LegKey(Last(legs), profile) !in keys then keys + [LegKey(Last(legs), profile)] else keys
  }

  /** Every open gap's key is listed, no other key is, and none twice. */
  lemma {:induction false} OpenKeysAreTheGaps(legs: seq<Leg>, profile: string)
    requires GapsHaveEnds(legs)
    ensures forall i | 0 <= i < |legs| && Open(legs[i]) :: LegKey(legs[i], profile) in OpenKeys(legs, profile)
    ensures forall k | k in OpenKeys(legs, profile) ::
      exists i :: 0 <= i < |legs| && Open(legs[i]) && LegKey(legs[i], profile) == k
    ensures forall a, b | 0 <= a < b < |OpenKeys(legs, profile)| ::
      OpenKeys(legs, profile)[a] != OpenKeys(legs, profile)[b]
  {
    hide Round;
    if legs != [] {
      OpenKeysAreTheGaps(Front(legs), profile);
      forall k | k in OpenKeys(legs, profile)
        ensures exists i :: 0 <= i < |legs| && Open(legs[i]) && LegKey(legs[i], profile) == k
      {
        if k in OpenKeys(Front(legs), profile) {
          var i :| 0 <= i < |Front(legs)| && Open(Front(legs)[i]) && LegKey(Front(legs)[i], profile) == k;
          assert legs[i] == Front(legs)[i];
        } else {
          assert legs[|legs| - 1] == Last(legs);
        }
      }
    }
  }

  /** The leg is a gap nobody has explained, and the key asks for its own two ends. */
  ghost predicate AskedFor(k: Key, l: Leg, profile: string) {
    l.kind == Gap && l.gapKind == Unknown && |l.points| == 2 && Asks(k, l.points[0].loc, l.points[1].loc, profile)
  }

  lemma KeysMean(legs: seq<Leg>, profile: string)
    requires GapsHaveEnds(legs)
    ensures forall k :: k in OpenKeys(legs, profile) <==> exists i :: 0 <= i < |legs| && AskedFor(k, legs[i], profile)
  {
    OpenKeysAreTheGaps(legs, profile);
    hide OpenKeys, Asks, KeyFor;
    forall k ensures k in OpenKeys(legs, profile) <==> exists i :: 0 <= i < |legs| && AskedFor(k, legs[i], profile) {
      forall i | 0 <= i < |legs| && Open(legs[i])
        ensures AskedFor(k, legs[i], profile) <==> LegKey(legs[i], profile) == k
      {
        AsksIsKey(k, legs[i].points[0].loc, legs[i].points[1].loc, profile);
      }
    }
  }

  method UnknownKeys(j: Journey, profile: string) returns (keys: seq<Key>)
    requires GapsHaveEnds(j.legs)
    ensures keys == OpenKeys(j.legs, profile)
    ensures forall k :: k in keys <==> exists i :: 0 <= i < |j.legs| && AskedFor(k, j.legs[i], profile)
    ensures forall a, b | 0 <= a < b < |keys| :: keys[a] != keys[b]
  {
    hide Round, AskedFor, E4;
    var seen: set<Key> := {};
    keys := [];
    for i := 0 to |j.legs|
      invariant keys == OpenKeys(j.legs[..i], profile)
      invariant seen == set k | k in keys
    {
      var l := j.legs[i];
      assert Front(j.legs[..i + 1]) == j.legs[..i];
      if l.kind != Gap || l.gapKind != Unknown {
        continue;
      }
      var k := KeyFor(l.points[0].loc, l.points[1].loc, profile);
      if k !in seen {
        seen := seen + {k};
        keys := keys + [k];
      }
    }
    assert j.legs[..|j.legs|] == j.legs;
    KeysMean(j.legs, profile);
    OpenKeysAreTheGaps(j.legs, profile);
  }

  // ---- Applying cached answers ----

  predicate Answered(l: Leg, profile: string, lookup: map<Key, Cached>) {
    Open(l) && |l.points| == 2 && LegKey(l, profile) in lookup && lookup[LegKey(l, profile)].status == Routed
  }

  function RouteLeg(l: Leg, profile: string, lookup: map<Key, Cached>): Leg {
    if !Answered(l, profile, lookup) then l
    else
      var c := lookup[LegKey(l, profile)];
      l.(gapKind := Road, routedPoints := c.points, routedKm := c.distanceM / 1000.0)
  }

  function RouteLegs(legs: seq<Leg>, profile: string, lookup: map<Key, Cached>): (r: seq<Leg>)
    ensures |r| == |legs| && forall i | 0 <= i < |legs| :: r[i] == RouteLeg(legs[i], profile, lookup)
  {
    if legs == [] then [] else RouteLegs(Front(legs), profile, lookup) + [RouteLeg(Last(legs), profile, lookup)]
  }

  /** Road kilometres gained: only legs answered by this very application count. */
  function GainedKm(legs: seq<Leg>, profile: string, lookup: map<Key, Cached>): real {
    if legs == [] then 0.0
    else
      var gained :=
        if Answered(Last(legs), profile, lookup) then RouteLeg(Last(legs), profile, lookup).routedKm else 0.0;
      GainedKm(Front(legs), profile, lookup) + gained
  }

  function OpenKm(legs: seq<Leg>): real {
    if legs == [] then 0.0 else OpenKm(Front(legs)) + if Open(Last(legs)) then Last(legs).distanceKm else 0.0
  }

  function Applied(j: Journey, profile: string, lookup: map<Key, Cached>): Journey {
    var legs := RouteLegs(j.legs, profile, lookup);
    j.(legs := legs, routedKm := GainedKm(j.legs, profile, lookup), unknownKm := OpenKm(legs))
  }

  lemma RouteStep(legs: seq<Leg>, i: nat, profile: string, lookup: map<Key, Cached>)
    requires i < |legs|
    ensures RouteLegs(legs[..i + 1], profile, lookup)
         == RouteLegs(legs[..i], profile, lookup) + [RouteLeg(legs[i], profile, lookup)]
    ensures GainedKm(legs[..i + 1], profile, lookup) == GainedKm(legs[..i], profile, lookup)
      + if Answered(legs[i], profile, lookup) then RouteLeg(legs[i], profile, lookup).routedKm else 0.0
    ensures OpenKm(RouteLegs(legs[..i + 1], profile, lookup)) == OpenKm(RouteLegs(legs[..i], profile, lookup))
      + if Open(RouteLeg(legs[i], profile, lookup)) then legs[i].distanceKm else 0.0
  {
    hide Answered;
    var before := RouteLegs(legs[..i], profile, lookup);
    assert Front(legs[..i + 1]) == legs[..i];
    assert Front(before + [RouteLeg(legs[i], profile, lookup)]) == before;
  }

  /** The lookup holds a road for this gap. */
  ghost predicate RoadFor(k: Key, l: Leg, profile: string, lookup: map<Key, Cached>) {
    AskedFor(k, l, profile) && k in lookup && lookup[k].status == Routed
  }

  /** A gap with a road is drawn along it and as long as it; any other leg stays as it was. */
  ghost predicate DrawnAs(l: Leg, r: Leg, profile: string, lookup: map<Key, Cached>) {
    if exists k :: RoadFor(k, l, profile, lookup)
    then exists k :: RoadFor(k, l, profile, lookup)
           && r == l.(gapKind := Road, routedPoints := lookup[k].points, routedKm := lookup[k].distanceM / 1000.0)
    else r == l
  }

  function Itself(x: real): real { x }

  /** The road kilometres of the legs that were an unknown gap before and are a road now. */
  function NewRoadKm(was: seq<Leg>, now: seq<Leg>): seq<real>
    requires |was| == |now|
  {
    seq(|was|, i requires 0 <= i < |was| =>
      if was[i].kind == Gap && was[i].gapKind == Unknown && now[i].gapKind == Road then now[i].routedKm else 0.0)
  }

  /** The straight kilometres of the gaps nobody has explained. */
  function UnexplainedKm(legs: seq<Leg>): seq<real> {
    seq(|legs|, i requires 0 <= i < |legs| =>
      if legs[i].kind == Gap && legs[i].gapKind == Unknown then legs[i].distanceKm else 0.0)
  }

  lemma RouteLegDraws(l: Leg, profile: string, lookup: map<Key, Cached>)
    requires l.kind == Gap ==> |l.points| == 2
    ensures DrawnAs(l, RouteLeg(l, profile, lookup), profile, lookup)
  {
    if Open(l) {
      var k := LegKey(l, profile);
      forall q ensures RoadFor(q, l, profile, lookup) <==> q == k && Answered(l, profile, lookup) {
        AsksIsKey(q, l.points[0].loc, l.points[1].loc, profile);
      }
      assert Answered(l, profile, lookup) ==> RoadFor(k, l, profile, lookup);
      hide RoadFor, KeyFor;
    }
  }

  lemma {:induction false} TotalsMean(legs: seq<Leg>, profile: string, lookup: map<Key, Cached>)
    ensures GainedKm(legs, profile, lookup) == Sum(NewRoadKm(legs, RouteLegs(legs, profile, lookup)), Itself)
    ensures OpenKm(legs) == Sum(UnexplainedKm(legs), Itself)
  {
    hide LegKey;
    if legs != [] {
      TotalsMean(Front(legs), profile, lookup);
      LastTotals(legs, RouteLegs(legs, profile, lookup));
      hide Sum, NewRoadKm, UnexplainedKm;
    }
  }

  lemma LastTotals(was: seq<Leg>, now: seq<Leg>)
    requires was != [] && |was| == |now|
    ensures var last := NewRoadKm([Last(was)], [Last(now)])[0];
            Sum(NewRoadKm(was, now), Itself) == Sum(NewRoadKm(Front(was), Front(now)), Itself) + last
    ensures Sum(UnexplainedKm(was), Itself)
         == Sum(UnexplainedKm(Front(was)), Itself) + UnexplainedKm([Last(was)])[0]
  {
    assert Front(NewRoadKm(was, now)) == NewRoadKm(Front(was), Front(now));
    assert Front(UnexplainedKm(was)) == UnexplainedKm(Front(was));
  }

  /** Every leg is drawn as it should be, the two totals follow, and nothing else changes. */
  ghost predicate DrawsRoads(j: Journey, out: Journey, profile: string, lookup: map<Key, Cached>) {
    && |out.legs| == |j.legs|
    && out == j.(legs := out.legs, routedKm := out.routedKm, unknownKm := out.unknownKm)
    && (forall i | 0 <= i < |j.legs| :: DrawnAs(j.legs[i], out.legs[i], profile, lookup))
    && out.routedKm == Sum(NewRoadKm(j.legs, out.legs), Itself)
    && out.unknownKm == Sum(UnexplainedKm(out.legs), Itself)
  }

  /** What applying a lookup does, in terms of the places each gap joins. */
  lemma AppliedMeans(j: Journey, profile: string, lookup: map<Key, Cached>)
    requires GapsHaveEnds(j.legs)
    ensures var out := Applied(j, profile, lookup);
            DrawsRoads(j, out, profile, lookup)
  {
    TotalsMean(j.legs, profile, lookup);
    TotalsMean(RouteLegs(j.legs, profile, lookup), profile, lookup);
    hide GainedKm, OpenKm, DrawnAs, RouteLeg, NewRoadKm, UnexplainedKm, Sum;
    forall i | 0 <= i < |j.legs|
      ensures DrawnAs(j.legs[i], RouteLegs(j.legs, profile, lookup)[i], profile, lookup)
    {
      RouteLegDraws(j.legs[i], profile, lookup);
    }
  }

  method Apply(j: Journey, profile: string, lookup: map<Key, Cached>) returns (out: Journey)
    requires GapsHaveEnds(j.legs)
    ensures out == Applied(j, profile, lookup)
    ensures DrawsRoads(j, out, profile, lookup)
  {
    hide Round, RouteLegs, GainedKm, OpenKm, DrawsRoads, E4;
    var legs := new Leg[|j.legs|](i requires 0 <= i < |j.legs| => j.legs[i]);
    var routedKm, unknownKm := 0.0, 0.0;
    NothingRouted(profile, lookup);
    for i := 0 to legs.Length
      invariant legs[..i] == RouteLegs(j.legs[..i], profile, lookup)
      invariant forall k | i <= k < legs.Length :: legs[k] == j.legs[k]
      invariant routedKm == GainedKm(j.legs[..i], profile, lookup)
      invariant unknownKm == OpenKm(RouteLegs(j.legs[..i], profile, lookup))
    {
      var l := legs[i];
      RouteStep(j.legs, i, profile, lookup);
      assert legs[..i + 1] == legs[..i] + [legs[i]];
      if l.kind != Gap || l.gapKind != Unknown {
        continue;
      }
      var k := KeyFor(l.points[0].loc, l.points[1].loc, profile);
      if k !in lookup || lookup[k].status != Routed {
        unknownKm := unknownKm + l.distanceKm;
        continue;
      }
      var c := lookup[k];
      l := l.(gapKind := Road, routedPoints := c.points, routedKm := c.distanceM / 1000.0);
      legs[i] := l;
      assert legs[..i + 1] == legs[..i] + [l];
      routedKm := routedKm + l.routedKm;
    }
    assert j.legs[..|j.legs|] == j.legs && legs[..legs.Length] == legs[..];
    out := j.(legs := legs[..], routedKm := routedKm, unknownKm := unknownKm);
    AppliedMeans(j, profile, lookup);
  }

  lemma NothingRouted(profile: string, lookup: map<Key, Cached>)
    ensures RouteLegs([], profile, lookup) == [] && GainedKm([], profile, lookup) == 0.0 && OpenKm([]) == 0.0
  {
  }

  // ---- What routing changes, and what it leaves alone ----

  /** Fresh from assembly: no leg has been routed. */
  ghost predicate Unrouted(legs: seq<Leg>) {
    GapsHaveEnds(legs) && forall i | 0 <= i < |legs| :: legs[i].gapKind != Road && legs[i].routedKm == 0.0
  }

  /** The distance a leg is drawn with. */
  function DrawnKm(l: Leg): real { if l.gapKind == Road then l.routedKm else l.distanceKm }

  /** The straight-line length of the legs that are roads now. */
  function RoadChordKm(l: Leg): real { if l.gapKind == Road then l.distanceKm else 0.0 }

  /** Routing touches nothing of a leg but its gap kind and the routed figures beside it. */
  lemma RouteKeepsMeasurement(l: Leg, profile: string, lookup: map<Key, Cached>)
    ensures var r := RouteLeg(l, profile, lookup);
            && r.kind == l.kind && r.points == l.points && r.distanceKm == l.distanceKm
            && (r != l <==> Answered(l, profile, lookup))
            && (l.kind == Observed || l.gapKind == Air ==> r == l)
  {
  }

  lemma {:induction false} RouteAccounts(legs: seq<Leg>, profile: string, lookup: map<Key, Cached>)
    requires Unrouted(legs)
    ensures var r := RouteLegs(legs, profile, lookup);
            && OpenKm(r) + Sum(r, RoadChordKm) == OpenKm(legs)
            && Sum(r, DrawnKm) == Sum(legs, LegKm) - Sum(r, RoadChordKm) + GainedKm(legs, profile, lookup)
  {
    hide Answered;
    if legs != [] {
      RouteAccounts(Front(legs), profile, lookup);
      var before, l := RouteLegs(Front(legs), profile, lookup), RouteLeg(Last(legs), profile, lookup);
      SumSnoc(before, l, RoadChordKm);
      SumSnoc(before, l, DrawnKm);
      assert Front(before + [l]) == before;
      assert Open(Last(legs)) || !Answered(Last(legs), profile, lookup) by {
        NotOpenNotAnswered(Last(legs), profile, lookup);
      }
      assert legs[|legs| - 1].gapKind != Road;
    }
  }

  lemma NotOpenNotAnswered(l: Leg, profile: string, lookup: map<Key, Cached>)
    ensures !Open(l) ==> !Answered(l, profile, lookup)
  {
  }

  /** From assembly, the open gaps are exactly the gaps that are not flights. */
  lemma {:induction false} OpenIsGround(legs: seq<Leg>)
    requires forall i | 0 <= i < |legs| :: legs[i].kind == Gap ==> legs[i].gapKind == Air || legs[i].gapKind == Unknown
    ensures OpenKm(legs) == Sum(legs, LegGroundGapKm)
  {
    if legs != [] {
      OpenIsGround(Front(legs));
      assert legs[|legs| - 1] == Last(legs);
    }
  }

  /** Looking up a journey's own keys is as good as having the whole cache. */
  lemma {:induction false} OwnKeysSuffice(legs: seq<Leg>, profile: string, cache: map<Key, Cached>,
                                          part: map<Key, Cached>)
    requires GapsHaveEnds(legs)
    requires forall k | k in OpenKeys(legs, profile) ::
      (k in part <==> k in cache) && (k in part ==> part[k] == cache[k])
    ensures RouteLegs(legs, profile, part) == RouteLegs(legs, profile, cache)
    ensures GainedKm(legs, profile, part) == GainedKm(legs, profile, cache)
  {
    hide Round;
    if legs != [] {
      OwnKeysSuffice(Front(legs), profile, cache, part);
      if Open(Last(legs)) {
        assert LegKey(Last(legs), profile) in OpenKeys(legs, profile);
      }
    }
  }

  /**
   Applying answers a second time changes no leg, but the kilometres gained are counted from nothing
   again: the figure survives a second application exactly when it was zero.
   */
  lemma ReapplyForgetsRoutedKm(j: Journey, profile: string, lookup: map<Key, Cached>)
    ensures var once := Applied(j, profile, lookup);
            var twice := Applied(once, profile, lookup);
            twice.legs == once.legs && twice.unknownKm == once.unknownKm && twice.routedKm == 0.0
  {
    NothingLeft(RouteLegs(j.legs, profile, lookup), j.legs, profile, lookup);
  }

  lemma {:induction false} NothingLeft(routed: seq<Leg>, legs: seq<Leg>, profile: string, lookup: map<Key, Cached>)
    requires routed == RouteLegs(legs, profile, lookup)
    ensures RouteLegs(routed, profile, lookup) == routed && GainedKm(routed, profile, lookup) == 0.0
  {
    hide Round;
    if legs != [] {
      NothingLeft(Front(routed), Front(legs), profile, lookup);
      assert routed == Front(routed) + [Last(routed)];
    }
  }

  // ---- The cache and the batch that fills it ----

  /** What a router says about one request. */
  datatype Answer = Found(points: seq<LatLng>, distanceM: real, durationS: real) | NoRoad | Failed

  datatype Counts = Counts(gapsFound: nat, cacheHits: nat, routed: nat, noRoute: nat, failures: nat)

  /** The row an answer leaves behind; an operational failure is never cached. */
  function RowFor(a: Answer): Option<Cached> {
    match a
    case Found(points, m, s) => Some(Cached(Routed, points, m, s))
    case NoRoad => Some(Cached(NoRoute, [], 0.0, 0.0))
    case Failed => None
  }

  function MustAsk(rows: map<Key, Cached>, refresh: bool): Key -> bool { (k: Key) => refresh || k !in rows }

  function IsRouted(router: Key -> Answer): Key -> bool { (k: Key) => router(k).Found? }

  function IsUnroutable(router: Key -> Answer): Key -> bool { (k: Key) => router(k).NoRoad? }

  function IsFailure(router: Key -> Answer): Key -> bool { (k: Key) => router(k).Failed? }

  /** Each asked key counts under its answer. */
  ghost predicate Tallied(counts: Counts, asked: seq<Key>, router: Key -> Answer) {
    && counts.routed == |Filter(asked, IsRouted(router))|
    && counts.noRoute == |Filter(asked, IsUnroutable(router))|
    && counts.failures == |Filter(asked, IsFailure(router))|
  }

  function CountedIn(counts: Counts, a: Answer): Counts {
    match a
    case Found(_, _, _) => counts.(routed := counts.routed + 1)
    case NoRoad => counts.(noRoute := counts.noRoute + 1)
    case Failed => counts.(failures := counts.failures + 1)
  }

  lemma TalliedOne(counts: Counts, asked: seq<Key>, k: Key, router: Key -> Answer)
    requires Tallied(counts, asked, router)
    ensures Tallied(CountedIn(counts, router(k)), asked + [k], router)
  {
    FilterSnoc(asked, k, IsRouted(router));
    FilterSnoc(asked, k, IsUnroutable(router));
    FilterSnoc(asked, k, IsFailure(router));
    hide Filter;
  }

  lemma NoneAsked(counts: Counts, router: Key -> Answer)
    requires counts.routed == counts.noRoute == counts.failures == 0
    ensures Tallied(counts, [], router)
  {
  }

  lemma NothingAsked(rows: map<Key, Cached>, refresh: bool)
    ensures Filter([], MustAsk(rows, refresh)) == []
  {
  }

  class RouteCache {
    var rows: map<Key, Cached>

    constructor ()
      ensures rows == map[]
    {
      rows := map[];
    }

    method LookupRoutes(keys: seq<Key>) returns (out: map<Key, Cached>)
      ensures out == map k | k in keys && k in rows :: rows[k]
    {
      out := map[];
      for i := 0 to |keys|
        invariant out == map k | k in keys[..i] && k in rows :: rows[k]
      {
        assert keys[..i + 1] == keys[..i] + [keys[i]];
        if keys[i] in rows {
          out := out[keys[i] := rows[keys[i]]];
        }
      }
      assert keys[..|keys|] == keys;
    }

    /** Stores an answer under its key, over any earlier one. */
    method SaveRoute(k: Key, c: Cached)
      modifies this
      ensures rows == old(rows)[k := c]
    {
      rows := rows[k := c];
    }

    /**
     Asking a router about every key that is not cached (or every key, to refresh). Afterwards each
     distinct key was a hit or was asked, and the rows changed exactly by the answers that are answers.
     */
    method RunBatch(keys: seq<Key>, refresh: bool, nullRouter: bool, router: Key -> Answer) returns (counts: Counts)
      requires forall a, b | 0 <= a < b < |keys| :: keys[a] != keys[b]
      modifies this
      ensures var asked := Filter(keys, MustAsk(old(rows), refresh));
              && counts.gapsFound == |keys| && counts.cacheHits + |asked| == |keys|
              && Tallied(counts, if nullRouter then [] else asked, router)
      ensures nullRouter ==> rows == old(rows)
      ensures forall k | k !in keys :: (k in rows <==> k in old(rows)) && (k in rows ==> rows[k] == old(rows)[k])
      ensures forall k | k in keys ::
        var asked := !nullRouter && (refresh || k !in old(rows));
        if asked && RowFor(router(k)).Some? then k in rows && rows[k] == RowFor(router(k)).value
        else (k in rows <==> k in old(rows)) && (k in rows ==> rows[k] == old(rows)[k])
    {
      hide Filter, Tallied;
      var hits, toAsk := Triaged(keys, refresh);
      counts := Counts(|keys|, hits, 0, 0, 0);
      NoneAsked(counts, router);
      if nullRouter && |toAsk| > 0 {
        return;
      }
      FilterElements(keys, MustAsk(rows, refresh));
      for i := 0 to |toAsk|
        invariant counts.gapsFound == |keys| && counts.cacheHits == hits && Tallied(counts, toAsk[..i], router)
        invariant forall k | k !in toAsk[..i] ::
          (k in rows <==> k in old(rows)) && (k in rows ==> rows[k] == old(rows)[k])
        invariant forall k | k in toAsk[..i] ::
          if RowFor(router(k)).Some? then k in rows && rows[k] == RowFor(router(k)).value
          else (k in rows <==> k in old(rows)) && (k in rows ==> rows[k] == old(rows)[k])
      {
        var k := toAsk[i];
        assert toAsk[..i + 1] == toAsk[..i] + [k];
        TalliedOne(counts, toAsk[..i], k, router);
        assert k !in toAsk[..i];
        match router(k) {
          case Found(points, m, s) =>
            SaveRoute(k, Cached(Routed, points, m, s));
            counts := counts.(routed := counts.routed + 1);
          case NoRoad =>
            SaveRoute(k, Cached(NoRoute, [], 0.0, 0.0));
            counts := counts.(noRoute := counts.noRoute + 1);
          case Failed =>
            counts := counts.(failures := counts.failures + 1);
        }
      }
      assert toAsk[..|toAsk|] == toAsk;
    }

    /** The keys a batch must ask about, in order, and how many it need not. */
    method Triaged(keys: seq<Key>, refresh: bool) returns (hits: nat, toAsk: seq<Key>)
      requires forall a, b | 0 <= a < b < |keys| :: keys[a] != keys[b]
      ensures toAsk == Filter(keys, MustAsk(rows, refresh)) && hits + |toAsk| == |keys|
      ensures forall a, b | 0 <= a < b < |toAsk| :: toAsk[a] != toAsk[b]
    {
      hide Filter;
      var cached := LookupRoutes(keys);
      hits, toAsk := 0, [];
      NothingAsked(rows, refresh);
      for i := 0 to |keys|
        invariant hits + |toAsk| == i && toAsk == Filter(keys[..i], MustAsk(rows, refresh))
        invariant forall a | 0 <= a < |toAsk| :: toAsk[a] in keys[..i]
        invariant forall a, b | 0 <= a < b < |toAsk| :: toAsk[a] != toAsk[b]
      {
        assert keys[..i + 1] == keys[..i] + [keys[i]];
        assert keys[i] !in keys[..i];
        FilterSnoc(keys[..i], keys[i], MustAsk(rows, refresh));
        assert toAsk + [] == toAsk;
        if keys[i] in cached && !refresh {
          hits := hits + 1;
          continue;
        }
        toAsk := toAsk + [keys[i]];
      }
      assert keys[..|keys|] == keys;
    }
  }
}
