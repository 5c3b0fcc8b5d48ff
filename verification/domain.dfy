/** The vocabulary shared by every component: instants, places, distances. */
module Domain {

  datatype Option<+T> = None | Some(value: T)

  /** A WGS84 coordinate in decimal degrees. */
  datatype LatLng = LatLng(lat: real, lon: real)

  /** An instant in nanoseconds together with the UTC offset it was recorded in. */
  datatype Time = Time(ns: int, offsetSec: int)

  const NS_PER_SECOND: int := 1_000_000_000
  const NS_PER_DAY: int := 86_400 * NS_PER_SECOND

  /** Elapsed time from `a` to `b`, in the units the thresholds are named in. */
  function Seconds(a: Time, b: Time): real { (b.ns - a.ns) as real / 1_000_000_000.0 }

  function Minutes(a: Time, b: Time): real { (b.ns - a.ns) as real / 60_000_000_000.0 }

  function Hours(a: Time, b: Time): real { (b.ns - a.ns) as real / 3_600_000_000_000.0 }

  /** The three units of elapsed time. */
  lemma Units(a: Time, b: Time)
    ensures 1_000_000_000.0 * Seconds(a, b) == (b.ns - a.ns) as real
    ensures 60.0 * Minutes(a, b) == Seconds(a, b) && 60.0 * Hours(a, b) == Minutes(a, b)
  {
  }

  /** A rate above a limit, without the division. */
  lemma RateAbove(km: real, h: real, limit: real)
    requires h > 0.0
    ensures km / h > limit <==> km > limit * h
    ensures km / h >= limit <==> km >= limit * h
  {
    var v := km / h;
    assert km == v * h;
    assert v > limit ==> v * h > limit * h;
    assert v < limit ==> v * h < limit * h;
  }

  /** The calendar date of `t` in its own recorded offset, as a day number. */
  function CivilDay(t: Time): int { (t.ns + t.offsetSec * NS_PER_SECOND) / NS_PER_DAY }

  /** What the rest of the system needs of a great-circle distance in metres. */
  ghost predicate IsDistance(f: (LatLng, LatLng) -> real) {
    && (forall a, b :: f(a, b) >= 0.0)
    && (forall a :: f(a, a) == 0.0)
  }

  type Distance = f: (LatLng, LatLng) -> real | IsDistance(f) witness (a: LatLng, b: LatLng) => 0.0

  // ---- Observations, in source-file order ----

  datatype Visit = Visit(start: Time, end: Time, loc: Option<LatLng>, semanticType: string)

  datatype Activity = Activity(start: Time, end: Time, from: Option<LatLng>, to: Option<LatLng>,
                               distanceM: real, mode: string)

  datatype PathPoint = PathPoint(time: Time, loc: Option<LatLng>)

  datatype RawPosition = RawPosition(time: Time, loc: Option<LatLng>, accuracyM: real, source: string)

  datatype Observations = Observations(visits: seq<Visit>, activities: seq<Activity>,
                                       points: seq<PathPoint>, raws: seq<RawPosition>)

  // ---- The instants observations are ordered by ----

  function VisitStart(v: Visit): int { v.start.ns }

  function StartKey(a: Activity): int { a.start.ns }

  function PathKey(p: PathPoint): int { p.time.ns }

  function FixKey(r: RawPosition): int { r.time.ns }
}
