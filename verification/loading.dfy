/**
 Loading observations (internal/store/observations.go): a journey reads only its window, and that is
 enough. Tables are modelled as their rows in id order; the SQL filters and orders them.
 */
module Loading {
  import opened Domain
  import opened Seqs
  import opened Teleports
  import opened Stops
  import opened Journeys

  /** A stored row and the user it belongs to. */
  datatype Owned<T> = Owned(user: string, row: T)

  datatype Tables = Tables(visits: seq<Owned<Visit>>, activities: seq<Owned<Activity>>,
                           points: seq<Owned<PathPoint>>, raws: seq<Owned<RawPosition>>)

  function RowOf<T>(o: Owned<T>): T { o.row }

  function OwnedBy<T>(user: string): Owned<T> -> bool { (o: Owned<T>) => o.user == user }

  function OwnedWhere<T>(user: string, where: T -> bool): Owned<T> -> bool {
    (o: Owned<T>) => o.user == user && where(o.row)
  }

  function PathInWindow(ws: Time, we: Time): PathPoint -> bool { (p: PathPoint) => ws.ns <= p.time.ns <= we.ns }

  function RawInWindow(ws: Time, we: Time): RawPosition -> bool { (r: RawPosition) => ws.ns <= r.time.ns <= we.ns }

  /** SELECT ... WHERE ... ORDER BY key, id over rows stored in id order. */
  function Select<T>(rows: seq<Owned<T>>, where: Owned<T> -> bool, key: T -> int): seq<T> {
    SortStable(Map(Filter(rows, where), RowOf), key)
  }

  /** Everything the user has. */
  function LoadObservations(db: Tables, user: string): Observations {
    Observations(Select(db.visits, OwnedBy(user), VisitStart), Select(db.activities, OwnedBy(user), StartKey),
                 Select(db.points, OwnedBy(user), PathKey), Select(db.raws, OwnedBy(user), FixKey))
  }

  /** Only what a journey over the window needs. */
  function LoadJourneyInputs(db: Tables, user: string, ws: Time, we: Time): Observations {
    Observations([],
                 Select(db.activities, OwnedWhere(user, Intersects(ws, we)), StartKey),
                 Select(db.points, OwnedWhere(user, PathInWindow(ws, we)), PathKey),
                 Select(db.raws, OwnedWhere(user, RawInWindow(ws, we)), FixKey))
  }

  /** The full load hands visits over in start order, as detection's binary search expects them. */
  lemma LoadedInOrder(db: Tables, user: string)
    ensures SortedBy(LoadObservations(db, user).visits, VisitStart)
  {
    SortStableSorted(Map(Filter(db.visits, OwnedBy(user)), RowOf), VisitStart);
  }

  lemma {:induction false} WhereIsFilter<T>(rows: seq<Owned<T>>, user: string, where: T -> bool)
    ensures Map(Filter(rows, OwnedWhere(user, where)), RowOf)
         == Filter(Map(Filter(rows, OwnedBy(user)), RowOf), where)
  {
    if rows != [] {
      var front, o := Front(rows), Last(rows);
      WhereIsFilter(front, user, where);
      assert rows == front + [o];
      var mine, chosen := Filter(front, OwnedBy(user)), Filter(front, OwnedWhere(user, where));
      if o.user == user {
        MapOne(mine, o);
        FilterSnoc(Map(mine, RowOf), o.row, where);
        if where(o.row) {
          MapOne(chosen, o);
        }
      }
    }
  }

  lemma MapOne<T>(s: seq<Owned<T>>, o: Owned<T>)
    ensures Map(s + [o], RowOf) == Map(s, RowOf) + [o.row]
  {
    assert Front(s + [o]) == s;
  }

  /** Filtering in the database and filtering after loading agree, order included. */
  lemma SelectIsFilter<T>(rows: seq<Owned<T>>, user: string, where: T -> bool, key: T -> int)
    ensures Select(rows, OwnedWhere(user, where), key) == Filter(Select(rows, OwnedBy(user), key), where)
  {
    WhereIsFilter(rows, user, where);
    SortFilter(Map(Filter(rows, OwnedBy(user)), RowOf), key, where);
  }

  /** Observations outside the window do not matter to assembly. */
  lemma OnlyTheWindowMatters(all: Observations, part: Observations, ws: Time, we: Time, p: Params, dist: Distance)
    requires part.activities == Filter(all.activities, Intersects(ws, we))
    requires part.points == Filter(all.points, PathInWindow(ws, we))
    requires part.raws == Filter(all.raws, RawInWindow(ws, we))
    ensures Assembled(part, ws, we, p, dist) == Assembled(all, ws, we, p, dist)
  {
    FilterImplied(all.points, PathInWindow(ws, we), TraceOk(ws, we));
    FilterImplied(all.points, PathInWindow(ws, we), TraceNull(ws, we));
    FilterImplied(all.raws, RawInWindow(ws, we), RawOk(ws, we, p));
    FilterImplied(all.raws, RawInWindow(ws, we), RawNull(ws, we));
    FilterImplied(all.raws, RawInWindow(ws, we), RawBad(ws, we, p));
    FilterImplied(all.activities, Intersects(ws, we), Intersects(ws, we));
    hide Filter, Map, SortStable, Legs, Thin, WithoutTeleports, CountSource, Sum, StopsOf;
  }

  /** A journey assembled from the window's load is the journey assembled from everything the user has. */
  lemma WindowLoadSuffices(db: Tables, user: string, ws: Time, we: Time, p: Params, dist: Distance)
    ensures Assembled(LoadJourneyInputs(db, user, ws, we), ws, we, p, dist)
         == Assembled(LoadObservations(db, user), ws, we, p, dist)
  {
    SelectIsFilter(db.activities, user, Intersects(ws, we), StartKey);
    SelectIsFilter(db.points, user, PathInWindow(ws, we), PathKey);
    SelectIsFilter(db.raws, user, RawInWindow(ws, we), FixKey);
    OnlyTheWindowMatters(LoadObservations(db, user), LoadJourneyInputs(db, user, ws, we), ws, we, p, dist);
  }
}
