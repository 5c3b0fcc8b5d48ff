/** The decisions table (internal/store/decisions.go): keyed rows under a unique anchor. */
module Decisions {
  import opened Domain
  import opened Matching

  datatype Action = Confirmed | Dismissed

  /** User data: an action, its name, the anchor it was taken on, and two timestamps. */
  datatype Decision = Decision(id: int, action: Action, name: Option<string>,
                               start: int, end: int, dest: LatLng, createdAt: int, updatedAt: int)

  /** The rows by id, and the next id the identity column will hand out. */
  datatype Table = Table(rows: map<int, Decision>, nextId: int)

  /** What the unique index compares. */
  datatype AnchorKey = AnchorKey(start: int, end: int, dest: LatLng)

  function KeyOf(d: Decision): AnchorKey { AnchorKey(d.start, d.end, d.dest) }

  function CandKey(c: SpanRef): AnchorKey { AnchorKey(c.start, c.end, c.dest) }

  function AnchorOf(d: Decision): Anchor { Anchor(d.id, d.start, d.end, d.dest, d.createdAt) }

  ghost predicate ValidTable(t: Table) {
    && 1 <= t.nextId
    && (forall id | id in t.rows :: t.rows[id].id == id && 1 <= id < t.nextId)
    && (forall i, j | i in t.rows && j in t.rows :: KeyOf(t.rows[i]) == KeyOf(t.rows[j]) ==> i == j)
    && (forall id | id in t.rows :: t.rows[id].action == Confirmed ==> t.rows[id].name.Some?)
  }

  predicate KeyTaken(rows: map<int, Decision>, key: AnchorKey) {
    exists id | id in rows :: KeyOf(rows[id]) == key
  }

  predicate KeyTakenByOther(rows: map<int, Decision>, id: int, key: AnchorKey) {
    exists i | i in rows :: i != id && KeyOf(rows[i]) == key
  }

  /** INSERT: a constraint violation is a failed statement. */
  function Insert(t: Table, action: Action, name: Option<string>, c: SpanRef, now: int): Option<Table> {
    if KeyTaken(t.rows, CandKey(c)) || (action == Confirmed && name.None?) then None
    else
      var row := Decision(t.nextId, action, name, c.start, c.end, c.dest, now, now);
      Some(Table(t.rows[t.nextId := row], t.nextId + 1))
  }

  function Redecided(d: Decision, action: Action, name: Option<string>, c: SpanRef, now: int): Decision {
    d.(action := action, name := name, start := c.start, end := c.end, dest := c.dest, updatedAt := now)
  }

  /** UPDATE of an existing row: the anchor is refreshed, id and creation time stay. */
  function Update(t: Table, id: int, action: Action, name: Option<string>, c: SpanRef, now: int): Option<Table>
    requires id in t.rows
  {
    if KeyTakenByOther(t.rows, id, CandKey(c)) || (action == Confirmed && name.None?) then None
    else Some(t.(rows := t.rows[id := Redecided(t.rows[id], action, name, c, now)]))
  }

  lemma InsertWrites(t: Table, action: Action, name: Option<string>, c: SpanRef, now: int, t': Table)
    requires ValidTable(t) && Insert(t, action, name, c, now) == Some(t')
    ensures ValidTable(t') && t.nextId !in t.rows && t.nextId in t'.rows && t'.nextId == t.nextId + 1
    ensures t'.rows[t.nextId].id == t.nextId
    ensures t'.rows == t.rows[t.nextId := t'.rows[t.nextId]]
    ensures KeyOf(t'.rows[t.nextId]) == CandKey(c)
    ensures t'.rows[t.nextId].action == action && t'.rows[t.nextId].name == name
  {
  }

  lemma UpdateWrites(t: Table, id: int, action: Action, name: Option<string>, c: SpanRef, now: int, t': Table)
    requires ValidTable(t) && id in t.rows && Update(t, id, action, name, c, now) == Some(t')
    ensures ValidTable(t') && t'.nextId == t.nextId && id in t'.rows
    ensures t'.rows == t.rows[id := t'.rows[id]]
    ensures t'.rows[id].id == t.rows[id].id == id && t'.rows[id].createdAt == t.rows[id].createdAt
    ensures KeyOf(t'.rows[id]) == CandKey(c)
    ensures t'.rows[id].action == action && t'.rows[id].name == name
  {
  }

  /** One item of a bulk write; `updateId` names the row to re-decide, None asks for a fresh one. */
  datatype BulkDecision = BulkDecision(anchor: SpanRef, action: Action, name: Option<string>, updateId: Option<int>)

  function BulkItem(t: Table, item: BulkDecision, now: int): Option<Table> {
    match item.updateId
    case Some(id) =>
      // An UPDATE that matches no row is not an error when executed in the batch.
      if id in t.rows then Update(t, id, item.action, item.name, item.anchor, now) else Some(t)
    case None => Insert(t, item.action, item.name, item.anchor, now)
  }

  function BulkItems(t: Table, items: seq<BulkDecision>, now: int): Option<Table> {
    if items == [] then Some(t)
    else
      match BulkItems(t, items[..|items| - 1], now)
      case None => None
      case Some(t') => BulkItem(t', items[|items| - 1], now)
  }

  // ---- What a write leaves behind, field by field ----

  /** The row says what was asked, about that candidate, as of then. */
  ghost predicate Records(d: Decision, action: Action, name: Option<string>, c: SpanRef, now: int) {
    && d.action == action && d.name == name && d.updatedAt == now
    && d.start == c.start && d.end == c.end && d.dest == c.dest
  }

  /** Another row is recorded against exactly this span and destination. */
  ghost predicate AnchorHeld(rows: map<int, Decision>, c: SpanRef, but: Option<int>) {
    exists id | id in rows && but != Some(id) ::
      rows[id].start == c.start && rows[id].end == c.end && rows[id].dest == c.dest
  }

  /** The rows a bulk write leaves, item by item. */
  ghost predicate BulkLanded(t: Table, u: Table, items: seq<BulkDecision>, now: int, ids: seq<int>) {
    && |ids| == |items|
    && (forall i, j | 0 <= i < j < |ids| :: ids[i] != ids[j])
    && (forall k | 0 <= k < |ids| :: ids[k] in u.rows && u.rows[ids[k]].id == ids[k])
    && (forall k | 0 <= k < |ids| :: Records(u.rows[ids[k]], items[k].action, items[k].name, items[k].anchor, now))
    && (forall k | 0 <= k < |ids| :: ItemRow(t, u, items[k], now, ids[k]))
    && (forall id | id in t.rows :: id in u.rows)
    && (forall id | id in u.rows :: id in ids || (id in t.rows && u.rows[id] == t.rows[id]))
  }

  /** A re-decided row is the one asked for and keeps its creation time; a fresh one is created now. */
  ghost predicate ItemRow(t: Table, u: Table, item: BulkDecision, now: int, id: int)
    requires id in u.rows
  {
    match item.updateId
    case Some(old_) => id == old_ && id in t.rows && u.rows[id].createdAt == t.rows[id].createdAt
    case None => id !in t.rows && id >= t.nextId && u.rows[id].createdAt == now
  }

  /** The rows named for re-deciding exist, and none is named twice. */
  ghost predicate Updatable(t: Table, items: seq<BulkDecision>) {
    && (forall k | 0 <= k < |items| && items[k].updateId.Some? :: items[k].updateId.value in t.rows)
    && (forall i, j | 0 <= i < j < |items| && items[i].updateId.Some? :: items[i].updateId != items[j].updateId)
  }

  lemma {:induction false} BulkWrites(t: Table, items: seq<BulkDecision>, now: int, u: Table) returns (ids: seq<int>)
    requires ValidTable(t) && Updatable(t, items) && BulkItems(t, items, now) == Some(u)
    ensures ValidTable(u) && t.nextId <= u.nextId && BulkLanded(t, u, items, now, ids)
  {
    if items == [] {
      ids := [];
    } else {
      var front, item := items[..|items| - 1], items[|items| - 1];
      var mid := BulkItems(t, front, now).value;
      assert items == front + [item];
      UpdatableFront(t, front, item);
      hide Updatable, BulkLanded, ValidTable, BulkItem;
      var before := BulkWrites(t, front, now, mid);
      BulkItemValid(mid, item, now);
      var id := match item.updateId case Some(old_) => old_ case None => mid.nextId;
      ItemLands(t, mid, front, item, now, before, u, id);
      ids := before + [id];
    }
  }

  /** An item writes one row, under the id it names or the next. */
  lemma ItemWritten(mid: Table, item: BulkDecision, now: int, u: Table, id: int)
    requires ValidTable(mid) && BulkItem(mid, item, now) == Some(u)
    requires match item.updateId case Some(old_) => id == old_ && id in mid.rows case None => id == mid.nextId
    ensures mid.nextId <= u.nextId && id in u.rows && u.rows[id].id == id && u.rows == mid.rows[id := u.rows[id]]
    ensures Records(u.rows[id], item.action, item.name, item.anchor, now)
    ensures u.rows[id].createdAt == if item.updateId.Some? then mid.rows[id].createdAt else now
  {
  }

  /** A row the item did not touch is as before. */
  lemma ItemRowKept(t: Table, mid: Table, u: Table, item: BulkDecision, now: int, r: int, id: int)
    requires id in u.rows && u.rows == mid.rows[id := u.rows[id]]
    requires r != id && r in mid.rows && ItemRow(t, mid, item, now, r)
    ensures u.rows[r] == mid.rows[r] && ItemRow(t, u, item, now, r)
  {
  }

  lemma ItemLands(t: Table, mid: Table, front: seq<BulkDecision>, item: BulkDecision, now: int, before: seq<int>,
                  u: Table, id: int)
    requires ValidTable(t) && ValidTable(mid) && t.nextId <= mid.nextId && Updatable(t, front + [item])
    requires BulkLanded(t, mid, front, now, before) && BulkItem(mid, item, now) == Some(u)
    requires id == match item.updateId case Some(old_) => old_ case None => mid.nextId
    ensures BulkLanded(t, u, front + [item], now, before + [id]) && mid.nextId <= u.nextId
  {
    var items, ids := front + [item], before + [id];
    assert item == items[|front|];
    hide Updatable;
    assert id !in before by { FreshId(t, mid, front, item, now, before, id); }
    if item.updateId.Some? {
      NamedRow(t, front, item);
    }
    ItemWritten(mid, item, now, u, id);
    assert ItemRow(t, u, item, now, id);
    hide ValidTable, BulkItem, Records, ItemRow;
    forall k | 0 <= k < |before|
      ensures ids[k] in u.rows && u.rows[ids[k]] == mid.rows[before[k]] && ItemRow(t, u, items[k], now, ids[k])
    {
      assert ids[k] == before[k] && items[k] == front[k];
      ItemRowKept(t, mid, u, front[k], now, before[k], id);
    }
    forall r | r in u.rows ensures r in ids || (r in t.rows && u.rows[r] == t.rows[r]) {
      if r == id {
        assert ids[|before|] == id;
      } else if r in before {
        var k :| 0 <= k < |before| && before[k] == r;
        assert ids[k] == r;
      }
    }
  }

  lemma UpdatableFront(t: Table, front: seq<BulkDecision>, item: BulkDecision)
    requires Updatable(t, front + [item])
    ensures Updatable(t, front)
  {
    assert forall k | 0 <= k < |front| :: (front + [item])[k] == front[k];
  }

  lemma NamedRow(t: Table, front: seq<BulkDecision>, item: BulkDecision)
    requires Updatable(t, front + [item]) && item.updateId.Some?
    ensures item.updateId.value in t.rows
  {
    assert (front + [item])[|front|] == item;
  }

  lemma FreshId(t: Table, mid: Table, front: seq<BulkDecision>, item: BulkDecision, now: int, before: seq<int>, id: int)
    requires ValidTable(t) && ValidTable(mid) && t.nextId <= mid.nextId && Updatable(t, front + [item])
    requires BulkLanded(t, mid, front, now, before)
    requires id == match item.updateId case Some(old_) => old_ case None => mid.nextId
    ensures id !in before
  {
    var items := front + [item];
    assert items[|front|] == item;
    forall k | 0 <= k < |before| ensures before[k] != id {
      assert items[k] == front[k];
      assert before[k] in mid.rows && ItemRow(t, mid, front[k], now, before[k]);
    }
  }

  function ListedUpTo(rows: map<int, Decision>, n: int): seq<Decision>
    decreases n
  {
    if n <= 1 then []
    else ListedUpTo(rows, n - 1) + if n - 1 in rows then [rows[n - 1]] else []
  }

  /** Every row exactly once, in ascending id order. */
  lemma {:induction false} ListedRows(rows: map<int, Decision>, n: int)
    requires forall id | id in rows :: rows[id].id == id && 1 <= id
    ensures forall i | 0 <= i < |ListedUpTo(rows, n)| ::
      ListedUpTo(rows, n)[i].id in rows && ListedUpTo(rows, n)[i].id < n
      && rows[ListedUpTo(rows, n)[i].id] == ListedUpTo(rows, n)[i]
    ensures forall i, j | 0 <= i < j < |ListedUpTo(rows, n)| :: ListedUpTo(rows, n)[i].id < ListedUpTo(rows, n)[j].id
    ensures forall id | id in rows && id < n :: rows[id] in ListedUpTo(rows, n)
    decreases n
  {
    if n > 1 {
      ListedRows(rows, n - 1);
    }
  }

  class DecisionStore {
    var rows: map<int, Decision>
    var nextId: int

    ghost function Contents(): Table
      reads this
    {
      Table(rows, nextId)
    }

    ghost predicate Valid()
      reads this
    {
      ValidTable(Contents())
    }

    constructor ()
      ensures Valid() && rows == map[]
    {
      rows, nextId := map[], 1;
    }

    /** SELECT ... ORDER BY id. */
    method ListDecisions() returns (out: seq<Decision>)
      requires Valid()
      ensures forall i, j | 0 <= i < j < |out| :: out[i].id < out[j].id
      ensures forall d | d in out :: d.id in rows && rows[d.id] == d
      ensures forall id | id in rows :: rows[id] in out
    {
      out := [];
      for n := 1 to nextId
        invariant out == ListedUpTo(rows, n)
      {
        if n in rows {
          out := out + [rows[n]];
        }
      }
      ListedRows(rows, nextId);
    }

    method InsertDecision(action: Action, name: Option<string>, c: SpanRef, now: int) returns (r: Option<Decision>)
      requires Valid()
      modifies this
      ensures Valid()
      ensures match Insert(old(Contents()), action, name, c, now)
              case Some(t) => Contents() == t && old(nextId) in rows && r == Some(rows[old(nextId)])
              case None => Contents() == old(Contents()) && r == None
      ensures r.None? <==> AnchorHeld(old(rows), c, None) || (action == Confirmed && name.None?)
      ensures r.Some? ==>
        && rows == old(rows)[old(nextId) := r.value] && nextId == old(nextId) + 1
        && Records(r.value, action, name, c, now) && r.value.id == old(nextId) && r.value.createdAt == now
    {
      if KeyTaken(rows, CandKey(c)) || (action == Confirmed && name.None?) {
        return None;
      }
      var row := Decision(nextId, action, name, c.start, c.end, c.dest, now, now);
      rows := rows[nextId := row];
      nextId := nextId + 1;
      r := Some(row);
    }

    method UpdateDecision(id: int, action: Action, name: Option<string>, c: SpanRef, now: int)
      returns (r: Option<Decision>)
      requires Valid()
      modifies this
      ensures Valid()
      ensures if id !in old(rows) then r == None && Contents() == old(Contents())
              else match Update(old(Contents()), id, action, name, c, now)
                   case Some(t) => Contents() == t && id in rows && r == Some(rows[id])
                   case None => Contents() == old(Contents()) && r == None
      ensures r.None? <==>
        id !in old(rows) || AnchorHeld(old(rows), c, Some(id)) || (action == Confirmed && name.None?)
      ensures r.Some? ==>
        && rows == old(rows)[id := r.value] && nextId == old(nextId)
        && Records(r.value, action, name, c, now) && r.value.id == id && r.value.createdAt == old(rows)[id].createdAt
    {
      if id !in rows || KeyTakenByOther(rows, id, CandKey(c)) || (action == Confirmed && name.None?) {
        return None;
      }
      rows := rows[id := Redecided(rows[id], action, name, c, now)];
      r := Some(rows[id]);
    }

    /** All items in one transaction: every one of them lands, or none does. */
    method DecideBulk(items: seq<BulkDecision>, now: int) returns (ok: bool)
      requires Valid()
      modifies this
      ensures Valid()
      ensures ok <==> BulkItems(old(Contents()), items, now).Some?
      ensures Contents() == if ok then BulkItems(old(Contents()), items, now).value else old(Contents())
    {
      var tx := Table(rows, nextId);
      for k := 0 to |items|
        invariant unchanged(this)
        invariant BulkItems(Contents(), items[..k], now) == Some(tx) && ValidTable(tx)
      {
        assert items[..k + 1][..k] == items[..k];
        var next := BulkItem(tx, items[k], now);
        if next.None? {
          BulkFails(Contents(), items, k + 1, now);
          return false;
        }
        BulkItemValid(tx, items[k], now);
        tx := next.value;
      }
      assert items[..|items|] == items;
      rows, nextId := tx.rows, tx.nextId;
      ok := true;
    }
  }

  lemma BulkItemValid(t: Table, item: BulkDecision, now: int)
    requires ValidTable(t)
    ensures BulkItem(t, item, now).Some? ==> ValidTable(BulkItem(t, item, now).value)
  {
  }

  lemma {:induction false} BulkFails(t: Table, items: seq<BulkDecision>, k: nat, now: int)
    requires k <= |items| && BulkItems(t, items[..k], now).None?
    ensures BulkItems(t, items, now).None?
    decreases |items|
  {
    if k == |items| {
      assert items[..k] == items;
    } else {
      assert items[..|items| - 1][..k] == items[..k];
      BulkFails(t, items[..|items| - 1], k, now);
    }
  }
}
