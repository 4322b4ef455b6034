/**
 * The in-memory soft-delete store (`MemStorage`): a JavaScript `Map` from id to stored
 * object with get, list, create, partial update and soft delete. Ids and clock readings
 * (`randomUUID()`, `Date.now()`) are parameters.
 */
module Storage {
  import opened Wrappers
  import opened Schema
  import Seqs

  /**
   * A stored object: the parsed payload spread together with the id and the timestamps.
   * Columns the payload did not carry stay absent; the store never fills in column defaults.
   */
  datatype Row = Row(id: string, createdAt: int, lastUpdatedAt: int, fields: Fields)

  /** `cat.deleted` is truthy; an absent `deleted` key is falsy. */
  predicate IsDeleted(r: Row) {
    r.fields.deleted == Some(true)
  }

  predicate IsLive(r: Row) {
    !IsDeleted(r)
  }

  /** A JavaScript `Map`: its keys in insertion order, and its entries. */
  datatype Store = Store(order: seq<string>, rows: map<string, Row>)

  /** The store `new MemStorage()` starts from. */
  const Empty := Store([], map[])

  /** Every key appears once in the order, the order lists exactly the keys, and every row sits under its own id. */
  ghost predicate Valid(s: Store) {
    && (forall i, j :: 0 <= i < j < |s.order| ==> s.order[i] != s.order[j])
    && (forall k :: k in s.order <==> k in s.rows)
    && (forall k :: k in s.rows ==> s.rows[k].id == k)
  }

  lemma EmptyValid()
    ensures Valid(Empty)
  {
  }

  /** A store operation's new store and its return value. */
  datatype Step<T> = Step(store: Store, result: T)

  /** `getTagCategory(id)`: the stored object under `id`, soft-deleted or not. */
  function Get(s: Store, id: string): (r: Option<Row>)
    ensures r.Some? <==> id in s.rows
    ensures r.Some? ==> r.value == s.rows[id]
  {
    if id in s.rows then Some(s.rows[id]) else None
  }

  /** `Array.from(map.values())`: the entries in key insertion order. */
  function Entries(order: seq<string>, rows: map<string, Row>): (r: seq<Row>)
    ensures forall k :: k in order && k in rows ==> rows[k] in r
    ensures forall x :: x in r ==> exists k :: k in order && k in rows && rows[k] == x
    decreases |order|
  {
    if |order| == 0 then []
    else
      var rest := Entries(order[1..], rows);
      assert forall k :: k in order ==> k == order[0] || k in order[1..];
      (if order[0] in rows then [rows[order[0]]] else []) + rest
  }

  /** `getAllTagCategories()`: the entries, in insertion order, whose `deleted` is not truthy. */
  function List(s: Store): seq<Row> {
    Seqs.Filter(Entries(s.order, s.rows), IsLive)
  }

  /** The list holds exactly the live stored rows: no soft-deleted row and nothing that is not stored. */
  lemma ListExact(s: Store)
    ensures Valid(s) ==> forall r :: r in List(s) <==> r.id in s.rows && s.rows[r.id] == r && IsLive(r)
  {
    if Valid(s) {
      forall r: Row | r.id in s.rows && s.rows[r.id] == r && IsLive(r)
        ensures r in List(s)
      {
        assert r.id in s.order;
      }
    }
  }

  /** `map.set(id, row)`: a new key goes to the end of the order, an existing key keeps its place. */
  function Put(s: Store, id: string, row: Row): (r: Store)
    ensures r.rows == s.rows[id := row]
    ensures id in s.rows ==> r.order == s.order
    ensures id !in s.rows ==> r.order == s.order + [id]
  {
    Store(if id in s.rows then s.order else s.order + [id], s.rows[id := row])
  }

  lemma PutValid(s: Store, id: string, row: Row)
    requires Valid(s) ==> row.id == id
    ensures Valid(s) ==> Valid(Put(s, id, row))
  {
    var r := Put(s, id, row);
    if Valid(s) && id !in s.rows {
      forall i, j | 0 <= i < j < |r.order|
        ensures r.order[i] != r.order[j]
      {
        if j == |s.order| {
          assert r.order[i] == s.order[i];
        }
      }
    }
  }

  /**
   * `createTagCategory(ins)` with `id` and `now` standing for `randomUUID()` and `Date.now()`:
   * the payload is stored as given under `id`, created and last updated at `now`.
   */
  function Create(s: Store, id: string, now: int, ins: Fields): (r: Step<Row>)
    ensures r.result.id == id && r.result.fields == ins
    ensures r.result.createdAt == now && r.result.lastUpdatedAt == now
    ensures Get(r.store, id) == Some(r.result)
    ensures forall k :: k != id ==> Get(r.store, k) == Get(s, k)
    ensures Valid(s) ==> Valid(r.store)
  {
    var row := Row(id, now, now, ins);
    PutValid(s, id, row);
    Step(Put(s, id, row), row)
  }

  /**
   * `updateTagCategory(id, patch)`: on an unknown id, no result and no change; otherwise the
   * stored object spread with the patch, stamped `now`, replacing the old one in place.
   */
  function Update(s: Store, id: string, now: int, patch: Fields): (r: Step<Option<Row>>)
    ensures id !in s.rows ==> r == Step(s, None)
    ensures id in s.rows ==> r.result.Some? && Get(r.store, id) == r.result
    ensures id in s.rows ==>
      var old_row := s.rows[id];
      var row := r.result.value;
      && row.id == old_row.id
      && row.createdAt == old_row.createdAt
      && row.lastUpdatedAt == now
      && (forall c :: Lookup(patch, c).Some? ==> Lookup(row.fields, c) == Lookup(patch, c))
      && (forall c :: Lookup(patch, c).None? ==> Lookup(row.fields, c) == Lookup(old_row.fields, c))
    ensures forall k :: k != id ==> Get(r.store, k) == Get(s, k)
    ensures r.store.order == s.order
    ensures Valid(s) ==> Valid(r.store)
  {
    if id !in s.rows then Step(s, None)
    else
      var existing := s.rows[id];
      var row := existing.(fields := Merge(existing.fields, patch), lastUpdatedAt := now);
      MergeLookup(existing.fields, patch);
      PutValid(s, id, row);
      Step(Put(s, id, row), Some(row))
  }

  /**
   * `deleteTagCategory(id)`: false and no change on an unknown id; otherwise true (also for a
   * row already deleted), with the row flagged deleted and stamped `now`.
   */
  function Delete(s: Store, id: string, now: int): (r: Step<bool>)
    ensures r.result <==> id in s.rows
    ensures !r.result ==> r.store == s
    ensures r.result ==>
      var old_row := s.rows[id];
      && id in r.store.rows
      && r.store.rows[id] == old_row.(fields := old_row.fields.(deleted := Some(true)), lastUpdatedAt := now)
    ensures forall k :: k != id ==> Get(r.store, k) == Get(s, k)
    ensures r.store.order == s.order
    ensures Valid(s) ==> Valid(r.store)
  {
    if id !in s.rows then Step(s, false)
    else
      var existing := s.rows[id];
      var row := existing.(fields := existing.fields.(deleted := Some(true)), lastUpdatedAt := now);
      PutValid(s, id, row);
      Step(Put(s, id, row), true)
  }

  /** Writing a key that is not in the order leaves the entries unchanged. */
  lemma {:induction false} EntriesIgnoreOtherKeys(order: seq<string>, rows: map<string, Row>, k: string, v: Row)
    requires k !in order
    ensures Entries(order, rows[k := v]) == Entries(order, rows)
    decreases |order|
  {
    if |order| > 0 {
      EntriesIgnoreOtherKeys(order[1..], rows, k, v);
    }
  }

  /** Appending a key to the order appends its entry. */
  lemma {:induction false} EntriesAppend(order: seq<string>, rows: map<string, Row>, k: string)
    requires k in rows
    ensures Entries(order + [k], rows) == Entries(order, rows) + [rows[k]]
    decreases |order|
  {
    if |order| == 0 {
      assert order + [k] == [k];
    } else {
      assert (order + [k])[1..] == order[1..] + [k];
      EntriesAppend(order[1..], rows, k);
    }
  }

  /** Creating under a fresh id appends the new row to the end of the list, unless it was created deleted. */
  lemma CreateAppendsToList(s: Store, id: string, now: int, ins: Fields)
    requires Valid(s) && id !in s.rows
    ensures var r := Create(s, id, now, ins);
      List(r.store) == List(s) + (if IsLive(r.result) then [r.result] else [])
  {
    var r := Create(s, id, now, ins);
    var rows' := s.rows[id := r.result];
    EntriesIgnoreOtherKeys(s.order, s.rows, id, r.result);
    EntriesAppend(s.order, rows', id);
    Seqs.FilterAppend(Entries(s.order, s.rows), [r.result], IsLive);
  }

  /**
   * Overwriting the row under `id` with a deleted row drops exactly that id from the live
   * entries and leaves the others in their order.
   */
  lemma {:induction false} EntriesDelete(order: seq<string>, rows: map<string, Row>, id: string, deleted: Row)
    requires forall k :: k in rows ==> rows[k].id == k
    requires !IsLive(deleted) && deleted.id == id
    ensures Seqs.Filter(Entries(order, rows[id := deleted]), IsLive)
         == Seqs.Filter(Seqs.Filter(Entries(order, rows), IsLive), (x: Row) => x.id != id)
    decreases |order|
  {
    var other := (x: Row) => x.id != id;
    if |order| > 0 {
      var rows' := rows[id := deleted];
      EntriesDelete(order[1..], rows, id, deleted);
      var head := if order[0] in rows then [rows[order[0]]] else [];
      var head' := if order[0] in rows' then [rows'[order[0]]] else [];
      var rest := Entries(order[1..], rows);
      var rest' := Entries(order[1..], rows');
      Seqs.FilterAppend(head', rest', IsLive);
      Seqs.FilterAppend(head, rest, IsLive);
      Seqs.FilterAppend(Seqs.Filter(head, IsLive), Seqs.Filter(rest, IsLive), other);
      assert Seqs.Filter(head', IsLive) == Seqs.Filter(Seqs.Filter(head, IsLive), other);
    }
  }

  /** After a soft delete the list is the old list with that id filtered out, in the same order; `Get` still finds the row. */
  lemma DeleteHidesFromList(s: Store, id: string, now: int)
    requires Valid(s) && id in s.rows
    ensures var r := Delete(s, id, now);
      && List(r.store) == Seqs.Filter(List(s), (x: Row) => x.id != id)
      && Get(r.store, id).Some? && IsDeleted(Get(r.store, id).value)
  {
    var r := Delete(s, id, now);
    EntriesDelete(s.order, s.rows, id, r.store.rows[id]);
  }

  /** One store operation, as the routes issue them. */
  datatype Op =
    | CreateOp(id: string, now: int, ins: Fields)
    | UpdateOp(id: string, now: int, patch: Fields)
    | DeleteOp(id: string, now: int)

  function Apply(s: Store, op: Op): Store {
    match op
    case CreateOp(id, now, ins) => Create(s, id, now, ins).store
    case UpdateOp(id, now, patch) => Update(s, id, now, patch).store
    case DeleteOp(id, now) => Delete(s, id, now).store
  }

  function Run(s: Store, ops: seq<Op>): Store
    decreases |ops|
  {
    if |ops| == 0 then s else Run(Apply(s, ops[0]), ops[1..])
  }

  /** No operation removes a key: the set of ids only grows, and the store stays well formed. */
  lemma {:induction false} RunKeepsIds(s: Store, ops: seq<Op>)
    ensures s.rows.Keys <= Run(s, ops).rows.Keys
    ensures Valid(s) ==> Valid(Run(s, ops))
    decreases |ops|
  {
    if |ops| > 0 {
      var s' := Apply(s, ops[0]);
      assert s.rows.Keys <= s'.rows.Keys;
      RunKeepsIds(s', ops[1..]);
    }
  }

  /** An operation that can make the row under `id` live again. */
  predicate Revives(op: Op, id: string) {
    match op
    case CreateOp(k, _, ins) => k == id && ins.deleted != Some(true)
    case UpdateOp(k, _, patch) => k == id && patch.deleted == Some(false)
    case DeleteOp(_, _) => false
  }

  /** A soft-deleted row stays stored and deleted through any run that does not revive it. */
  lemma {:induction false} StaysDeleted(s: Store, ops: seq<Op>, id: string)
    requires id in s.rows && IsDeleted(s.rows[id])
    requires forall i :: 0 <= i < |ops| ==> !Revives(ops[i], id)
    ensures id in Run(s, ops).rows && IsDeleted(Run(s, ops).rows[id])
    decreases |ops|
  {
    if |ops| > 0 {
      var s' := Apply(s, ops[0]);
      assert !Revives(ops[0], id);
      match ops[0] {
        case CreateOp(k, now, ins) =>
        case UpdateOp(k, now, patch) =>
          if k == id {
            MergeLookup(s.rows[id].fields, patch);
            assert Lookup(s'.rows[id].fields, Deleted) == Some(Flag(true));
          }
        case DeleteOp(k, now) =>
      }
      StaysDeleted(s', ops[1..], id);
    }
  }
}
