/**
 * The five REST handlers over the store, each a function from (request, store) to
 * (response, store'). Schema parsing is modelled by what it accepts and what it strips.
 */
module Routes {
  import opened Wrappers
  import opened Schema
  import opened Storage

  /**
   * A decoded JSON request body. `fields` holds the insert columns it carries; `id` and the
   * timestamps are keys a client may send although the insert schema omits them.
   * `wellTyped` stands for the per-key type checks of the schema (every key present has the
   * JSON type its column declares), which this model does not spell out.
   */
  datatype Body = Body(
    fields: Fields,
    id: Option<string>,
    createdAt: Option<int>,
    lastUpdatedAt: Option<int>,
    wellTyped: bool)

  /** `insertTagCategorySchema.partial().parse(body)`: any subset of the columns; omitted keys are stripped. */
  function ParsePatch(b: Body): Option<Fields> {
    if b.wellTyped then Some(b.fields) else None
  }

  /** `insertTagCategorySchema.parse(body)`: as the partial schema, and the five required columns must be present. */
  function ParseInsert(b: Body): Option<Fields> {
    if b.wellTyped && HasRequired(b.fields) then Some(b.fields) else None
  }

  /**
   * The insert schema is the partial schema plus the required columns: whatever it accepts the
   * partial schema accepts identically, and a well-typed body missing a required column is
   * accepted only by the partial schema. Neither lets `id` or a timestamp through.
   */
  lemma InsertRefinesPatch(b: Body)
    ensures ParseInsert(b).Some? ==> ParsePatch(b) == ParseInsert(b)
    ensures b.wellTyped && !HasRequired(b.fields) ==> ParsePatch(b).Some? && ParseInsert(b).None?
    ensures ParsePatch(b) == ParsePatch(b.(id := None, createdAt := None, lastUpdatedAt := None))
    ensures ParseInsert(b) == ParseInsert(b.(id := None, createdAt := None, lastUpdatedAt := None))
  {
  }

  datatype Payload =
    | Categories(rows: seq<Row>)
    | Category(row: Row)
    | Message(text: string)
    | ValidationFailure(message: string)

  datatype Response = Response(status: int, payload: Payload)

  /** A handler's response and the store after it. */
  datatype Exchange = Exchange(response: Response, store: Store)

  const NotFound := Response(404, Message("Tag category not found"))
  const Invalid := Response(400, ValidationFailure("Validation error"))
  const DeletedOk := Response(200, Message("Tag category deleted successfully"))

  /** `GET /api/tag-categories`: 200 with the live rows; nothing changes. */
  function ListRoute(s: Store): (x: Exchange)
    ensures x.store == s && x.response.status == 200 && x.response.payload.Categories?
    ensures Valid(s) ==> forall r :: r in x.response.payload.rows <==> r.id in s.rows && s.rows[r.id] == r && IsLive(r)
  {
    ListExact(s);
    Exchange(Response(200, Categories(List(s))), s)
  }

  /** `GET /api/tag-categories/:id`: 404 on an unknown id, otherwise 200 with the row, soft-deleted or not. */
  function GetRoute(s: Store, id: string): (x: Exchange)
    ensures x.store == s
    ensures id !in s.rows ==> x.response == NotFound
    ensures id in s.rows ==> x.response == Response(200, Category(s.rows[id]))
  {
    match Get(s, id)
    case None => Exchange(NotFound, s)
    case Some(row) => Exchange(Response(200, Category(row)), s)
  }

  /**
   * `POST /api/tag-categories`: parsing comes first, so an invalid body gets 400 and leaves the
   * store alone; a valid one is stored under the fresh id `id` and returned with 201.
   */
  function CreateRoute(s: Store, b: Body, id: string, now: int): (x: Exchange)
    ensures !(b.wellTyped && HasRequired(b.fields)) ==> x == Exchange(Invalid, s)
    ensures b.wellTyped && HasRequired(b.fields) ==>
      && x.response.status == 201
      && x.response.payload.Category?
      && var row := x.response.payload.row;
      && row.id == id && row.fields == b.fields
      && row.createdAt == now && row.lastUpdatedAt == now
      && Get(x.store, id) == Some(row)
    ensures forall k :: k != id ==> Get(x.store, k) == Get(s, k)
    ensures Valid(s) ==> Valid(x.store)
  {
    match ParseInsert(b)
    case None => Exchange(Invalid, s)
    case Some(ins) =>
      var step := Create(s, id, now, ins);
      Exchange(Response(201, Category(step.result)), step.store)
  }

  /**
   * `PUT /api/tag-categories/:id`: an invalid body gets 400 before the id is looked at; an
   * unknown id gets 404; otherwise 200 with the updated row. The body's `id` and timestamps are
   * stripped, so the row keeps its id and creation time.
   */
  function UpdateRoute(s: Store, id: string, b: Body, now: int): (x: Exchange)
    ensures !b.wellTyped ==> x == Exchange(Invalid, s)
    ensures b.wellTyped && id !in s.rows ==> x == Exchange(NotFound, s)
    ensures b.wellTyped && id in s.rows ==>
      && x.response.status == 200
      && x.response.payload.Category?
      && var row := x.response.payload.row;
      && Get(x.store, id) == Some(row)
      && row.createdAt == s.rows[id].createdAt
      && row.id == s.rows[id].id
      && row.lastUpdatedAt == now
      && row.fields == Merge(s.rows[id].fields, b.fields)
    ensures forall k :: k != id ==> Get(x.store, k) == Get(s, k)
    ensures Valid(s) ==> Valid(x.store)
  {
    match ParsePatch(b)
    case None => Exchange(Invalid, s)
    case Some(patch) =>
      var step := Update(s, id, now, patch);
      match step.result
      case None => Exchange(NotFound, s)
      case Some(row) => Exchange(Response(200, Category(row)), step.store)
  }

  /** `DELETE /api/tag-categories/:id`: 404 on an unknown id, otherwise a soft delete and 200 with a message. */
  function DeleteRoute(s: Store, id: string, now: int): (x: Exchange)
    ensures id !in s.rows ==> x == Exchange(NotFound, s)
    ensures id in s.rows ==>
      && x.response == DeletedOk
      && Get(x.store, id).Some?
      && IsDeleted(Get(x.store, id).value)
      && Get(x.store, id).value.lastUpdatedAt == now
      && x.store.rows[id] == s.rows[id].(fields := s.rows[id].fields.(deleted := Some(true)), lastUpdatedAt := now)
    ensures forall k :: k != id ==> Get(x.store, k) == Get(s, k)
    ensures x.store.order == s.order
    ensures Valid(s) ==> Valid(x.store)
  {
    var step := Delete(s, id, now);
    if step.result then Exchange(DeletedOk, step.store) else Exchange(NotFound, s)
  }

  /**
   * After a successful DELETE the record is gone from the list endpoint, yet GET by id still
   * answers 200 with the row, flagged deleted.
   */
  lemma SoftDeleteStillFetchable(s: Store, id: string, now: int)
    requires Valid(s) && id in s.rows
    ensures var after := DeleteRoute(s, id, now).store;
      && GetRoute(after, id).response.status == 200
      && IsDeleted(GetRoute(after, id).response.payload.row)
      && forall r :: r in ListRoute(after).response.payload.rows ==> r.id != id
  {
    var after := DeleteRoute(s, id, now).store;
    ListExact(after);
  }

  /** A soft-deleted record can still be updated, and a body carrying `deleted: false` brings it back into the list. */
  lemma UpdateRevives(s: Store, id: string, b: Body, now: int)
    requires Valid(s) && id in s.rows && IsDeleted(s.rows[id])
    requires b.wellTyped && b.fields.deleted == Some(false)
    ensures var x := UpdateRoute(s, id, b, now);
      && x.response.status == 200
      && x.response.payload.row in ListRoute(x.store).response.payload.rows
  {
    var x := UpdateRoute(s, id, b, now);
    MergeLookup(s.rows[id].fields, b.fields);
    assert Lookup(x.response.payload.row.fields, Deleted) == Some(Flag(false));
    ListExact(x.store);
  }

  /** Nothing makes `gameId` unique: a valid body is created whatever other rows share its game id. */
  lemma DuplicateGameIdAccepted(s: Store, b: Body, id: string, now: int)
    requires b.wellTyped && HasRequired(b.fields)
    requires exists k :: k in s.rows && s.rows[k].fields.gameId == b.fields.gameId
    ensures CreateRoute(s, b, id, now).response.status == 201
  {
  }
}
