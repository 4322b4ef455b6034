/**
 * The tag-categories page: the filter it applies to the fetched list, and how a form
 * submission becomes a create or an update request against the routes.
 */
module Page {
  import opened Wrappers
  import opened Schema
  import Seqs
  import Strings
  import LiveForm
  import Routes
  import Storage

  /** The filter sidebar's state; an empty string means "no constraint". */
  datatype Filters = Filters(status: string, group: string, precisionType: string, search: string)

  /** The state the page starts with. */
  const NoFilters := Filters("", "", "", "")

  /**
   * The filter callback: each non-empty filter, in turn, can reject the category. The group
   * filter compares the group's value strictly with the filter string, and the search looks
   * for the lower-cased search text inside the lower-cased name.
   */
  function Matches(f: Filters, c: TagCategory): bool {
    if f.status != "" && c.status != f.status then false
    else if f.group != "" && c.group.value != Str(f.group) then false
    else if f.precisionType != "" && c.precisionType != f.precisionType then false
    else if f.search != "" && !Strings.Includes(Strings.Lower(c.name), Strings.Lower(f.search)) then false
    else true
  }

  /** Every non-empty filter constrains its own field, and they are combined by conjunction. */
  ghost predicate Satisfies(f: Filters, c: TagCategory) {
    && (f.status == "" || c.status == f.status)
    && (f.group == "" || c.group.value == Str(f.group))
    && (f.precisionType == "" || c.precisionType == f.precisionType)
    && (f.search == "" || Strings.IsSubstring(Strings.Lower(f.search), Strings.Lower(c.name)))
  }

  /** The early-return callback decides exactly the conjunction of the four constraints. */
  lemma MatchesIff(f: Filters, c: TagCategory)
    ensures Matches(f, c) <==> Satisfies(f, c)
  {
    Strings.IncludesIff(Strings.Lower(c.name), Strings.Lower(f.search));
  }

  /** `filteredCategories`: the fetched categories the filters let through, in the fetched order. */
  function Filtered(f: Filters, cats: seq<TagCategory>): (r: seq<TagCategory>)
    ensures |r| <= |cats|
  {
    Seqs.Filter(cats, c => Matches(f, c))
  }

  /** What is shown is exactly the fetched categories satisfying every non-empty filter, in their order. */
  lemma FilteredExact(f: Filters, cats: seq<TagCategory>)
    ensures Filtered(f, cats) == Seqs.Filter(cats, c => Satisfies(f, c))
    ensures forall c :: c in Filtered(f, cats) <==> c in cats && Satisfies(f, c)
    ensures Seqs.IsSubsequence(Filtered(f, cats), cats)
  {
    forall c | c in cats
      ensures Matches(f, c) <==> Satisfies(f, c)
    {
      MatchesIff(f, c);
    }
    Seqs.FilterCongruent(cats, c => Matches(f, c), c => Satisfies(f, c));
    Seqs.FilterIsSubsequence(cats, c => Matches(f, c));
  }

  /** With every filter empty, the whole fetched list is shown unchanged. */
  lemma FilteredNoFilters(cats: seq<TagCategory>)
    ensures Filtered(NoFilters, cats) == cats
  {
    Seqs.FilterKeepsAll(cats, c => Matches(NoFilters, c));
  }

  /** A numeric group value never equals a group filter, which is always a string. */
  lemma NumericGroupExcluded(f: Filters, cats: seq<TagCategory>)
    requires f.group != ""
    ensures forall c :: c in Filtered(f, cats) ==> c.group.value.Str?
  {
  }

  /**
   * Typing more of the search text can only narrow the result: if the old search text occurs in
   * the new one, what the new search shows is a subsequence of what the old one showed.
   */
  lemma NarrowerSearch(f: Filters, cats: seq<TagCategory>, longer: string)
    requires Strings.IsSubstring(f.search, longer)
    ensures Seqs.IsSubsequence(Filtered(f.(search := longer), cats), Filtered(f, cats))
  {
    var g := f.(search := longer);
    forall i | 0 <= i < |cats| && Matches(g, cats[i])
      ensures Matches(f, cats[i])
    {
      var c := cats[i];
      MatchesIff(f, c);
      MatchesIff(g, c);
      if f.search != "" {
        assert longer != "" by {
          var k :| Strings.OccursAt(longer, f.search, k);
        }
        Strings.LowerPreservesSubstring(f.search, longer);
        Strings.SubstringTransitive(Strings.Lower(f.search), Strings.Lower(longer), Strings.Lower(c.name));
      }
    }
    Seqs.FilterMonotone(cats, c => Matches(g, c), c => Matches(f, c));
  }

  /** The search ignores case: searching for `s` shows the same as searching for its lower-case form. */
  lemma SearchCaseInsensitive(f: Filters, cats: seq<TagCategory>)
    ensures Filtered(f, cats) == Filtered(f.(search := Strings.Lower(f.search)), cats)
  {
    var g := f.(search := Strings.Lower(f.search));
    Strings.LowerIdempotent(f.search);
    Seqs.FilterCongruent(cats, c => Matches(f, c), c => Matches(g, c));
  }

  /** The request `handleFormSubmit` issues. */
  datatype Mutation =
    | CreateMutation(data: LiveForm.FormData)
    | UpdateMutation(id: string, data: LiveForm.FormData)

  /**
   * `handleFormSubmit`: with a category selected for editing, an update of that category's id;
   * otherwise a create. The form's data is sent as it is in both cases.
   */
  function HandleFormSubmit(selected: Option<TagCategory>, data: LiveForm.FormData): (m: Mutation)
    ensures m.CreateMutation? <==> selected.None?
    ensures m.UpdateMutation? ==> m.id == selected.value.id
    ensures m.data == data
  {
    match selected
    case None => CreateMutation(data)
    case Some(c) => UpdateMutation(c.id, data)
  }

  /**
   * The JSON body a mutation sends: the form's ten columns and nothing else. Every one has the
   * type its column declares, so the body passes the schema's per-key checks.
   */
  function RequestBody(d: LiveForm.FormData): (b: Routes.Body)
    ensures b.wellTyped && HasRequired(b.fields)
    ensures b.id.None? && b.createdAt.None? && b.lastUpdatedAt.None?
    ensures forall c :: LiveForm.Editable(c) ==> Lookup(b.fields, c) == Some(LiveForm.Get(d, c))
    ensures Lookup(b.fields, Deleted) == None
  {
    Routes.Body(LiveForm.SubmittedData(d), None, None, None, true)
  }

  /**
   * A mutation delivered to the routes: a create posts the body and is stored under `freshId`;
   * an update puts the body to the category's id. `freshId` and `now` stand for the server's
   * id generator and clock. The form's body always passes the schema, so a create always
   * succeeds and an update fails only on an id the store does not know.
   */
  function Send(s: Storage.Store, m: Mutation, freshId: string, now: int): (x: Routes.Exchange)
    ensures m.CreateMutation? ==>
      && x.response.status == 201
      && x.response.payload.Category?
      && var row := x.response.payload.row;
      && row.id == freshId && row.createdAt == now && row.lastUpdatedAt == now
      && (forall c :: LiveForm.Editable(c) ==> Lookup(row.fields, c) == Some(LiveForm.Get(m.data, c)))
      && Lookup(row.fields, Deleted) == None
      && Storage.Get(x.store, freshId) == Some(row)
    ensures m.UpdateMutation? && m.id !in s.rows ==> x == Routes.Exchange(Routes.NotFound, s)
    ensures m.UpdateMutation? && m.id in s.rows ==>
      var old_row := s.rows[m.id];
      && x.response.status == 200
      && x.response.payload.Category?
      && var row := x.response.payload.row;
      && Storage.Get(x.store, m.id) == Some(row)
      && row.id == old_row.id && row.createdAt == old_row.createdAt && row.lastUpdatedAt == now
      && (forall c :: LiveForm.Editable(c) ==> Lookup(row.fields, c) == Some(LiveForm.Get(m.data, c)))
      && Lookup(row.fields, Deleted) == Lookup(old_row.fields, Deleted)
    ensures forall k :: k != (if m.CreateMutation? then freshId else m.id) ==> Storage.Get(x.store, k) == Storage.Get(s, k)
    ensures Storage.Valid(s) ==> Storage.Valid(x.store)
  {
    match m
    case CreateMutation(d) => Routes.CreateRoute(s, RequestBody(d), freshId, now)
    case UpdateMutation(id, d) =>
      if id in s.rows then
        MergeLookup(s.rows[id].fields, RequestBody(d).fields);
        Routes.UpdateRoute(s, id, RequestBody(d), now)
      else
        Routes.UpdateRoute(s, id, RequestBody(d), now)
  }

  /**
   * Submitting the form with nothing selected creates a category: 201, and the list endpoint
   * then shows the old list followed by the new row, whose columns are the form's.
   */
  lemma CreateFromFormListed(s: Storage.Store, d: LiveForm.FormData, freshId: string, now: int)
    requires Storage.Valid(s) && freshId !in s.rows
    ensures var x := Send(s, HandleFormSubmit(None, d), freshId, now);
      && x.response.status == 201
      && x.response.payload.Category?
      && Storage.List(x.store) == Storage.List(s) + [x.response.payload.row]
      && forall c :: LiveForm.Editable(c) ==> Lookup(x.response.payload.row.fields, c) == Some(LiveForm.Get(d, c))
  {
    var b := RequestBody(d);
    var step := Storage.Create(s, freshId, now, b.fields);
    Storage.CreateAppendsToList(s, freshId, now, b.fields);
    assert Storage.IsLive(step.result);
  }

  /**
   * Submitting the form with a stored category selected replaces its ten editable columns with
   * the form's, and keeps its id, creation time and deletion flag: the form never sends `deleted`.
   */
  lemma UpdateFromFormStoresForm(s: Storage.Store, selected: TagCategory, d: LiveForm.FormData, now: int)
    requires selected.id in s.rows
    ensures var x := Send(s, HandleFormSubmit(Some(selected), d), "", now);
      var old_row := s.rows[selected.id];
      && x.response.status == 200
      && x.response.payload.Category?
      && var row := x.response.payload.row;
      && Storage.Get(x.store, selected.id) == Some(row)
      && row.id == old_row.id && row.createdAt == old_row.createdAt && row.lastUpdatedAt == now
      && (forall c :: LiveForm.Editable(c) ==> Lookup(row.fields, c) == Some(LiveForm.Get(d, c)))
      && Lookup(row.fields, Deleted) == Lookup(old_row.fields, Deleted)
  {
    var b := RequestBody(d);
    MergeLookup(s.rows[selected.id].fields, b.fields);
  }
}
