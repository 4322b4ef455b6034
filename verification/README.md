# Tag category management, modelled in Dafny

A tag category describes one kind of tag a sports-game tagging tool can attach. It has:

- a name and a game id;
- a group (ball, player or game);
- a status and a precision type;
- two flags (parent tag, replay);
- a name structure, which is a list of tokens;
- an ordered list of field definitions (`metadataConfig`);
- a map of named sub-schemas (`subCategories`), each with its own field definitions.

The system stores categories in an in-memory, soft-deleting store behind five REST routes. A
single page lists the categories, filters them, and creates or edits them through a modal form.

The project models:

- **Schema** (`schema.dfy`): the record shape and its eleven insert columns. It covers the column
  defaults and the object spread `{ ...base, ...patch }` used by partial updates (`Merge`), with
  its identity, idempotence and associativity laws.
- **Storage** (`storage.dfy`): `MemStorage` as a JavaScript `Map`, represented as insertion order
  plus entries, with get, list, create, update and soft delete. The store invariant (`Valid`) is
  preserved by every operation and by any run of operations. A row stays deleted until an update
  explicitly sets `deleted` to false, or a create under the same id stores a payload not marked deleted.
- **Routes** (`routes.dfy`): the five handlers as functions from (request, store) to
  (response, store'). Schema parsing is represented by what it accepts and what it strips.
  Validation is answered before an unknown id (400 before 404). A soft-deleted row is still
  answered by `GET /:id`.
- **Page** (`page.dfy`): the list filter and the submit dispatch (create or update), plus
  end-to-end properties. A form-created category appears at the end of the list. A form update
  replaces exactly the ten editable columns and keeps `deleted`.
- **Live form** (`live_form.dfy`): the form the page uses (`tag-category-form.tsx`), covering
  loading, validation, submit and every edit helper. Each edit changes one column and blanks
  only that column's error.
- **Legacy form** (`legacy_form.dfy`): the unused variant (`TagCategoryForm.tsx`). Its data is
  partial, and it checks five columns instead of three. On submit it fills in an id, timestamps
  and the column defaults. It is proved to be stricter than the live form.
- **Supporting modules:**
  - `form_edits.dfy`: the shared list, map and error edits;
  - `strings.dfy`: ASCII `trim`, `toLowerCase` and `includes`;
  - `seqs.dfy`: order-preserving filtering;
  - `wrappers.dfy`: `Option`.

Server ids (`randomUUID()`), client ids (`nanoid()`) and clock readings (`Date.now()`) are
parameters of the operations that use them.

Two fields are renamed because their names are Dafny keywords:

- a `label` field is called `caption`;
- a field definition's `type` is called `inputType`.

Three behaviours of the code that the model keeps, although they may surprise a reader:

- The live form does not check status or precision type.
- The server accepts a blank name, because the insert schema only requires a string.
- An update can bring a soft-deleted row back.

## Model

| member | source | states |
|---|---|---|
| Schema.ConfigGet | shared/schema.ts:13-24 | reading a field-definition key yields a value of the type that key declares; optional keys may be absent |
| Schema.ConfigSet | client/src/components/tag-category-form.tsx:153-157 | `{ ...cfg, [field]: value }` makes that key read back as `value` and leaves every other key of the definition as it was |
| Schema.KeyOfInjective | client/src/components/tag-category-form.tsx:75-92 | distinct columns have distinct object keys, so error maps keyed by column lose nothing against the source's name-keyed maps |
| Schema.Lookup | shared/schema.ts:8-45 | every present column value has the type its column declares |
| Schema.FieldsExtensional | shared/schema.ts:48-52 | two payloads that agree on every column are the same payload |
| Schema.Assign | client/src/components/TagCategoryForm.tsx:157-161 | `{ ...prev, [field]: value }` sets that column and leaves every other column alone |
| Schema.Merge | server/storage.ts:44-48 | no contract of its own: the spread `{ ...existing, ...updateData }`, characterised column by column by `Schema.MergeLookup` |
| Schema.MergeLookup | server/storage.ts:44-48 | after the spread, a column the patch carries has the patch's value, and every other column keeps the stored value |
| Schema.MergeIdentityAndIdempotence | server/storage.ts:44-48 | an empty patch changes nothing, and applying the same patch twice equals applying it once |
| Schema.MergeAssociative | server/storage.ts:40-51 | two successive partial updates equal one update with the combined patch |
| Schema.ColumnDefault | shared/schema.ts:24-45 | each defaulted column's default (empty list, empty map, false) has the column's type |
| Schema.ApplyDefaults | shared/schema.ts:24-45 | present columns are kept, absent defaulted columns get their default, and columns without a default are untouched |
| Schema.CategoryValue | shared/schema.ts:55 | reading a column of a complete record yields a value of the column's type |
| Schema.DefaultsComplete | shared/schema.ts:8-45 | with the five not-null columns present, applying the defaults leaves no column absent |
| Storage.EmptyValid | server/storage.ts:15-17 | the empty store meets the store invariant (distinct keys in order, order matches entries, rows under their own ids) |
| Storage.Get | server/storage.ts:19-21 | the stored row under the id is returned whether or not it is soft-deleted; an unknown id gives nothing |
| Storage.Entries | server/storage.ts:24 | the values read in key order are exactly the stored rows |
| Storage.List | server/storage.ts:23-25 | no contract of its own: the stored values in key order with deleted rows filtered out, characterised by `Storage.ListExact` and `Storage.CreateAppendsToList` |
| Storage.ListExact | server/storage.ts:23-25 | the list holds exactly the stored rows whose `deleted` is not true, and nothing else |
| Storage.Put | server/storage.ts:36 | `map.set` places a new key last and keeps the position of an existing key |
| Storage.PutValid | server/storage.ts:36 | storing a row under its own id preserves the store invariant |
| Storage.Create | server/storage.ts:27-38 | the payload is stored as given under the fresh id with both timestamps `now`; no other id is affected; the invariant is preserved |
| Storage.Update | server/storage.ts:40-51 | an unknown id gives no result and no change; otherwise the row becomes the spread of old row and patch, keeping id and creation time and stamped `now`; no other id is affected |
| Storage.Delete | server/storage.ts:53-65 | an unknown id gives false and no change; otherwise the row is kept with `deleted` true and stamped `now`; no other id is affected |
| Storage.EntriesIgnoreOtherKeys | server/storage.ts:24 | entries of keys outside the order do not affect the values read |
| Storage.EntriesAppend | server/storage.ts:24 | a key added last in the order contributes its row last |
| Storage.EntriesDelete | server/storage.ts:53-65 | overwriting a row in place with a deleted one drops exactly that id from the live entries and keeps the others in their order |
| Storage.CreateAppendsToList | server/storage.ts:23-38 | creating under a fresh id appends the new row to the end of the list, unless it was created deleted |
| Storage.DeleteHidesFromList | server/storage.ts:53-65 | after a soft delete, the list is the old list with that id filtered out, the remaining rows in the same order, and `Get` still finds the row, marked deleted |
| Storage.RunKeepsIds | server/storage.ts:12-66 | no sequence of operations ever removes a stored id, and every sequence preserves the invariant |
| Storage.StaysDeleted | server/storage.ts:40-65 | a deleted row stays stored and deleted through any operations, unless an update's patch sets `deleted` to false or a create reuses its id with a non-deleted payload |
| Routes.ParseInsert | server/routes.ts:34 | no contract of its own: the insert schema, characterised by `Routes.InsertRefinesPatch` and the 400 clause of `Routes.CreateRoute` |
| Routes.ParsePatch | server/routes.ts:51 | no contract of its own: the partial schema, characterised by `Routes.InsertRefinesPatch` and the 400 clause of `Routes.UpdateRoute` |
| Routes.InsertRefinesPatch | server/routes.ts:34-51 | the insert schema accepts a subset of what the partial schema accepts, and parses it identically; a body missing a required column passes only the partial schema; `id` and timestamps never pass either |
| Routes.ListRoute | server/routes.ts:9-16 | 200 with exactly the live stored rows; the store is unchanged |
| Routes.GetRoute | server/routes.ts:18-29 | 404 "Tag category not found" for an unknown id, else 200 with the row, deleted or not; the store is unchanged |
| Routes.CreateRoute | server/routes.ts:31-46 | a body failing the insert schema gets 400 "Validation error" with the store unchanged; otherwise 201 with the row stored under the fresh id; other ids are untouched |
| Routes.UpdateRoute | server/routes.ts:48-66 | a malformed body gets 400 before the id is looked up; an unknown id gets 404; otherwise 200 with the merged row, same id and creation time; other ids are untouched |
| Routes.DeleteRoute | server/routes.ts:68-79 | 404 for an unknown id; otherwise 200 "Tag category deleted successfully" and the row kept whole (id, creation time, every other column) with only `deleted` set true and the update time set to `now`; the key order and other ids are untouched |
| Routes.SoftDeleteStillFetchable | server/routes.ts:18-29 | after a delete, the list no longer shows the id, but `GET /:id` still answers 200 with the deleted row |
| Routes.UpdateRevives | server/routes.ts:48-66 | updating a soft-deleted row with `deleted: false` succeeds and puts it back in the list |
| Routes.DuplicateGameIdAccepted | server/routes.ts:31-46 | a valid body is created even when other rows share its game id: nothing is unique but the id |
| Strings.TrimStart | client/src/components/tag-category-form.tsx:78 | the result is a suffix of the input; only whitespace was dropped; it starts with a non-space or is empty |
| Strings.TrimEnd | client/src/components/tag-category-form.tsx:78 | the result is a prefix of the input; only whitespace was dropped; it ends with a non-space or is empty |
| Strings.Trim | client/src/components/tag-category-form.tsx:78 | no contract of its own: `TrimEnd` after `TrimStart`, whose contracts it inherits; characterised by `Strings.TrimEmptyIff` |
| Strings.TrimEmptyIff | client/src/components/tag-category-form.tsx:78-84 | a string trims to empty exactly when it is all whitespace |
| Strings.TrimsToEmptyIff | client/src/components/TagCategoryForm.tsx:105-111 | the character-by-character blank test agrees with trimming to empty |
| Strings.TrimsToEmpty | client/src/components/TagCategoryForm.tsx:105-111 | no contract of its own: the test `!s.trim()`, checked one character at a time; characterised by `Strings.TrimsToEmptyIff` |
| Strings.Lower | client/src/pages/tag-categories.tsx:107 | lower-casing keeps the length and maps each character on its own |
| Strings.LowerIdempotent | client/src/pages/tag-categories.tsx:107 | lower-casing twice equals lower-casing once |
| Strings.Includes | client/src/pages/tag-categories.tsx:107 | no contract of its own: tries each start position from the left; characterised by `Strings.IncludesIff` |
| Strings.IncludesIff | client/src/pages/tag-categories.tsx:107 | `includes` holds exactly when the needle occurs at some position of the haystack |
| Strings.SubstringTransitive | client/src/pages/tag-categories.tsx:107 | an occurrence inside an occurrence is an occurrence |
| Strings.LowerPreservesSubstring | client/src/pages/tag-categories.tsx:107 | lower-casing both strings preserves an occurrence |
| Seqs.Filter | client/src/pages/tag-categories.tsx:103 | the elements kept are exactly those satisfying the predicate, and the result is no longer than the input |
| Seqs.FilterIsSubsequence | client/src/pages/tag-categories.tsx:103 | filtering keeps the surviving elements in their original order |
| Page.Matches | client/src/pages/tag-categories.tsx:103-110 | no contract of its own: the early-return filter callback, characterised by `Page.MatchesIff` |
| Page.MatchesIff | client/src/pages/tag-categories.tsx:104-110 | the early-return filter callback passes a category exactly when every non-empty filter matches: status and precision by equality, group value strictly equal to the filter string, name containing the search text ignoring case |
| Page.Filtered | client/src/pages/tag-categories.tsx:102-111 | filtering never lengthens the list |
| Page.FilteredExact | client/src/pages/tag-categories.tsx:102-111 | the shown list equals filtering the fetched list by the conjunction of the non-empty filters, so it keeps exactly the satisfying categories, with their multiplicity and in fetched order |
| Page.FilteredNoFilters | client/src/pages/tag-categories.tsx:24-29 | with the initial empty filters, every fetched category is shown, in order |
| Page.NumericGroupExcluded | client/src/pages/tag-categories.tsx:105 | with a group filter set, no category whose group value is a number is shown |
| Page.NarrowerSearch | client/src/pages/tag-categories.tsx:107 | extending the search text can only remove categories from what is shown |
| Page.SearchCaseInsensitive | client/src/pages/tag-categories.tsx:107 | searching for a text and for its lower-case form shows the same categories |
| Page.HandleFormSubmit | client/src/pages/tag-categories.tsx:128-136 | with a category selected the submit becomes an update of that category's id, otherwise a create; the form data is passed on unchanged |
| Page.RequestBody | client/src/pages/tag-categories.tsx:39-64 | the body sent carries the form's ten columns, no `deleted`, and no id or timestamps |
| Page.Send | client/src/pages/tag-categories.tsx:39-64 | a create from form data answers 201 and stores a live row under the fresh id whose ten editable columns are the form's; an update of an unknown id answers 404 and changes nothing; an update of a stored id answers 200, takes the ten columns from the form and keeps id, creation time and `deleted`; no other id is touched and the store invariant is kept |
| Page.CreateFromFormListed | client/src/pages/tag-categories.tsx:128-136 | submitting with nothing selected gets 201, and the list then shows the old list followed by the new row carrying the form's columns |
| Page.UpdateFromFormStoresForm | client/src/pages/tag-categories.tsx:128-136 | submitting for a stored category gets 200, replaces its ten editable columns with the form's, and keeps its id, creation time and deletion flag |
| FormEdits.RemoveAt | client/src/components/tag-category-form.tsx:143-146 | dropping position `index` removes exactly that element when it is in range, and nothing otherwise |
| FormEdits.RemoveAppended | client/src/components/tag-category-form.tsx:132-146 | removing the token just added gives back the original list |
| FormEdits.ReplaceUndo | client/src/components/tag-category-form.tsx:137-141 | writing back the old token undoes an update |
| FormEdits.UpdateConfigAt | client/src/components/tag-category-form.tsx:153-157 | only key `k` of definition `i` changes; the length and every other definition are kept |
| FormEdits.RenameKey | client/src/components/tag-category-form.tsx:173-180 | the entry moves to the new key, overwriting anything there; the old key is gone; every other entry is kept |
| FormEdits.RenameRoundTrip | client/src/components/tag-category-form.tsx:173-180 | renaming to an unused key and back restores the map |
| FormEdits.RenameOverwrites | client/src/components/tag-category-form.tsx:173-180 | renaming onto a key already in use loses one entry |
| FormEdits.UpdateEntry | client/src/components/tag-category-form.tsx:182-188 | replacing one subcategory keeps the key set and every other entry |
| FormEdits.ClearError | client/src/components/tag-category-form.tsx:111-116 | a shown error for the field is blanked but its key is kept; every other message is kept; an already blank error is left as is |
| FormEdits.FindGroup | client/src/components/tag-category-form.tsx:126 | a found option is the first option with the requested value; nothing is found only when no option has that value |
| FormEdits.GroupOptionsExact | client/src/components/tag-category-form.tsx:119-130 | the group picker accepts exactly ball, player and game, yielding Ball, Player and Game |
| LiveForm.Get | client/src/components/tag-category-form.tsx:36-47 | each editable column of the form data has its column's type |
| LiveForm.Set | client/src/components/tag-category-form.tsx:104-108 | setting a column makes it read back as the new value and keeps every other column |
| LiveForm.Load | client/src/components/tag-category-form.tsx:55-73 | the effect run when the `category` prop changes: to a category, it copies the ten editable columns of the category; to null, it resets to empty text, an empty group (empty label and value), ACTIVE, LONG, false flags and empty lists; errors are cleared either way |
| LiveForm.Validate | client/src/components/tag-category-form.tsx:75-92 | an error is reported, with its message, exactly for a blank name, a blank game id and a falsy group value, and for nothing else |
| LiveForm.ValidIff | client/src/components/tag-category-form.tsx:75-92 | the form validates exactly when name and game id have a non-space character and the group value is truthy |
| LiveForm.StatusAndPrecisionUnchecked | client/src/components/tag-category-form.tsx:75-92 | changing status or precision type never changes the validation result |
| LiveForm.DefaultFormRejected | client/src/components/tag-category-form.tsx:36-47 | the freshly reset form reports name, game id and group |
| LiveForm.Submit | client/src/components/tag-category-form.tsx:94-102 | validation always runs and replaces the errors; the data is handed on unchanged only when it validates and no submission is in flight |
| LiveForm.SubmittedData | client/src/components/tag-category-form.tsx:10 | what is handed on carries the ten editable columns and no `deleted` |
| LiveForm.InputChange | client/src/components/tag-category-form.tsx:104-117 | one column takes the new value; every other column and every other error is kept; that column's shown error is blanked |
| LiveForm.GroupChange | client/src/components/tag-category-form.tsx:119-130 | ball, player or game set the matching group option; any other value leaves the form unchanged |
| LiveForm.AddNameField | client/src/components/tag-category-form.tsx:132-135 | one empty token is appended and the existing tokens are kept |
| LiveForm.UpdateNameField | client/src/components/tag-category-form.tsx:137-141 | token `i` is replaced and the others stay in place |
| LiveForm.RemoveNameField | client/src/components/tag-category-form.tsx:143-146 | token `i` is dropped and the rest kept in order; an out-of-range index removes nothing |
| LiveForm.AddMetadataConfig | client/src/components/tag-category-form.tsx:148-151 | a default text-input definition is appended and the existing ones are kept |
| LiveForm.UpdateMetadataConfig | client/src/components/tag-category-form.tsx:153-157 | key `k` of definition `i` is set and nothing else changes |
| LiveForm.RemoveMetadataConfig | client/src/components/tag-category-form.tsx:159-162 | definition `i` is dropped and the rest kept in order |
| LiveForm.AddSubcategory | client/src/components/tag-category-form.tsx:164-171 | an empty sub-schema appears under the new key and every other entry is kept |
| LiveForm.UpdateSubcategoryKey | client/src/components/tag-category-form.tsx:173-180 | with equal keys nothing happens, not even error clearing; otherwise the entry moves to the new key and the old key disappears |
| LiveForm.UpdateSubcategoryLabel | client/src/components/tag-category-form.tsx:182-188 | only that entry's label changes; its definitions and every other entry are kept |
| LiveForm.RemoveSubcategory | client/src/components/tag-category-form.tsx:190-194 | exactly that key is deleted and every other entry is kept |
| LiveForm.AddSubcategoryConfig | client/src/components/tag-category-form.tsx:196-203 | a default definition is appended to that entry's list only |
| LiveForm.UpdateSubcategoryConfig | client/src/components/tag-category-form.tsx:205-214 | key `k` of definition `i` of that entry is set and nothing else changes |
| LiveForm.RemoveSubcategoryConfig | client/src/components/tag-category-form.tsx:216-223 | definition `i` of that entry is dropped and nothing else changes |
| LegacyForm.Load | client/src/components/TagCategoryForm.tsx:93-100 | the effect run when the `category` prop changes: to a category, it copies the whole category, including id and timestamps; to null, it resets to the defaults of lines 38-49 (empty name and game id, group value `""`, ACTIVE, LONG, false flags, empty lists and map) with no id, timestamps or `deleted`; errors are cleared |
| LegacyForm.Validate | client/src/components/TagCategoryForm.tsx:102-127 | an error, with its message, is reported for exactly the columns whose check fails |
| LegacyForm.ValidateChecks | client/src/components/TagCategoryForm.tsx:102-127 | the five checks: name and game id absent or blank; group absent or with a falsy value; status and precision type absent or empty; no other column is checked |
| LegacyForm.Fails | client/src/components/TagCategoryForm.tsx:105-123 | no contract of its own: the five checks of `validateForm`, one per column; characterised by `LegacyForm.ValidateChecks` |
| LegacyForm.ValidHasRequired | client/src/components/TagCategoryForm.tsx:129-143 | a draft that validates carries all five required columns, so the non-null assertions in submit are safe |
| LegacyForm.Submit | client/src/components/TagCategoryForm.tsx:129-155 | nothing is sent unless the draft validates; otherwise the record's id is the draft's non-empty id or a fresh one, creation time is the draft's non-zero one or `now`, it is stamped `now`, and it is not deleted |
| LegacyForm.SubmitAppliesColumnDefaults | client/src/components/TagCategoryForm.tsx:137-152 | on every column but `deleted`, the submitted record equals the draft with the table's column defaults applied |
| LegacyForm.ToLive | client/src/components/TagCategoryForm.tsx:38-49 | a draft holding all ten editable columns reads as the live form's data, column for column |
| LegacyForm.StricterThanLive | client/src/components/TagCategoryForm.tsx:102-127 | whatever this form accepts, the live form accepts as well |
| LegacyForm.EmptyStatusRejected | client/src/components/TagCategoryForm.tsx:117-119 | an empty status is reported with "Status is required", although the live form would accept it |
| LegacyForm.InputChange | client/src/components/TagCategoryForm.tsx:157-170 | one column takes the new value; the id, timestamps, every other column and every other error are kept; that column's shown error is blanked |
| LegacyForm.GroupChange | client/src/components/TagCategoryForm.tsx:172-183 | ball, player or game set the matching group option; any other value leaves the form unchanged |
| LegacyForm.AddNameField | client/src/components/TagCategoryForm.tsx:185-188 | an absent token list counts as empty; one empty token is appended |
| LegacyForm.UpdateNameField | client/src/components/TagCategoryForm.tsx:190-194 | token `i` is replaced and the others stay in place |
| LegacyForm.RemoveNameField | client/src/components/TagCategoryForm.tsx:196-199 | token `i` is dropped and the rest kept in order; an out-of-range index removes nothing |
| LegacyForm.AddMetadataConfig | client/src/components/TagCategoryForm.tsx:201-204 | an absent list counts as empty; a default INPUT/TEXT definition is appended |
| LegacyForm.UpdateMetadataConfig | client/src/components/TagCategoryForm.tsx:206-210 | key `k` of definition `i` is set and nothing else changes |
| LegacyForm.RemoveMetadataConfig | client/src/components/TagCategoryForm.tsx:212-215 | definition `i` is dropped and the rest kept in order |
| LegacyForm.AddSubcategory | client/src/components/TagCategoryForm.tsx:217-224 | an absent map counts as empty; an empty sub-schema appears under the new key |
| LegacyForm.UpdateSubcategoryKey | client/src/components/TagCategoryForm.tsx:226-233 | with equal keys nothing happens; otherwise the entry moves to the new key and the old key disappears |
| LegacyForm.UpdateSubcategoryLabel | client/src/components/TagCategoryForm.tsx:235-241 | only that entry's label changes |
| LegacyForm.RemoveSubcategory | client/src/components/TagCategoryForm.tsx:243-247 | exactly that key is deleted |
| LegacyForm.AddSubcategoryConfig | client/src/components/TagCategoryForm.tsx:249-256 | a default definition is appended to that entry's list only |
| LegacyForm.UpdateSubcategoryConfig | client/src/components/TagCategoryForm.tsx:258-267 | key `k` of definition `i` of that entry is set and nothing else changes |
| LegacyForm.RemoveSubcategoryConfig | client/src/components/TagCategoryForm.tsx:269-276 | definition `i` of that entry is dropped and nothing else changes |

## Left out

- The JSX markup is not modelled. This covers the modals, the cards, the sidebar and the delete confirmation dialog, which only render state and forward events.
- react-query, toasts, `fetch` and cache invalidation are not modelled. `Page.Send` delivers a mutation straight to the route model.
- The 500 branches of every route are not modelled. With the in-memory store, the storage calls cannot throw.
- The zod schema's per-key type checks are abstracted as the flag `Body.wellTyped`. For the text and boolean columns this flag stands for a check the server really makes.
- Routes.CreateRoute and Routes.UpdateRoute: cover only bodies whose jsonb columns (`group`, `metadataConfig`, `subCategories`, `nameStructure`) have the shape the table declares. That shape is a TypeScript-only annotation: the generated schema accepts any JSON value there, so the server accepts and stores bodies such as `group: null` or `nameStructure: "x"`, which `Schema.Fields` cannot represent and the model does not cover.
- `Page.RequestBody` sets `wellTyped`, because the form's data has the declared types by construction.
- JSON numbers are modelled as mathematical integers. Floating point, NaN and `-0` are not modelled.
- `Strings.Trim` and `Strings.Lower` cover ASCII only. `trim()` also strips Unicode spaces and line terminators, and `toLowerCase()` maps every Unicode letter.
- The key order of JavaScript objects is not modelled. `subCategories` is a map, and the error map is keyed by column.
- `../interfaces` is not part of this model. The legacy form's enum members are taken to be the strings `INPUT`, `TEXT`, `ACTIVE` and `LONG`.
- Page.Matches, Page.Filtered, Page.HandleFormSubmit, LiveForm.Load and LegacyForm.Load: take a complete `TagCategory`, as the client's type declares. The store keeps a defaulted column absent when the POST body omits it, so the client can in fact receive a category without, say, `nameStructure`. `LiveForm.Load` would then copy `undefined`, and `addNameField`/`removeNameField` would throw (tag-category-form.tsx lines 133 and 144). No client-side member represents such a record, and the model does not cover that path.
- `LegacyForm.Load` takes the shared `TagCategory` record in place of `ITagCategory`. `LegacyForm.InputChange` accepts only the eleven columns, not `id` or the timestamps.
- LiveForm.UpdateNameField: requires an index in range. An out-of-range write in JavaScript would extend the array with holes, which have no counterpart in a sequence.
- LiveForm.UpdateMetadataConfig: requires an index in range, for the same reason.
- LiveForm.UpdateSubcategoryConfig: requires an index in range, for the same reason.
- LegacyForm.UpdateNameField: requires an index in range, for the same reason.
- LegacyForm.UpdateMetadataConfig: requires an index in range, for the same reason.
- LegacyForm.UpdateSubcategoryConfig: requires an index in range, for the same reason.
- LiveForm.UpdateSubcategoryKey: requires the old key to be present. Otherwise the source would store `undefined` under the new key.
- LiveForm.UpdateSubcategoryLabel: requires the key to be present. Otherwise the source would create an entry with no `config`.
- LiveForm.AddSubcategoryConfig: requires the key to be present. Otherwise the source throws reading `config` of `undefined`.
- LiveForm.RemoveSubcategoryConfig: requires the key to be present. Otherwise the source throws reading `config` of `undefined`.
- LegacyForm.UpdateSubcategoryKey: requires the old key to be present. Otherwise the source would store `undefined` under the new key.
- LegacyForm.UpdateSubcategoryLabel: requires the key to be present. Otherwise the source would create an entry with no `config`.
- LegacyForm.AddSubcategoryConfig: requires the key to be present. Otherwise the source throws reading `config` of `undefined`.
- LegacyForm.RemoveSubcategoryConfig: requires the key to be present. Otherwise the source throws reading `config` of `undefined`.
- LiveForm.Load: models one run of the effect, which runs only when the `category` prop changes. The form stays mounted while closed (tag-categories.tsx:230-236), and `selectedCategory` is already null between two creates. A second create, or a create after a cancelled one, therefore opens with the previous data and errors. The model has no state for the closed-and-reopened form and does not cover that path.
- LegacyForm.Load: the same applies to the effect at TagCategoryForm.tsx:93-100, which also depends only on `category`.
- The sample data fixtures are not modelled.
- The page's modal open and close state is not modelled.
- The delete mutation is not modelled on the page. Deletion is modelled by `Routes.DeleteRoute` directly.
