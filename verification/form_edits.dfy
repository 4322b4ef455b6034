/**
 * The pure edits both category forms apply to the nested schema: the `nameStructure` token
 * list, a field-definition list, the `subCategories` map, the error map and the group picker.
 */
module FormEdits {
  import opened Wrappers
  import opened Schema

  /** `xs.filter((_, i) => i !== index)`: walk the list, dropping the element whose position is `index`. */
  function RemoveAt<T>(xs: seq<T>, index: int): (r: seq<T>)
    ensures 0 <= index < |xs| ==> r == xs[..index] + xs[index + 1..]
    ensures !(0 <= index < |xs|) ==> r == xs
    decreases |xs|
  {
    if |xs| == 0 then []
    else (if index == 0 then [] else [xs[0]]) + RemoveAt(xs[1..], index - 1)
  }

  /** Removing the element just appended gives back the original list. */
  lemma RemoveAppended<T>(xs: seq<T>, x: T)
    ensures RemoveAt(xs + [x], |xs|) == xs
  {
    assert (xs + [x])[..|xs|] == xs;
  }

  /** Writing back the old element undoes a replacement. */
  lemma ReplaceUndo<T>(xs: seq<T>, i: int, v: T)
    requires 0 <= i < |xs|
    ensures xs[i := v][i := xs[i]] == xs
  {
  }

  /** `{ ...list[i], [k]: v }` written at position `i`: only that key of that entry changes. */
  function UpdateConfigAt(configs: seq<FieldConfig>, i: int, k: ConfigKey, v: ConfigValue): (r: seq<FieldConfig>)
    requires 0 <= i < |configs| && FitsConfig(k, v)
    ensures |r| == |configs|
    ensures forall j :: 0 <= j < |configs| && j != i ==> r[j] == configs[j]
    ensures ConfigGet(r[i], k) == Some(v)
    ensures forall j :: j != k ==> ConfigGet(r[i], j) == ConfigGet(configs[i], j)
  {
    configs[i := ConfigSet(configs[i], k, v)]
  }

  /**
   * Rename a subcategory: `m[newKey] = m[oldKey]; delete m[oldKey]` when the keys differ,
   * nothing otherwise. An entry already under `newKey` is overwritten.
   */
  function RenameKey(m: SubCategoryMap, oldKey: string, newKey: string): (r: SubCategoryMap)
    requires oldKey in m
    ensures newKey in r && r[newKey] == m[oldKey]
    ensures oldKey != newKey ==> oldKey !in r
    ensures forall k :: k != oldKey && k != newKey ==> (k in r <==> k in m)
    ensures forall k :: k in r && k != newKey ==> k in m && r[k] == m[k]
  {
    if oldKey == newKey then m else m[newKey := m[oldKey]] - {oldKey}
  }

  /** Renaming to an unused key and back restores the map. */
  lemma RenameRoundTrip(m: SubCategoryMap, oldKey: string, newKey: string)
    requires oldKey in m && newKey !in m
    ensures RenameKey(RenameKey(m, oldKey, newKey), newKey, oldKey) == m
  {
    var there := RenameKey(m, oldKey, newKey);
    var back := RenameKey(there, newKey, oldKey);
    assert back.Keys == m.Keys;
  }

  /** Renaming onto a key that is already in use loses the entry that was there. */
  lemma RenameOverwrites(m: SubCategoryMap, oldKey: string, newKey: string)
    requires oldKey in m && newKey in m && oldKey != newKey
    ensures |RenameKey(m, oldKey, newKey)| == |m| - 1
  {
    var r := RenameKey(m, oldKey, newKey);
    assert r.Keys == m.Keys - {oldKey};
  }

  /** Replace the entry under an existing `key`, leaving every other entry alone. */
  function UpdateEntry(m: SubCategoryMap, key: string, entry: SubCategory): (r: SubCategoryMap)
    requires key in m
    ensures r.Keys == m.Keys
    ensures r[key] == entry
    ensures forall k :: k in m && k != key ==> r[k] == m[k]
  {
    m[key := entry]
  }

  /**
   * The forms' error messages, keyed by the column they are about. The source keys them by the
   * column's name (`KeyOf`), which is one-to-one, so keying by column loses nothing.
   */
  type Errors = map<Column, string>

  /** `after` is `before` with the error for `field`, if any, blanked: same keys, every other message kept. */
  ghost predicate Cleared(before: Errors, after: Errors, field: Column) {
    && after.Keys == before.Keys
    && (field in after ==> after[field] == "")
    && (forall k :: k in before && k != field ==> after[k] == before[k])
  }

  /**
   * `if (errors[field]) errors = { ...errors, [field]: '' }`: a shown (non-empty) error
   * for `field` is blanked; the key stays, and nothing else changes.
   */
  function ClearError(errors: Errors, field: Column): (r: Errors)
    ensures Cleared(errors, r, field)
    ensures field in errors && errors[field] == "" ==> r == errors
  {
    if field in errors && errors[field] != "" then errors[field := ""] else errors
  }

  /** The three groups the group picker offers, in order. */
  const GroupOptions: seq<Choice> := [
    Choice("Ball", Str("ball"), None, None),
    Choice("Player", Str("player"), None, None),
    Choice("Game", Str("game"), None, None)
  ]

  /** Position `i` holds the first option whose value is `value`. */
  ghost predicate FirstMatchAt(options: seq<Choice>, value: string, i: int) {
    && 0 <= i < |options|
    && options[i].value == Str(value)
    && forall j :: 0 <= j < i ==> options[j].value != Str(value)
  }

  /** `groupOptions.find(g => g.value === value)`: the first option whose value is `value`. */
  function FindGroup(options: seq<Choice>, value: string): (r: Option<Choice>)
    ensures r.Some? ==> exists i :: FirstMatchAt(options, value, i) && options[i] == r.value
    ensures r.None? ==> forall i :: 0 <= i < |options| ==> options[i].value != Str(value)
  {
    if |options| == 0 then None
    else if options[0].value == Str(value) then
      assert FirstMatchAt(options, value, 0);
      Some(options[0])
    else
      var rest := FindGroup(options[1..], value);
      assert rest.Some? ==> exists i :: FirstMatchAt(options, value, i) && options[i] == rest.value by {
        if rest.Some? {
          var i :| FirstMatchAt(options[1..], value, i) && options[1..][i] == rest.value;
          assert FirstMatchAt(options, value, i + 1);
        }
      }
      rest
  }

  /** The picker accepts exactly ball, player and game, and yields the matching capitalised label. */
  lemma GroupOptionsExact(value: string)
    ensures FindGroup(GroupOptions, value).Some? <==> value in {"ball", "player", "game"}
    ensures value == "ball" ==> FindGroup(GroupOptions, value) == Some(Choice("Ball", Str("ball"), None, None))
    ensures value == "player" ==> FindGroup(GroupOptions, value) == Some(Choice("Player", Str("player"), None, None))
    ensures value == "game" ==> FindGroup(GroupOptions, value) == Some(Choice("Game", Str("game"), None, None))
  {
    if value !in {"ball", "player", "game"} {
      assert forall i :: 0 <= i < |GroupOptions| ==> GroupOptions[i].value != Str(value);
    }
  }
}
