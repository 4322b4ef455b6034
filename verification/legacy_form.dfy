/**
 * The other category form (TagCategoryForm.tsx), which the page does not use. Its data is a
 * `Partial<ITagCategory>`: every key may be absent, lists and the subcategory map default to
 * empty when absent, validation checks five columns, and submitting builds a complete record
 * with an id and timestamps.
 */
module LegacyForm {
  import opened Wrappers
  import opened Schema
  import Strings
  import FormEdits
  import LiveForm

  /** `Partial<ITagCategory>`: the optional id and timestamps and the eleven optional columns. */
  datatype Draft = Draft(id: Option<string>, createdAt: Option<int>, lastUpdatedAt: Option<int>, fields: Fields)

  datatype Form = Form(draft: Draft, errors: FormEdits.Errors)

  const DefaultDraft := Draft(None, None, None,
    Fields(Some(""), Some(Choice("", Str(""), None, None)), Some(""), Some("LONG"), Some("ACTIVE"),
           Some([]), Some(map[]), Some(false), Some(false), Some([]), None))

  /** The field definition a new metadata row starts from (the enum members INPUT and TEXT). */
  const EmptyMetadataConfig := FieldConfig("INPUT", "", "", Some(false), Some(false), Some("TEXT"), None, None, None, None)

  const NameRequired := "Category name is required"
  const GameIdRequired := "Game ID is required"
  const GroupRequired := "Group is required"
  const StatusRequired := "Status is required"
  const PrecisionRequired := "Precision type is required"

  /**
   * The effect run when the `category` prop changes: the whole category being edited, or the
   * defaults when it becomes null; errors cleared. Reopening with an unchanged prop runs nothing.
   */
  function Load(category: Option<TagCategory>): (f: Form)
    ensures f.errors == map[]
    ensures category.Some? ==>
      var c := category.value;
      && f.draft.id == Some(c.id) && f.draft.createdAt == Some(c.createdAt) && f.draft.lastUpdatedAt == Some(c.lastUpdatedAt)
      && forall col :: Lookup(f.draft.fields, col) == Some(CategoryValue(c, col))
    ensures category.None? ==>
      var fs := f.draft.fields;
      && f.draft.id.None? && f.draft.createdAt.None? && f.draft.lastUpdatedAt.None?
      && (forall col :: col != Deleted ==> Lookup(fs, col).Some?)
      && fs.name == Some("") && fs.gameId == Some("") && fs.group.Some? && fs.group.value.value == Str("")
      && fs.status == Some("ACTIVE") && fs.precisionType == Some("LONG")
      && fs.isParentTag == Some(false) && fs.isReplay == Some(false)
      && fs.nameStructure == Some([]) && fs.metadataConfig == Some([]) && fs.subCategories == Some(map[])
      && fs.deleted.None?
  {
    match category
    case None => Form(DefaultDraft, map[])
    case Some(c) =>
      Form(Draft(Some(c.id), Some(c.createdAt), Some(c.lastUpdatedAt),
                 Fields(Some(c.gameId), Some(c.group), Some(c.name), Some(c.precisionType), Some(c.status),
                        Some(c.metadataConfig), Some(c.subCategories), Some(c.isParentTag), Some(c.isReplay),
                        Some(c.nameStructure), Some(c.deleted))), map[])
  }

  /** `!s?.trim()` on an optional string: absent, or nothing but whitespace. */
  ghost predicate MissingText(s: Option<string>) {
    s.None? || Strings.IsBlank(s.value)
  }

  /** `!s` on an optional string: absent or empty. */
  predicate Falsy(s: Option<string>) {
    s.None? || s.value == ""
  }

  /** The check `validateForm` applies to column `c` fails (only five columns are checked). */
  predicate Fails(d: Draft, c: Column) {
    var fs := d.fields;
    match c
    case Name => fs.name.None? || Strings.TrimsToEmpty(fs.name.value)
    case GameId => fs.gameId.None? || Strings.TrimsToEmpty(fs.gameId.value)
    case Group => fs.group.None? || !Truthy(fs.group.value.value)
    case Status => Falsy(fs.status)
    case PrecisionType => Falsy(fs.precisionType)
    case _ => false
  }

  /** The message shown for a failed check. */
  function Message(c: Column): string {
    match c
    case Name => NameRequired
    case GameId => GameIdRequired
    case Group => GroupRequired
    case Status => StatusRequired
    case _ => PrecisionRequired
  }

  /** `validateForm`: an error, with its message, for exactly the columns whose check fails. */
  function Validate(d: Draft): (errors: FormEdits.Errors)
    ensures forall c :: c in errors <==> Fails(d, c)
    ensures forall c :: c in errors ==> errors[c] == Message(c)
  {
    map c | c in {Name, GameId, Group, Status, PrecisionType} && Fails(d, c) :: Message(c)
  }

  /**
   * The five checks: name and gameId present with a non-whitespace character, a group with a
   * truthy value, and a non-empty status and precision type. Nothing else is checked.
   */
  lemma ValidateChecks(d: Draft)
    ensures Name in Validate(d) <==> MissingText(d.fields.name)
    ensures GameId in Validate(d) <==> MissingText(d.fields.gameId)
    ensures Group in Validate(d) <==> d.fields.group.None? || !Truthy(d.fields.group.value.value)
    ensures Status in Validate(d) <==> Falsy(d.fields.status)
    ensures PrecisionType in Validate(d) <==> Falsy(d.fields.precisionType)
    ensures Validate(d).Keys <= {Name, GameId, Group, Status, PrecisionType}
  {
    var errors := Validate(d);
    assert Name in errors <==> MissingText(d.fields.name) by {
      Strings.TrimsToEmptyIff(d.fields.name.GetOr(""));
    }
    assert GameId in errors <==> MissingText(d.fields.gameId) by {
      Strings.TrimsToEmptyIff(d.fields.gameId.GetOr(""));
    }
    assert Group in errors <==> Fails(d, Group);
    assert Status in errors <==> Fails(d, Status);
    assert PrecisionType in errors <==> Fails(d, PrecisionType);
  }

  /** A draft that validates carries all five required columns. */
  lemma ValidHasRequired(d: Draft)
    ensures Validate(d) == map[] ==> HasRequired(d.fields)
  {
    if Validate(d) == map[] {
      assert !Fails(d, Name) && !Fails(d, GameId) && !Fails(d, Group);
      assert !Fails(d, Status) && !Fails(d, PrecisionType);
    }
  }

  /** What a submit attempt leaves behind: the form, and the record handed to `onSubmit`, if any. */
  datatype Submission = Submission(form: Form, sent: Option<TagCategory>)

  /**
   * `handleSubmit` with `freshId` and `now` standing for `nanoid()` and `Date.now()`: nothing is
   * sent unless the draft validates; otherwise an empty or absent id is replaced by `freshId`, a
   * zero or absent creation time by `now`, and the record is stamped `now` and not deleted.
   */
  function Submit(f: Form, freshId: string, now: int): (r: Submission)
    ensures r.form == Form(f.draft, Validate(f.draft))
    ensures r.sent.Some? <==> Validate(f.draft) == map[]
    ensures r.sent.Some? ==>
      var t := r.sent.value;
      var d := f.draft;
      && t.id == (if d.id.Some? && d.id.value != "" then d.id.value else freshId)
      && t.createdAt == (if d.createdAt.Some? && d.createdAt.value != 0 then d.createdAt.value else now)
      && t.lastUpdatedAt == now
      && !t.deleted
  {
    var errors := Validate(f.draft);
    if errors != map[] then Submission(Form(f.draft, errors), None)
    else
      var d := f.draft;
      ValidHasRequired(d);
      var fs := d.fields;
      var t := TagCategory(
        if d.id.Some? && d.id.value != "" then d.id.value else freshId,
        fs.gameId.value, fs.group.value, fs.name.value, fs.precisionType.value, fs.status.value,
        fs.metadataConfig.GetOr([]), fs.subCategories.GetOr(map[]),
        fs.isParentTag.GetOr(false), fs.isReplay.GetOr(false), fs.nameStructure.GetOr([]),
        if d.createdAt.Some? && d.createdAt.value != 0 then d.createdAt.value else now,
        now, false);
      Submission(Form(d, errors), Some(t))
  }

  /**
   * A submitted record agrees with the table's column defaults on every column but `deleted`:
   * required columns are copied, absent flags become false, absent lists and the map empty.
   */
  lemma SubmitAppliesColumnDefaults(f: Form, freshId: string, now: int)
    requires Validate(f.draft) == map[]
    ensures forall c :: c != Deleted ==>
      Some(CategoryValue(Submit(f, freshId, now).sent.value, c)) == Lookup(ApplyDefaults(f.draft.fields), c)
  {
    var t := Submit(f, freshId, now).sent.value;
    var fs := f.draft.fields;
    ValidHasRequired(f.draft);
    forall c | c != Deleted
      ensures Some(CategoryValue(t, c)) == Lookup(ApplyDefaults(fs), c)
    {
      match c
      case GameId =>
      case Group =>
      case Name =>
      case PrecisionType =>
      case Status =>
      case MetadataConfig =>
      case SubCategories =>
      case IsParentTag =>
      case IsReplay =>
      case NameStructure =>
    }
  }

  /** The ten editable columns are all present. */
  predicate Complete(d: Draft) {
    forall c :: LiveForm.Editable(c) ==> Lookup(d.fields, c).Some?
  }

  /** A complete draft read as the live form's data. */
  function ToLive(d: Draft): (data: LiveForm.FormData)
    requires Complete(d)
    ensures forall c :: LiveForm.Editable(c) ==> Some(LiveForm.Get(data, c)) == Lookup(d.fields, c)
  {
    var fs := d.fields;
    assert Lookup(fs, GameId).Some? && Lookup(fs, Group).Some? && Lookup(fs, Name).Some?;
    assert Lookup(fs, PrecisionType).Some? && Lookup(fs, Status).Some? && Lookup(fs, MetadataConfig).Some?;
    assert Lookup(fs, SubCategories).Some? && Lookup(fs, IsParentTag).Some? && Lookup(fs, IsReplay).Some?;
    assert Lookup(fs, NameStructure).Some?;
    LiveForm.FormData(fs.name.value, fs.gameId.value, fs.group.value, fs.status.value, fs.precisionType.value,
      fs.isParentTag.value, fs.isReplay.value, fs.nameStructure.value, fs.metadataConfig.value, fs.subCategories.value)
  }

  /** This form is stricter than the live one: whatever it accepts, the live form accepts too. */
  lemma StricterThanLive(d: Draft)
    requires Complete(d)
    ensures Validate(d) == map[] ==> LiveForm.Validate(ToLive(d)) == map[]
  {
    var live := ToLive(d);
    LiveForm.ValidIff(live);
    ValidateChecks(d);
    if Validate(d) == map[] {
      assert Name !in Validate(d) && GameId !in Validate(d) && Group !in Validate(d);
    }
  }

  /** Strictly so: an empty status, which the live form never looks at, is rejected here. */
  lemma EmptyStatusRejected(d: Draft)
    requires d.fields.status == Some("")
    ensures Status in Validate(d) && Validate(d)[Status] == StatusRequired
  {
    assert Fails(d, Status);
  }

  /** `r` differs from `f` only in column `c`, and only `c`'s shown error is blanked. */
  ghost predicate Touches(f: Form, r: Form, c: Column) {
    && r.draft.id == f.draft.id
    && r.draft.createdAt == f.draft.createdAt
    && r.draft.lastUpdatedAt == f.draft.lastUpdatedAt
    && (forall e :: e != c ==> Lookup(r.draft.fields, e) == Lookup(f.draft.fields, e))
    && FormEdits.Cleared(f.errors, r.errors, c)
  }

  /** `handleInputChange(c, v)`: set one column and blank its shown error. */
  function InputChange(f: Form, c: Column, v: Value): (r: Form)
    requires Fits(c, v)
    ensures Lookup(r.draft.fields, c) == Some(v)
    ensures Touches(f, r, c)
  {
    Form(f.draft.(fields := Assign(f.draft.fields, c, v)), FormEdits.ClearError(f.errors, c))
  }

  /** `handleGroupChange`: only ball, player and game are accepted; anything else leaves the form as it was. */
  function GroupChange(f: Form, value: string): (r: Form)
    ensures value !in {"ball", "player", "game"} ==> r == f
    ensures value in {"ball", "player", "game"} ==>
      && Touches(f, r, Group)
      && r.draft.fields.group.Some?
      && r.draft.fields.group.value.value == Str(value)
      && r.draft.fields.group.value in FormEdits.GroupOptions
  {
    FormEdits.GroupOptionsExact(value);
    match FormEdits.FindGroup(FormEdits.GroupOptions, value)
    case None => f
    case Some(g) => InputChange(f, Group, GroupValue(g))
  }

  /** The name tokens, an absent list read as empty (`nameStructure || []`). */
  function NameTokens(f: Form): seq<string> {
    f.draft.fields.nameStructure.GetOr([])
  }

  function ConfigList(f: Form): seq<FieldConfig> {
    f.draft.fields.metadataConfig.GetOr([])
  }

  function Subcategories(f: Form): SubCategoryMap {
    f.draft.fields.subCategories.GetOr(map[])
  }

  /** `addNameField`: one empty token appended to the (possibly absent) list. */
  function AddNameField(f: Form): (r: Form)
    ensures Touches(f, r, NameStructure)
    ensures r.draft.fields.nameStructure == Some(NameTokens(f) + [""])
  {
    InputChange(f, NameStructure, Tokens(NameTokens(f) + [""]))
  }

  /** `updateNameField(i, v)`: token `i` replaced, the others kept in place. */
  function UpdateNameField(f: Form, i: int, v: string): (r: Form)
    requires 0 <= i < |NameTokens(f)|
    ensures Touches(f, r, NameStructure)
    ensures r.draft.fields.nameStructure.Some?
    ensures var after := r.draft.fields.nameStructure.value;
      && |after| == |NameTokens(f)| && after[i] == v
      && forall j :: 0 <= j < |after| && j != i ==> after[j] == NameTokens(f)[j]
  {
    InputChange(f, NameStructure, Tokens(NameTokens(f)[i := v]))
  }

  /** `removeNameField(i)`: token `i` dropped, the rest kept in order. */
  function RemoveNameField(f: Form, i: int): (r: Form)
    ensures Touches(f, r, NameStructure)
    ensures 0 <= i < |NameTokens(f)| ==>
      r.draft.fields.nameStructure == Some(NameTokens(f)[..i] + NameTokens(f)[i + 1..])
    ensures !(0 <= i < |NameTokens(f)|) ==> r.draft.fields.nameStructure == Some(NameTokens(f))
  {
    InputChange(f, NameStructure, Tokens(FormEdits.RemoveAt(NameTokens(f), i)))
  }

  /** `addMetadataConfig`: a default text-input definition appended. */
  function AddMetadataConfig(f: Form): (r: Form)
    ensures Touches(f, r, MetadataConfig)
    ensures r.draft.fields.metadataConfig == Some(ConfigList(f) + [EmptyMetadataConfig])
  {
    InputChange(f, MetadataConfig, Configs(ConfigList(f) + [EmptyMetadataConfig]))
  }

  /** `updateMetadataConfig(i, k, v)`: key `k` of definition `i` set, nothing else. */
  function UpdateMetadataConfig(f: Form, i: int, k: ConfigKey, v: ConfigValue): (r: Form)
    requires 0 <= i < |ConfigList(f)| && FitsConfig(k, v)
    ensures Touches(f, r, MetadataConfig)
    ensures r.draft.fields.metadataConfig.Some?
    ensures var after := r.draft.fields.metadataConfig.value;
      && |after| == |ConfigList(f)|
      && (forall j :: 0 <= j < |after| && j != i ==> after[j] == ConfigList(f)[j])
      && ConfigGet(after[i], k) == Some(v)
      && (forall j :: j != k ==> ConfigGet(after[i], j) == ConfigGet(ConfigList(f)[i], j))
  {
    InputChange(f, MetadataConfig, Configs(FormEdits.UpdateConfigAt(ConfigList(f), i, k, v)))
  }

  /** `removeMetadataConfig(i)`: definition `i` dropped, the rest kept in order. */
  function RemoveMetadataConfig(f: Form, i: int): (r: Form)
    ensures Touches(f, r, MetadataConfig)
    ensures 0 <= i < |ConfigList(f)| ==>
      r.draft.fields.metadataConfig == Some(ConfigList(f)[..i] + ConfigList(f)[i + 1..])
    ensures !(0 <= i < |ConfigList(f)|) ==> r.draft.fields.metadataConfig == Some(ConfigList(f))
  {
    InputChange(f, MetadataConfig, Configs(FormEdits.RemoveAt(ConfigList(f), i)))
  }

  /** `addSubcategory` with `key` standing for `subcategory-${Date.now()}`: an empty sub-schema under `key`. */
  function AddSubcategory(f: Form, key: string): (r: Form)
    ensures Touches(f, r, SubCategories)
    ensures r.draft.fields.subCategories == Some(Subcategories(f)[key := SubCategory("", [])])
  {
    InputChange(f, SubCategories, Subs(Subcategories(f)[key := SubCategory("", [])]))
  }

  /** `updateSubcategoryKey(oldKey, newKey)`: with equal keys nothing happens; otherwise the entry moves to `newKey`. */
  function UpdateSubcategoryKey(f: Form, oldKey: string, newKey: string): (r: Form)
    requires oldKey in Subcategories(f)
    ensures oldKey == newKey ==> r == f
    ensures oldKey != newKey ==>
      && Touches(f, r, SubCategories)
      && r.draft.fields.subCategories.Some?
      && var after := r.draft.fields.subCategories.value;
      && newKey in after && after[newKey] == Subcategories(f)[oldKey]
      && oldKey !in after
      && (forall k :: k != oldKey && k != newKey ==> (k in after <==> k in Subcategories(f)))
      && (forall k :: k in after && k != newKey ==> after[k] == Subcategories(f)[k])
  {
    if oldKey == newKey then f
    else InputChange(f, SubCategories, Subs(FormEdits.RenameKey(Subcategories(f), oldKey, newKey)))
  }

  /** `updateSubcategoryLabel(key, caption)`: only that entry's label changes. */
  function UpdateSubcategoryLabel(f: Form, key: string, caption: string): (r: Form)
    requires key in Subcategories(f)
    ensures Touches(f, r, SubCategories)
    ensures r.draft.fields.subCategories == Some(Subcategories(f)[key := Subcategories(f)[key].(caption := caption)])
  {
    var subs := Subcategories(f);
    InputChange(f, SubCategories, Subs(FormEdits.UpdateEntry(subs, key, subs[key].(caption := caption))))
  }

  /** `removeSubcategory(key)`: exactly that key deleted. */
  function RemoveSubcategory(f: Form, key: string): (r: Form)
    ensures Touches(f, r, SubCategories)
    ensures r.draft.fields.subCategories == Some(Subcategories(f) - {key})
  {
    InputChange(f, SubCategories, Subs(Subcategories(f) - {key}))
  }

  /** `addSubcategoryConfig(key)`: a default definition appended to that entry's list only. */
  function AddSubcategoryConfig(f: Form, key: string): (r: Form)
    requires key in Subcategories(f)
    ensures Touches(f, r, SubCategories)
    ensures var subs := Subcategories(f);
      r.draft.fields.subCategories == Some(subs[key := subs[key].(config := subs[key].config + [EmptyMetadataConfig])])
  {
    var subs := Subcategories(f);
    var entry := subs[key].(config := subs[key].config + [EmptyMetadataConfig]);
    InputChange(f, SubCategories, Subs(FormEdits.UpdateEntry(subs, key, entry)))
  }

  /** `updateSubcategoryConfig(key, i, k, v)`: key `k` of definition `i` of that entry set, nothing else. */
  function UpdateSubcategoryConfig(f: Form, key: string, i: int, k: ConfigKey, v: ConfigValue): (r: Form)
    requires key in Subcategories(f) && 0 <= i < |Subcategories(f)[key].config| && FitsConfig(k, v)
    ensures Touches(f, r, SubCategories)
    ensures r.draft.fields.subCategories.Some?
    ensures var before := Subcategories(f);
      var after := r.draft.fields.subCategories.value;
      && after.Keys == before.Keys
      && (forall j :: j in before && j != key ==> after[j] == before[j])
      && after[key].caption == before[key].caption
      && |after[key].config| == |before[key].config|
      && (forall j :: 0 <= j < |before[key].config| && j != i ==> after[key].config[j] == before[key].config[j])
      && ConfigGet(after[key].config[i], k) == Some(v)
      && (forall j :: j != k ==> ConfigGet(after[key].config[i], j) == ConfigGet(before[key].config[i], j))
  {
    var subs := Subcategories(f);
    var entry := subs[key].(config := FormEdits.UpdateConfigAt(subs[key].config, i, k, v));
    InputChange(f, SubCategories, Subs(FormEdits.UpdateEntry(subs, key, entry)))
  }

  /** `removeSubcategoryConfig(key, i)`: definition `i` of that entry dropped, nothing else. */
  function RemoveSubcategoryConfig(f: Form, key: string, i: int): (r: Form)
    requires key in Subcategories(f)
    ensures Touches(f, r, SubCategories)
    ensures r.draft.fields.subCategories.Some?
    ensures var before := Subcategories(f);
      var after := r.draft.fields.subCategories.value;
      && after.Keys == before.Keys
      && (forall j :: j in before && j != key ==> after[j] == before[j])
      && after[key].caption == before[key].caption
      && (0 <= i < |before[key].config| ==> after[key].config == before[key].config[..i] + before[key].config[i + 1..])
      && (!(0 <= i < |before[key].config|) ==> after[key].config == before[key].config)
  {
    var subs := Subcategories(f);
    var entry := subs[key].(config := FormEdits.RemoveAt(subs[key].config, i));
    InputChange(f, SubCategories, Subs(FormEdits.UpdateEntry(subs, key, entry)))
  }
}
