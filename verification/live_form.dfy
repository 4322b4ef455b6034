/**
 * The category form the page uses (tag-category-form.tsx): its data is the ten editable
 * columns, every one always present. Each edit goes through the input-change step, which sets
 * one column and blanks that column's shown error.
 */
module LiveForm {
  import opened Wrappers
  import opened Schema
  import Strings
  import FormEdits

  /** The form's data: every insert column except `deleted`. */
  datatype FormData = FormData(
    name: string,
    gameId: string,
    group: Choice,
    status: string,
    precisionType: string,
    isParentTag: bool,
    isReplay: bool,
    nameStructure: seq<string>,
    metadataConfig: seq<FieldConfig>,
    subCategories: SubCategoryMap)

  /** The columns the form holds. */
  predicate Editable(c: Column) {
    c != Deleted
  }

  function Get(d: FormData, c: Column): (v: Value)
    requires Editable(c)
    ensures Fits(c, v)
  {
    match c
    case GameId => Text(d.gameId)
    case Group => GroupValue(d.group)
    case Name => Text(d.name)
    case PrecisionType => Text(d.precisionType)
    case Status => Text(d.status)
    case MetadataConfig => Configs(d.metadataConfig)
    case SubCategories => Subs(d.subCategories)
    case IsParentTag => Flag(d.isParentTag)
    case IsReplay => Flag(d.isReplay)
    case NameStructure => Tokens(d.nameStructure)
  }

  /** `{ ...d, [c]: v }`. */
  function Set(d: FormData, c: Column, v: Value): (r: FormData)
    requires Editable(c) && Fits(c, v)
    ensures Get(r, c) == v
    ensures forall e :: Editable(e) && e != c ==> Get(r, e) == Get(d, e)
  {
    match c
    case GameId => d.(gameId := v.text)
    case Group => d.(group := v.group)
    case Name => d.(name := v.text)
    case PrecisionType => d.(precisionType := v.text)
    case Status => d.(status := v.text)
    case MetadataConfig => d.(metadataConfig := v.configs)
    case SubCategories => d.(subCategories := v.subs)
    case IsParentTag => d.(isParentTag := v.flag)
    case IsReplay => d.(isReplay := v.flag)
    case NameStructure => d.(nameStructure := v.tokens)
  }

  /** The form's state: its data and the error messages shown, keyed by column. */
  datatype Form = Form(data: FormData, errors: FormEdits.Errors)

  const DefaultData := FormData("", "", Choice("", Str(""), None, None), "ACTIVE", "LONG", false, false, [], [], map[])

  /** The field definition a new metadata row starts from. */
  const EmptyMetadataConfig := FieldConfig("input", "", "", Some(false), Some(false), Some("text"), None, None, None, None)

  const NameRequired := "Category name is required"
  const GameIdRequired := "Game ID is required"
  const GroupRequired := "Group is required"

  /**
   * The effect run when the `category` prop changes: copy the ten editable columns of the
   * category being edited, or reset to the defaults when it becomes null; errors are cleared.
   * Reopening with an unchanged prop runs nothing, so the form keeps its previous state.
   */
  function Load(category: Option<TagCategory>): (f: Form)
    ensures f.errors == map[]
    ensures category.Some? ==> forall c :: Editable(c) ==> Get(f.data, c) == CategoryValue(category.value, c)
    ensures category.None? ==>
      && f.data.name == "" && f.data.gameId == "" && f.data.group == Choice("", Str(""), None, None)
      && f.data.status == "ACTIVE" && f.data.precisionType == "LONG"
      && !f.data.isParentTag && !f.data.isReplay
      && f.data.nameStructure == [] && f.data.metadataConfig == [] && f.data.subCategories == map[]
  {
    match category
    case None => Form(DefaultData, map[])
    case Some(c) =>
      Form(FormData(c.name, c.gameId, c.group, c.status, c.precisionType, c.isParentTag, c.isReplay,
                    c.nameStructure, c.metadataConfig, c.subCategories), map[])
  }

  /** `validateForm`: name and gameId must be non-blank after trimming and the group value truthy; status and precision are not checked. */
  function Validate(d: FormData): (errors: FormEdits.Errors)
    ensures Name in errors <==> Strings.IsBlank(d.name)
    ensures GameId in errors <==> Strings.IsBlank(d.gameId)
    ensures Group in errors <==> !Truthy(d.group.value)
    ensures errors.Keys <= {Name, GameId, Group}
    ensures Name in errors ==> errors[Name] == NameRequired
    ensures GameId in errors ==> errors[GameId] == GameIdRequired
    ensures Group in errors ==> errors[Group] == GroupRequired
  {
    Strings.TrimEmptyIff(d.name);
    Strings.TrimEmptyIff(d.gameId);
    var none: FormEdits.Errors := map[];
    var e1 := if Strings.Trim(d.name) == "" then none[Name := NameRequired] else none;
    var e2 := if Strings.Trim(d.gameId) == "" then e1[GameId := GameIdRequired] else e1;
    if !Truthy(d.group.value) then e2[Group := GroupRequired] else e2
  }

  /** The form validates exactly when name and gameId hold a non-whitespace character and the group value is truthy. */
  lemma ValidIff(d: FormData)
    ensures Validate(d) == map[] <==> !Strings.IsBlank(d.name) && !Strings.IsBlank(d.gameId) && Truthy(d.group.value)
  {
    var e := Validate(d);
    if !Strings.IsBlank(d.name) && !Strings.IsBlank(d.gameId) && Truthy(d.group.value) {
      assert e.Keys == {};
    }
  }

  /** Status and precision play no part in validation. */
  lemma StatusAndPrecisionUnchecked(d: FormData, status: string, precision: string)
    ensures Validate(d.(status := status, precisionType := precision)) == Validate(d)
  {
  }

  /** A freshly reset form does not validate: name, gameId and group are all reported. */
  lemma DefaultFormRejected()
    ensures Validate(Load(None).data).Keys == {Name, GameId, Group}
  {
  }

  /** What a submit attempt leaves behind: the form, and the data handed to `onSubmit`, if any. */
  datatype Submission = Submission(form: Form, sent: Option<FormData>)

  /**
   * `handleSubmit`: validation always runs and replaces the shown errors; the data is handed on
   * unchanged, with no id or timestamps added, only when it validates and no submission is in flight.
   */
  function Submit(f: Form, isSubmitting: bool): (r: Submission)
    ensures r.form.data == f.data && r.form.errors == Validate(f.data)
    ensures r.sent.Some? <==> Validate(f.data) == map[] && !isSubmitting
    ensures r.sent.Some? ==> r.sent.value == f.data
  {
    var errors := Validate(f.data);
    var sent := if errors != map[] || isSubmitting then None else Some(f.data);
    Submission(Form(f.data, errors), sent)
  }

  /** `onSubmit`'s argument as a payload: the ten columns present, `deleted` absent. */
  function SubmittedData(d: FormData): (p: Fields)
    ensures forall c :: Editable(c) ==> Lookup(p, c) == Some(Get(d, c))
    ensures Lookup(p, Deleted) == None
  {
    Fields(Some(d.gameId), Some(d.group), Some(d.name), Some(d.precisionType), Some(d.status),
           Some(d.metadataConfig), Some(d.subCategories), Some(d.isParentTag), Some(d.isReplay),
           Some(d.nameStructure), None)
  }

  /** `r` differs from `f` only in column `c`, and only `c`'s shown error is blanked. */
  ghost predicate Touches(f: Form, r: Form, c: Column)
    requires Editable(c)
  {
    && (forall e :: Editable(e) && e != c ==> Get(r.data, e) == Get(f.data, e))
    && FormEdits.Cleared(f.errors, r.errors, c)
  }

  /** `handleInputChange(c, v)`: set one column and blank its shown error. */
  function InputChange(f: Form, c: Column, v: Value): (r: Form)
    requires Editable(c) && Fits(c, v)
    ensures Get(r.data, c) == v
    ensures Touches(f, r, c)
  {
    Form(Set(f.data, c, v), FormEdits.ClearError(f.errors, c))
  }

  /** `handleGroupChange`: only ball, player and game are accepted; anything else leaves the form as it was. */
  function GroupChange(f: Form, value: string): (r: Form)
    ensures value !in {"ball", "player", "game"} ==> r == f
    ensures value in {"ball", "player", "game"} ==>
      Touches(f, r, Group) && r.data.group.value == Str(value) && r.data.group in FormEdits.GroupOptions
  {
    FormEdits.GroupOptionsExact(value);
    match FormEdits.FindGroup(FormEdits.GroupOptions, value)
    case None => f
    case Some(g) => InputChange(f, Group, GroupValue(g))
  }

  /** `addNameField`: one empty token appended. */
  function AddNameField(f: Form): (r: Form)
    ensures Touches(f, r, NameStructure)
    ensures |r.data.nameStructure| == |f.data.nameStructure| + 1
    ensures r.data.nameStructure[..|f.data.nameStructure|] == f.data.nameStructure
    ensures r.data.nameStructure[|f.data.nameStructure|] == ""
  {
    InputChange(f, NameStructure, Tokens(f.data.nameStructure + [""]))
  }

  /** `updateNameField(i, v)`: token `i` replaced, the others kept in place. */
  function UpdateNameField(f: Form, i: int, v: string): (r: Form)
    requires 0 <= i < |f.data.nameStructure|
    ensures Touches(f, r, NameStructure)
    ensures |r.data.nameStructure| == |f.data.nameStructure| && r.data.nameStructure[i] == v
    ensures forall j :: 0 <= j < |f.data.nameStructure| && j != i ==> r.data.nameStructure[j] == f.data.nameStructure[j]
  {
    InputChange(f, NameStructure, Tokens(f.data.nameStructure[i := v]))
  }

  /** `removeNameField(i)`: token `i` dropped, the rest kept in order; an index out of range removes nothing. */
  function RemoveNameField(f: Form, i: int): (r: Form)
    ensures Touches(f, r, NameStructure)
    ensures 0 <= i < |f.data.nameStructure| ==>
      r.data.nameStructure == f.data.nameStructure[..i] + f.data.nameStructure[i + 1..]
    ensures !(0 <= i < |f.data.nameStructure|) ==> r.data.nameStructure == f.data.nameStructure
  {
    InputChange(f, NameStructure, Tokens(FormEdits.RemoveAt(f.data.nameStructure, i)))
  }

  /** `addMetadataConfig`: a default text-input definition appended. */
  function AddMetadataConfig(f: Form): (r: Form)
    ensures Touches(f, r, MetadataConfig)
    ensures |r.data.metadataConfig| == |f.data.metadataConfig| + 1
    ensures r.data.metadataConfig[..|f.data.metadataConfig|] == f.data.metadataConfig
    ensures r.data.metadataConfig[|f.data.metadataConfig|] == EmptyMetadataConfig
  {
    InputChange(f, MetadataConfig, Configs(f.data.metadataConfig + [EmptyMetadataConfig]))
  }

  /** `updateMetadataConfig(i, k, v)`: key `k` of definition `i` set, nothing else. */
  function UpdateMetadataConfig(f: Form, i: int, k: ConfigKey, v: ConfigValue): (r: Form)
    requires 0 <= i < |f.data.metadataConfig| && FitsConfig(k, v)
    ensures Touches(f, r, MetadataConfig)
    ensures |r.data.metadataConfig| == |f.data.metadataConfig|
    ensures forall j :: 0 <= j < |f.data.metadataConfig| && j != i ==> r.data.metadataConfig[j] == f.data.metadataConfig[j]
    ensures ConfigGet(r.data.metadataConfig[i], k) == Some(v)
    ensures forall j :: j != k ==> ConfigGet(r.data.metadataConfig[i], j) == ConfigGet(f.data.metadataConfig[i], j)
  {
    InputChange(f, MetadataConfig, Configs(FormEdits.UpdateConfigAt(f.data.metadataConfig, i, k, v)))
  }

  /** `removeMetadataConfig(i)`: definition `i` dropped, the rest kept in order. */
  function RemoveMetadataConfig(f: Form, i: int): (r: Form)
    ensures Touches(f, r, MetadataConfig)
    ensures 0 <= i < |f.data.metadataConfig| ==>
      r.data.metadataConfig == f.data.metadataConfig[..i] + f.data.metadataConfig[i + 1..]
    ensures !(0 <= i < |f.data.metadataConfig|) ==> r.data.metadataConfig == f.data.metadataConfig
  {
    InputChange(f, MetadataConfig, Configs(FormEdits.RemoveAt(f.data.metadataConfig, i)))
  }

  /** `addSubcategory` with `key` standing for `subcategory-${Date.now()}`: an empty sub-schema under `key`. */
  function AddSubcategory(f: Form, key: string): (r: Form)
    ensures Touches(f, r, SubCategories)
    ensures key in r.data.subCategories && r.data.subCategories[key] == SubCategory("", [])
    ensures forall k :: k != key ==> (k in r.data.subCategories <==> k in f.data.subCategories)
    ensures forall k :: k != key && k in f.data.subCategories ==> r.data.subCategories[k] == f.data.subCategories[k]
  {
    InputChange(f, SubCategories, Subs(f.data.subCategories[key := SubCategory("", [])]))
  }

  /**
   * `updateSubcategoryKey(oldKey, newKey)`: with equal keys nothing happens at all; otherwise the
   * entry moves to `newKey` (overwriting what was there) and `oldKey` is gone.
   */
  function UpdateSubcategoryKey(f: Form, oldKey: string, newKey: string): (r: Form)
    requires oldKey in f.data.subCategories
    ensures oldKey == newKey ==> r == f
    ensures oldKey != newKey ==>
      && Touches(f, r, SubCategories)
      && newKey in r.data.subCategories
      && r.data.subCategories[newKey] == f.data.subCategories[oldKey]
      && oldKey !in r.data.subCategories
      && (forall k :: k != oldKey && k != newKey ==> (k in r.data.subCategories <==> k in f.data.subCategories))
      && (forall k :: k in r.data.subCategories && k != newKey ==> r.data.subCategories[k] == f.data.subCategories[k])
  {
    if oldKey == newKey then f
    else InputChange(f, SubCategories, Subs(FormEdits.RenameKey(f.data.subCategories, oldKey, newKey)))
  }

  /** `updateSubcategoryLabel(key, caption)`: only that entry's label changes. */
  function UpdateSubcategoryLabel(f: Form, key: string, caption: string): (r: Form)
    requires key in f.data.subCategories
    ensures Touches(f, r, SubCategories)
    ensures r.data.subCategories.Keys == f.data.subCategories.Keys
    ensures r.data.subCategories[key].caption == caption
    ensures r.data.subCategories[key].config == f.data.subCategories[key].config
    ensures forall k :: k in f.data.subCategories && k != key ==> r.data.subCategories[k] == f.data.subCategories[k]
  {
    var subs := f.data.subCategories;
    InputChange(f, SubCategories, Subs(FormEdits.UpdateEntry(subs, key, subs[key].(caption := caption))))
  }

  /** `removeSubcategory(key)`: exactly that key deleted. */
  function RemoveSubcategory(f: Form, key: string): (r: Form)
    ensures Touches(f, r, SubCategories)
    ensures r.data.subCategories.Keys == f.data.subCategories.Keys - {key}
    ensures forall k :: k in r.data.subCategories ==> r.data.subCategories[k] == f.data.subCategories[k]
  {
    InputChange(f, SubCategories, Subs(f.data.subCategories - {key}))
  }

  /** `addSubcategoryConfig(key)`: a default definition appended to that entry's list only. */
  function AddSubcategoryConfig(f: Form, key: string): (r: Form)
    requires key in f.data.subCategories
    ensures Touches(f, r, SubCategories)
    ensures r.data.subCategories.Keys == f.data.subCategories.Keys
    ensures r.data.subCategories[key].caption == f.data.subCategories[key].caption
    ensures r.data.subCategories[key].config == f.data.subCategories[key].config + [EmptyMetadataConfig]
    ensures forall k :: k in f.data.subCategories && k != key ==> r.data.subCategories[k] == f.data.subCategories[k]
  {
    var subs := f.data.subCategories;
    var entry := subs[key].(config := subs[key].config + [EmptyMetadataConfig]);
    InputChange(f, SubCategories, Subs(FormEdits.UpdateEntry(subs, key, entry)))
  }

  /** `updateSubcategoryConfig(key, i, k, v)`: key `k` of definition `i` of that entry set, nothing else. */
  function UpdateSubcategoryConfig(f: Form, key: string, i: int, k: ConfigKey, v: ConfigValue): (r: Form)
    requires key in f.data.subCategories && 0 <= i < |f.data.subCategories[key].config| && FitsConfig(k, v)
    ensures Touches(f, r, SubCategories)
    ensures r.data.subCategories.Keys == f.data.subCategories.Keys
    ensures forall j :: j in f.data.subCategories && j != key ==> r.data.subCategories[j] == f.data.subCategories[j]
    ensures var before := f.data.subCategories[key];
      var after := r.data.subCategories[key];
      && after.caption == before.caption
      && |after.config| == |before.config|
      && (forall j :: 0 <= j < |before.config| && j != i ==> after.config[j] == before.config[j])
      && ConfigGet(after.config[i], k) == Some(v)
      && (forall j :: j != k ==> ConfigGet(after.config[i], j) == ConfigGet(before.config[i], j))
  {
    var subs := f.data.subCategories;
    var entry := subs[key].(config := FormEdits.UpdateConfigAt(subs[key].config, i, k, v));
    InputChange(f, SubCategories, Subs(FormEdits.UpdateEntry(subs, key, entry)))
  }

  /** `removeSubcategoryConfig(key, i)`: definition `i` of that entry dropped, nothing else. */
  function RemoveSubcategoryConfig(f: Form, key: string, i: int): (r: Form)
    requires key in f.data.subCategories
    ensures Touches(f, r, SubCategories)
    ensures r.data.subCategories.Keys == f.data.subCategories.Keys
    ensures forall j :: j in f.data.subCategories && j != key ==> r.data.subCategories[j] == f.data.subCategories[j]
    ensures var before := f.data.subCategories[key];
      var after := r.data.subCategories[key];
      && after.caption == before.caption
      && (0 <= i < |before.config| ==> after.config == before.config[..i] + before.config[i + 1..])
      && (!(0 <= i < |before.config|) ==> after.config == before.config)
  {
    var subs := f.data.subCategories;
    var entry := subs[key].(config := FormEdits.RemoveAt(subs[key].config, i));
    InputChange(f, SubCategories, Subs(FormEdits.UpdateEntry(subs, key, entry)))
  }
}
