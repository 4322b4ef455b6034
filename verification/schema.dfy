/**
 * The `tag_categories` record shape: a category, its ordered field definitions
 * (`metadataConfig`), its named sub-schemas (`subCategories`) and the column defaults.
 */
module Schema {
  import opened Wrappers

  /** A JSON value typed `string | number` (group and option values); numbers are integers here. */
  datatype Scalar = Str(s: string) | Num(n: int)

  /** JavaScript truthiness of a `string | number`: the empty string and zero are falsy. */
  predicate Truthy(v: Scalar) {
    match v
    case Str(s) => s != ""
    case Num(n) => n != 0
  }

  /** `{ label, value, disabled?, id? }`: the group of a category and each option of a select field. */
  datatype Choice = Choice(caption: string, value: Scalar, disabled: Option<bool>, id: Option<string>)

  /**
   * One metadata field definition. `component`, `key` and `label` are always present; the rest
   * are optional. Two keys are renamed because their names are Dafny keywords: the source's
   * `label` is `caption` here (also in Choice and SubCategory) and `type` is `inputType`.
   */
  datatype FieldConfig = FieldConfig(
    component: string,
    key: string,
    caption: string,
    required: Option<bool>,
    readOnly: Option<bool>,
    inputType: Option<string>,
    mode: Option<string>,
    multiple: Option<bool>,
    options: Option<seq<Choice>>,
    query: Option<string>)

  /** The keys of a field definition, as `keyof IMetadataConfig`. */
  datatype ConfigKey = Component | Key | Label | Required | ReadOnly | InputType | Mode | Multiple | Options | Query

  /** A value stored under one key of a field definition. */
  datatype ConfigValue = CText(text: string) | CFlag(flag: bool) | CChoices(choices: seq<Choice>)

  predicate FitsConfig(k: ConfigKey, v: ConfigValue) {
    match k
    case Component | Key | Label | InputType | Mode | Query => v.CText?
    case Required | ReadOnly | Multiple => v.CFlag?
    case Options => v.CChoices?
  }

  /** The value under key `k`, or None when that optional key is absent. */
  function ConfigGet(f: FieldConfig, k: ConfigKey): (r: Option<ConfigValue>)
    ensures r.Some? ==> FitsConfig(k, r.value)
  {
    match k
    case Component => Some(CText(f.component))
    case Key => Some(CText(f.key))
    case Label => Some(CText(f.caption))
    case Required => if f.required.Some? then Some(CFlag(f.required.value)) else None
    case ReadOnly => if f.readOnly.Some? then Some(CFlag(f.readOnly.value)) else None
    case InputType => if f.inputType.Some? then Some(CText(f.inputType.value)) else None
    case Mode => if f.mode.Some? then Some(CText(f.mode.value)) else None
    case Multiple => if f.multiple.Some? then Some(CFlag(f.multiple.value)) else None
    case Options => if f.options.Some? then Some(CChoices(f.options.value)) else None
    case Query => if f.query.Some? then Some(CText(f.query.value)) else None
  }

  /** `{ ...f, [k]: v }`: one key of a field definition overwritten. */
  function ConfigSet(f: FieldConfig, k: ConfigKey, v: ConfigValue): (r: FieldConfig)
    requires FitsConfig(k, v)
    ensures ConfigGet(r, k) == Some(v)
    ensures forall j :: j != k ==> ConfigGet(r, j) == ConfigGet(f, j)
  {
    match k
    case Component => f.(component := v.text)
    case Key => f.(key := v.text)
    case Label => f.(caption := v.text)
    case Required => f.(required := Some(v.flag))
    case ReadOnly => f.(readOnly := Some(v.flag))
    case InputType => f.(inputType := Some(v.text))
    case Mode => f.(mode := Some(v.text))
    case Multiple => f.(multiple := Some(v.flag))
    case Options => f.(options := Some(v.choices))
    case Query => f.(query := Some(v.text))
  }

  /** A named sub-schema: a label and its own ordered field definitions. */
  datatype SubCategory = SubCategory(caption: string, config: seq<FieldConfig>)

  type SubCategoryMap = map<string, SubCategory>

  /** The eleven columns an insert or update payload may carry (everything but `id` and the timestamps). */
  datatype Column =
    | GameId | Group | Name | PrecisionType | Status
    | MetadataConfig | SubCategories | IsParentTag | IsReplay | NameStructure | Deleted

  /** The object key of a column, also the key its validation error is filed under. */
  function KeyOf(c: Column): string {
    match c
    case GameId => "gameId"
    case Group => "group"
    case Name => "name"
    case PrecisionType => "precisionType"
    case Status => "status"
    case MetadataConfig => "metadataConfig"
    case SubCategories => "subCategories"
    case IsParentTag => "isParentTag"
    case IsReplay => "isReplay"
    case NameStructure => "nameStructure"
    case Deleted => "deleted"
  }

  /** Distinct columns live under distinct keys. */
  lemma KeyOfInjective(c: Column, d: Column)
    ensures KeyOf(c) == KeyOf(d) ==> c == d
  {
  }

  /** The value of one column. */
  datatype Value =
    | Text(text: string)
    | GroupValue(group: Choice)
    | Flag(flag: bool)
    | Tokens(tokens: seq<string>)
    | Configs(configs: seq<FieldConfig>)
    | Subs(subs: SubCategoryMap)

  /** The value `v` has the type column `c` declares. */
  predicate Fits(c: Column, v: Value) {
    match c
    case GameId | Name | PrecisionType | Status => v.Text?
    case Group => v.GroupValue?
    case IsParentTag | IsReplay | Deleted => v.Flag?
    case NameStructure => v.Tokens?
    case MetadataConfig => v.Configs?
    case SubCategories => v.Subs?
  }

  /**
   * `Partial<InsertTagCategory>`: every column may be absent. This is also the shape of a
   * parsed insert payload, whose defaulted columns the parser leaves absent when not sent.
   */
  datatype Fields = Fields(
    gameId: Option<string>,
    group: Option<Choice>,
    name: Option<string>,
    precisionType: Option<string>,
    status: Option<string>,
    metadataConfig: Option<seq<FieldConfig>>,
    subCategories: Option<SubCategoryMap>,
    isParentTag: Option<bool>,
    isReplay: Option<bool>,
    nameStructure: Option<seq<string>>,
    deleted: Option<bool>)

  const NoFields := Fields(None, None, None, None, None, None, None, None, None, None, None)

  function Lookup(f: Fields, c: Column): (r: Option<Value>)
    ensures r.Some? ==> Fits(c, r.value)
  {
    match c
    case GameId => if f.gameId.Some? then Some(Text(f.gameId.value)) else None
    case Group => if f.group.Some? then Some(GroupValue(f.group.value)) else None
    case Name => if f.name.Some? then Some(Text(f.name.value)) else None
    case PrecisionType => if f.precisionType.Some? then Some(Text(f.precisionType.value)) else None
    case Status => if f.status.Some? then Some(Text(f.status.value)) else None
    case MetadataConfig => if f.metadataConfig.Some? then Some(Configs(f.metadataConfig.value)) else None
    case SubCategories => if f.subCategories.Some? then Some(Subs(f.subCategories.value)) else None
    case IsParentTag => if f.isParentTag.Some? then Some(Flag(f.isParentTag.value)) else None
    case IsReplay => if f.isReplay.Some? then Some(Flag(f.isReplay.value)) else None
    case NameStructure => if f.nameStructure.Some? then Some(Tokens(f.nameStructure.value)) else None
    case Deleted => if f.deleted.Some? then Some(Flag(f.deleted.value)) else None
  }

  /** Two payloads that agree on every column are the same payload. */
  lemma FieldsExtensional(a: Fields, b: Fields)
    requires forall c :: Lookup(a, c) == Lookup(b, c)
    ensures a == b
  {
    assert Lookup(a, GameId) == Lookup(b, GameId);
    assert Lookup(a, Group) == Lookup(b, Group);
    assert Lookup(a, Name) == Lookup(b, Name);
    assert Lookup(a, PrecisionType) == Lookup(b, PrecisionType);
    assert Lookup(a, Status) == Lookup(b, Status);
    assert Lookup(a, MetadataConfig) == Lookup(b, MetadataConfig);
    assert Lookup(a, SubCategories) == Lookup(b, SubCategories);
    assert Lookup(a, IsParentTag) == Lookup(b, IsParentTag);
    assert Lookup(a, IsReplay) == Lookup(b, IsReplay);
    assert Lookup(a, NameStructure) == Lookup(b, NameStructure);
    assert Lookup(a, Deleted) == Lookup(b, Deleted);
  }

  /** `{ ...f, [c]: v }` on a payload. */
  function Assign(f: Fields, c: Column, v: Value): (r: Fields)
    requires Fits(c, v)
    ensures Lookup(r, c) == Some(v)
    ensures forall d :: d != c ==> Lookup(r, d) == Lookup(f, d)
  {
    match c
    case GameId => f.(gameId := Some(v.text))
    case Group => f.(group := Some(v.group))
    case Name => f.(name := Some(v.text))
    case PrecisionType => f.(precisionType := Some(v.text))
    case Status => f.(status := Some(v.text))
    case MetadataConfig => f.(metadataConfig := Some(v.configs))
    case SubCategories => f.(subCategories := Some(v.subs))
    case IsParentTag => f.(isParentTag := Some(v.flag))
    case IsReplay => f.(isReplay := Some(v.flag))
    case NameStructure => f.(nameStructure := Some(v.tokens))
    case Deleted => f.(deleted := Some(v.flag))
  }

  /** `{ ...base, ...patch }`: the patch's columns win, the others come from the base. */
  function Merge(base: Fields, patch: Fields): Fields
  {
    Fields(
      if patch.gameId.Some? then patch.gameId else base.gameId,
      if patch.group.Some? then patch.group else base.group,
      if patch.name.Some? then patch.name else base.name,
      if patch.precisionType.Some? then patch.precisionType else base.precisionType,
      if patch.status.Some? then patch.status else base.status,
      if patch.metadataConfig.Some? then patch.metadataConfig else base.metadataConfig,
      if patch.subCategories.Some? then patch.subCategories else base.subCategories,
      if patch.isParentTag.Some? then patch.isParentTag else base.isParentTag,
      if patch.isReplay.Some? then patch.isReplay else base.isReplay,
      if patch.nameStructure.Some? then patch.nameStructure else base.nameStructure,
      if patch.deleted.Some? then patch.deleted else base.deleted)
  }

  /** Column by column, the merge takes the patch's value when the patch carries one and the base's otherwise. */
  lemma MergeLookup(base: Fields, patch: Fields)
    ensures forall c :: Lookup(patch, c).Some? ==> Lookup(Merge(base, patch), c) == Lookup(patch, c)
    ensures forall c :: Lookup(patch, c).None? ==> Lookup(Merge(base, patch), c) == Lookup(base, c)
  {
    forall c
      ensures Lookup(Merge(base, patch), c) == if Lookup(patch, c).Some? then Lookup(patch, c) else Lookup(base, c)
    {
      match c
      case GameId =>
      case Group =>
      case Name =>
      case PrecisionType =>
      case Status =>
      case MetadataConfig =>
      case SubCategories =>
      case IsParentTag =>
      case IsReplay =>
      case NameStructure =>
      case Deleted =>
    }
  }

  /** An empty patch changes nothing; merging the same patch twice is merging it once. */
  lemma MergeIdentityAndIdempotence(base: Fields, patch: Fields)
    ensures Merge(base, NoFields) == base
    ensures Merge(Merge(base, patch), patch) == Merge(base, patch)
  {
    MergeLookup(base, NoFields);
    FieldsExtensional(Merge(base, NoFields), base);
    MergeLookup(base, patch);
    MergeLookup(Merge(base, patch), patch);
    FieldsExtensional(Merge(Merge(base, patch), patch), Merge(base, patch));
  }

  /** Two successive spreads equal one spread of the combined patch. */
  lemma MergeAssociative(base: Fields, p: Fields, q: Fields)
    ensures Merge(Merge(base, p), q) == Merge(base, Merge(p, q))
  {
    MergeLookup(base, p);
    MergeLookup(Merge(base, p), q);
    MergeLookup(p, q);
    MergeLookup(base, Merge(p, q));
    FieldsExtensional(Merge(Merge(base, p), q), Merge(base, Merge(p, q)));
  }

  /** The five columns declared `notNull()` without a default. */
  predicate HasRequired(f: Fields) {
    f.gameId.Some? && f.group.Some? && f.name.Some? && f.precisionType.Some? && f.status.Some?
  }

  /** The columns carrying a default: metadataConfig, subCategories, isParentTag, isReplay, nameStructure, deleted. */
  predicate HasDefault(c: Column) {
    c in {MetadataConfig, SubCategories, IsParentTag, IsReplay, NameStructure, Deleted}
  }

  /** The column default of a defaulted column: empty lists, an empty map, false. */
  function ColumnDefault(c: Column): (v: Value)
    requires HasDefault(c)
    ensures Fits(c, v)
  {
    match c
    case MetadataConfig => Configs([])
    case SubCategories => Subs(map[])
    case NameStructure => Tokens([])
    case _ => Flag(false)
  }

  /** Fill every absent defaulted column with its default. */
  function ApplyDefaults(f: Fields): (r: Fields)
    ensures forall c :: Lookup(f, c).Some? ==> Lookup(r, c) == Lookup(f, c)
    ensures forall c :: HasDefault(c) && Lookup(f, c).None? ==> Lookup(r, c) == Some(ColumnDefault(c))
    ensures forall c :: !HasDefault(c) ==> Lookup(r, c) == Lookup(f, c)
  {
    f.(metadataConfig := Some(f.metadataConfig.GetOr([])),
       subCategories := Some(f.subCategories.GetOr(map[])),
       isParentTag := Some(f.isParentTag.GetOr(false)),
       isReplay := Some(f.isReplay.GetOr(false)),
       nameStructure := Some(f.nameStructure.GetOr([])),
       deleted := Some(f.deleted.GetOr(false)))
  }

  /** A complete record: `typeof tagCategories.$inferSelect`. */
  datatype TagCategory = TagCategory(
    id: string,
    gameId: string,
    group: Choice,
    name: string,
    precisionType: string,
    status: string,
    metadataConfig: seq<FieldConfig>,
    subCategories: SubCategoryMap,
    isParentTag: bool,
    isReplay: bool,
    nameStructure: seq<string>,
    createdAt: int,
    lastUpdatedAt: int,
    deleted: bool)

  /** The value of one column of a complete record. */
  function CategoryValue(t: TagCategory, c: Column): (v: Value)
    ensures Fits(c, v)
  {
    match c
    case GameId => Text(t.gameId)
    case Group => GroupValue(t.group)
    case Name => Text(t.name)
    case PrecisionType => Text(t.precisionType)
    case Status => Text(t.status)
    case MetadataConfig => Configs(t.metadataConfig)
    case SubCategories => Subs(t.subCategories)
    case IsParentTag => Flag(t.isParentTag)
    case IsReplay => Flag(t.isReplay)
    case NameStructure => Tokens(t.nameStructure)
    case Deleted => Flag(t.deleted)
  }

  /** A record with required columns present and defaults applied has every column present. */
  lemma DefaultsComplete(f: Fields)
    requires HasRequired(f)
    ensures forall c :: Lookup(ApplyDefaults(f), c).Some?
  {
  }
}
