/**
 * Record shapes and defaults of the configuration model
 * (sonic_engine/model/extension.py and sonic_engine/model/app_config.py).
 *
 * `ExtensionGlobalConfig` is the resolved per-instance configuration: every
 * field has a default, `copy_folder` defaults to True and everything else to
 * None, and `ExtensionConfig.__post_init__` replaces a None `log` by a default
 * `LogConfig` and a None `options` by an empty dict. Keyword arguments are a
 * `Patch`: for each field, either absent or the value to put there (which
 * may be None); an override entry is None or a mapping of such arguments,
 * possibly with a key the record does not have. `FieldValue` gives the Python
 * value a field holds, so that the record can be compared with the generic
 * dict merge of `NestedDict`.
 */
module Records {
  import opened Wrappers
  import opened PyValues

  /** The values `LogConfig.level` admits */
  datatype LogLevel = Critical | Error | Warning | Info | Debug

  function LevelName(l: LogLevel): string {
    match l
    case Critical => "CRITICAL"
    case Error => "ERROR"
    case Warning => "WARNING"
    case Info => "INFO"
    case Debug => "DEBUG"
  }

  datatype LogConfig = LogConfig(level: LogLevel, dir: string)

  const DefaultLogConfig := LogConfig(Debug, "./logs")

  /** Sources of a feature extension: optional file and interface lists */
  datatype Input = Input(files: Option<seq<string>>, interfaces: Option<seq<string>>)

  /** `ChannelsPipeline` and its role-specific subclasses, whose redeclared fields keep the None default */
  datatype ChannelsPipeline = ChannelsPipeline(input: Option<Input>, subscribe: Option<seq<string>>, publish: Option<seq<string>>)

  /** `Union[List[str], str]` */
  datatype StrOrList = Text(text: string) | Items(items: seq<string>)

  datatype GlobalConfig = GlobalConfig(
    id: Option<string>,
    name: Option<string>,
    description: Option<string>,
    version: Option<string>,
    authors: Option<StrOrList>,
    license: Option<string>,
    requirements: Option<StrOrList>,
    channels: Option<ChannelsPipeline>,
    log: Option<LogConfig>,
    category: Option<string>,
    path: Option<string>,
    models: Option<seq<Value>>,
    options: Option<Entries>,
    source: Option<string>,
    copyFolder: Option<bool>,
    branch: Option<string>,
    token: Option<string>)

  /** The class-level defaults of `ExtensionGlobalConfig`, before `__post_init__` */
  const ClassDefaults := GlobalConfig(None, None, None, None, None, None, None, None, None, None, None, None, None,
                                      None, Some(true), None, None)

  /** What `__post_init__` guarantees of every constructed configuration */
  predicate Initialized(c: GlobalConfig) {
    c.log.Some? && c.options.Some?
  }

  /** `ExtensionConfig.__post_init__` */
  function PostInit(c: GlobalConfig): (r: GlobalConfig)
    ensures Initialized(r)
    ensures c.log.Some? ==> r.log == c.log
    ensures c.log.None? ==> r.log == Some(DefaultLogConfig)
    ensures c.options.Some? ==> r.options == c.options
    ensures c.options.None? ==> r.options == Some([])
  {
    c.(log := Some(c.log.GetOr(DefaultLogConfig)), options := Some(c.options.GetOr([])))
  }

  /** `__post_init__` changes only `log` and `options`, and nothing at all on an initialized record. */
  lemma PostInitKeeps(c: GlobalConfig)
    ensures PostInit(c).(log := c.log, options := c.options) == c
    ensures Initialized(c) ==> PostInit(c) == c
  {
  }

  /** Truthiness of `copy_folder`: None and False are both false */
  predicate Truthy(b: Option<bool>) {
    b == Some(true)
  }

  /** The field names of `ExtensionGlobalConfig`, in dataclass declaration order */
  const FieldNames: seq<string> := ["id", "name", "description", "version", "authors", "license", "requirements",
                                    "channels", "log", "category", "path", "models", "options",
                                    "source", "copy_folder", "branch", "token"]

  const FieldCount := 17

  function EncodeString(o: Option<string>): Value {
    if o.Some? then Str(o.value) else Null
  }

  function EncodeStrings(xs: seq<string>): seq<Value> {
    seq(|xs|, i requires 0 <= i < |xs| => Str(xs[i]))
  }

  function EncodeStringList(o: Option<seq<string>>): Value {
    if o.Some? then List(EncodeStrings(o.value)) else Null
  }

  function EncodeStrOrList(o: Option<StrOrList>): Value {
    match o
    case None => Null
    case Some(Text(s)) => Str(s)
    case Some(Items(xs)) => List(EncodeStrings(xs))
  }

  function EncodeInput(o: Option<Input>): Value {
    match o
    case None => Null
    case Some(i) => Obj("Input", [("files", EncodeStringList(i.files)), ("interfaces", EncodeStringList(i.interfaces))])
  }

  function EncodeChannels(o: Option<ChannelsPipeline>): Value {
    match o
    case None => Null
    case Some(c) => Obj("ChannelsPipeline", [("input", EncodeInput(c.input)), ("subscribe", EncodeStringList(c.subscribe)),
                                             ("publish", EncodeStringList(c.publish))])
  }

  function EncodeLog(o: Option<LogConfig>): Value {
    match o
    case None => Null
    case Some(l) => Obj("LogConfig", [("level", Str(LevelName(l.level))), ("dir", Str(l.dir))])
  }

  /**
   * The Python value held by field `i` (numbered as in `FieldNames`). Only
   * `options` holds a plain dict; records and lists are not dicts.
   */
  function FieldValue(c: GlobalConfig, i: nat): (v: Value)
    requires i < FieldCount
    ensures v.Dict? ==> i == 12
  {
    if i == 0 then EncodeString(c.id)
    else if i == 1 then EncodeString(c.name)
    else if i == 2 then EncodeString(c.description)
    else if i == 3 then EncodeString(c.version)
    else if i == 4 then EncodeStrOrList(c.authors)
    else if i == 5 then EncodeString(c.license)
    else if i == 6 then EncodeStrOrList(c.requirements)
    else if i == 7 then EncodeChannels(c.channels)
    else if i == 8 then EncodeLog(c.log)
    else if i == 9 then EncodeString(c.category)
    else if i == 10 then EncodeString(c.path)
    else if i == 11 then (if c.models.Some? then List(c.models.value) else Null)
    else if i == 12 then (if c.options.Some? then Dict(c.options.value) else Null)
    else if i == 13 then EncodeString(c.source)
    else if i == 14 then (if c.copyFolder.Some? then Bool(c.copyFolder.value) else Null)
    else if i == 15 then EncodeString(c.branch)
    else EncodeString(c.token)
  }

  /** A field holds None exactly when the record's field is absent. */
  lemma FieldValueNull(c: GlobalConfig, i: nat)
    requires i < FieldCount
    ensures FieldValue(c, i) == Null <==>
      (if i == 0 then c.id.None? else if i == 1 then c.name.None? else if i == 2 then c.description.None?
       else if i == 3 then c.version.None? else if i == 4 then c.authors.None? else if i == 5 then c.license.None?
       else if i == 6 then c.requirements.None? else if i == 7 then c.channels.None? else if i == 8 then c.log.None?
       else if i == 9 then c.category.None? else if i == 10 then c.path.None? else if i == 11 then c.models.None?
       else if i == 12 then c.options.None? else if i == 13 then c.source.None? else if i == 14 then c.copyFolder.None?
       else if i == 15 then c.branch.None? else c.token.None?)
  {
  }

  /** The record's instance `__dict__`: every field, in declaration order */
  function Fields(c: GlobalConfig): (es: Entries)
    ensures |es| == FieldCount
    ensures forall i :: 0 <= i < FieldCount ==> es[i] == (FieldNames[i], FieldValue(c, i))
  {
    seq(FieldCount, i requires 0 <= i < FieldCount => (FieldNames[i], FieldValue(c, i)))
  }

  lemma FieldNamesDistinct()
    ensures forall i, j :: 0 <= i < j < FieldCount ==> FieldNames[i] != FieldNames[j]
  {
  }

  lemma FieldsKeys(c: GlobalConfig)
    ensures Keys(Fields(c)) == FieldNames
    ensures DistinctKeys(Fields(c))
  {
    var es := Fields(c);
    assert Keys(es) == FieldNames;
    FieldNamesDistinct();
  }

  /** Keyword arguments of `ExtensionGlobalConfig`: for each field, absent, or the value to store there (possibly None) */
  datatype Patch = Patch(
    id: Option<Option<string>>,
    name: Option<Option<string>>,
    description: Option<Option<string>>,
    version: Option<Option<string>>,
    authors: Option<Option<StrOrList>>,
    license: Option<Option<string>>,
    requirements: Option<Option<StrOrList>>,
    channels: Option<Option<ChannelsPipeline>>,
    log: Option<Option<LogConfig>>,
    category: Option<Option<string>>,
    path: Option<Option<string>>,
    models: Option<Option<seq<Value>>>,
    options: Option<Option<Entries>>,
    source: Option<Option<string>>,
    copyFolder: Option<Option<bool>>,
    branch: Option<Option<string>>,
    token: Option<Option<string>>)

  const EmptyPatch := Patch(None, None, None, None, None, None, None, None, None, None, None, None, None,
                            None, None, None, None)

  /** Which fields the patch names */
  function PatchNames(p: Patch, i: nat): bool
    requires i < FieldCount
  {
    if i == 0 then p.id.Some? else if i == 1 then p.name.Some? else if i == 2 then p.description.Some?
    else if i == 3 then p.version.Some? else if i == 4 then p.authors.Some? else if i == 5 then p.license.Some?
    else if i == 6 then p.requirements.Some? else if i == 7 then p.channels.Some? else if i == 8 then p.log.Some?
    else if i == 9 then p.category.Some? else if i == 10 then p.path.Some? else if i == 11 then p.models.Some?
    else if i == 12 then p.options.Some? else if i == 13 then p.source.Some? else if i == 14 then p.copyFolder.Some?
    else if i == 15 then p.branch.Some? else p.token.Some?
  }

  /** Keyword arguments: the named fields replaced, the others as in `c` */
  function Apply(c: GlobalConfig, p: Patch): GlobalConfig {
    GlobalConfig(
      p.id.GetOr(c.id),
      p.name.GetOr(c.name),
      p.description.GetOr(c.description),
      p.version.GetOr(c.version),
      p.authors.GetOr(c.authors),
      p.license.GetOr(c.license),
      p.requirements.GetOr(c.requirements),
      p.channels.GetOr(c.channels),
      p.log.GetOr(c.log),
      p.category.GetOr(c.category),
      p.path.GetOr(c.path),
      p.models.GetOr(c.models),
      p.options.GetOr(c.options),
      p.source.GetOr(c.source),
      p.copyFolder.GetOr(c.copyFolder),
      p.branch.GetOr(c.branch),
      p.token.GetOr(c.token))
  }

  /** A patch that names no field leaves the record as it is. */
  lemma ApplyEmpty(c: GlobalConfig)
    ensures Apply(c, EmptyPatch) == c
  {
  }

  /** Field by field: a named field takes the patch's value, any other keeps its value. */
  lemma ApplyFields(c: GlobalConfig, p: Patch, i: nat)
    requires i < FieldCount
    ensures !PatchNames(p, i) ==> FieldValue(Apply(c, p), i) == FieldValue(c, i)
    ensures PatchNames(p, i) ==> FieldValue(Apply(c, p), i) == FieldValue(Apply(ClassDefaults, p), i)
  {
  }

  /** `AppConfigMetadata`: `extensions_folder` is required, `replace_existing` is tri-state and defaults to None */
  datatype Metadata = Metadata(extensionsFolder: string, replaceExisting: Option<bool>)

  /** `AppConfigExtension`: one extension declaration of the application configuration */
  datatype Declaration = Declaration(
    id: string,
    category: string,
    source: string,
    copyFolder: Option<bool>,
    branch: Option<string>,
    token: Option<string>,
    path: Option<string>,
    override: Option<seq<(string, Entry)>>)

  /**
   * One value of the override map as the YAML document gives it: None, or a
   * mapping whose known keys form a patch, possibly with a key that is no
   * field of the record.
   */
  datatype Entry = NullEntry | Mapping(patch: Patch, unknownKey: bool)

  /** The override map's keys are distinct, as a dict's are. */
  predicate ValidDeclaration(d: Declaration) {
    d.override.Some? ==> forall i, j :: 0 <= i < j < |d.override.value| ==> d.override.value[i].0 != d.override.value[j].0
  }

  /** A declaration built from keyword arguments naming only the three required fields */
  function MinimalDeclaration(id: string, category: string, source: string): (d: Declaration)
    ensures d.copyFolder == Some(true)
    ensures d.branch.None? && d.token.None? && d.path.None? && d.override.None?
  {
    Declaration(id, category, source, Some(true), None, None, None, None)
  }

  /** A declaration's fields without `override`, as keyword arguments of `ExtensionGlobalConfig` */
  function DeclarationPatch(d: Declaration): (p: Patch)
    ensures p.id == Some(Some(d.id)) && p.category == Some(Some(d.category)) && p.source == Some(Some(d.source))
    ensures p.copyFolder == Some(d.copyFolder) && p.branch == Some(d.branch) && p.token == Some(d.token)
    ensures p.path == Some(d.path)
    ensures forall i :: 0 <= i < FieldCount ==> (PatchNames(p, i) <==> i in {0, 9, 10, 13, 14, 15, 16})
  {
    EmptyPatch.(id := Some(Some(d.id)), category := Some(Some(d.category)), source := Some(Some(d.source)),
                copyFolder := Some(d.copyFolder), branch := Some(d.branch), token := Some(d.token),
                path := Some(d.path))
  }

  /** `ExtensionGlobalConfig(**kwargs)`: class defaults, then the keyword arguments, then `__post_init__` */
  function Construct(p: Patch): (c: GlobalConfig)
    ensures Initialized(c)
  {
    PostInit(Apply(ClassDefaults, p))
  }

  /** A configuration constructed with no keyword argument */
  lemma ConstructDefaults()
    ensures Construct(EmptyPatch).copyFolder == Some(true)
    ensures Construct(EmptyPatch).log == Some(DefaultLogConfig)
    ensures Construct(EmptyPatch).options == Some([])
    ensures Construct(EmptyPatch).(copyFolder := None, log := None, options := None) == ClassDefaults.(copyFolder := None)
  {
  }
}
