/**
 * The configuration helpers of `EngineUtil` (sonic_engine/util/functions.py):
 * `override_config` (`dataclasses.replace` with keyword arguments),
 * `override_nested_config` (replace with the nested merge of both records'
 * field dicts), the override step of `load_config`, and `relative`.
 * `stop_engine(code)` raises `SystemExit`, which no `except Exception` in the
 * core catches: it is the fatal outcome `Exit(code)`.
 */
module EngineUtil {
  import opened Wrappers
  import opened PyValues
  import opened Records
  import NestedDict
  import Paths

  /** `override_config(config, override)`: `dataclasses.replace(config, **override)` */
  function OverrideConfig(c: GlobalConfig, p: Patch): (r: GlobalConfig)
    ensures Initialized(r)
  {
    PostInit(Apply(c, p))
  }

  /**
   * Every field the override names is replaced, even by None (except that
   * `__post_init__` turns a None `log` or `options` back into its default);
   * every other field keeps its value.
   */
  lemma OverrideConfigFields(c: GlobalConfig, p: Patch, i: nat)
    requires Initialized(c) && i < FieldCount
    ensures !PatchNames(p, i) ==> FieldValue(OverrideConfig(c, p), i) == FieldValue(c, i)
    ensures PatchNames(p, i) && i != 8 && i != 12 ==>
      FieldValue(OverrideConfig(c, p), i) == FieldValue(Apply(ClassDefaults, p), i)
    ensures p.log == Some(None) ==> OverrideConfig(c, p).log == Some(DefaultLogConfig)
    ensures p.options == Some(None) ==> OverrideConfig(c, p).options == Some([])
  {
    ApplyFields(c, p, i);
  }

  /** An override naming a field with None leaves None there. */
  lemma OverrideWithNone(c: GlobalConfig, p: Patch)
    requires p.name == Some(None) && p.copyFolder == Some(None) && p.path == Some(None)
    ensures OverrideConfig(c, p).name.None?
    ensures OverrideConfig(c, p).copyFolder.None? && !Truthy(OverrideConfig(c, p).copyFolder)
    ensures OverrideConfig(c, p).path.None?
  {
  }

  /** Replacing with the same override twice is the same as once. */
  lemma OverrideConfigTwice(c: GlobalConfig, p: Patch)
    ensures OverrideConfig(OverrideConfig(c, p), p) == OverrideConfig(c, p)
  {
  }

  /** An empty override map leaves an initialized configuration unchanged. */
  lemma OverrideConfigEmpty(c: GlobalConfig)
    requires Initialized(c)
    ensures OverrideConfig(c, EmptyPatch) == c
  {
    ApplyEmpty(c);
    PostInitKeeps(c);
  }

  /** Every field of `base` replaced by `over`'s value where that value is not None */
  function NonNullOver(base: GlobalConfig, over: GlobalConfig): GlobalConfig {
    GlobalConfig(
      if over.id.Some? then over.id else base.id,
      if over.name.Some? then over.name else base.name,
      if over.description.Some? then over.description else base.description,
      if over.version.Some? then over.version else base.version,
      if over.authors.Some? then over.authors else base.authors,
      if over.license.Some? then over.license else base.license,
      if over.requirements.Some? then over.requirements else base.requirements,
      if over.channels.Some? then over.channels else base.channels,
      if over.log.Some? then over.log else base.log,
      if over.category.Some? then over.category else base.category,
      if over.path.Some? then over.path else base.path,
      if over.models.Some? then over.models else base.models,
      if over.options.Some? then over.options else base.options,
      if over.source.Some? then over.source else base.source,
      if over.copyFolder.Some? then over.copyFolder else base.copyFolder,
      if over.branch.Some? then over.branch else base.branch,
      if over.token.Some? then over.token else base.token)
  }

  /**
   * `override_nested_config(config, override)`: the override's non-None fields
   * win; `options`, the one field holding a plain dict, is merged key by key.
   */
  function OverrideNestedConfig(local: GlobalConfig, over: GlobalConfig): (r: GlobalConfig)
    requires Initialized(local) && Initialized(over)
    ensures Initialized(r)
  {
    NonNullOver(local, over).(options := Some(NestedDict.UpdateNested(local.options.value, over.options.value)))
  }

  /**
   * The record-level merge is exactly the dict merge of the two records'
   * field dicts, so `dataclasses.replace` receives every field and
   * `__post_init__` has nothing left to fill in.
   */
  lemma OverrideNestedIsDictMerge(local: GlobalConfig, over: GlobalConfig)
    requires Initialized(local) && Initialized(over)
    requires DistinctKeys(local.options.value)
    ensures Fields(OverrideNestedConfig(local, over)) == NestedDict.UpdateNested(Fields(local), Fields(over))
    ensures PostInit(OverrideNestedConfig(local, over)) == OverrideNestedConfig(local, over)
  {
    var r := OverrideNestedConfig(local, over);
    var m := NestedDict.UpdateNested(Fields(local), Fields(over));
    FieldsKeys(local);
    FieldsKeys(over);
    NestedDict.AlignedMerge(Fields(local), Fields(over));
    forall i | 0 <= i < FieldCount ensures Fields(r)[i] == m[i] {
      FieldValueNull(over, i);
    }
  }

  /** A field the override sets (other than `options`) ends up with the override's value; a None field keeps the local value. */
  lemma DeclarationWins(local: GlobalConfig, over: GlobalConfig, i: nat)
    requires Initialized(local) && Initialized(over) && i < FieldCount && i != 12
    ensures FieldValue(over, i) != Null ==> FieldValue(OverrideNestedConfig(local, over), i) == FieldValue(over, i)
    ensures FieldValue(over, i) == Null ==> FieldValue(OverrideNestedConfig(local, over), i) == FieldValue(local, i)
  {
    FieldValueNull(over, i);
  }

  /** `log` and `options` are never None after construction, so the override's `log` always wins. */
  lemma OverrideLogAlwaysWins(local: GlobalConfig, over: GlobalConfig)
    requires Initialized(local) && Initialized(over)
    ensures OverrideNestedConfig(local, over).log == over.log
  {
  }

  /** Applying the same override record a second time changes nothing. */
  lemma OverrideNestedTwice(local: GlobalConfig, over: GlobalConfig)
    requires Initialized(local) && Initialized(over)
    requires DistinctKeys(local.options.value) && WellFormed(Dict(local.options.value))
    requires DistinctKeys(over.options.value) && WellFormed(Dict(over.options.value))
    ensures OverrideNestedConfig(OverrideNestedConfig(local, over), over) == OverrideNestedConfig(local, over)
  {
    NestedDict.UpdateNestedIdempotent(local.options.value, over.options.value);
  }

  /** What `config.yaml` at an instance path yields when `load_config` reads it */
  datatype LocalFile =
    | Absent                // FileNotFoundError
    | Unreadable            // any other error opening or reading the file
    | Malformed             // yaml.YAMLError
    | NotAMapping           // not a mapping (an empty file gives None), or a mapping with a
                            // non-string key, for which `cls(**config)` raises TypeError
    | UnknownKeys           // a mapping with a key that is no field of the record
    | Parsed(kwargs: Patch) // a mapping of known fields

  datatype Loaded =
    | Loaded(config: GlobalConfig)
    | Exit(code: int)       // `stop_engine(code)`
    | Raised                // an exception `load_config` lets through

  /**
   * `ExtensionGlobalConfig(**kw)` for a mapping with an unknown key: the
   * constructor's TypeError is logged and swallowed, so the object has no
   * instance fields and reads the class defaults; `replace` then receives only
   * the override's non-None fields and fills the rest from the class defaults.
   */
  function OverrideOfEmptyObject(over: GlobalConfig): (r: GlobalConfig)
    requires Initialized(over)
    ensures Initialized(r)
  {
    PostInit(NonNullOver(ClassDefaults, over))
  }

  /**
   * A configuration file with an unknown key acts like an empty mapping,
   * except that the override's `options` dict is taken whole instead of being
   * merged into an empty one (merging would drop its None-valued keys).
   */
  lemma EmptyObjectLikeDefaults(over: GlobalConfig)
    requires Initialized(over)
    ensures OverrideOfEmptyObject(over).options == over.options
    ensures OverrideOfEmptyObject(over) ==
      OverrideNestedConfig(Construct(EmptyPatch), over).(options := over.options)
  {
  }

  /** `load_config(ExtensionGlobalConfig, path, override)` as the instance handler calls it */
  function LoadConfig(file: LocalFile, over: GlobalConfig): (r: Loaded)
    requires Initialized(over)
    ensures r.Exit? ==> r.code == 1
    ensures r.Exit? <==> file.Absent? || file.Malformed? || file.NotAMapping?
    ensures r.Raised? <==> file.Unreadable?
    ensures r.Loaded? ==> Initialized(r.config)
    ensures file.Parsed? ==> r.Loaded? && r.config.log == over.log
  {
    match file
    case Absent => Exit(1)
    case Unreadable => Raised
    case Malformed => Exit(1)
    case NotAMapping => Exit(1)
    case UnknownKeys => Loaded(OverrideOfEmptyObject(over))
    case Parsed(kwargs) => Loaded(OverrideNestedConfig(Construct(kwargs), over))
  }

  /** A loaded local file never overrides a value the declaration sets. */
  lemma LoadConfigKeepsDeclaration(file: LocalFile, over: GlobalConfig, i: nat)
    requires Initialized(over) && i < FieldCount && i != 12
    requires LoadConfig(file, over).Loaded?
    requires FieldValue(over, i) != Null
    ensures FieldValue(LoadConfig(file, over).config, i) == FieldValue(over, i)
  {
    FieldValueNull(over, i);
  }

  /** `relative(file, *parts)`: `os.path.join(os.path.dirname(file), *parts)` */
  function Relative(file: string, parts: seq<string>): string {
    Paths.JoinAll(Paths.Dirname(file), parts)
  }

  /** Relative to a file `dir/name`, paths resolve inside `dir`. */
  lemma RelativeToFileInDir(dir: string, name: string, parts: seq<string>)
    requires dir != [] && dir[|dir| - 1] != '/'
    requires Paths.IsComponent(name)
    ensures Relative(Paths.Join(dir, name), parts) == Paths.JoinAll(dir, parts)
  {
    Paths.DirnameOfJoin(dir, name);
  }
}
