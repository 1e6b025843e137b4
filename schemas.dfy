/**
 * The decorated classes of sonic_engine/model/extension.py and
 * sonic_engine/model/app_config.py as the wrapper sees them: field names in
 * declaration order, defaults, record-typed fields and `__post_init__`
 * defaults. None of these classes sets `_parent_key`.
 */
module Schemas {
  import opened Wrappers
  import opened PyValues
  import opened Dataclass
  import Strings
  import Records

  function Optional(name: string): FieldSpec {
    FieldSpec(name, Some(Null), None)
  }

  function Required(name: string): FieldSpec {
    FieldSpec(name, None, None)
  }

  const LogConfigSpec := ClassSpec("LogConfig", None,
    [FieldSpec("level", Some(Str("DEBUG")), None), FieldSpec("dir", Some(Str("./logs")), None)], [])

  const InputSpec := ClassSpec("Input", None, [Optional("files"), Optional("interfaces")], [])

  /** Also the shape of the role channel classes, whose annotation-only redeclarations keep the None defaults */
  const ChannelsSpec := ClassSpec("ChannelsPipeline", None,
    [FieldSpec("input", Some(Null), Some(InputSpec)), Optional("subscribe"), Optional("publish")], [])

  /** The object a default `LogConfig()` is */
  const DefaultLogObject := Obj("LogConfig", [("level", Str("DEBUG")), ("dir", Str("./logs"))])

  /** `ExtensionConfig.__post_init__`: a None `log` becomes `LogConfig()`, a None `options` becomes `{}` */
  const PostInitDefaults: Entries := [("log", DefaultLogObject), ("options", Dict([]))]

  /** `ExtensionConfig`: the first nine fields have no default */
  const ExtensionConfigSpec := ClassSpec("ExtensionConfig", None,
    [Required("id"), Required("name"), Required("description"), Required("version"), Required("authors"),
     Required("license"), Required("requirements"), FieldSpec("channels", None, Some(ChannelsSpec)),
     FieldSpec("log", None, Some(LogConfigSpec)),
     Optional("category"), Optional("path"), Optional("models"), Optional("options")], PostInitDefaults)

  /** `ExtensionGlobalConfig`: the inherited fields keep their positions and gain None defaults; `copy_folder` defaults to True */
  const GlobalConfigSpec := ClassSpec("ExtensionGlobalConfig", None,
    [Optional("id"), Optional("name"), Optional("description"), Optional("version"), Optional("authors"),
     Optional("license"), Optional("requirements"), FieldSpec("channels", Some(Null), Some(ChannelsSpec)),
     FieldSpec("log", Some(Null), Some(LogConfigSpec)),
     Optional("category"), Optional("path"), Optional("models"), Optional("options"),
     Optional("source"), FieldSpec("copy_folder", Some(Bool(true)), None), Optional("branch"), Optional("token")],
    PostInitDefaults)

  const DeclarationSpec := ClassSpec("AppConfigExtension", None,
    [Required("id"), Required("category"), Required("source"), FieldSpec("copy_folder", Some(Bool(true)), None),
     Optional("branch"), Optional("token"), Optional("path"), Optional("override")], [])

  const MetadataSpec := ClassSpec("AppConfigMetadata", None,
    [Required("extensions_folder"), Optional("replace_existing")], [])

  predicate AllDefaulted(fields: seq<FieldSpec>) {
    forall i :: 0 <= i < |fields| ==> fields[i].default.Some?
  }

  lemma {:induction false} AllDefaultedNoneMissing(fields: seq<FieldSpec>, given: set<string>)
    requires AllDefaulted(fields)
    ensures Missing(fields, given) == []
  {
    if fields != [] {
      assert AllDefaulted(fields[1..]) by {
        forall i | 0 <= i < |fields[1..]| ensures fields[1..][i].default.Some? {
          assert fields[1..][i] == fields[i + 1];
        }
      }
      AllDefaultedNoneMissing(fields[1..], given);
    }
  }

  /** Every field of an override has a default, so an override may name any subset of fields. */
  lemma GlobalConfigNothingRequired(given: set<string>)
    ensures Missing(GlobalConfigSpec.fields, given) == []
  {
    AllDefaultedNoneMissing(GlobalConfigSpec.fields, given);
  }

  /** A declaration requires exactly `id`, `category` and `source`, reported in that order. */
  lemma DeclarationRequired(given: set<string>)
    ensures Missing(DeclarationSpec.fields, given) ==
      (if "id" in given then [] else ["id"]) + (if "category" in given then [] else ["category"]) +
      (if "source" in given then [] else ["source"])
  {
    var fs := DeclarationSpec.fields;
    assert fs == fs[..3] + fs[3..];
    MissingConcat(fs[..3], fs[3..], given);
    AllDefaultedNoneMissing(fs[3..], given);
    assert fs[..3] == [fs[0]] + ([fs[1]] + [fs[2]]);
    MissingConcat([fs[0]], [fs[1]] + [fs[2]], given);
    MissingConcat([fs[1]], [fs[2]], given);
  }

  /** Metadata requires `extensions_folder` only. */
  lemma MetadataRequired(given: set<string>)
    ensures Missing(MetadataSpec.fields, given) == if "extensions_folder" in given then [] else ["extensions_folder"]
  {
    var fs := MetadataSpec.fields;
    assert fs == [fs[0]] + fs[1..];
    MissingConcat([fs[0]], fs[1..], given);
    AllDefaultedNoneMissing(fs[1..], given);
  }

  /** The list part of the message for a missing `id` and `source` at top level */
  lemma QuotedIdSource()
    ensures Strings.Join(",", Quoted("", ["id", "source"])) == "'id','source'"
  {
    var q := Quoted("", ["id", "source"]);
    assert q[0] == "'id'" by { assert "'" + "" + "id" + "'" == "'id'"; }
    assert q[1] == "'source'" by { assert "'" + "" + "source" + "'" == "'source'"; }
    assert Strings.Join(",", q) == "'id'" + "," + Strings.Join(",", q[1..]);
    assert q[1..] == [q[1]];
  }

  /**
   * A declaration that only names its category is refused with the message
   * "The following fields 'id','source' are required for AppConfigExtension".
   */
  lemma DeclarationWithoutIdAndSource()
    ensures Construct(DeclarationSpec, [("category", Str("feature"))]) ==
      Raised(RequiredMessage(DeclarationSpec, ["id", "source"]))
    ensures Strings.Join(",", Quoted(Prefix(DeclarationSpec), ["id", "source"])) == "'id','source'"
    ensures DeclarationSpec.name == "AppConfigExtension"
  {
    KeySetSingle("category", Str("feature"));
    DeclarationRequired({"category"});
    assert Missing(DeclarationSpec.fields, {"category"}) == ["id", "source"];
    assert Prefix(DeclarationSpec) == "";
    QuotedIdSource();
  }

  /** What a field of a default `ExtensionGlobalConfig` holds, numbered as in `Records.FieldNames` */
  function DefaultField(i: nat): Value {
    if i == 8 then DefaultLogObject else if i == 12 then Dict([]) else if i == 14 then Bool(true) else Null
  }

  /** A field's value when no argument is passed: its default, with `__post_init__`'s in place of None */
  function PostDefault(spec: ClassSpec, f: FieldSpec): Value {
    var v := f.default.GetOr(Null);
    if v == Null && f.name in KeySet(spec.postInit) then Lookup(spec.postInit, f.name).value else v
  }

  lemma AttributesNoArgs(spec: ClassSpec, fields: seq<FieldSpec>, i: nat)
    requires i < |fields|
    ensures Attributes(spec, fields, [])[i] == (fields[i].name, PostDefault(spec, fields[i]))
  {
    AttributesAt(spec, fields, [], i);
    assert KeySet([]) == {};
  }

  lemma PostDefaultAt(i: nat)
    requires i < |GlobalConfigSpec.fields|
    ensures PostDefault(GlobalConfigSpec, GlobalConfigSpec.fields[i]) == DefaultField(i)
    ensures GlobalConfigSpec.fields[i].name == Records.FieldNames[i]
  {
    assert KeySet(PostInitDefaults) == {"log", "options"};
    assert Lookup(PostInitDefaults, "log") == Some(DefaultLogObject);
    assert Lookup(PostInitDefaults, "options") == Some(Dict([]));
  }

  lemma AttributesDefaultAt(i: nat)
    requires i < |GlobalConfigSpec.fields|
    ensures Attributes(GlobalConfigSpec, GlobalConfigSpec.fields, [])[i] == (Records.FieldNames[i], DefaultField(i))
  {
    AttributesNoArgs(GlobalConfigSpec, GlobalConfigSpec.fields, i);
    PostDefaultAt(i);
  }

  lemma FieldsDefaultAt(i: nat)
    requires i < Records.FieldCount
    ensures Records.Fields(Records.Construct(Records.EmptyPatch))[i] == (Records.FieldNames[i], DefaultField(i))
  {
    var c := Records.Construct(Records.EmptyPatch);
    assert c == Records.ClassDefaults.(log := Some(Records.DefaultLogConfig), options := Some([]));
  }

  /**
   * The generic construction agrees with the record model: with no argument
   * the wrapper builds an `ExtensionGlobalConfig` whose fields are those of
   * the record `Records.Construct` gives.
   */
  lemma GlobalConfigDefaults()
    ensures Construct(GlobalConfigSpec, []) ==
      Built(Obj("ExtensionGlobalConfig", Records.Fields(Records.Construct(Records.EmptyPatch))))
  {
    GlobalConfigNothingRequired({});
    assert KeySet([]) == {};
    var spec := GlobalConfigSpec;
    var attrs := Attributes(spec, spec.fields, []);
    var fs := Records.Fields(Records.Construct(Records.EmptyPatch));
    forall i | 0 <= i < |spec.fields| ensures attrs[i] == fs[i] {
      AttributesDefaultAt(i);
      FieldsDefaultAt(i);
    }
    assert attrs == fs;
  }

  /**
   * A keyword argument that is no field of `ExtensionGlobalConfig` leaves an
   * object without instance fields, which reads the class defaults.
   */
  lemma GlobalConfigUnknownKey(k: string, v: Value)
    requires forall i :: 0 <= i < |GlobalConfigSpec.fields| ==> GlobalConfigSpec.fields[i].name != k
    ensures Construct(GlobalConfigSpec, [(k, v)]) == Unset("ExtensionGlobalConfig")
  {
    GlobalConfigNothingRequired(KeySet([(k, v)]));
    var kwargs := [(k, v)];
    assert kwargs[0].0 == k && kwargs[1..] == [];
    assert FieldFor(GlobalConfigSpec.fields, k).None?;
    assert !AllKnown(GlobalConfigSpec, kwargs);
    assert Convert(GlobalConfigSpec, kwargs, kwargs) == Built(Dict([(k, v)]));
  }
}
