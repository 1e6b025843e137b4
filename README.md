# sonic-engine extension orchestration, modelled in Dafny

sonic-engine starts a set of "extensions", which are Python plugins run as separate processes. The application configuration declares each extension once. This model covers what happens between that declaration and the running plugins:

- **Expansion.** `ExtensionHandler._create_instances_list` turns one extension declaration into a list of instance configurations:
  - a default instance;
  - the default replaced in place by an override entry keyed by the declaration's own id;
  - one sibling per other override key.

  Each instance then gets its path.
- **Provisioning.** `ExtensionInstanceHandler.install` takes each instance through these steps:
  - the skip-or-replace decision for an existing folder, under the tri-state `replace_existing` policy;
  - clone, copy or run in place;
  - loading the instance's own `config.yaml` over the declared values;
  - the virtual environment and the requirements;
  - the generated `__init__.py` and `main.yapsy-plugin` files.
- **Configuration utilities.** From `EngineUtil`:
  - the nested dict merge;
  - `override_config` (`dataclasses.replace`);
  - `override_nested_config`;
  - `load_config`;
  - `relative`.
- **Records.** The `nested_dataclass` initialiser wrapper checks missing required fields and builds the error message. It turns dicts into records and swallows the initialiser's own `TypeError`. The records it decorates are modelled with their defaults and `__post_init__`.
- **Plugin supervision.** `YapsyHandler` maps each plugin the runtime discovers back to its instance configuration (path slicing plus a first-match search). It activates and messages the plugins, counts the live ones, and deactivates them all.

How the modules are built:
- Pure code is modelled as datatypes, functions and lemmas.
- Code that changes state step by step is modelled as classes whose methods are proved to compute a specification function of the old state:
  - `Provisioning.InstanceHandler` over a `Provisioning.Host`;
  - `Expansion.ExtensionHandler`;
  - `Supervision.YapsyHandler`;
  - the loops of the dataclass wrapper.

The modules and what each holds:
- `Provisioning.Host` stands for the machine:
  - the file system, as the set of existing paths;
  - standard input, as the lines still to be read;
  - a trace of effects (removals, commands with their return codes, copies, file writes).

  Command return codes, what a clone brings, what a local `config.yaml` parses to, the platform and the interpreter version are oracles fixed for a run.
- `Records`, `PyValues` and `Schemas` hold the record shapes.
- `Strings` and `Paths` model the Python `str` and `posixpath` operations used.

Python semantics are written out:
- truthiness of optional values;
- `dataclasses.replace`, where a field named with None does replace;
- `os.path.join`, `normpath` and `dirname`;
- `str.split` with an explicit separator, which keeps empty pieces;
- `list.index` raising;
- `subprocess.run(check=True)` raising;
- `shutil.copytree` refusing an existing target;
- `sys.exit` escaping `except Exception`.

Where the code and its documentation differ, the model follows the code. The handler classes and the specification functions they compute run the code as written, including the three defects listed under "## Findings"; the corrected definitions are kept beside them, with the intended properties proved about them.
- `load_config` ends the engine with exit code 1 when the instance's `config.yaml` is missing, is not valid YAML, is not a mapping (an empty file included), or is a mapping with a key that is not a string (`cls(**config)` raises a TypeError, which `load_config` catches and turns into the exit). The model groups the last two as `EngineUtil.NotAMapping`. Only these errors are fatal. Any other error leaves the configuration as it was.
- A local file with an unknown key behaves like an empty mapping, because the record's `TypeError` is swallowed.
- An override entry can be None, can name a field with None, and can hold a key the record lacks. `_create_instances_list` then raises: at the entry itself for None, and otherwise when `os.path.join` meets a None category or id under a truthy `copy_folder` (an unknown key leaves the class defaults, whose category and id are None).
- An instance without a source raises at `os.path.exists(None)` unless its folder is kept; one without a path raises in the skip decision unless the policy is False.
- After `__post_init__`, `log` is never None, so the declaration's `log` always wins over the local file's.
- There is no duplicate-id check. The override entry for the declaration's own id may rename the default instance onto a sibling's id.
- A `requirements` field that is None or a list makes `os.path.join` raise.
- The log level is not checked against its literal type.
- A failed instance leaves None in the list handed to `YapsyHandler`, which then raises when it reads that entry.
- The unsupported-platform branch of `_write_init_file` cannot be reached, because `_create_venv` has already stopped the engine on such a platform.

## Model

The lemmas `Provisioning.VenvTrace`, `RequirementsTrace`, `WriteInitTrace`, `WritePluginTrace`, `ProvisionSteps` and `TraceShape` only serve the proof of `Provisioning.ProvisionOrder` and have no row of their own.

| member | source | states |
|---|---|---|
| Records.PostInit | sonic_engine/model/extension.py:121-130 | after initialisation `log` and `options` are never None: a missing log becomes the default `LogConfig`, missing options an empty map, given values are kept |
| Records.PostInitKeeps | sonic_engine/model/extension.py:126-130 | `__post_init__` touches only `log` and `options`, and changes nothing on an already initialised record |
| Records.FieldValue | sonic_engine/model/app_config.py:33-83 | of the fields of a resolved instance only `options` holds a plain dict, so the nested merge descends into no other field |
| Records.FieldValueNull | sonic_engine/model/app_config.py:33-83 | a field of `__dict__` is None exactly when the record leaves it unset |
| Records.Fields | sonic_engine/model/app_config.py:33-83 | `__dict__` of an instance configuration: one entry per field, in declaration order |
| Records.FieldNamesDistinct | sonic_engine/model/app_config.py:33-83 | the field names of an instance configuration are pairwise distinct |
| Records.FieldsKeys | sonic_engine/model/app_config.py:33-83 | the keys of `__dict__` are exactly the field names, without repetition |
| Records.ApplyEmpty | sonic_engine/util/functions.py:46-49 | `replace` with no keyword arguments gives the record back |
| Records.ApplyFields | sonic_engine/util/functions.py:46-49 | a field the override does not name keeps its value; a named field takes the override's value, whatever the record held |
| Records.MinimalDeclaration | sonic_engine/model/app_config.py:86-111 | a declaration given only `id`, `category` and `source` has `copy_folder` True and no branch, token, path or override |
| Records.DeclarationPatch | sonic_engine/core/extension.py:51-53 | the declaration's `__dict__` without `override` passes exactly `id`, `category`, `source`, `copy_folder`, `branch`, `token` and `path`, with their values |
| Records.Construct | sonic_engine/model/app_config.py:33-83 | constructing an instance configuration runs `__post_init__` |
| Records.ConstructDefaults | sonic_engine/model/app_config.py:37-83 | an instance configuration built from nothing has `copy_folder` True, the default log, empty options and every other field None |
| PyValues.Keys | sonic_engine/util/functions.py:25 | the keys of a dict in iteration order, one per entry |
| PyValues.Lookup | sonic_engine/util/functions.py:28-29 | looking a key up fails exactly when the key is absent |
| PyValues.IndexOf | sonic_engine/util/functions.py:28-29 | the position of a present key is its first occurrence |
| PyValues.LookupAt | sonic_engine/util/functions.py:28-29 | in a dict with distinct keys each entry is found under its key |
| PyValues.LookupIndex | sonic_engine/util/functions.py:28-29 | a lookup returns the value stored at the key's position |
| PyValues.StoreKeys | sonic_engine/util/functions.py:31-34 | `d[k] = v` adds `k` to the keys, appending it at the end only when it was absent, and keeps keys distinct |
| PyValues.StoreLookup | sonic_engine/util/functions.py:31-34 | after `d[k] = v` the key `k` holds `v` and every other key what it held |
| PyValues.StoreSame | sonic_engine/util/functions.py:31-34 | storing the value a key already holds changes nothing |
| PyValues.WellFormedLookup | sonic_engine/util/functions.py:28-29 | a value read from a well-formed dict is well-formed |
| PyValues.WellFormedStore | sonic_engine/util/functions.py:31-34 | storing a well-formed value keeps a dict well-formed |
| PyValues.KeySetSingle | sonic_engine/util/dataclass.py:16 | a one-entry keyword dict passes exactly its one name |
| NestedDict.MergeEntryLookup | sonic_engine/util/functions.py:25-34 | one loop iteration changes only the entry of its key, to the merge of the old entry with the override value |
| NestedDict.MergeEntryKeys | sonic_engine/util/functions.py:25-34 | one loop iteration adds its key exactly when the value is not None and removes no key |
| NestedDict.UpdateNestedKeys | sonic_engine/util/functions.py:21-36 | the merged key set is the original keys plus the override keys with a non-None value, and original keys keep their order |
| NestedDict.UpdateNestedLookup | sonic_engine/util/functions.py:23-36 | each key of the merge holds: the original when the override is None or absent, the recursive merge when both are dicts, otherwise the override |
| NestedDict.NullKeepsOriginal | sonic_engine/util/functions.py:32-34 | a key whose override is None (or absent) keeps its original entry or its absence |
| NestedDict.NonNullReplaces | sonic_engine/util/functions.py:26-34 | a non-None override that is not a dict over a dict replaces the original entry |
| NestedDict.DictsMergeRecursively | sonic_engine/util/functions.py:26-31 | a dict over a dict is merged recursively by the same rule |
| NestedDict.EntrySmaller | sonic_engine/util/functions.py:31 | each nested dict is smaller than the dict holding it, so the recursion ends |
| NestedDict.UpdateNestedWellFormed | sonic_engine/util/functions.py:23-36 | the merge of well-formed dicts is a well-formed dict with distinct keys |
| NestedDict.FixedPoint | sonic_engine/util/functions.py:21-36 | merging overrides that are already in force changes nothing |
| NestedDict.SelfMerge | sonic_engine/util/functions.py:21-36 | merging a dict into itself gives the dict |
| NestedDict.UpdateNestedIdempotent | sonic_engine/util/functions.py:21-36 | merging the same overrides twice is merging them once |
| NestedDict.DistinctCount | sonic_engine/util/functions.py:23 | a dict with distinct keys has as many keys as entries |
| NestedDict.NoNewKeys | sonic_engine/util/functions.py:21-36 | merging overrides whose keys the original already has keeps the original keys and their order |
| NestedDict.AlignedMerge | sonic_engine/util/functions.py:21-36 | merging two dicts with the same keys in the same order merges position by position |
| NestedDict.AlignedAt | sonic_engine/util/functions.py:21-36 | position `i` of an aligned merge is the merge of the two entries at `i` |
| EngineUtil.OverrideConfig | sonic_engine/util/functions.py:46-49 | `override_config` keeps the post-init invariant |
| EngineUtil.OverrideConfigFields | sonic_engine/util/functions.py:46-49 | every field the override names takes the override's value, even None, except that None `log` and `options` become their post-init defaults; unnamed fields are unchanged |
| EngineUtil.OverrideWithNone | sonic_engine/util/functions.py:46-49 | naming `name`, `copy_folder` or `path` with None does set them to None, so `copy_folder` becomes falsy |
| EngineUtil.OverrideConfigTwice | sonic_engine/util/functions.py:46-49 | applying the same override twice is applying it once |
| EngineUtil.OverrideConfigEmpty | sonic_engine/util/functions.py:46-49 | an empty override changes nothing |
| EngineUtil.OverrideNestedConfig | sonic_engine/util/functions.py:77-82 | `override_nested_config` keeps the post-init invariant |
| EngineUtil.OverrideNestedIsDictMerge | sonic_engine/util/functions.py:77-82 | the result's `__dict__` is `_update_nested_dict` of the two records' `__dict__`s |
| EngineUtil.DeclarationWins | sonic_engine/util/functions.py:77-82 | a non-None field of the overriding record wins; a None field leaves the loaded value |
| EngineUtil.OverrideLogAlwaysWins | sonic_engine/util/functions.py:77-82 | since `log` is never None after post-init, the overriding record's log always replaces the loaded one |
| EngineUtil.OverrideNestedTwice | sonic_engine/util/functions.py:77-82 | overriding twice with the same record is overriding once |
| EngineUtil.OverrideOfEmptyObject | sonic_engine/util/dataclass.py:38-41 | the object left by a swallowed constructor error, overridden, still satisfies the post-init invariant |
| EngineUtil.EmptyObjectLikeDefaults | sonic_engine/util/functions.py:58-60 | a local file with an unknown key acts like an empty one, except that the override's options are taken whole |
| EngineUtil.LoadConfig | sonic_engine/util/functions.py:51-70 | a missing file, a YAML error or a non-mapping document stop the engine with code 1; other read errors propagate; a parsed file is merged under the declaration, whose log is kept |
| EngineUtil.LoadConfigKeepsDeclaration | sonic_engine/util/functions.py:58-61 | a loaded local file never overrides a field the declaration sets |
| EngineUtil.RelativeToFileInDir | sonic_engine/util/functions.py:72-74 | `relative(dir/name, *parts)` is `join(dir, *parts)` |
| EngineUtil.Relative | sonic_engine/util/functions.py:72-74 | no contract of its own: `relative(file, *parts)`; `RelativeToFileInDir` states its meaning |
| Dataclass.MissingIff | sonic_engine/util/dataclass.py:14-17 | a name is reported missing iff a field of that name has no default and was not passed |
| Dataclass.Missing | sonic_engine/util/dataclass.py:14-17 | no contract of its own: the missing-field list; `MissingIff` and `MissingConcat` state which names and in what order |
| Dataclass.RequiredMessage | sonic_engine/util/dataclass.py:18-27 | no contract of its own: the TypeError message; `RequiredMessageLists` states its parts |
| Dataclass.MissingConcat | sonic_engine/util/dataclass.py:15-17 | missing fields are reported in field declaration order |
| Dataclass.MissingFields | sonic_engine/util/dataclass.py:14-17 | the missing-field loop computes exactly the missing fields in declaration order |
| Dataclass.Quoted | sonic_engine/util/dataclass.py:24 | each missing name is quoted and prefixed by the parent key |
| Dataclass.RequiredMessageLists | sonic_engine/util/dataclass.py:18-27 | the message lists the missing names, each in single quotes behind the parent prefix, comma-joined in order, and ends with "are required for <class>" |
| Dataclass.FieldFor | sonic_engine/util/dataclass.py:30-34 | the field lookup finds a field of that name, or reports that none exists |
| Dataclass.FieldForAt | sonic_engine/util/dataclass.py:30-34 | the lookup stops at the first field of the name |
| Dataclass.Convert | sonic_engine/util/dataclass.py:29-37 | converting the keyword arguments keeps their names and order |
| Dataclass.Attributes | sonic_engine/util/dataclass.py:38-39 | the initialised object has one attribute per field, in declaration order |
| Dataclass.AttributesAt | sonic_engine/util/dataclass.py:38-39 | a field holds its argument, else its default, with the `__post_init__` default in place of None |
| Dataclass.MissingRaises | sonic_engine/util/dataclass.py:18-27 | a missing field raises TypeError with the listed message |
| Dataclass.NothingMissingNoRaise | sonic_engine/util/dataclass.py:38-41 | with nothing missing no TypeError escapes; an unknown keyword is swallowed and leaves an object without fields |
| Dataclass.ConvertPlain | sonic_engine/util/dataclass.py:29-37 | values that are not dicts pass through unchanged |
| Dataclass.ConvertAt | sonic_engine/util/dataclass.py:29-37 | a dict given for a record-typed field becomes an object of that record; any other value is kept |
| Dataclass.ConstructClass | sonic_engine/util/dataclass.py:35-41 | a construction that does not raise leaves an object of the class |
| Dataclass.Construct | sonic_engine/util/dataclass.py:13-41 | no contract of its own: the wrapper's `__init__`; `MissingRaises`, `NothingMissingNoRaise` and `ConstructClass` state its outcomes |
| Dataclass.ConstructObject | sonic_engine/util/dataclass.py:13-41 | the wrapper's `__init__`: missing-field loop, conversion loop, then the initialiser, as one computation |
| Dataclass.ConvertArguments | sonic_engine/util/dataclass.py:29-37 | the conversion loop rewrites the arguments one by one and stops at the first nested TypeError |
| Dataclass.ConvertOne | sonic_engine/util/dataclass.py:30-36 | one argument of the conversion loop: a dict for a record-typed field becomes that record or its TypeError, anything else is kept |
| Schemas.AllDefaultedNoneMissing | sonic_engine/util/dataclass.py:16 | a class whose fields all have defaults never reports a missing field |
| Schemas.GlobalConfigNothingRequired | sonic_engine/model/app_config.py:37-83 | every instance-configuration field has a default, so an override may name any subset |
| Schemas.DeclarationRequired | sonic_engine/model/app_config.py:86-111 | a declaration requires exactly `id`, `category` and `source`, reported in that order |
| Schemas.MetadataRequired | sonic_engine/model/app_config.py:11-19 | metadata requires `extensions_folder` only; `replace_existing` defaults to None |
| Schemas.DeclarationWithoutIdAndSource | sonic_engine/util/dataclass.py:18-27 | a declaration naming only its category raises "The following fields 'id','source' are required for AppConfigExtension" |
| Schemas.AttributesNoArgs | sonic_engine/util/dataclass.py:38-39 | with no argument a field holds its default, with the `__post_init__` default in place of None |
| Schemas.GlobalConfigDefaults | sonic_engine/model/app_config.py:37-83 | the generic construction of an instance configuration with no argument builds exactly the fields of `Records.Construct`, so the two models of construction agree |
| Schemas.GlobalConfigUnknownKey | sonic_engine/util/dataclass.py:38-41 | an instance configuration given a key it lacks is left without instance fields, the class defaults that `Expansion.EntryConfig` uses |
| Strings.JoinSplit | sonic_engine/core/yapsy_methods.py:36 | joining the pieces of `str.split(c)` with `c` gives the string back |
| Strings.SplitJoin | sonic_engine/core/extension_instance.py:146-151 | splitting a join of pieces free of the separator gives the pieces back |
| Strings.ReplacePrefixOnly | sonic_engine/core/extension_instance.py:142-145 | `str.replace` of a pattern occurring only at the front rewrites only the front |
| Paths.JoinComponent | sonic_engine/core/extension.py:81-83 | joining a component onto a directory inserts one '/' |
| Paths.JoinThree | sonic_engine/core/extension.py:81-83 | `join(folder, category, id)` is `folder/category/id` |
| Paths.DirnameOfJoin | sonic_engine/util/functions.py:72-74 | the directory of `dir/name` is `dir` |
| Paths.NormPathCurrentDir | sonic_engine/core/yapsy_methods.py:45 | a directory reported with a trailing "/." normalises to the directory itself |
| Artifacts.AuthenticatedHttpsSource | sonic_engine/core/extension_instance.py:142-145 | with a token, "https://" becomes "https://<token>:x-oauth-basic@" |
| Artifacts.UnauthenticatedSource | sonic_engine/core/extension_instance.py:142-145 | without a token the source is unchanged; without any "https://" in it, it is unchanged whatever the token |
| Artifacts.GitArgs | sonic_engine/core/extension_instance.py:146-151 | the clone command is `git clone [-b branch] source path`, with `-b` exactly when a branch is set |
| Artifacts.GitArgsAgree | sonic_engine/core/extension_instance.py:146-151 | splitting the command line on spaces gives the same arguments when no part contains a space |
| Artifacts.GitArgsSpaceInPath | sonic_engine/core/extension_instance.py:146-151 | a path with a space reaches git as two arguments in the code as written |
| Artifacts.InterpreterInsideVenv | sonic_engine/core/extension_instance.py:208-237 | the interpreter is `<path>/.venv/Scripts/python.exe` on Windows, `<path>/.venv/bin/python` on Linux, and there is none elsewhere |
| Artifacts.InterpreterPath | sonic_engine/core/extension_instance.py:208-237 | no contract of its own: the interpreter path per platform; `InterpreterInsideVenv` states it |
| Artifacts.InitTextLines | sonic_engine/core/extension_instance.py:282-316 | the `__init__.py` text defines the primary then the 64-bit site-packages path, inserts them in that order, and only then imports `.main` |
| Artifacts.InitText | sonic_engine/core/extension_instance.py:282-316 | no contract of its own: the `__init__.py` text; `InitTextLines` states its lines and their order |
| Artifacts.LinuxSitePackages | sonic_engine/core/extension_instance.py:284-292 | on Linux the two paths are `.venv/lib/pythonX.Y/site-packages` and `.venv/lib64/pythonX.Y/site-packages` |
| Artifacts.SitePackagesInsideInstance | sonic_engine/core/extension_instance.py:284-292 | both site-packages paths lie below `.venv` of the instance, the same directory on Windows |
| Artifacts.IniStep | sonic_engine/core/extension_instance.py:327-336 | reading the plugin file goes one line at a time |
| Artifacts.CoreChain | sonic_engine/core/extension_instance.py:328-330 | a `[Core]` header followed by `Name = ` and `Module = ` lines yields those values |
| Artifacts.DocumentationEntered | sonic_engine/core/extension_instance.py:332 | the `[Documentation]` section starts after its header |
| Artifacts.DocumentationChain | sonic_engine/core/extension_instance.py:333-335 | `Author`, `Description` and `Version` lines in the section yield those values |
| Artifacts.CoreReadsBack | sonic_engine/core/extension_instance.py:327-330 | the plugin file's `[Core]` section gives back `Name` as the configured name and `Module` as "." |
| Artifacts.DocumentationReadsBack | sonic_engine/core/extension_instance.py:332-335 | the `[Documentation]` section gives back the authors, description and version of the configuration |
| Artifacts.PluginTextReadsBack | sonic_engine/core/extension_instance.py:327-339 | the written plugin file, split into lines and read as INI, gives back name, module, authors, description and version |
| Artifacts.PluginText | sonic_engine/core/extension_instance.py:318-339 | no contract of its own: the plugin descriptor text; `PluginTextReadsBack` states what an INI reader gets back |
| Provisioning.Without | sonic_engine/util/functions.py:84-88 | `rmtree(p)` removes `p` and every path below it, keeps every other path, and adds none |
| Provisioning.CopyOf | sonic_engine/core/extension_instance.py:164-169 | `copytree` creates the target folder when the source exists |
| Provisioning.ClonedTree | sonic_engine/core/extension_instance.py:151 | a successful clone creates the instance folder |
| Provisioning.RemoveSpec | sonic_engine/util/functions.py:84-91 | removing a folder leaves it absent, adds no path and reads no input |
| Provisioning.FirstAnswer | sonic_engine/core/extension_instance.py:121-126 | the prompt loop stops at the first line that is "y" or "n" |
| Provisioning.AskSpec | sonic_engine/core/extension_instance.py:111-134 | asking keeps the configuration and raises at once when the path is None; it reads no input and proceeds when the folder is absent or is the source; otherwise it consumes the lines up to the first "y" or "n", removes the folder and proceeds on "y", skips on "n", and raises with the input used up when neither comes |
| Provisioning.Decide | sonic_engine/core/extension_instance.py:91-109 | the policy decision keeps the configuration, removes at most the instance folder, and can only end the installation by raising; with a None path, policy False skips and any other policy raises |
| Provisioning.CloneSpec | sonic_engine/core/extension_instance.py:136-155 | the clone replaces `source` by its token-rewritten form and changes no other field, records the `git clone` argument list with its return code, never removes a path, and reports a failed transfer exactly when the return code is non-zero |
| Provisioning.CloneSpecAsWritten | sonic_engine/core/extension_instance.py:136-155 | the clone as written replaces `source` by its token-rewritten form, records the space-split command line with its return code, and raises exactly when the return code is non-zero |
| Provisioning.CloneBy | sonic_engine/core/extension_instance.py:136-155 | no contract of its own: picks the clone as written or as intended |
| Provisioning.CopySpec | sonic_engine/core/extension_instance.py:157-172 | the copy fails exactly when the source is missing or the target exists, and then changes nothing |
| Provisioning.MaterialiseSpec | sonic_engine/core/extension_instance.py:61-74 | clone, copy or in-place keeps the path; a failed copy is a failed transfer, and a failed clone raises as written and is a failed transfer as intended |
| Provisioning.LoadLocalSpec | sonic_engine/core/extension_instance.py:174-194 | loading the local configuration keeps `path` and records the read when there is a path; it stops with code 1 exactly when `load_config` does (a missing `config.yaml` included), takes the loaded configuration with the old path when the load succeeds, and otherwise keeps the configuration unchanged |
| Provisioning.LoadedKeepsSource | sonic_engine/core/extension_instance.py:186-192 | a loaded configuration keeps the instance's source when a source is set |
| Provisioning.VenvSpec | sonic_engine/core/extension_instance.py:198-237 | creating the venv yields the platform's interpreter path, and stops with code 1 exactly on an unsupported platform |
| Provisioning.RequirementsSpec | sonic_engine/core/extension_instance.py:239-270 | installing requirements changes no path; a missing requirements file stops the engine with code 1 and changes nothing, an existing one is passed to `pip install -r` with the given interpreter, and a `requirements` that is None or a list raises |
| Provisioning.WriteSpec | sonic_engine/core/extension_instance.py:299-316 | a file write succeeds exactly when its directory exists, and then adds the file and records its text |
| Provisioning.WriteInitSpec | sonic_engine/core/extension_instance.py:272-316 | writing `__init__.py` keeps the configuration and ends only by stopping with code 1 or raising |
| Provisioning.WritePluginSpec | sonic_engine/core/extension_instance.py:318-339 | writing `main.yapsy-plugin` keeps the configuration and can only raise |
| Provisioning.Provision | sonic_engine/core/extension_instance.py:76-89 | the steps after the transfer keep the path, never report a failed transfer, exit only with code 1, and return the final configuration |
| Provisioning.InstallSpec | sonic_engine/core/extension_instance.py:50-89 | an installation, as written or as intended, keeps the instance path, returns the final configuration when it succeeds, exits only with code 1, raises with the decision's world and the configuration unchanged when the decision raises, and raises the same way for a missing source that is not skipped |
| Provisioning.Host.ReadLine | sonic_engine/core/extension_instance.py:121 | `input()` consumes one line, and there is none at the end of input |
| Provisioning.Host.Execute | sonic_engine/core/extension_instance.py:151 | a command's return code is the environment's |
| Provisioning.Host.Log | sonic_engine/core/extension_instance.py:151 | an effect is appended to the trace |
| Provisioning.Host.AddPaths | sonic_engine/core/extension_instance.py:151 | a command's output files are added to the file system |
| Provisioning.Host.RemoveTree | sonic_engine/util/functions.py:88 | `rmtree` removes the tree |
| Provisioning.Host.CopyTree | sonic_engine/core/extension_instance.py:164-172 | `copytree` succeeds exactly when the source exists and the target does not |
| Provisioning.Host.ReadLocalConfig | sonic_engine/util/functions.py:53-58 | reading `config.yaml` finds it absent unless the file exists |
| Provisioning.Host.WriteFile | sonic_engine/core/extension_instance.py:299-316 | writing a file is `WriteSpec` on the machine |
| Provisioning.InstanceHandler.constructor | sonic_engine/core/extension_instance.py:45-48 | the handler holds the configuration and the policy |
| Provisioning.InstanceHandler.RemoveFolder | sonic_engine/util/functions.py:84-91 | removing the folder is `RemoveSpec` |
| Provisioning.InstanceHandler.ShouldSkipExistingFolder | sonic_engine/core/extension_instance.py:91-109 | computes exactly `Decide` under the handler's policy |
| Provisioning.InstanceHandler.AskUser | sonic_engine/core/extension_instance.py:111-134 | the prompt loop computes exactly `AskSpec` |
| Provisioning.InstanceHandler.Clone | sonic_engine/core/extension_instance.py:136-155 | computes exactly `CloneSpecAsWritten`: the token rewrite of `source`, the argument list split from the command line, and a raise on a non-zero return code |
| Provisioning.InstanceHandler.Copy | sonic_engine/core/extension_instance.py:157-172 | computes exactly `CopySpec` |
| Provisioning.InstanceHandler.LoadLocalConfigs | sonic_engine/core/extension_instance.py:174-194 | computes exactly `LoadLocalSpec`, resetting `path` after the load |
| Provisioning.InstanceHandler.CreateVenv | sonic_engine/core/extension_instance.py:198-237 | computes exactly `VenvSpec` |
| Provisioning.InstanceHandler.InstallRequirements | sonic_engine/core/extension_instance.py:239-270 | computes exactly `RequirementsSpec` |
| Provisioning.InstanceHandler.WriteInitFile | sonic_engine/core/extension_instance.py:272-316 | computes exactly `WriteInitSpec` |
| Provisioning.InstanceHandler.WriteYapsyPluginFile | sonic_engine/core/extension_instance.py:318-339 | computes exactly `WritePluginSpec` |
| Provisioning.InstanceHandler.Provide | sonic_engine/core/extension_instance.py:76-89 | the steps after the transfer compute exactly `Provision` |
| Provisioning.InstanceHandler.Install | sonic_engine/core/extension_instance.py:50-89 | `install` computes exactly `InstallSpec` with the clone as written: world, final configuration and result |
| Provisioning.SkipPolicy | sonic_engine/core/extension_instance.py:55-59 | policy False skips even an absent folder: nothing is removed or transferred, only the local configuration is loaded (when there is a path) and returned |
| Provisioning.ReplacePolicy | sonic_engine/core/extension_instance.py:99-104 | policy True never skips or reads input, and removes the folder exactly when it exists and `copy_folder` is True |
| Provisioning.AskPolicy | sonic_engine/core/extension_instance.py:111-134 | policy None reads input only for an existing folder that is not the source; "y" removes and proceeds, "n" skips, end of input raises |
| Provisioning.TransferChoice | sonic_engine/core/extension_instance.py:61-69 | a source that is no local path is cloned; a local one is used in place when `copy_folder` is falsy and copied otherwise |
| Provisioning.DecideEarly | sonic_engine/core/extension_instance.py:91-109 | the decision only appends removals |
| Provisioning.FailureStopsEarly | sonic_engine/core/extension_instance.py:70-74 | after a failed transfer nothing else happens: no local configuration, venv, requirements or file; as written only a copy can fail this way, as intended a clone too |
| Provisioning.MissingSourceRaises | sonic_engine/core/extension_instance.py:55-63 | an instance without a source raises before any transfer unless its folder is kept |
| Provisioning.ProvisionOrder | sonic_engine/core/extension_instance.py:76-89 | a successful installation loads, creates the venv when missing, installs requirements with its interpreter, writes `__init__.py`, then the plugin file of the final configuration |
| Provisioning.OnlyOwnFolderRemoved | sonic_engine/core/extension_instance.py:91-134 | an installation removes nothing outside its own instance folder |
| Provisioning.CloneFailureRaises | sonic_engine/core/extension_instance.py:151 | a non-zero return code of the clone as written raises |
| Provisioning.CloneFailureFails | sonic_engine/core/extension_instance.py:70-74 | a non-zero return code of the intended clone is reported as a failed transfer |
| Expansion.DefaultInstance | sonic_engine/core/extension.py:51-53 | the default instance carries the declaration's fields, the post-init defaults, and class defaults elsewhere |
| Expansion.Keys | sonic_engine/core/extension.py:59 | the override keys in iteration order |
| Expansion.SiblingKeys | sonic_engine/core/extension.py:59-75 | sibling keys are override keys other than the declaration's id |
| Expansion.Marked | sonic_engine/core/extension.py:70 | each sibling entry gets its key as `id`; the entry for the declaration's id, and a None entry, are left alone |
| Expansion.FirstNull | sonic_engine/core/extension.py:59-75 | the position of the first None entry, where the loop raises, or the length when there is none |
| Expansion.MarkedUntilNull | sonic_engine/core/extension.py:59-75 | the loop marks the entries before the first None entry and leaves the rest as they were |
| Expansion.EntryConfig | sonic_engine/util/functions.py:46-49 | an entry without an unknown key gives an initialised configuration; one with an unknown key leaves the class defaults |
| Expansion.Expanded | sonic_engine/core/extension.py:55-75 | the list holds one instance plus one per sibling key, each initialised or the class defaults; None where the loop raises |
| Expansion.ResolvePath | sonic_engine/core/extension.py:77-83 | resolving raises exactly for a truthy `copy_folder` with a None category or id; otherwise it changes only `path`, to the source when `copy_folder` is falsy |
| Expansion.ResolveAll | sonic_engine/core/extension.py:77-83 | the path loop raises exactly when one instance's path cannot be joined, and otherwise resolves each instance |
| Expansion.Unresolved | sonic_engine/core/extension.py:51-75 | there is always at least the default instance when the override loop does not raise |
| Expansion.Expand | sonic_engine/core/extension.py:43-87 | `_create_instances_list` yields initialised instances, as many as before resolution, or raises |
| Expansion.NoOverride | sonic_engine/core/extension.py:51-58 | without overrides the result is the single default instance with its path, and nothing raises |
| Expansion.InstanceCount | sonic_engine/core/extension.py:55-75 | a result has one instance plus one per override key different from the declaration's id |
| Expansion.SiblingKeysDistinct | sonic_engine/core/extension.py:59 | distinct map keys give distinct sibling keys |
| Expansion.SelfOverride | sonic_engine/core/extension.py:61-64 | element 0 is the default replaced with the entry for the declaration's id, or the default itself when there is none |
| Expansion.SiblingAt | sonic_engine/core/extension.py:69-74 | the sibling for the n-th other key sits at index 1 + n and is the un-overridden default replaced with that entry, its id set to the key |
| Expansion.ExpandedNull | sonic_engine/core/extension.py:59-75 | the override loop raises exactly when the map holds a None entry |
| Expansion.ExpandedFrom | sonic_engine/core/extension.py:55-75 | every instance is the default or comes from one mapping entry of the map |
| Expansion.FaultLeavesUnjoinable | sonic_engine/core/extension.py:59-83 | a faulty mapping entry, once the loop is past it, leaves an instance whose path cannot be joined |
| Expansion.UnjoinableFromFault | sonic_engine/core/extension.py:55-83 | an instance whose path cannot be joined comes from a faulty entry |
| Expansion.ExpandRaises | sonic_engine/core/extension.py:43-87 | `_create_instances_list` raises exactly when some entry is None or yields an instance whose path cannot be joined |
| Expansion.EntryRaises | sonic_engine/core/extension.py:59-83 | a None entry, an entry with an unknown key, and an entry that sets the category (or the default's id) to None under a truthy `copy_folder` each make it raise |
| Expansion.ExpandedIds | sonic_engine/core/extension.py:59-74 | the ids are the declaration's id first, then the sibling keys in order, unless an unknown key left the class defaults |
| Expansion.DistinctIds | sonic_engine/core/extension.py:55-75 | when the default's entry keeps its id, instance ids are pairwise distinct |
| Expansion.DefaultRenamedOntoSibling | sonic_engine/core/extension.py:61-74 | an entry for the declaration's id can rename the default onto a sibling's id, giving two instances with one id |
| Expansion.PathRule | sonic_engine/core/extension.py:77-83 | a falsy `copy_folder` runs in place at the source; otherwise the path is `<extensions_folder>/<category>/<id>` |
| Expansion.MarkSiblingsIdempotent | sonic_engine/core/extension.py:70 | writing the sibling ids twice is writing them once, also when the loop stopped at a None entry |
| Expansion.FirstNullAt | sonic_engine/core/extension.py:59-75 | the first None entry is the one every earlier entry precedes |
| Expansion.MarkedUntilNullAt | sonic_engine/core/extension.py:59-75 | the entries before the first None entry are marked, the others are as they were |
| Expansion.MarkedNulls | sonic_engine/core/extension.py:70 | marking neither creates nor removes a None entry |
| Expansion.ExpandedMarked | sonic_engine/core/extension.py:70-74 | the written ids do not change the instances built from the entries |
| Expansion.SiblingKeysMarked | sonic_engine/core/extension.py:70 | the written ids do not change the sibling keys |
| Expansion.ExpandAgain | sonic_engine/core/extension.py:70 | building the list again from the mutated declaration gives the same list, or raises again |
| Expansion.FanOutSpec | sonic_engine/core/extension.py:26-41 | no contract of its own: the install loop over the instances with the clone as written; `FanOutEntries` and `FanOutAborted` state its results |
| Expansion.FanOutEntries | sonic_engine/core/extension.py:32-41 | a completed `install` returns one entry per instance, in order: None for a failed transfer, otherwise the final configuration at the instance's path |
| Expansion.FanOutAborted | sonic_engine/core/extension.py:36-39 | the loop stops early only on exit code 1 or an exception |
| Expansion.FanOutStep | sonic_engine/core/extension.py:36-39 | one loop iteration moves one instance's result to the list |
| Expansion.OverrideStep | sonic_engine/core/extension.py:59-75 | one mapping entry before any None entry extends the instance list and the marked map by that entry |
| Expansion.NullStops | sonic_engine/core/extension.py:59-75 | at the first None entry the loop raises, with the entries before it marked |
| Expansion.PrependAllEmpty | sonic_engine/core/extension.py:34 | the loop starts with an empty result list |
| Expansion.PrependAllStep | sonic_engine/core/extension.py:39 | appending one result at a time builds the list in order |
| Expansion.ExtensionHandler.constructor | sonic_engine/core/extension.py:15-24 | the handler holds the folder, the policy and the declaration |
| Expansion.ExtensionHandler.CreateInstancesList | sonic_engine/core/extension.py:43-87 | computes exactly `Expand`, None where it raises, and writes the sibling ids it reached into the declaration |
| Expansion.ExtensionHandler.ApplyOverrides | sonic_engine/core/extension.py:51-75 | the override phase gives the unresolved instances and the marked declaration |
| Expansion.ExtensionHandler.OverrideEntries | sonic_engine/core/extension.py:58-75 | the override loop computes `Expanded` and `MarkedUntilNull`: a None entry stops it with the entries before it marked |
| Expansion.ExtensionHandler.ResolvePaths | sonic_engine/core/extension.py:77-83 | the path loop computes `ResolveAll`, stopping at the first instance whose path cannot be joined |
| Expansion.ExtensionHandler.Install | sonic_engine/core/extension.py:26-41 | installs the expanded instances in order on one machine, computing exactly `FanOutSpec`, or raises without touching the machine when the list cannot be built |
| Expansion.ExtensionHandler.InstallAll | sonic_engine/core/extension.py:34-41 | the install loop runs a fresh instance handler per instance on the shared machine and computes exactly `FanOutSpec` |
| Supervision.Index | sonic_engine/core/yapsy_methods.py:37 | `list.index` finds the first occurrence and fails exactly when the value is absent |
| Supervision.FromEnd | sonic_engine/core/yapsy_methods.py:26 | negative indexing fails exactly on a list that is too short |
| Supervision.PluginName | sonic_engine/core/yapsy_methods.py:51-62 | the name is a component of the path, and exists exactly when the path holds a '/' |
| Supervision.PluginCategory | sonic_engine/core/yapsy_methods.py:25-26 | the category is a component of the path, and exists only where the name does |
| Supervision.SplitHasTwoPieces | sonic_engine/core/yapsy_methods.py:62 | a path has two components or more exactly when it holds a '/' |
| Supervision.OccurrencesPositive | sonic_engine/core/yapsy_methods.py:62 | a character occurs in a string exactly when it is counted there |
| Supervision.LookupKey | sonic_engine/core/yapsy_methods.py:36-40 | the lookup key exists exactly when the extensions folder is a component of the plugin path |
| Supervision.MatchConfig | sonic_engine/core/yapsy_methods.py:43-49 | no contract of its own: one configuration's test; `InPlaceConfigMatches`, `CopyConfigMatches` and `SearchFirstMatch` state it |
| Supervision.Search | sonic_engine/core/yapsy_methods.py:42-49 | a found configuration is one of the instances' configurations |
| Supervision.GetPluginConfigAsWritten | sonic_engine/core/yapsy_methods.py:32-49 | as written, a plugin path without the extensions folder raises |
| Supervision.GetPluginConfig | sonic_engine/core/yapsy_methods.py:32-49 | the intended lookup agrees with the code as written whenever the folder is a component of the path |
| Supervision.SearchFirstMatch | sonic_engine/core/yapsy_methods.py:42-49 | the first matching configuration in list order is returned, one is found whenever one matches, and None is returned exactly when every entry is present and none matches |
| Supervision.CopyPathComponents | sonic_engine/core/yapsy_methods.py:36 | the plugin path of a copied instance splits into folder, category, id and "." |
| Supervision.CopyPluginKey | sonic_engine/core/yapsy_methods.py:36-40 | a copied instance's plugin is keyed by exactly the instance's path, and named and categorised by its id and category |
| Supervision.CopyConfigMatches | sonic_engine/core/yapsy_methods.py:47-49 | a copied instance matches its own plugin |
| Supervision.InPlaceConfigMatches | sonic_engine/core/yapsy_methods.py:43-46 | an in-place instance matches the plugin reported in its own directory |
| Supervision.InPlaceOutsideFolder | sonic_engine/core/yapsy_methods.py:36-46 | an in-place instance outside the extensions folder makes the lookup raise as written, while the intended lookup finds it |
| Supervision.SendConfigs | sonic_engine/core/yapsy_methods.py:78-81 | the plugin receives one more message: its configuration and "Loaded <name>" |
| Supervision.ActivateWith | sonic_engine/core/yapsy_methods.py:85-95 | no contract of its own: one plugin's activation given the lookup's outcome |
| Supervision.ActivateOne | sonic_engine/core/yapsy_methods.py:83-95 | no contract of its own: one plugin's activation with the lookup as written; `ActivateOneEffect` states it |
| Supervision.ActivateOneIntended | sonic_engine/core/yapsy_methods.py:83-95 | no contract of its own: one plugin's activation with the intended lookup; `ActivateOneIntendedEffect` states it |
| Supervision.ActivateOneEffect | sonic_engine/core/yapsy_methods.py:83-95 | an active plugin is untouched; an inactive one outside the extensions folder raises; otherwise it is named and categorised after its first matching configuration, activated and sent it with "Loaded <id>"; a failed lookup raises |
| Supervision.ActivateOneIntendedEffect | sonic_engine/core/yapsy_methods.py:83-95 | with the intended lookup: the same effect, with no raise for want of the extensions folder |
| Supervision.ActivateAgree | sonic_engine/core/yapsy_methods.py:36-49 | the activation as written and as intended agree on every plugin under the extensions folder |
| Supervision.ActivateOutsideFolder | sonic_engine/core/yapsy_methods.py:36-46 | the inactive plugin of an in-place instance outside the extensions folder raises as written and is activated as intended |
| Supervision.Killed | sonic_engine/core/yapsy_methods.py:111-114 | deactivation keeps one record per plugin |
| Supervision.Alive | sonic_engine/core/yapsy_methods.py:102-109 | the count of active plugins is 0 exactly when none is active, and the total exactly when all are |
| Supervision.KilledNoneAlive | sonic_engine/core/yapsy_methods.py:111-114 | after `killAll` nothing is alive, and only the flags changed |
| Supervision.KillIdempotent | sonic_engine/core/yapsy_methods.py:111-114 | a second `killAll` changes nothing |
| Supervision.ActivationAlive | sonic_engine/core/yapsy_methods.py:83-95 | a complete activation leaves every plugin alive and never lowers the count |
| Supervision.YapsyHandler.constructor | sonic_engine/core/yapsy_methods.py:15-23 | the handler holds the folder and the configurations, without a runtime |
| Supervision.YapsyHandler.PluginsLocation | sonic_engine/core/yapsy_methods.py:28-30 | one path per configuration, in list order; an absent configuration raises |
| Supervision.YapsyHandler.CreateManager | sonic_engine/core/yapsy_methods.py:64-76 | the runtime is created once over the instances' paths; a second call changes nothing |
| Supervision.YapsyHandler.ActivatePlugins | sonic_engine/core/yapsy_methods.py:83-95 | every plugin is activated as `ActivateOne` says, with the lookup as written, and when a lookup fails the plugins from there on stay untouched |
| Supervision.YapsyHandler.RunAll | sonic_engine/core/yapsy_methods.py:97-100 | creating the runtime, taking the discovered plugins and activating them all |
| Supervision.YapsyHandler.CountAlive | sonic_engine/core/yapsy_methods.py:102-109 | the number of active plugins, once a runtime exists |
| Supervision.YapsyHandler.KillAll | sonic_engine/core/yapsy_methods.py:111-114 | every plugin is deactivated, so the count is 0 afterwards |

## Left out

- Logging (`sef_logger`, every `logger` call) and `timestamp()`: these produce no state that the orchestration reads.
- The engine's host loop (sonic_engine/core/engine.py), the redis client, the Flask server, the logger module and packaging. These are I/O glue, network and threads. Only their calls into `ExtensionHandler.install` and `YapsyHandler` matter, and those are modelled.
- YAML parsing: what a local `config.yaml` parses to is an oracle (`EngineUtil.LocalFile`).
- `subprocess.run`: git, virtualenv and pip have return codes from an oracle, and what a clone brings is an oracle.
- The platform name and the interpreter version are oracles.
- File contents other than the generated texts are not modelled; the file system is a set of paths.
- The yapsy runtime: plugin discovery (`collectPlugins`) is a parameter of `RunAll`, and process spawning and the pipes are left out. The pipe is represented by the messages a plugin record received.
- Supervision.ActivateOne: assumes that `activate()` sets the plugin's activation flag, as the plugin base class does; the plugin class is not part of this model.
- Records.Declaration: `id`, `category`, `source` and `extensions_folder` are plain strings and a declaration always has known keys only, so two declarations the wrapper accepts are not represented: one naming a field with null (which then raises at `os.path.join` when the paths are resolved, or at `os.path.exists(None)` in `install`), and one with an unknown key (whose swallowed TypeError leaves no instance fields, so `pop("override")` raises KeyError in `_create_instances_list`).
- Records.Truthy: `copy_folder` and `replace_existing` are `Option<bool>`, so a truthy value that is not a boolean, and the difference between `is True` and truthiness for such values, are not represented.
- Artifacts.PyStrOrList: the `repr` of a list quotes its items without escaping quotes or backslashes inside them.
- The records model of construction (`Records.Construct`) and the generic wrapper model (`Dataclass.Construct` with `Schemas`) are separate; `Schemas.GlobalConfigDefaults` and `Schemas.GlobalConfigUnknownKey` connect them for the instance configuration only.
- Supervision.YapsyHandler.KillAll: assumes that `deactivate()` clears the plugin's activation flag, as the plugin base class does. The plugin class itself is not part of this model.
- Provisioning.RemoveSpec: a failing `rmtree` (which ends the engine with code 1) is not modelled; removal always succeeds.
- The Windows path separator: paths are POSIX throughout, so `_getPluginConfig` on Windows (which splits on `os.path.sep`) is not modelled.
- Supervision.YapsyHandler.PluginsLocation: a configuration without a path is passed on as None; what the runtime then does with it is not modelled.
- The role-specific classes `FeatureConfig`, `InferenceConfig` and `ReportingConfig` and their channel classes: they share the shape of `ExtensionConfig`, so only that shape is modelled.
- The `AppConfig` and `AppConfigCategory` records are not modelled; they are only read by the engine loop.
- Logging levels are a datatype, but the literal-type restriction on `LogConfig.level` is not enforced by the code and is not modelled as a check.

## Findings

| source | as written | input that shows it | evidently intended | confidence | as-written member | corrected member |
|---|---|---|---|---|---|---|
| sonic_engine/core/extension_instance.py:151 | `subprocess.run(..., check=True)` raises `CalledProcessError` on a non-zero return code, so the `returncode != 0` branch of `install` (lines 70-74) is never reached for a clone and the exception escapes | a remote source whose `git clone` exits with 128 | a failed clone is logged and `install` returns None, like a failed copy, as the failure test of `install` expects | high, not executed | Provisioning.CloneSpecAsWritten | Provisioning.CloneSpec |
| sonic_engine/core/yapsy_methods.py:36-40 | the lookup key is computed with `path_components.index(self.extensions_folder)` before the loop, so a plugin whose path has no such component raises `ValueError`, even though in-place instances are compared by normalised path and need no key | an instance with `copy_folder: false` and source `/src/ext`, extensions folder `extensions`, plugin path `/src/ext/.` | the key matters only to copied instances; in-place instances are found by their path | medium, not executed | Supervision.GetPluginConfigAsWritten | Supervision.GetPluginConfig |
| sonic_engine/core/extension_instance.py:146-151 | the git command is formatted into one string and split on single spaces, so a source, branch or path with a space becomes several arguments | instance path `ext/my ext` gives `["git", "clone", source, "ext/my", "ext"]` | one argument per value: `git clone [-b branch] source path` | medium, not executed | Artifacts.GitArgsAsWritten | Artifacts.GitArgs |
