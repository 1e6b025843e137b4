/**
 * Provisioning of one extension instance (`ExtensionInstanceHandler` in
 * sonic_engine/core/extension_instance.py): the skip-or-replace decision for an
 * existing folder, cloning or copying the sources, loading the instance's own
 * `config.yaml`, the virtual environment, the requirements and the two
 * generated files.
 *
 * The machine is modelled by a `Host`: the file system as the set of existing
 * paths, standard input as the lines still to be read, and a trace of the
 * effects in the order they happen. Return codes of commands, what a clone
 * brings, what a local `config.yaml` parses to, the platform and the running
 * interpreter's version are oracles fixed for a run. Each step is a pure
 * function on that state; the handler's methods are proved to compute exactly
 * those functions, and the lemmas at the end state the properties of the
 * whole installation.
 */
module Provisioning {
  import opened Wrappers
  import opened Records
  import Paths
  import EngineUtil
  import Artifacts

  /** An effect on the machine, in the order it happens */
  datatype Event =
    | Removed(path: string)
    | Cloned(argv: seq<string>, code: int)
    | Copied(source: string, target: string)
    | LoadedLocal(file: string)
    | CreatedVenv(argv: seq<string>, code: int)
    | InstalledRequirements(argv: seq<string>, code: int)
    | Wrote(file: string, text: string)

  /** How the installation of an instance ends */
  datatype InstallResult =
    | Installed(config: GlobalConfig)  // `install` returns the (updated) configuration
    | Failed                           // clone or copy failed: `install` returns None
    | Exit(code: int)                  // `stop_engine(code)`: the whole engine stops
    | Raised                           // an exception escapes `install`

  /** A step either goes on with a value or ends the installation */
  datatype Flow<T> = Next(value: T) | Stop(result: InstallResult)

  /** The file system, what standard input still holds, and the effects so far */
  datatype World = World(paths: set<string>, input: seq<string>, trace: seq<Event>)

  /** What the environment answers, fixed for a run */
  datatype Oracles = Oracles(
    platform: Artifacts.Platform,
    version: (nat, nat),
    exitCode: seq<string> -> int,              // return code of each command
    repoFiles: string -> set<string>,          // what a clone of a URL holds, relative to its root
    localFile: string -> EngineUtil.LocalFile) // what an existing `config.yaml` parses to

  /** The state after one step */
  datatype Step<T> = Step(world: World, config: GlobalConfig, flow: Flow<T>)

  /** The state after the whole installation */
  datatype Outcome = Outcome(world: World, config: GlobalConfig, result: InstallResult)

  /** What the steps that touch the instance folder need: the post-init defaults and a path */
  predicate Ready(c: GlobalConfig) {
    Initialized(c) && c.path.Some?
  }

  /** Which `_clone` an installation runs: the code as written, or the evidently intended one */
  datatype Variant = AsWritten | Intended

  // ---------------------------------------------------------------------------
  // The file system

  /** `q` is `p` or lies below it */
  predicate Under(q: string, p: string) {
    q == p || Artifacts.StartsWith(q, p + "/")
  }

  /** After `shutil.rmtree(p)` */
  function Without(paths: set<string>, p: string): (r: set<string>)
    ensures r <= paths && p !in r
    ensures forall q :: q in paths && !Under(q, p) ==> q in r
    ensures forall q :: q in paths && Under(q, p) ==> q !in r
  {
    set q | q in paths && !Under(q, p)
  }

  /** What `shutil.copytree(src, dst)` adds: the tree below `src`, moved below `dst` */
  function CopyOf(paths: set<string>, src: string, dst: string): (r: set<string>)
    ensures src in paths ==> dst in r
  {
    assert src in paths ==> Under(src, src) && dst + src[|src|..] == dst;
    set q | q in paths && Under(q, src) :: dst + q[|src|..]
  }

  /** What a successful clone into `path` adds */
  function ClonedTree(path: string, files: set<string>): (r: set<string>)
    ensures path in r
  {
    {path} + set f | f in files :: Paths.Join(path, f)
  }

  /** The local configuration file of an instance */
  function ConfigFile(c: GlobalConfig): string
    requires c.path.Some?
  {
    Paths.Join(c.path.value, "config.yaml")
  }

  // ---------------------------------------------------------------------------
  // The steps, as functions of the state

  /** `engine_util.remove_folder(path)` */
  function RemoveSpec(w: World, p: string): (r: World)
    ensures p !in r.paths && r.paths <= w.paths && r.input == w.input
  {
    w.(paths := Without(w.paths, p), trace := w.trace + [Removed(p)])
  }

  /** The index of the first line that is "y" or "n" */
  function FirstAnswer(input: seq<string>): (k: Option<nat>)
    ensures k.Some? ==> k.value < |input| && input[k.value] in {"y", "n"}
    ensures k.Some? ==> forall j :: 0 <= j < k.value ==> input[j] !in {"y", "n"}
    ensures k.None? ==> forall j :: 0 <= j < |input| ==> input[j] !in {"y", "n"}
  {
    if input == [] then None
    else if input[0] in {"y", "n"} then Some(0)
    else match FirstAnswer(input[1..])
      case None => None
      case Some(k) => Some(k + 1)
  }

  /**
   * `_ask_user`: only when the folder exists and is not the source itself,
   * read lines until one is "y" or "n" (end of input raises EOFError); "y"
   * removes the folder and proceeds, "n" skips. The value is "skip". A None
   * path makes `os.path.exists` raise.
   */
  function AskSpec(w: World, c: GlobalConfig): (r: Step<bool>)
    requires Initialized(c)
    ensures r.config == c
    ensures c.path.None? ==> r == Step(w, c, Stop(Raised))
    ensures c.path.Some? ==> r.world.paths == w.paths || r.world.paths == Without(w.paths, c.path.value)
    ensures r.flow.Stop? ==> r.flow.result == Raised
    ensures c.path.Some? && !(c.path.value in w.paths && c.path != c.source) ==> r == Step(w, c, Next(false))
    ensures c.path.Some? && c.path.value in w.paths && c.path != c.source ==>
      match FirstAnswer(w.input)
      case None => r == Step(w.(input := []), c, Stop(Raised))
      case Some(k) =>
        && r.world.input == w.input[k + 1..]
        && r.flow == Next(w.input[k] == "n")
        && r.world.paths == (if w.input[k] == "y" then Without(w.paths, c.path.value) else w.paths)
  {
    if c.path.None? then Step(w, c, Stop(Raised)) else
    var path := c.path.value;
    if path in w.paths && Some(path) != c.source then
      match FirstAnswer(w.input)
      case None => Step(w.(input := []), c, Stop(Raised))
      case Some(k) =>
        var rest := w.(input := w.input[k + 1..]);
        if w.input[k] == "y" then Step(RemoveSpec(rest, path), c, Next(false))
        else Step(rest, c, Next(true))
    else Step(w, c, Next(false))
  }

  /**
   * `_should_skip_existing_folder` under the tri-state `replace_existing`:
   * True removes an existing folder only when `copy_folder is True` and
   * proceeds (an absent folder makes it return None, which proceeds too);
   * False always skips; None asks. Only skipping gets past a None path.
   */
  function Decide(policy: Option<bool>, w: World, c: GlobalConfig): (r: Step<bool>)
    requires Initialized(c)
    ensures r.config == c
    ensures c.path.None? ==> r == Step(w, c, if policy == Some(false) then Next(true) else Stop(Raised))
    ensures c.path.Some? ==> r.world.paths == w.paths || r.world.paths == Without(w.paths, c.path.value)
    ensures r.flow.Stop? ==> r.flow.result == Raised
  {
    match policy
    case Some(true) =>
      if c.path.None? then Step(w, c, Stop(Raised)) else
      var path := c.path.value;
      if path in w.paths && c.copyFolder == Some(true) then Step(RemoveSpec(w, path), c, Next(false))
      else Step(w, c, Next(false))
    case Some(false) => Step(w, c, Next(true))
    case None => AskSpec(w, c)
  }

  /**
   * `_clone`, as intended: the token rewrite of `source` (kept in the
   * configuration), `git clone [-b branch] source path` as an argument list,
   * and a non-zero return code reported as a failed transfer.
   */
  function CloneSpec(o: Oracles, w: World, c: GlobalConfig): (r: Step<()>)
    requires Ready(c) && c.source.Some?
    ensures Ready(r.config) && r.config == c.(source := Some(Artifacts.AuthenticatedSource(c.source.value, c.token)))
    ensures r.flow.Stop? ==> r.flow.result == Failed
    ensures r.flow.Stop? <==> o.exitCode(Artifacts.GitArgs(r.config.source.value, c.branch, c.path.value)) != 0
    ensures r.world.trace == w.trace + [Cloned(Artifacts.GitArgs(r.config.source.value, c.branch, c.path.value), o.exitCode(Artifacts.GitArgs(r.config.source.value, c.branch, c.path.value)))]
    ensures w.paths <= r.world.paths
  {
    var source := Artifacts.AuthenticatedSource(c.source.value, c.token);
    var argv := Artifacts.GitArgs(source, c.branch, c.path.value);
    var code := o.exitCode(argv);
    var logged := w.(trace := w.trace + [Cloned(argv, code)]);
    var c' := c.(source := Some(source));
    if code == 0 then Step(logged.(paths := w.paths + ClonedTree(c.path.value, o.repoFiles(source))), c', Next(()))
    else Step(logged, c', Stop(Failed))
  }

  /**
   * `_clone` as written: the argument list is the formatted command line split
   * at every ' ', and `subprocess.run(..., check=True)` raises
   * CalledProcessError on a non-zero return code before `install` can test it.
   */
  function CloneSpecAsWritten(o: Oracles, w: World, c: GlobalConfig): (r: Step<()>)
    requires Ready(c) && c.source.Some?
    ensures Ready(r.config) && r.config == c.(source := Some(Artifacts.AuthenticatedSource(c.source.value, c.token)))
    ensures r.flow.Stop? ==> r.flow.result == Raised
    ensures r.flow.Stop? <==> o.exitCode(Artifacts.GitArgsAsWritten(r.config.source.value, c.branch, c.path.value)) != 0
    ensures r.world.trace == w.trace + [Cloned(Artifacts.GitArgsAsWritten(r.config.source.value, c.branch, c.path.value), o.exitCode(Artifacts.GitArgsAsWritten(r.config.source.value, c.branch, c.path.value)))]
    ensures w.paths <= r.world.paths
  {
    var source := Artifacts.AuthenticatedSource(c.source.value, c.token);
    var argv := Artifacts.GitArgsAsWritten(source, c.branch, c.path.value);
    var code := o.exitCode(argv);
    var logged := w.(trace := w.trace + [Cloned(argv, code)]);
    var c' := c.(source := Some(source));
    if code == 0 then Step(logged.(paths := w.paths + ClonedTree(c.path.value, o.repoFiles(source))), c', Next(()))
    else Step(logged, c', Stop(Raised))
  }

  /** `_copy`: `shutil.copytree(source, path)`, which fails when the source is missing or the target exists */
  function CopySpec(w: World, c: GlobalConfig): (r: Step<()>)
    requires Ready(c) && c.source.Some?
    ensures r.config == c
    ensures r.flow.Stop? <==> c.source.value !in w.paths || c.path.value in w.paths
    ensures r.flow.Stop? ==> r.flow.result == Failed && r.world == w
    ensures w.paths <= r.world.paths
  {
    var source, path := c.source.value, c.path.value;
    if source in w.paths && path !in w.paths then
      Step(w.(paths := w.paths + CopyOf(w.paths, source, path), trace := w.trace + [Copied(source, path)]), c, Next(()))
    else Step(w, c, Stop(Failed))
  }

  /** The clone of the given variant */
  function CloneBy(v: Variant, o: Oracles, w: World, c: GlobalConfig): (r: Step<()>)
    requires Ready(c) && c.source.Some?
  {
    if v.AsWritten? then CloneSpecAsWritten(o, w, c) else CloneSpec(o, w, c)
  }

  /**
   * Clone when the source is no local path, use it in place when
   * `copy_folder` is falsy, copy otherwise. A failed copy, and a failed clone
   * as intended, end as a failed transfer; a failed clone as written raises.
   */
  function MaterialiseSpec(v: Variant, o: Oracles, w: World, c: GlobalConfig): (r: Step<()>)
    requires Ready(c) && c.source.Some?
    ensures Ready(r.config) && r.config.path == c.path
    ensures r.flow.Stop? ==> r.flow.result == if v.AsWritten? && c.source.value !in w.paths then Raised else Failed
    ensures w.paths <= r.world.paths
  {
    if c.source.value !in w.paths then CloneBy(v, o, w, c)
    else if !Truthy(c.copyFolder) then Step(w, c, Next(()))
    else CopySpec(w, c)
  }

  /**
   * `_load_local_configs`: `load_config` on `<path>/config.yaml` with the
   * current configuration as override; the result replaces the configuration
   * and gets the old path back. An exception is logged and keeps the
   * configuration; `stop_engine` is not an exception and ends the engine. A
   * None path makes `os.path.join` raise inside the `try`: nothing happens.
   */
  function LoadLocalSpec(o: Oracles, w: World, c: GlobalConfig): (r: Step<()>)
    requires Initialized(c)
    ensures Initialized(r.config) && r.config.path == c.path
    ensures c.path.None? ==> r == Step(w, c, Next(()))
    ensures c.path.Some? ==> r.world == w.(trace := w.trace + [LoadedLocal(ConfigFile(c))])
    ensures r.flow.Stop? ==> r.flow.result == Exit(1)
    ensures c.path.Some? ==>
      var loaded := EngineUtil.LoadConfig(LocalFileAt(o, w, c), c);
      && (r.flow.Stop? <==> loaded.Exit?)
      && r.config == (if loaded.Loaded? then loaded.config.(path := c.path) else c)
    ensures c.path.Some? && ConfigFile(c) !in w.paths ==> r.flow == Stop(Exit(1)) && r.config == c
  {
    if c.path.None? then Step(w, c, Next(())) else
    var file := ConfigFile(c);
    var local := LocalFileAt(o, w, c);
    var logged := w.(trace := w.trace + [LoadedLocal(file)]);
    match EngineUtil.LoadConfig(local, c)
    case Exit(code) => Step(logged, c, Stop(Exit(code)))
    case Raised => Step(logged, c, Next(()))
    case Loaded(n) => Step(logged, n.(path := c.path), Next(()))
  }

  /** What reading `<path>/config.yaml` yields: Absent when no such file exists */
  function LocalFileAt(o: Oracles, w: World, c: GlobalConfig): (f: EngineUtil.LocalFile)
    requires c.path.Some?
    ensures ConfigFile(c) !in w.paths ==> f.Absent?
  {
    if ConfigFile(c) in w.paths then o.localFile(ConfigFile(c)) else EngineUtil.Absent
  }

  /** A local file never changes the source the declaration gives. */
  lemma LoadedKeepsSource(local: EngineUtil.LocalFile, c: GlobalConfig)
    requires Initialized(c) && c.source.Some? && EngineUtil.LoadConfig(local, c).Loaded?
    ensures EngineUtil.LoadConfig(local, c).config.source == c.source
  {
    EngineUtil.LoadConfigKeepsDeclaration(local, c, 13);
  }

  /** The arguments of the virtual environment creation */
  function VenvArgs(c: GlobalConfig): seq<string>
    requires c.path.Some?
  {
    ["python", "-m", "virtualenv", Artifacts.VenvPath(c.path.value)]
  }

  /**
   * `_create_venv`: create `<path>/.venv` unless it exists (a failure is
   * logged), then the interpreter inside it; an unsupported platform stops
   * the engine, after the environment was created.
   */
  function VenvSpec(o: Oracles, w: World, c: GlobalConfig): (r: Step<string>)
    requires Ready(c)
    ensures r.config == c
    ensures r.flow.Next? <==> !o.platform.OtherPlatform?
    ensures r.flow.Next? ==> Some(r.flow.value) == Artifacts.InterpreterPath(o.platform, c.path.value)
    ensures r.flow.Stop? ==> r.flow.result == Exit(1)
    ensures w.paths <= r.world.paths
  {
    var venv := Artifacts.VenvPath(c.path.value);
    var w' := if venv in w.paths then w
      else
        var code := o.exitCode(VenvArgs(c));
        w.(paths := if code == 0 then w.paths + {venv} else w.paths,
           trace := w.trace + [CreatedVenv(VenvArgs(c), code)]);
    match Artifacts.InterpreterPath(o.platform, c.path.value)
    case None => Step(w', c, Stop(Exit(1)))
    case Some(bin) => Step(w', c, Next(bin))
  }

  /** The arguments of the requirements installation */
  function PipArgs(bin: string, file: string): seq<string> {
    [bin, "-m", "pip", "install", "-r", file]
  }

  /**
   * `_install_requirements(python_bin)`: `pip install -r <path>/<requirements>`
   * with the given interpreter (a failure is logged); a missing file stops the
   * engine; a `requirements` that is None or a list makes `os.path.join` raise.
   */
  function RequirementsSpec(o: Oracles, w: World, c: GlobalConfig, bin: string): (r: Step<()>)
    requires Ready(c)
    ensures r.config == c
    ensures r.flow.Stop? ==> r.flow.result in {Exit(1), Raised}
    ensures r.world.paths == w.paths
    ensures !(c.requirements.Some? && c.requirements.value.Text?) ==> r == Step(w, c, Stop(Raised))
    ensures c.requirements.Some? && c.requirements.value.Text? ==>
      var file := Paths.Join(c.path.value, c.requirements.value.text);
      && (r.flow.Stop? <==> file !in w.paths)
      && (file !in w.paths ==> r == Step(w, c, Stop(Exit(1))))
      && (file in w.paths ==> r.world.trace == w.trace + [InstalledRequirements(PipArgs(bin, file), o.exitCode(PipArgs(bin, file)))])
  {
    match c.requirements
    case Some(Text(req)) =>
      var file := Paths.Join(c.path.value, req);
      if file in w.paths then
        var code := o.exitCode(PipArgs(bin, file));
        Step(w.(trace := w.trace + [InstalledRequirements(PipArgs(bin, file), code)]), c, Next(()))
      else Step(w, c, Stop(Exit(1)))
    case _ => Step(w, c, Stop(Raised))
  }

  /** `open(os.path.join(dir, name), "w").write(text)`: FileNotFoundError when the directory is missing */
  function WriteSpec(w: World, dir: string, name: string, text: string): (r: (World, bool))
    ensures r.1 <==> dir in w.paths
    ensures r.1 ==> Paths.Join(dir, name) in r.0.paths && r.0.trace == w.trace + [Wrote(Paths.Join(dir, name), text)]
    ensures !r.1 ==> r.0 == w
    ensures w.paths <= r.0.paths
  {
    var file := Paths.Join(dir, name);
    if dir in w.paths then (w.(paths := w.paths + {file}, trace := w.trace + [Wrote(file, text)]), true)
    else (w, false)
  }

  /** `_write_init_file`: an unsupported platform stops the engine before anything is written */
  function WriteInitSpec(o: Oracles, w: World, c: GlobalConfig): (r: Step<()>)
    requires Ready(c)
    ensures r.config == c
    ensures r.flow.Stop? ==> r.flow.result in {Exit(1), Raised}
    ensures w.paths <= r.world.paths
  {
    match Artifacts.InitText(o.platform, o.version)
    case None => Step(w, c, Stop(Exit(1)))
    case Some(text) =>
      var (w', ok) := WriteSpec(w, c.path.value, "__init__.py", text);
      Step(w', c, if ok then Next(()) else Stop(Raised))
  }

  /** `_write_yapsy_plugin_file` */
  function WritePluginSpec(w: World, c: GlobalConfig): (r: Step<()>)
    requires Ready(c)
    ensures r.config == c
    ensures r.flow.Stop? ==> r.flow.result == Raised
    ensures w.paths <= r.world.paths
  {
    var (w', ok) := WriteSpec(w, c.path.value, "main.yapsy-plugin", Artifacts.PluginText(c));
    Step(w', c, if ok then Next(()) else Stop(Raised))
  }

  /** The steps after a successful transfer: local configs, venv, requirements, init file, plugin file */
  function Provision(o: Oracles, w: World, c: GlobalConfig): (r: Outcome)
    requires Ready(c)
    ensures Ready(r.config) && r.config.path == c.path
    ensures !r.result.Failed? && (r.result.Exit? ==> r.result.code == 1)
    ensures w.paths <= r.world.paths
    ensures r.result.Installed? ==> r.result.config == r.config
  {
    var l := LoadLocalSpec(o, w, c);
    if l.flow.Stop? then Outcome(l.world, l.config, l.flow.result) else
    var v := VenvSpec(o, l.world, l.config);
    if v.flow.Stop? then Outcome(v.world, v.config, v.flow.result) else
    var q := RequirementsSpec(o, v.world, v.config, v.flow.value);
    if q.flow.Stop? then Outcome(q.world, q.config, q.flow.result) else
    var i := WriteInitSpec(o, q.world, q.config);
    if i.flow.Stop? then Outcome(i.world, i.config, i.flow.result) else
    var p := WritePluginSpec(i.world, i.config);
    if p.flow.Stop? then Outcome(p.world, p.config, p.flow.result) else
    Outcome(p.world, p.config, Installed(p.config))
  }

  /**
   * `install`: decide, then either load the local configs of a skipped folder
   * or transfer and provision; a None source makes `os.path.exists` raise
   * before the transfer.
   */
  function InstallSpec(v: Variant, o: Oracles, policy: Option<bool>, w: World, c: GlobalConfig): (r: Outcome)
    requires Initialized(c)
    ensures Initialized(r.config) && r.config.path == c.path
    ensures r.result.Installed? ==> r.result.config == r.config
    ensures r.result.Exit? ==> r.result.code == 1
    ensures Decide(policy, w, c).flow.Stop? ==> r == Outcome(Decide(policy, w, c).world, c, Raised)
    ensures Decide(policy, w, c).flow == Next(false) && c.source.None? ==>
      r == Outcome(Decide(policy, w, c).world, c, Raised)
  {
    var d := Decide(policy, w, c);
    if d.flow.Stop? then Outcome(d.world, d.config, d.flow.result)
    else if d.flow.value then
      var l := LoadLocalSpec(o, d.world, d.config);
      Outcome(l.world, l.config, if l.flow.Stop? then l.flow.result else Installed(l.config))
    else if d.config.source.None? then Outcome(d.world, d.config, Raised)
    else
      var m := MaterialiseSpec(v, o, d.world, d.config);
      if m.flow.Stop? then Outcome(m.world, m.config, m.flow.result)
      else Provision(o, m.world, m.config)
  }

  // ---------------------------------------------------------------------------
  // The machine and the handler

  /** The file system, standard input and the effect trace, with the oracles of the run */
  class Host {
    var paths: set<string>
    var input: seq<string>
    var trace: seq<Event>
    const oracles: Oracles

    function Snapshot(): World
      reads this
    {
      World(paths, input, trace)
    }

    constructor (w: World, o: Oracles)
      ensures Snapshot() == w && oracles == o
    {
      paths, input, trace := w.paths, w.input, w.trace;
      oracles := o;
    }

    /** `input()`: the next line, or None at end of input */
    method ReadLine() returns (line: Option<string>)
      modifies this
      ensures line == if old(input) == [] then None else Some(old(input)[0])
      ensures Snapshot() == old(Snapshot()).(input := if old(input) == [] then [] else old(input)[1..])
    {
      if input == [] {
        line := None;
      } else {
        line := Some(input[0]);
        input := input[1..];
      }
    }

    /** `subprocess.run(argv)`: the return code */
    method Execute(argv: seq<string>) returns (code: int)
      ensures code == oracles.exitCode(argv)
    {
      code := oracles.exitCode(argv);
    }

    method Log(e: Event)
      modifies this
      ensures Snapshot() == old(Snapshot()).(trace := old(trace) + [e])
    {
      trace := trace + [e];
    }

    method AddPaths(ps: set<string>)
      modifies this
      ensures Snapshot() == old(Snapshot()).(paths := old(paths) + ps)
    {
      paths := paths + ps;
    }

    /** `shutil.rmtree(p)` */
    method RemoveTree(p: string)
      modifies this
      ensures Snapshot() == old(Snapshot()).(paths := Without(old(paths), p))
    {
      paths := Without(paths, p);
    }

    /** `shutil.copytree(src, dst)`: false when it raises */
    method CopyTree(src: string, dst: string) returns (ok: bool)
      modifies this
      ensures ok <==> src in old(paths) && dst !in old(paths)
      ensures Snapshot() == old(Snapshot()).(paths := if ok then old(paths) + CopyOf(old(paths), src, dst) else old(paths))
    {
      ok := src in paths && dst !in paths;
      if ok {
        paths := paths + CopyOf(paths, src, dst);
      }
    }

    /** What `load_config` finds at `file` */
    method ReadLocalConfig(file: string) returns (f: EngineUtil.LocalFile)
      ensures f == if file in paths then oracles.localFile(file) else EngineUtil.Absent
    {
      f := if file in paths then oracles.localFile(file) else EngineUtil.Absent;
    }

    /** Writing `text` to `dir/name`: false when the directory is missing */
    method WriteFile(dir: string, name: string, text: string) returns (ok: bool)
      modifies this
      ensures (Snapshot(), ok) == WriteSpec(old(Snapshot()), dir, name, text)
    {
      ok := dir in paths;
      if ok {
        var file := Paths.Join(dir, name);
        paths := paths + {file};
        trace := trace + [Wrote(file, text)];
      }
    }
  }

  /** `ExtensionInstanceHandler`: one instance configuration and the folder policy */
  class InstanceHandler {
    var config: GlobalConfig
    const replaceExisting: Option<bool>
    const host: Host

    predicate Valid()
      reads this
    {
      Initialized(config)
    }

    constructor (config: GlobalConfig, replaceExisting: Option<bool>, host: Host)
      requires Initialized(config)
      ensures Valid() && this.config == config && this.replaceExisting == replaceExisting && this.host == host
    {
      this.config := config;
      this.replaceExisting := replaceExisting;
      this.host := host;
    }

    /** `engine_util.remove_folder(path)` */
    method RemoveFolder(path: string)
      modifies host
      ensures host.Snapshot() == RemoveSpec(old(host.Snapshot()), path)
    {
      host.RemoveTree(path);
      host.Log(Removed(path));
    }

    method ShouldSkipExistingFolder() returns (f: Flow<bool>)
      requires Valid()
      modifies host
      ensures Step(host.Snapshot(), config, f) == Decide(replaceExisting, old(host.Snapshot()), config)
    {
      if replaceExisting == Some(true) {
        if config.path.None? {
          return Stop(Raised);
        }
        var path := config.path.value;
        if path in host.paths && config.copyFolder == Some(true) {
          RemoveFolder(path);
        }
        f := Next(false);
      } else if replaceExisting == Some(false) {
        f := Next(true);
      } else {
        f := AskUser();
      }
    }

    method AskUser() returns (f: Flow<bool>)
      requires Valid()
      modifies host
      ensures Step(host.Snapshot(), config, f) == AskSpec(old(host.Snapshot()), config)
    {
      if config.path.None? {
        return Stop(Raised);
      }
      var path := config.path.value;
      if !(path in host.paths && Some(path) != config.source) {
        return Next(false);
      }
      ghost var w0 := host.Snapshot();
      var answer := host.ReadLine();
      ghost var n: nat := if answer.Some? then 1 else 0;
      while answer.Some? && answer.value !in {"y", "n"}
        invariant n <= |w0.input|
        invariant host.Snapshot() == w0.(input := w0.input[n..])
        invariant answer.Some? ==> 1 <= n && answer.value == w0.input[n - 1]
        invariant answer.None? ==> n == |w0.input|
        invariant forall j :: 0 <= j < n - 1 ==> w0.input[j] !in {"y", "n"}
        invariant answer.None? ==> forall j :: 0 <= j < n ==> w0.input[j] !in {"y", "n"}
        decreases |host.input|, answer.Some?
      {
        answer := host.ReadLine();
        n := if answer.Some? then n + 1 else n;
      }
      if answer.None? {
        assert FirstAnswer(w0.input).None?;
        return Stop(Raised);
      }
      assert FirstAnswer(w0.input) == Some(n - 1);
      if answer.value == "y" {
        RemoveFolder(path);
        return Next(false);
      }
      return Next(true);
    }

    /** `_clone` as written: the command line split at spaces, and `check=True` raising on a non-zero code */
    method Clone() returns (f: Flow<()>)
      requires Ready(config) && config.source.Some?
      modifies this, host
      ensures Ready(config)
      ensures Step(host.Snapshot(), config, f) == CloneSpecAsWritten(host.oracles, old(host.Snapshot()), old(config))
    {
      if Artifacts.Set(config.token) {
        config := config.(source := Some(Artifacts.AuthenticatedSource(config.source.value, config.token)));
      }
      var argv := Artifacts.GitArgsAsWritten(config.source.value, config.branch, config.path.value);
      var code := host.Execute(argv);
      host.Log(Cloned(argv, code));
      if code == 0 {
        host.AddPaths(ClonedTree(config.path.value, host.oracles.repoFiles(config.source.value)));
        f := Next(());
      } else {
        f := Stop(Raised);  // CalledProcessError
      }
    }

    method Copy() returns (f: Flow<()>)
      requires Ready(config) && config.source.Some?
      modifies host
      ensures Step(host.Snapshot(), config, f) == CopySpec(old(host.Snapshot()), config)
    {
      var ok := host.CopyTree(config.source.value, config.path.value);
      if ok {
        host.Log(Copied(config.source.value, config.path.value));
        f := Next(());
      } else {
        f := Stop(Failed);
      }
    }

    method LoadLocalConfigs() returns (f: Flow<()>)
      requires Valid()
      modifies this, host
      ensures Valid()
      ensures Step(host.Snapshot(), config, f) == LoadLocalSpec(host.oracles, old(host.Snapshot()), old(config))
    {
      if config.path.None? {
        return Next(());  // the TypeError of `os.path.join` is caught and logged
      }
      var instancePath := config.path;
      var file := Paths.Join(config.path.value, "config.yaml");
      var local := host.ReadLocalConfig(file);
      host.Log(LoadedLocal(file));
      var loaded := EngineUtil.LoadConfig(local, config);
      match loaded {
        case Exit(code) =>
          f := Stop(Exit(code));
        case Raised =>
          f := Next(());
        case Loaded(n) =>
          config := n;
          config := config.(path := instancePath);
          f := Next(());
      }
    }

    method CreateVenv() returns (f: Flow<string>)
      requires Ready(config)
      modifies host
      ensures Step(host.Snapshot(), config, f) == VenvSpec(host.oracles, old(host.Snapshot()), config)
    {
      var venv := Artifacts.VenvPath(config.path.value);
      if venv !in host.paths {
        var argv := ["python", "-m", "virtualenv", venv];
        var code := host.Execute(argv);
        if code == 0 {
          host.AddPaths({venv});
        }
        host.Log(CreatedVenv(argv, code));
      }
      var bin := Artifacts.InterpreterPath(host.oracles.platform, config.path.value);
      if bin.None? {
        return Stop(Exit(1));
      }
      f := Next(bin.value);
    }

    method InstallRequirements(bin: string) returns (f: Flow<()>)
      requires Ready(config)
      modifies host
      ensures Step(host.Snapshot(), config, f) == RequirementsSpec(host.oracles, old(host.Snapshot()), config, bin)
    {
      if !(config.requirements.Some? && config.requirements.value.Text?) {
        return Stop(Raised);
      }
      var file := Paths.Join(config.path.value, config.requirements.value.text);
      if file !in host.paths {
        return Stop(Exit(1));
      }
      var argv := [bin, "-m", "pip", "install", "-r", file];
      var code := host.Execute(argv);
      host.Log(InstalledRequirements(argv, code));
      f := Next(());
    }

    method WriteInitFile() returns (f: Flow<()>)
      requires Ready(config)
      modifies host
      ensures Step(host.Snapshot(), config, f) == WriteInitSpec(host.oracles, old(host.Snapshot()), config)
    {
      var text := Artifacts.InitText(host.oracles.platform, host.oracles.version);
      if text.None? {
        return Stop(Exit(1));
      }
      var ok := host.WriteFile(config.path.value, "__init__.py", text.value);
      f := if ok then Next(()) else Stop(Raised);
    }

    method WriteYapsyPluginFile() returns (f: Flow<()>)
      requires Ready(config)
      modifies host
      ensures Step(host.Snapshot(), config, f) == WritePluginSpec(old(host.Snapshot()), config)
    {
      var ok := host.WriteFile(config.path.value, "main.yapsy-plugin", Artifacts.PluginText(config));
      f := if ok then Next(()) else Stop(Raised);
    }

    /** The steps after the transfer, in their fixed order */
    method Provide() returns (r: InstallResult)
      requires Ready(config)
      modifies this, host
      ensures Ready(config)
      ensures Outcome(host.Snapshot(), config, r) == Provision(host.oracles, old(host.Snapshot()), old(config))
    {
      var l := LoadLocalConfigs();
      if l.Stop? {
        return l.result;
      }
      var bin := CreateVenv();
      if bin.Stop? {
        return bin.result;
      }
      var q := InstallRequirements(bin.value);
      if q.Stop? {
        return q.result;
      }
      var i := WriteInitFile();
      if i.Stop? {
        return i.result;
      }
      var p := WriteYapsyPluginFile();
      if p.Stop? {
        return p.result;
      }
      r := Installed(config);
    }

    method Install() returns (r: InstallResult)
      requires Valid()
      modifies this, host
      ensures Valid()
      ensures Outcome(host.Snapshot(), config, r) ==
              InstallSpec(AsWritten, host.oracles, replaceExisting, old(host.Snapshot()), old(config))
    {
      var skip := ShouldSkipExistingFolder();
      if skip.Stop? {
        return skip.result;
      }
      if skip.value {
        var l := LoadLocalConfigs();
        r := if l.Stop? then l.result else Installed(config);
        return;
      }
      if config.source.None? {
        return Raised;  // `os.path.exists(None)`
      }
      var transfer: Flow<()>;
      if config.source.value !in host.paths {
        transfer := Clone();
      } else if !Truthy(config.copyFolder) {
        transfer := Next(());
      } else {
        transfer := Copy();
      }
      if transfer.Stop? {
        return transfer.result;
      }
      r := Provide();
    }
  }

  // ---------------------------------------------------------------------------
  // Properties of the installation

  /** Events of the decision and the transfer, before anything is provisioned */
  predicate Early(e: Event) {
    e.Removed? || e.Cloned? || e.Copied?
  }

  /**
   * Policy False skips even an absent folder: nothing is removed or
   * transferred, only the local configs are loaded, and with a None path
   * not even those.
   */
  lemma SkipPolicy(v: Variant, o: Oracles, w: World, c: GlobalConfig)
    requires Initialized(c)
    ensures var r := InstallSpec(v, o, Some(false), w, c);
      && (c.path.Some? ==> r.world == w.(trace := w.trace + [LoadedLocal(ConfigFile(c))]))
      && (c.path.None? ==> r == Outcome(w, c, Installed(c)))
      && (r.result.Installed? || r.result == Exit(1))
  {
  }

  /**
   * Policy True never skips and never reads input; it removes the folder
   * exactly when it exists and `copy_folder` is True.
   */
  lemma ReplacePolicy(w: World, c: GlobalConfig)
    requires Ready(c)
    ensures var d := Decide(Some(true), w, c);
      && d.flow == Next(false) && d.world.input == w.input
      && (d.world.paths == w.paths <==> !(c.path.value in w.paths && c.copyFolder == Some(true)))
  {
    var d := Decide(Some(true), w, c);
    if c.path.value in w.paths && c.copyFolder == Some(true) {
      assert c.path.value !in d.world.paths;
    }
  }

  /**
   * Policy None reads input only when the folder exists and is not the
   * source; then it consumes the lines up to the first "y" or "n", removes
   * the folder on "y" and skips on "n", and raises when input ends first.
   */
  lemma AskPolicy(w: World, c: GlobalConfig)
    requires Ready(c)
    ensures var d := Decide(None, w, c);
      && (d.world.input == w.input <==> !(c.path.value in w.paths && c.path != c.source) || w.input == [])
      && (d.flow.Stop? <==> c.path.value in w.paths && c.path != c.source && FirstAnswer(w.input).None?)
      && (d.flow == Next(true) <==>
            c.path.value in w.paths && c.path != c.source && FirstAnswer(w.input).Some?
            && w.input[FirstAnswer(w.input).value] == "n")
      && (c.path.value !in d.world.paths <==> c.path.value !in w.paths || d.world.paths != w.paths)
  {
    var path := c.path.value;
    var d := Decide(None, w, c);
    if path in w.paths && c.path != c.source {
      var k := FirstAnswer(w.input);
      if k.Some? {
        assert |w.input[k.value + 1..]| < |w.input|;
        if w.input[k.value] == "y" {
          assert path !in d.world.paths;
        } else {
          assert d.world.paths == w.paths;
        }
      }
    }
  }

  /**
   * The transfer: a source that is no local path is cloned; a local source
   * with a falsy `copy_folder` is used in place and nothing changes; otherwise
   * it is copied, which fails when the target folder exists.
   */
  lemma TransferChoice(v: Variant, o: Oracles, w: World, c: GlobalConfig)
    requires Ready(c) && c.source.Some?
    ensures var m := MaterialiseSpec(v, o, w, c);
      && (c.source.value !in w.paths ==> |m.world.trace| == |w.trace| + 1 && m.world.trace[|w.trace|].Cloned?)
      && (c.source.value in w.paths && !Truthy(c.copyFolder) ==> m == Step(w, c, Next(())))
      && (c.source.value in w.paths && Truthy(c.copyFolder) ==>
            (m.flow.Stop? <==> c.path.value in w.paths)
            && (m.flow.Next? ==> m.world.trace == w.trace + [Copied(c.source.value, c.path.value)]
                                 && c.path.value in m.world.paths))
  {
  }

  /** The decision appends only removals. */
  lemma DecideEarly(policy: Option<bool>, w: World, c: GlobalConfig)
    requires Initialized(c)
    ensures var d := Decide(policy, w, c);
      && |w.trace| <= |d.world.trace| && d.world.trace[..|w.trace|] == w.trace
      && (forall j :: |w.trace| <= j < |d.world.trace| ==> d.world.trace[j].Removed?)
      && (d.flow.Stop? ==> d.flow.result == Raised)
  {
  }

  /**
   * An instance without a source raises at `os.path.exists(source)` unless
   * the existing folder is kept, before anything is transferred or written.
   */
  lemma MissingSourceRaises(v: Variant, o: Oracles, policy: Option<bool>, w: World, c: GlobalConfig)
    requires Initialized(c) && c.source.None?
    ensures InstallSpec(v, o, policy, w, c).result.Raised? || Decide(policy, w, c).flow == Next(true)
    ensures Decide(policy, w, c).flow == Next(false) ==>
      InstallSpec(v, o, policy, w, c) == Outcome(Decide(policy, w, c).world, c, Raised)
  {
  }

  /**
   * A failed clone or copy returns None and nothing after it happens: no
   * local configuration is loaded and no file is written. As intended, a
   * failed clone is such a failure; as written it raises instead.
   */
  lemma FailureStopsEarly(v: Variant, o: Oracles, policy: Option<bool>, w: World, c: GlobalConfig)
    requires Initialized(c)
    ensures var r := InstallSpec(v, o, policy, w, c);
      r.result.Failed? ==>
        && |w.trace| <= |r.world.trace| && r.world.trace[..|w.trace|] == w.trace
        && forall j :: |w.trace| <= j < |r.world.trace| ==> Early(r.world.trace[j])
  {
    var d := Decide(policy, w, c);
    DecideEarly(policy, w, c);
    var r := InstallSpec(v, o, policy, w, c);
    if r.result.Failed? {
      assert d.flow.Next? && !d.flow.value;
      var m := MaterialiseSpec(v, o, d.world, d.config);
      assert m.flow.Stop?;
      assert forall j :: |d.world.trace| <= j < |m.world.trace| ==> m.world.trace[j].Cloned?;
    }
  }

  /** The venv step logs its command exactly when the venv is missing. */
  lemma VenvTrace(o: Oracles, w: World, c: GlobalConfig)
    requires Ready(c)
    ensures var v := VenvSpec(o, w, c);
      v.world.trace == w.trace + if Artifacts.VenvPath(c.path.value) in w.paths then []
        else [CreatedVenv(VenvArgs(c), o.exitCode(VenvArgs(c)))]
  {
  }

  /** A requirements step that goes on logs one pip command run by `bin`. */
  lemma RequirementsTrace(o: Oracles, w: World, c: GlobalConfig, bin: string)
    requires Ready(c)
    ensures var q := RequirementsSpec(o, w, c, bin);
      q.flow.Next? ==>
        && |q.world.trace| == |w.trace| + 1 && q.world.trace == w.trace + [q.world.trace[|w.trace|]]
        && q.world.trace[|w.trace|].InstalledRequirements?
        && |q.world.trace[|w.trace|].argv| >= 1 && q.world.trace[|w.trace|].argv[0] == bin
  {
  }

  /** A write of `__init__.py` that goes on logs the generated text. */
  lemma WriteInitTrace(o: Oracles, w: World, c: GlobalConfig)
    requires Ready(c)
    ensures var i := WriteInitSpec(o, w, c);
      i.flow.Next? ==>
        Artifacts.InitText(o.platform, o.version).Some? &&
        i.world.trace == w.trace + [Wrote(Paths.Join(c.path.value, "__init__.py"), Artifacts.InitText(o.platform, o.version).value)]
  {
  }

  /** A write of the plugin file that goes on logs the plugin text of its configuration. */
  lemma WritePluginTrace(w: World, c: GlobalConfig)
    requires Ready(c)
    ensures var p := WritePluginSpec(w, c);
      p.flow.Next? ==> p.world.trace == w.trace + [Wrote(Paths.Join(c.path.value, "main.yapsy-plugin"), Artifacts.PluginText(c))]
  {
  }

  /** A successful run of the steps goes through each of them, ending in the plugin-file write. */
  lemma ProvisionSteps(o: Oracles, w: World, c: GlobalConfig)
    requires Ready(c)
    ensures var l := LoadLocalSpec(o, w, c);
      var v := VenvSpec(o, l.world, l.config);
      var r := Provision(o, w, c);
      r.result.Installed? ==>
        && l.flow.Next? && v.flow.Next?
        && var q := RequirementsSpec(o, v.world, v.config, v.flow.value);
           var i := WriteInitSpec(o, q.world, q.config);
           var p := WritePluginSpec(i.world, i.config);
           q.flow.Next? && i.flow.Next? && p.flow.Next? && r.world == p.world && r.config == l.config
  {
  }

  /** Where each event sits in a trace laid out like a successful installation's */
  lemma TraceShape(pre: seq<Event>, t: seq<Event>, load: Event, venv: seq<Event>, req: Event, init: Event, plugin: Event)
    requires |venv| <= 1
    requires t == pre + [load] + venv + [req] + [init] + [plugin]
    ensures |pre| + 4 <= |t| <= |pre| + 5 && t[..|pre|] == pre && t[|pre|] == load
    ensures |t| == |pre| + 5 <==> |venv| == 1
    ensures |venv| == 1 ==> t[|pre| + 1] == venv[0]
    ensures t[|t| - 3] == req && t[|t| - 2] == init && t[|t| - 1] == plugin
  {
  }

  /**
   * After the transfer, an installation that succeeds runs its steps in the
   * fixed order: load the local configs, create the venv (only when it is
   * missing), install the requirements with that venv's interpreter, write
   * `__init__.py`, then write `main.yapsy-plugin` from the final configuration.
   */
  lemma ProvisionOrder(o: Oracles, w: World, c: GlobalConfig)
    requires Ready(c)
    ensures var r := Provision(o, w, c);
      var t := r.world.trace;
      r.result.Installed? ==>
        && |w.trace| + 4 <= |t| <= |w.trace| + 5 && t[..|w.trace|] == w.trace
        && t[|w.trace|] == LoadedLocal(ConfigFile(c))
        && (|t| == |w.trace| + 5 <==> Artifacts.VenvPath(c.path.value) !in w.paths)
        && (|t| == |w.trace| + 5 ==> t[|w.trace| + 1].CreatedVenv?)
        && t[|t| - 3].InstalledRequirements? && |t[|t| - 3].argv| >= 1
        && Some(t[|t| - 3].argv[0]) == Artifacts.InterpreterPath(o.platform, c.path.value)
        && t[|t| - 2].Wrote? && t[|t| - 2].file == Paths.Join(c.path.value, "__init__.py")
        && Some(t[|t| - 2].text) == Artifacts.InitText(o.platform, o.version)
        && t[|t| - 1] == Wrote(Paths.Join(c.path.value, "main.yapsy-plugin"), Artifacts.PluginText(r.config))
  {
    var r := Provision(o, w, c);
    ProvisionSteps(o, w, c);
    if r.result.Installed? {
      var l := LoadLocalSpec(o, w, c);
      var v := VenvSpec(o, l.world, l.config);
      VenvTrace(o, l.world, l.config);
      var venv := if Artifacts.VenvPath(c.path.value) in w.paths then []
        else [CreatedVenv(VenvArgs(l.config), o.exitCode(VenvArgs(l.config)))];
      assert v.world.trace == l.world.trace + venv;
      var q := RequirementsSpec(o, v.world, v.config, v.flow.value);
      RequirementsTrace(o, v.world, v.config, v.flow.value);
      var req := q.world.trace[|v.world.trace|];
      var i := WriteInitSpec(o, q.world, q.config);
      WriteInitTrace(o, q.world, q.config);
      var p := WritePluginSpec(i.world, i.config);
      WritePluginTrace(i.world, i.config);
      TraceShape(w.trace, r.world.trace, LoadedLocal(ConfigFile(c)), venv, req,
                 Wrote(Paths.Join(c.path.value, "__init__.py"), Artifacts.InitText(o.platform, o.version).value),
                 Wrote(Paths.Join(c.path.value, "main.yapsy-plugin"), Artifacts.PluginText(r.config)));
    }
  }

  /** An installation never removes a folder other than its own instance folder and what lies below it. */
  lemma OnlyOwnFolderRemoved(v: Variant, o: Oracles, policy: Option<bool>, w: World, c: GlobalConfig, q: string)
    requires Initialized(c)
    requires q in w.paths && (c.path.Some? ==> !Under(q, c.path.value))
    ensures q in InstallSpec(v, o, policy, w, c).world.paths
  {
  }

  /** The clone as written raises on a non-zero return code of git. */
  lemma CloneFailureRaises(o: Oracles, w: World, c: GlobalConfig)
    requires Ready(c) && c.source.Some?
    requires o.exitCode(Artifacts.GitArgsAsWritten(Artifacts.AuthenticatedSource(c.source.value, c.token), c.branch, c.path.value)) != 0
    ensures CloneSpecAsWritten(o, w, c).flow == Stop(Raised)
  {
  }

  /** The intended clone reports a non-zero return code of git as a failed transfer. */
  lemma CloneFailureFails(o: Oracles, w: World, c: GlobalConfig)
    requires Ready(c) && c.source.Some?
    requires o.exitCode(Artifacts.GitArgs(Artifacts.AuthenticatedSource(c.source.value, c.token), c.branch, c.path.value)) != 0
    ensures CloneSpec(o, w, c).flow == Stop(Failed)
  {
  }
}
