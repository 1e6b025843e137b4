/**
 * The deterministic strings the instance installer builds
 * (sonic_engine/core/extension_instance.py): the `git clone` argument list
 * with the token rewrite of the source URL, the virtual environment's
 * interpreter path, the generated `__init__.py` and the INI-like
 * `main.yapsy-plugin` descriptor. Each generated text is a '\n'-join of its
 * lines; an INI reader gives the plugin descriptor's values back.
 */
module Artifacts {
  import opened Wrappers
  import opened Records
  import Strings
  import Paths
  import EngineUtil

  /** `platform.system()` as the installer distinguishes it */
  datatype Platform = Windows | Linux | OtherPlatform(name: string)

  /** Truthiness of an optional string: None and "" are both false */
  predicate Set(o: Option<string>) {
    o.Some? && o.value != ""
  }

  /** The source URL after the token rewrite: every "https://" gets the token as user name */
  function AuthenticatedSource(source: string, token: Option<string>): string {
    if Set(token) then Strings.Replace(source, "https://", "https://" + token.value + ":x-oauth-basic@") else source
  }

  /** An ordinary https URL carries the token right after the scheme. */
  lemma AuthenticatedHttpsSource(rest: string, token: string)
    requires token != "" && !Strings.Contains(rest, "https://")
    ensures AuthenticatedSource("https://" + rest, Some(token)) == "https://" + token + ":x-oauth-basic@" + rest
  {
    Strings.ReplacePrefixOnly("https://", rest, "https://" + token + ":x-oauth-basic@");
  }

  /** Without a token, or without any "https://" in it, the source is used as given. */
  lemma UnauthenticatedSource(source: string, token: Option<string>)
    ensures !Set(token) ==> AuthenticatedSource(source, token) == source
    ensures !Strings.Contains(source, "https://") ==> AuthenticatedSource(source, token) == source
  {
    if !Strings.Contains(source, "https://") && Set(token) {
      Strings.ReplaceAbsent(source, "https://", "https://" + token.value + ":x-oauth-basic@");
    }
  }

  /** The intended `git clone` argument list: `-b <branch>` only when a branch is set */
  function GitArgs(source: string, branch: Option<string>, path: string): (argv: seq<string>)
    ensures |argv| >= 4 && argv[..2] == ["git", "clone"] && argv[|argv| - 2..] == [source, path]
    ensures Set(branch) <==> |argv| == 6
    ensures Set(branch) ==> argv[2..4] == ["-b", branch.value]
    ensures !Set(branch) ==> |argv| == 4
  {
    if Set(branch) then ["git", "clone", "-b", branch.value, source, path] else ["git", "clone", source, path]
  }

  /** The command line the source formats, and the argument list it gets by splitting that line at every ' ' */
  function GitCommandLine(source: string, branch: Option<string>, path: string): string {
    Strings.Join(" ", GitArgs(source, branch, path))
  }

  function GitArgsAsWritten(source: string, branch: Option<string>, path: string): seq<string> {
    Strings.Split(GitCommandLine(source, branch, path), ' ')
  }

  /** Splitting the command line gives the intended arguments exactly when none of them contains a space. */
  lemma GitArgsAgree(source: string, branch: Option<string>, path: string)
    requires ' ' !in source && ' ' !in path && (Set(branch) ==> ' ' !in branch.value)
    ensures GitArgsAsWritten(source, branch, path) == GitArgs(source, branch, path)
  {
    var argv := GitArgs(source, branch, path);
    assert Strings.Join(" ", argv) == Strings.Join([' '], argv);
    Strings.SplitJoin(argv, ' ');
  }

  lemma JoinFour(a: string, b: string, c: string, d: string)
    ensures Strings.Join(" ", [a, b, c, d]) == a + [' '] + (b + [' '] + (c + [' '] + d))
  {
    var argv := [a, b, c, d];
    assert " " == [' '];
    assert argv[1..] == [b, c, d] && argv[1..][1..] == [c, d] && argv[1..][1..][1..] == [d];
    assert Strings.Join(" ", [c, d]) == c + " " + d;
    assert Strings.Join(" ", [b, c, d]) == b + " " + Strings.Join(" ", [c, d]);
    assert Strings.Join(" ", argv) == a + " " + Strings.Join(" ", [b, c, d]);
  }

  /**
   * A destination path with a space, `p1 + " " + p2`, is cut in two by the
   * split: git receives five arguments instead of four, the destination being
   * only `p1` and `p2` an extra argument.
   */
  lemma GitArgsSpaceInPath(source: string, p1: string, p2: string)
    requires ' ' !in source && ' ' !in p1 && ' ' !in p2
    ensures GitArgs(source, None, p1 + " " + p2) == ["git", "clone", source, p1 + " " + p2]
    ensures GitArgsAsWritten(source, None, p1 + " " + p2) == ["git", "clone", source, p1, p2]
  {
    var path := p1 + " " + p2;
    JoinFour("git", "clone", source, path);
    assert " " == [' '];
    Strings.SplitAppend("git", ' ', "clone" + [' '] + (source + [' '] + path));
    Strings.SplitAppend("clone", ' ', source + [' '] + path);
    Strings.SplitAppend(source, ' ', path);
    Strings.SplitAppend(p1, ' ', p2);
    Strings.SplitFree(p2, ' ');
  }

  /** The virtual environment of an instance */
  function VenvPath(path: string): string {
    Paths.Join(path, ".venv")
  }

  /** The venv interpreter: `Scripts/python.exe` on Windows, `bin/python` on Linux, none elsewhere */
  function InterpreterPath(platform: Platform, path: string): Option<string> {
    match platform
    case Windows => Some(Paths.JoinAll(VenvPath(path), ["Scripts", "python.exe"]))
    case Linux => Some(Paths.JoinAll(VenvPath(path), ["bin", "python"]))
    case OtherPlatform(_) => None
  }

  /** For an instance directory, the interpreter lies inside its own `.venv`. */
  lemma InterpreterInsideVenv(platform: Platform, path: string)
    requires path != [] && path[|path| - 1] != '/'
    ensures platform == Windows ==> InterpreterPath(platform, path) == Some(path + "/" + ".venv" + "/" + "Scripts" + "/" + "python.exe")
    ensures platform == Linux ==> InterpreterPath(platform, path) == Some(path + "/" + ".venv" + "/" + "bin" + "/" + "python")
    ensures platform.OtherPlatform? ==> InterpreterPath(platform, path).None?
  {
    Paths.JoinComponent(path, ".venv");
    var v := path + "/" + ".venv";
    assert v[|v| - 1] == 'v';
    if platform == Windows {
      Paths.JoinThree(v, "Scripts", "python.exe");
      assert Paths.JoinAll(v, ["Scripts", "python.exe"]) == Paths.JoinAll(Paths.Join(v, "Scripts"), ["python.exe"]);
    } else if platform == Linux {
      Paths.JoinThree(v, "bin", "python");
    }
  }

  /** `X.Y` of the running interpreter's version */
  function VersionText(version: (nat, nat)): string {
    Strings.NatToString(version.0) + "." + Strings.NatToString(version.1)
  }

  /** The site-packages directories, relative to the instance directory: (primary, 64-bit) */
  function SitePackagesDirs(platform: Platform, version: (nat, nat)): Option<(string, string)> {
    match platform
    case Windows => Some((".venv/Lib/site-packages", ".venv/Lib/site-packages"))
    case Linux => Some((".venv/lib/python" + VersionText(version) + "/site-packages",
                        ".venv/lib64/python" + VersionText(version) + "/site-packages"))
    case OtherPlatform(_) => None
  }

  function SiteLine(variable: string, dir: string): string {
    variable + " = engine_util.relative(__file__, '" + dir + "')"
  }

  // Long literals below are written as concatenations of shorter ones.
  const ImportUtil := "from sonic_engine.util.functions" + " import EngineUtil"
  const InsertPrimary := "sys.path.insert(0, " + "custom_site_packages_path)"
  const Insert64 := "sys.path.insert(0, " + "custom_site_packages_64_path)"

  /** The lines of the generated `__init__.py` */
  function InitLines(dirs: (string, string)): seq<string> {
    ["", "import sys", ImportUtil, "", "engine_util = EngineUtil()", "",
     SiteLine("custom_site_packages_path", dirs.0), "", SiteLine("custom_site_packages_64_path", dirs.1), "",
     InsertPrimary, Insert64, "", "# fmt: off", "from .main import *", "    "]
  }

  /** The generated `__init__.py`, or none on an unsupported platform */
  function InitText(platform: Platform, version: (nat, nat)): Option<string> {
    var dirs := SitePackagesDirs(platform, version);
    if dirs.Some? then Some(Strings.Join("\n", InitLines(dirs.value))) else None
  }

  lemma SiteLineFree(variable: string, dir: string)
    requires '\n' !in variable && '\n' !in dir
    ensures '\n' !in SiteLine(variable, dir)
  {
    var tail := "')";
    assert '\n' !in " = engine_util.relative(__file__, '" && '\n' !in tail;
  }

  lemma InitLinesFree(platform: Platform, version: (nat, nat))
    requires SitePackagesDirs(platform, version).Some?
    ensures forall i :: 0 <= i < |InitLines(SitePackagesDirs(platform, version).value)| ==>
      '\n' !in InitLines(SitePackagesDirs(platform, version).value)[i]
  {
    var dirs := SitePackagesDirs(platform, version).value;
    DirsFree(platform, version);
    assert '\n' !in "custom_site_packages_path" && '\n' !in "custom_site_packages_64_path";
    SiteLineFree("custom_site_packages_path", dirs.0);
    SiteLineFree("custom_site_packages_64_path", dirs.1);
    FixedLinesFree();
    var lines := InitLines(dirs);
    forall i | 0 <= i < |lines| ensures '\n' !in lines[i] {
    }
  }

  lemma FixedLinesFree()
    ensures '\n' !in ImportUtil && '\n' !in InsertPrimary && '\n' !in Insert64
    ensures '\n' !in "engine_util = EngineUtil()" && '\n' !in "from .main import *"
    ensures '\n' !in "import sys" && '\n' !in "# fmt: off" && '\n' !in "    "
  {
    ImportsFree();
    InsertsFree();
  }

  lemma ImportsFree()
    ensures '\n' !in ImportUtil
  {
    assert '\n' !in "from sonic_engine.util.functions";
    assert '\n' !in " import EngineUtil";
  }

  lemma InsertsFree()
    ensures '\n' !in InsertPrimary && '\n' !in Insert64
  {
    assert '\n' !in "sys.path.insert(0, ";
    assert '\n' !in "custom_site_packages_path)";
    assert '\n' !in "custom_site_packages_64_path)";
  }

  lemma DirsFree(platform: Platform, version: (nat, nat))
    requires SitePackagesDirs(platform, version).Some?
    ensures '\n' !in SitePackagesDirs(platform, version).value.0 && '\n' !in SitePackagesDirs(platform, version).value.1
  {
    var v := VersionText(version);
    assert '\n' !in Strings.NatToString(version.0) && '\n' !in Strings.NatToString(version.1);
    assert '\n' !in v;
  }

  /**
   * Read line by line, the generated init file assigns the primary path
   * before the 64-bit one, inserts both into `sys.path` in that order, and only
   * then imports the extension's `main` module.
   */
  lemma InitTextLines(platform: Platform, version: (nat, nat))
    requires !platform.OtherPlatform?
    ensures var lines := Strings.Split(InitText(platform, version).value, '\n');
      var dirs := SitePackagesDirs(platform, version).value;
      && |lines| == 16
      && lines[6] == SiteLine("custom_site_packages_path", dirs.0)
      && lines[8] == SiteLine("custom_site_packages_64_path", dirs.1)
      && lines[10] == InsertPrimary
      && lines[11] == Insert64
      && lines[14] == "from .main import *"
      && (platform == Windows ==> dirs.0 == dirs.1 == ".venv/Lib/site-packages")
  {
    InitTextSplits(platform, version);
  }

  /** The generated init file splits back into its lines. */
  lemma InitTextSplits(platform: Platform, version: (nat, nat))
    requires !platform.OtherPlatform?
    ensures Strings.Split(InitText(platform, version).value, '\n') == InitLines(SitePackagesDirs(platform, version).value)
  {
    InitLinesFree(platform, version);
    SplitJoinLines(InitLines(SitePackagesDirs(platform, version).value));
  }

  /** Lines without a line break, joined with "\n", split back into the same lines */
  lemma SplitJoinLines(lines: seq<string>)
    requires |lines| >= 1 && forall i :: 0 <= i < |lines| ==> '\n' !in lines[i]
    ensures Strings.Split(Strings.Join("\n", lines), '\n') == lines
  {
    assert "\n" == ['\n'];
    Strings.SplitJoin(lines, '\n');
  }

  /** On Linux the two paths differ only in `lib` against `lib64`, under the running interpreter's `pythonX.Y`. */
  lemma LinuxSitePackages(version: (nat, nat))
    ensures SitePackagesDirs(Linux, version) ==
      Some((".venv/lib/python" + VersionText(version) + "/site-packages", ".venv/lib64/python" + VersionText(version) + "/site-packages"))
  {
  }

  /** Resolved against the generated file's own location, both site-packages paths lie inside the instance's `.venv`. */
  lemma SitePackagesInsideInstance(platform: Platform, version: (nat, nat), path: string)
    requires path != [] && path[|path| - 1] != '/'
    requires SitePackagesDirs(platform, version).Some?
    ensures var dirs := SitePackagesDirs(platform, version).value;
      && EngineUtil.Relative(Paths.Join(path, "__init__.py"), [dirs.0]) == path + "/" + dirs.0
      && EngineUtil.Relative(Paths.Join(path, "__init__.py"), [dirs.1]) == path + "/" + dirs.1
  {
    var dirs := SitePackagesDirs(platform, version).value;
    EngineUtil.RelativeToFileInDir(path, "__init__.py", [dirs.0]);
    EngineUtil.RelativeToFileInDir(path, "__init__.py", [dirs.1]);
    assert dirs.0[0] == '.' && dirs.1[0] == '.';
  }

  /** Python's `str()` of an optional string */
  function PyStr(o: Option<string>): string {
    if o.Some? then o.value else "None"
  }

  /** Python's `str()` of a string or a list of strings (a list shows as `['a', 'b']`) */
  function PyStrOrList(o: Option<StrOrList>): string {
    match o
    case None => "None"
    case Some(Text(s)) => s
    case Some(Items(xs)) => "[" + Strings.Join(", ", seq(|xs|, i requires 0 <= i < |xs| => "'" + xs[i] + "'")) + "]"
  }

  /** The lines of `main.yapsy-plugin` */
  function PluginLines(c: GlobalConfig): seq<string> {
    ["", "[Core]", "Name = " + PyStr(c.name), "Module = .", "", "[Documentation]",
     "Author = " + PyStrOrList(c.authors), "Description = " + PyStr(c.description), "Version = " + PyStr(c.version), "    "]
  }

  function PluginText(c: GlobalConfig): string {
    Strings.Join("\n", PluginLines(c))
  }

  predicate StartsWith(s: string, p: string) {
    |p| <= |s| && s[..|p|] == p
  }

  predicate IsHeader(line: string) {
    |line| >= 2 && line[0] == '[' && line[|line| - 1] == ']'
  }

  /** An INI reader: the value of `key = value` in the first `[section]` that has it */
  function IniValue(lines: seq<string>, section: string, key: string, inside: bool): Option<string> {
    if lines == [] then None
    else
      var line := lines[0];
      if IsHeader(line) then IniValue(lines[1..], section, key, line == "[" + section + "]")
      else if inside && StartsWith(line, key + " = ") then Some(line[|key| + 3..])
      else IniValue(lines[1..], section, key, inside)
  }

  /** One line of the reader: a header switches the section, a matching line answers, any other is skipped. */
  lemma IniStep(lines: seq<string>, k: nat, section: string, key: string, inside: bool)
    requires k < |lines|
    ensures IniValue(lines[k..], section, key, inside) ==
      if IsHeader(lines[k]) then IniValue(lines[k + 1..], section, key, lines[k] == "[" + section + "]")
      else if inside && StartsWith(lines[k], key + " = ") then Some(lines[k][|key| + 3..])
      else IniValue(lines[k + 1..], section, key, inside)
  {
    assert lines[k..][1..] == lines[k + 1..];
  }

  /** The plugin reader finds the values the descriptor was written with (when they are single-line). */
  lemma PluginTextReadsBack(c: GlobalConfig)
    requires '\n' !in PyStr(c.name) && '\n' !in PyStrOrList(c.authors)
    requires '\n' !in PyStr(c.description) && '\n' !in PyStr(c.version)
    ensures var lines := Strings.Split(PluginText(c), '\n');
      && IniValue(lines, "Core", "Name", false) == Some(PyStr(c.name))
      && IniValue(lines, "Core", "Module", false) == Some(".")
      && IniValue(lines, "Documentation", "Author", false) == Some(PyStrOrList(c.authors))
      && IniValue(lines, "Documentation", "Description", false) == Some(PyStr(c.description))
      && IniValue(lines, "Documentation", "Version", false) == Some(PyStr(c.version))
  {
    var lines := PluginLines(c);
    assert "\n" == ['\n'];
    Strings.SplitJoin(lines, '\n');
    assert lines[0..] == lines;
    CoreReadsBack(c);
    DocumentationReadsBack(c);
  }

  /** The reader over any lines laid out like the `[Core]` block of the descriptor */
  lemma CoreChain(lines: seq<string>)
    requires |lines| >= 4 && lines[0] == "" && lines[1] == "[Core]"
    requires !IsHeader(lines[2]) && StartsWith(lines[2], "Name = ") && !StartsWith(lines[2], "Module = ")
    requires !IsHeader(lines[3]) && StartsWith(lines[3], "Module = ")
    ensures IniValue(lines, "Core", "Name", false) == Some(lines[2][7..])
    ensures IniValue(lines, "Core", "Module", false) == Some(lines[3][9..])
  {
    CoreName(lines);
    CoreModule(lines);
  }

  lemma CoreName(lines: seq<string>)
    requires |lines| >= 4 && lines[0] == "" && lines[1] == "[Core]"
    requires !IsHeader(lines[2]) && StartsWith(lines[2], "Name = ")
    ensures IniValue(lines, "Core", "Name", false) == Some(lines[2][7..])
  {
    assert lines[0..] == lines;
    CoreEntered(lines, "Name");
    IniStep(lines, 2, "Core", "Name", true);
  }

  lemma CoreModule(lines: seq<string>)
    requires |lines| >= 4 && lines[0] == "" && lines[1] == "[Core]"
    requires !IsHeader(lines[2]) && !StartsWith(lines[2], "Module = ")
    requires !IsHeader(lines[3]) && StartsWith(lines[3], "Module = ")
    ensures IniValue(lines, "Core", "Module", false) == Some(lines[3][9..])
  {
    assert lines[0..] == lines;
    CoreEntered(lines, "Module");
    IniStep(lines, 2, "Core", "Module", true);
    IniStep(lines, 3, "Core", "Module", true);
  }

  /** The reader enters the `[Core]` section at index 1 */
  lemma CoreEntered(lines: seq<string>, key: string)
    requires |lines| >= 4 && lines[0] == "" && lines[1] == "[Core]"
    ensures IniValue(lines[0..], "Core", key, false) == IniValue(lines[2..], "Core", key, true)
  {
    assert "[" + "Core" + "]" == "[Core]";
    IniStep(lines, 0, "Core", key, false);
    IniStep(lines, 1, "Core", key, false);
  }

  /** The reader skips lines outside the section until the `[Documentation]` header at index 5 */
  lemma DocumentationEntered(lines: seq<string>, key: string)
    requires |lines| >= 6 && lines[0] == "" && lines[1] == "[Core]" && lines[4] == "" && lines[5] == "[Documentation]"
    requires !IsHeader(lines[2]) && !IsHeader(lines[3])
    ensures IniValue(lines, "Documentation", key, false) == IniValue(lines[6..], "Documentation", key, true)
  {
    var d := "Documentation";
    assert lines[0..] == lines;
    assert "[" + d + "]" == "[Documentation]";
    assert "[Core]" != "[Documentation]";
    IniStep(lines, 0, d, key, false);
    IniStep(lines, 1, d, key, false);
    IniStep(lines, 2, d, key, false);
    IniStep(lines, 3, d, key, false);
    IniStep(lines, 4, d, key, false);
    IniStep(lines, 5, d, key, false);
  }

  /** Inside `[Documentation]`, the three keys on lines 6, 7 and 8 */
  lemma DocumentationChain(lines: seq<string>)
    requires |lines| >= 9
    requires !IsHeader(lines[6]) && !IsHeader(lines[7]) && !IsHeader(lines[8])
    requires StartsWith(lines[6], "Author = ") && !StartsWith(lines[6], "Description = ") && !StartsWith(lines[6], "Version = ")
    requires StartsWith(lines[7], "Description = ") && !StartsWith(lines[7], "Version = ")
    requires StartsWith(lines[8], "Version = ")
    ensures IniValue(lines[6..], "Documentation", "Author", true) == Some(lines[6][9..])
    ensures IniValue(lines[6..], "Documentation", "Description", true) == Some(lines[7][14..])
    ensures IniValue(lines[6..], "Documentation", "Version", true) == Some(lines[8][10..])
  {
    var d := "Documentation";
    IniStep(lines, 6, d, "Author", true);
    IniStep(lines, 6, d, "Description", true);
    IniStep(lines, 7, d, "Description", true);
    IniStep(lines, 6, d, "Version", true);
    IniStep(lines, 7, d, "Version", true);
    IniStep(lines, 8, d, "Version", true);
  }

  lemma CoreReadsBack(c: GlobalConfig)
    ensures var lines := PluginLines(c);
      && IniValue(lines[0..], "Core", "Name", false) == Some(PyStr(c.name))
      && IniValue(lines[0..], "Core", "Module", false) == Some(".")
  {
    var lines := PluginLines(c);
    assert lines[0..] == lines;
    assert StartsWith(lines[2], "Name = ") && lines[2][7..] == PyStr(c.name);
    assert !StartsWith(lines[2], "Module = ") by { assert lines[2][0] != "Module = "[0]; }
    assert StartsWith(lines[3], "Module = ") && lines[3][9..] == ".";
    assert !IsHeader(lines[2]) && !IsHeader(lines[3]);
    CoreChain(lines);
  }

  lemma DocumentationReadsBack(c: GlobalConfig)
    ensures var lines := PluginLines(c);
      && IniValue(lines[0..], "Documentation", "Author", false) == Some(PyStrOrList(c.authors))
      && IniValue(lines[0..], "Documentation", "Description", false) == Some(PyStr(c.description))
      && IniValue(lines[0..], "Documentation", "Version", false) == Some(PyStr(c.version))
  {
    var lines := PluginLines(c);
    assert lines[0..] == lines;
    assert !IsHeader(lines[2]) && !IsHeader(lines[3]) && !IsHeader(lines[6]) && !IsHeader(lines[7]) && !IsHeader(lines[8]);
    assert StartsWith(lines[6], "Author = ") && lines[6][9..] == PyStrOrList(c.authors);
    assert !StartsWith(lines[6], "Description = ") by { assert lines[6][0] != "Description = "[0]; }
    assert !StartsWith(lines[6], "Version = ") by { assert lines[6][0] != "Version = "[0]; }
    assert StartsWith(lines[7], "Description = ") && lines[7][14..] == PyStr(c.description);
    assert !StartsWith(lines[7], "Version = ") by { assert lines[7][0] != "Version = "[0]; }
    assert StartsWith(lines[8], "Version = ") && lines[8][10..] == PyStr(c.version);
    DocumentationEntered(lines, "Author");
    DocumentationEntered(lines, "Description");
    DocumentationEntered(lines, "Version");
    DocumentationChain(lines);
  }
}
