/**
 * `YapsyHandler` (sonic_engine/core/yapsy_methods.py): the bookkeeping around
 * the plugin runtime once every instance is installed. The runtime is given
 * the instances' paths; each plugin it finds is mapped back to the instance
 * configuration it came from, named after it, activated and sent that
 * configuration. Afterwards the handler counts the live plugins and can
 * deactivate them all.
 *
 * The runtime itself (discovery, process spawning, the pipes) is outside the
 * model: what discovery finds is a parameter, a plugin is a record with its
 * path, name, category, activation flag and the messages sent to it.
 */
module Supervision {
  import opened Wrappers
  import opened Records
  import Strings
  import Paths
  import Artifacts

  /** What `_send_configs` puts on a plugin's pipe */
  datatype Message = Message(config: GlobalConfig, message: string)

  /** A plugin as the runtime reports it */
  datatype Plugin = Plugin(
    path: string,
    name: Option<string>,
    category: Option<string>,
    activated: bool,
    inbox: seq<Message>)

  /** How looking up a plugin's configuration ends */
  datatype Lookup =
    | Found(config: GlobalConfig)  // the first matching configuration
    | NoMatch                      // the loop ends: the method returns None
    | LookupRaised                 // ValueError from `index`, or an attribute of None

  /** What `_createManager` did */
  datatype ManagerResult = Created(directories: seq<Option<string>>) | Existing | CreateRaised

  // ---------------------------------------------------------------------------
  // Paths of plugins

  /** `xs.index(x)`, None where Python raises ValueError */
  function Index(xs: seq<string>, x: string): (k: Option<nat>)
    ensures k.Some? ==> k.value < |xs| && xs[k.value] == x && forall j :: 0 <= j < k.value ==> xs[j] != x
    ensures k.None? <==> x !in xs
  {
    if xs == [] then None
    else if xs[0] == x then Some(0)
    else match Index(xs[1..], x)
      case None => None
      case Some(k) => Some(k + 1)
  }

  /** `xs[-n]`, None where Python raises IndexError */
  function FromEnd(xs: seq<string>, n: nat): (r: Option<string>)
    requires n >= 1
    ensures r.Some? <==> n <= |xs|
    ensures r.Some? ==> r.value == xs[|xs| - n]
  {
    if n <= |xs| then Some(xs[|xs| - n]) else None
  }

  /** `_plugin_name`: the second-to-last '/'-separated component of the plugin's path */
  function PluginName(p: Plugin): (n: Option<string>)
    ensures n.Some? ==> '/' !in n.value && n.value in Paths.Components(p.path)
    ensures n.None? <==> '/' !in p.path
  {
    Strings.SplitPiecesFree(p.path, '/');
    SplitHasTwoPieces(p.path);
    FromEnd(Paths.Components(p.path), 2)
  }

  /** `_plugin_category`: the third-to-last component */
  function PluginCategory(p: Plugin): (n: Option<string>)
    ensures n.Some? ==> '/' !in n.value && n.value in Paths.Components(p.path)
    ensures n.Some? ==> PluginName(p).Some?
  {
    Strings.SplitPiecesFree(p.path, '/');
    FromEnd(Paths.Components(p.path), 3)
  }

  /** A path splits into two or more components exactly when it holds a '/'. */
  lemma {:induction false} SplitHasTwoPieces(s: string)
    ensures |Paths.Components(s)| >= 2 <==> '/' in s
  {
    Strings.SplitLength(s, '/');
    OccurrencesPositive(s, '/');
  }

  lemma {:induction false} OccurrencesPositive(s: string, c: char)
    ensures Strings.Occurrences(s, c) > 0 <==> c in s
  {
    if s != [] {
      OccurrencesPositive(s[1..], c);
      assert s == [s[0]] + s[1..];
    }
  }

  /**
   * The lookup key of lines 36-40: the first component equal to the
   * extensions folder and the (at most) two after it, joined again. None
   * where `index` raises.
   */
  function LookupKey(folder: string, pluginPath: string): (key: Option<string>)
    ensures key.None? <==> folder !in Paths.Components(pluginPath)
  {
    var comps := Paths.Components(pluginPath);
    match Index(comps, folder)
    case None => None
    case Some(k) => Some(Strings.Join("/", comps[k..if k + 3 <= |comps| then k + 3 else |comps|]))
  }

  /**
   * Whether one configuration is the plugin's (None where Python raises): an
   * in-place instance compares normalised paths, a copied one compares its
   * path with the lookup key.
   */
  function MatchConfig(c: GlobalConfig, pluginPath: string, key: Option<string>): Option<bool> {
    if !Truthy(c.copyFolder) then
      if c.path.None? then None  // `os.path.normpath(None)` raises TypeError
      else Some(Paths.NormPath(c.path.value) == Paths.NormPath(pluginPath))
    else Some(key.Some? && c.path == key)
  }

  /** The loop of lines 42-49 over the configurations, in order */
  function Search(configs: seq<Option<GlobalConfig>>, pluginPath: string, key: Option<string>): (r: Lookup)
    ensures r.Found? ==> Some(r.config) in configs
    decreases |configs|
  {
    if configs == [] then NoMatch
    else if configs[0].None? then LookupRaised  // `None.copy_folder`
    else match MatchConfig(configs[0].value, pluginPath, key)
      case None => LookupRaised
      case Some(true) => Found(configs[0].value)
      case Some(false) => Search(configs[1..], pluginPath, key)
  }

  /** `_getPluginConfig` as written: the key is computed first, so a path without the folder raises. */
  function GetPluginConfigAsWritten(folder: string, configs: seq<Option<GlobalConfig>>, pluginPath: string): (r: Lookup)
    ensures folder !in Paths.Components(pluginPath) ==> r == LookupRaised
  {
    match LookupKey(folder, pluginPath)
    case None => LookupRaised
    case Some(key) => Search(configs, pluginPath, Some(key))
  }

  /**
   * `_getPluginConfig` as intended: the key only matters to copied
   * instances, so an in-place instance is found whatever its path.
   */
  function GetPluginConfig(folder: string, configs: seq<Option<GlobalConfig>>, pluginPath: string): (r: Lookup)
    ensures folder in Paths.Components(pluginPath) ==> r == GetPluginConfigAsWritten(folder, configs, pluginPath)
  {
    Search(configs, pluginPath, LookupKey(folder, pluginPath))
  }

  /** Every configuration before index `k` is present and does not match. */
  predicate Passed(configs: seq<Option<GlobalConfig>>, pluginPath: string, key: Option<string>, k: nat) {
    forall j :: 0 <= j < k && j < |configs| ==> configs[j].Some? && MatchConfig(configs[j].value, pluginPath, key) == Some(false)
  }

  /** The configuration at index `k` is the first that matches. */
  predicate FirstMatchAt(configs: seq<Option<GlobalConfig>>, pluginPath: string, key: Option<string>, k: nat) {
    && k < |configs| && configs[k].Some? && MatchConfig(configs[k].value, pluginPath, key) == Some(true)
    && Passed(configs, pluginPath, key, k)
  }

  /** Past a present, non-matching head, the entries passed are those of the tail, shifted by one. */
  lemma PassedShift(configs: seq<Option<GlobalConfig>>, pluginPath: string, key: Option<string>, k: nat)
    requires configs != [] && configs[0].Some? && MatchConfig(configs[0].value, pluginPath, key) == Some(false)
    ensures Passed(configs, pluginPath, key, k + 1) <==> Passed(configs[1..], pluginPath, key, k)
    ensures FirstMatchAt(configs, pluginPath, key, k + 1) <==> FirstMatchAt(configs[1..], pluginPath, key, k)
  {
    var rest := configs[1..];
    if Passed(rest, pluginPath, key, k) {
      forall j | 0 <= j < k + 1 && j < |configs|
        ensures configs[j].Some? && MatchConfig(configs[j].value, pluginPath, key) == Some(false)
      {
        if j > 0 {
          assert configs[j] == rest[j - 1];
        }
      }
    }
    if Passed(configs, pluginPath, key, k + 1) {
      forall j | 0 <= j < k && j < |rest|
        ensures rest[j].Some? && MatchConfig(rest[j].value, pluginPath, key) == Some(false)
      {
        assert rest[j] == configs[j + 1];
      }
    }
    if k < |rest| {
      assert rest[k] == configs[k + 1];
    }
  }

  /**
   * The search returns the first configuration that matches, and finds one
   * whenever there is one; it returns nothing exactly when every entry is
   * present and none matches.
   */
  lemma {:induction false} SearchFirstMatch(configs: seq<Option<GlobalConfig>>, pluginPath: string, key: Option<string>)
    ensures var r := Search(configs, pluginPath, key);
      r.Found? ==> exists k: nat :: FirstMatchAt(configs, pluginPath, key, k) && configs[k] == Some(r.config)
    ensures (exists k: nat :: FirstMatchAt(configs, pluginPath, key, k)) ==> Search(configs, pluginPath, key).Found?
    ensures Search(configs, pluginPath, key).NoMatch? <==> Passed(configs, pluginPath, key, |configs|)
    decreases |configs|
  {
    if configs != [] {
      var rest := configs[1..];
      SearchFirstMatch(rest, pluginPath, key);
      var r := Search(configs, pluginPath, key);
      if configs[0].Some? && MatchConfig(configs[0].value, pluginPath, key) == Some(true) {
        assert FirstMatchAt(configs, pluginPath, key, 0);
      } else if configs[0].Some? && MatchConfig(configs[0].value, pluginPath, key) == Some(false) {
        assert r == Search(rest, pluginPath, key);
        assert !FirstMatchAt(configs, pluginPath, key, 0);
        if r.Found? {
          var k: nat :| FirstMatchAt(rest, pluginPath, key, k) && rest[k] == Some(r.config);
          PassedShift(configs, pluginPath, key, k);
          assert FirstMatchAt(configs, pluginPath, key, k + 1);
        }
        if exists k: nat :: FirstMatchAt(configs, pluginPath, key, k) {
          var k: nat :| FirstMatchAt(configs, pluginPath, key, k);
          var k': nat := k - 1;
          PassedShift(configs, pluginPath, key, k');
          assert FirstMatchAt(rest, pluginPath, key, k');
        }
        PassedShift(configs, pluginPath, key, |rest|);
      } else {
        assert !Passed(configs, pluginPath, key, |configs|);
        forall k: nat ensures !FirstMatchAt(configs, pluginPath, key, k) {
          if k > 0 {
            assert !Passed(configs, pluginPath, key, k);
          }
        }
      }
    }
  }

  /** A path made of the folder, a category, an id and the trailing "." the runtime appends */
  lemma CopyPathComponents(folder: string, category: string, id: string)
    requires Paths.IsComponent(folder) && Paths.IsComponent(category) && Paths.IsComponent(id)
    ensures Paths.Components(folder + "/" + category + "/" + id + "/.") == [folder, category, id, "."]
  {
    var parts := [folder, category, id, "."];
    assert Strings.Join("/", parts[3..]) == ".";
    assert Strings.Join("/", parts[2..]) == id + "/" + ".";
    assert Strings.Join("/", parts[1..]) == category + "/" + (id + "/" + ".");
    assert Strings.Join("/", parts) == folder + "/" + category + "/" + id + "/.";
    Strings.SplitJoin(parts, '/');
  }

  /**
   * The plugin of a copied instance, found at `<folder>/<category>/<id>/.`,
   * is keyed by exactly the instance's path, and is named and categorised by
   * the path as the instance is.
   */
  lemma CopyPluginKey(folder: string, category: string, id: string)
    requires Paths.IsComponent(folder) && Paths.IsComponent(category) && Paths.IsComponent(id)
    ensures var pluginPath := folder + "/" + category + "/" + id + "/.";
      && LookupKey(folder, pluginPath) == Some(Paths.JoinAll(folder, [category, id]))
      && PluginName(Plugin(pluginPath, None, None, false, [])) == Some(id)
      && PluginCategory(Plugin(pluginPath, None, None, false, [])) == Some(category)
  {
    CopyPathComponents(folder, category, id);
    var comps := [folder, category, id, "."];
    assert Index(comps, folder) == Some(0);
    assert comps[0..3] == [folder, category, id];
    JoinOfThree(folder, category, id);
    Paths.JoinThree(folder, category, id);
  }

  /** Three pieces joined with '/' */
  lemma JoinOfThree(a: string, b: string, c: string)
    ensures Strings.Join("/", [a, b, c]) == a + "/" + b + "/" + c
  {
    var key := [a, b, c];
    assert key[1..][1..] == [c];
    assert Strings.Join("/", key[1..]) == b + "/" + c;
  }

  /** A copied instance whose path is `<folder>/<category>/<id>` matches its own plugin. */
  lemma CopyConfigMatches(folder: string, c: GlobalConfig)
    requires Truthy(c.copyFolder) && c.category.Some? && c.id.Some?
    requires Paths.IsComponent(folder) && Paths.IsComponent(c.category.value) && Paths.IsComponent(c.id.value)
    requires c.path == Some(Paths.JoinAll(folder, [c.category.value, c.id.value]))
    ensures var pluginPath := folder + "/" + c.category.value + "/" + c.id.value + "/.";
      MatchConfig(c, pluginPath, LookupKey(folder, pluginPath)) == Some(true)
  {
    CopyPluginKey(folder, c.category.value, c.id.value);
  }

  /** An in-place instance matches the plugin the runtime reports in its own directory. */
  lemma InPlaceConfigMatches(c: GlobalConfig, key: Option<string>)
    requires !Truthy(c.copyFolder) && c.path.Some? && c.path.value != [] && c.path.value[|c.path.value| - 1] != '/'
    ensures MatchConfig(c, c.path.value + "/.", key) == Some(true)
  {
    Paths.NormPathCurrentDir(c.path.value);
  }

  /**
   * The in-place instance whose directory has no component equal to the
   * extensions folder: the code as written raises before it looks at the
   * configurations, the intended lookup finds the instance.
   */
  lemma InPlaceOutsideFolder(folder: string, c: GlobalConfig)
    requires !Truthy(c.copyFolder) && c.path.Some? && c.path.value != [] && c.path.value[|c.path.value| - 1] != '/'
    requires folder !in Paths.Components(c.path.value + "/.")
    ensures GetPluginConfigAsWritten(folder, [Some(c)], c.path.value + "/.") == LookupRaised
    ensures GetPluginConfig(folder, [Some(c)], c.path.value + "/.") == Found(c)
  {
    InPlaceConfigMatches(c, LookupKey(folder, c.path.value + "/."));
  }

  /** `_send_configs`: the configuration and "Loaded <name>" go to the plugin */
  function SendConfigs(p: Plugin, c: GlobalConfig): (q: Plugin)
    ensures q == p.(inbox := q.inbox) && |q.inbox| == |p.inbox| + 1 && q.inbox[..|p.inbox|] == p.inbox
    ensures q.inbox[|p.inbox|] == Message(c, "Loaded " + Artifacts.PyStr(p.name))
  {
    p.(inbox := p.inbox + [Message(c, "Loaded " + Artifacts.PyStr(p.name))])
  }

  /**
   * One plugin of `_activatePlugins`, given how the lookup of its
   * configuration ended: an active one is left alone; an inactive one is
   * named and categorised after its configuration, activated and sent the
   * configuration. None where the lookup raises or finds nothing (`None.id`
   * raises).
   */
  function ActivateWith(p: Plugin, found: Lookup): Option<Plugin> {
    if p.activated then Some(p)
    else match found
      case Found(c) => Some(SendConfigs(p.(name := c.id, category := c.category, activated := true), c))
      case _ => None
  }

  /** One plugin of `_activatePlugins` as written, with the lookup that raises outside the extensions folder */
  function ActivateOne(folder: string, configs: seq<Option<GlobalConfig>>, p: Plugin): Option<Plugin> {
    ActivateWith(p, GetPluginConfigAsWritten(folder, configs, p.path))
  }

  /** One plugin of `_activatePlugins` with the intended lookup */
  function ActivateOneIntended(folder: string, configs: seq<Option<GlobalConfig>>, p: Plugin): Option<Plugin> {
    ActivateWith(p, GetPluginConfig(folder, configs, p.path))
  }

  /**
   * What activation does to one plugin: an active plugin is unchanged; an
   * inactive one whose path has no component equal to the extensions folder
   * raises; otherwise it ends up active, carrying the id and category of the
   * first configuration that matches its path, with one more message, which
   * holds that configuration and reads "Loaded <id>".
   */
  lemma ActivateOneEffect(folder: string, configs: seq<Option<GlobalConfig>>, p: Plugin)
    ensures p.activated ==> ActivateOne(folder, configs, p) == Some(p)
    ensures !p.activated ==> (ActivateOne(folder, configs, p).Some? <==> GetPluginConfigAsWritten(folder, configs, p.path).Found?)
    ensures !p.activated && folder !in Paths.Components(p.path) ==> ActivateOne(folder, configs, p).None?
    ensures var q := ActivateOne(folder, configs, p);
      !p.activated && q.Some? ==>
        var c := GetPluginConfigAsWritten(folder, configs, p.path).config;
        && Some(c) in configs
        && q.value.activated && q.value.path == p.path
        && q.value.name == c.id && q.value.category == c.category
        && q.value.inbox == p.inbox + [Message(c, "Loaded " + Artifacts.PyStr(c.id))]
  {
  }

  /** The same effect with the intended lookup, which never raises for want of the extensions folder */
  lemma ActivateOneIntendedEffect(folder: string, configs: seq<Option<GlobalConfig>>, p: Plugin)
    ensures p.activated ==> ActivateOneIntended(folder, configs, p) == Some(p)
    ensures !p.activated ==> (ActivateOneIntended(folder, configs, p).Some? <==> GetPluginConfig(folder, configs, p.path).Found?)
    ensures var q := ActivateOneIntended(folder, configs, p);
      !p.activated && q.Some? ==>
        var c := GetPluginConfig(folder, configs, p.path).config;
        && Some(c) in configs
        && q.value.activated && q.value.path == p.path
        && q.value.name == c.id && q.value.category == c.category
        && q.value.inbox == p.inbox + [Message(c, "Loaded " + Artifacts.PyStr(c.id))]
  {
  }

  /** The two agree on every plugin that lives under the extensions folder. */
  lemma ActivateAgree(folder: string, configs: seq<Option<GlobalConfig>>, p: Plugin)
    requires folder in Paths.Components(p.path)
    ensures ActivateOne(folder, configs, p) == ActivateOneIntended(folder, configs, p)
  {
  }

  /**
   * The inactive plugin of an in-place instance outside the extensions
   * folder: the code as written raises, the intended lookup activates it.
   */
  lemma ActivateOutsideFolder(folder: string, c: GlobalConfig, p: Plugin)
    requires !Truthy(c.copyFolder) && c.path.Some? && c.path.value != [] && c.path.value[|c.path.value| - 1] != '/'
    requires folder !in Paths.Components(c.path.value + "/.")
    requires p.path == c.path.value + "/." && !p.activated
    ensures ActivateOne(folder, [Some(c)], p).None?
    ensures ActivateOneIntended(folder, [Some(c)], p).Some?
    ensures ActivateOneIntended(folder, [Some(c)], p).value.name == c.id
  {
    InPlaceOutsideFolder(folder, c);
  }

  /** Deactivation of every plugin: what `killAll` leaves */
  function Killed(ps: seq<Plugin>): (r: seq<Plugin>)
    ensures |r| == |ps|
  {
    seq(|ps|, i requires 0 <= i < |ps| => ps[i].(activated := false))
  }

  /** The number of active plugins */
  function Alive(ps: seq<Plugin>): (n: nat)
    ensures n <= |ps|
    ensures n == 0 <==> forall i :: 0 <= i < |ps| ==> !ps[i].activated
    ensures n == |ps| <==> forall i :: 0 <= i < |ps| ==> ps[i].activated
    decreases |ps|
  {
    if ps == [] then 0
    else
      assert forall i :: 1 <= i < |ps| ==> ps[1..][i - 1] == ps[i];
      (if ps[0].activated then 1 else 0) + Alive(ps[1..])
  }

  /** After `killAll` nothing is alive; apart from the flag every plugin is as it was. */
  lemma KilledNoneAlive(ps: seq<Plugin>)
    ensures Alive(Killed(ps)) == 0
    ensures forall i :: 0 <= i < |ps| ==> Killed(ps)[i] == ps[i].(activated := Killed(ps)[i].activated)
  {
  }

  /** A second `killAll` changes nothing. */
  lemma KillIdempotent(ps: seq<Plugin>)
    ensures Killed(Killed(ps)) == Killed(ps)
  {
  }

  /** Activation of a list never lowers the number of live plugins; a complete one leaves all of them alive. */
  lemma {:induction false} ActivationAlive(folder: string, configs: seq<Option<GlobalConfig>>, ps: seq<Plugin>, qs: seq<Plugin>)
    requires |qs| == |ps|
    requires forall i :: 0 <= i < |ps| ==> ActivateOne(folder, configs, ps[i]) == Some(qs[i])
    ensures Alive(qs) == |qs|
    ensures Alive(ps) <= Alive(qs)
  {
    forall i | 0 <= i < |qs| ensures qs[i].activated {
      ActivateOneEffect(folder, configs, ps[i]);
    }
  }

  /** `YapsyHandler`: the extensions folder, the installed instances' configurations and the runtime's plugins */
  class YapsyHandler {
    const extensionsFolder: string
    const configs: seq<Option<GlobalConfig>>  // None for an instance whose transfer failed
    var manager: Option<seq<Option<string>>>  // the directories the runtime searches, once it exists
    var plugins: seq<Plugin>                  // `manager.getAllPlugins()`

    /** No plugins before there is a runtime */
    predicate Valid()
      reads this
    {
      manager.None? ==> plugins == []
    }

    constructor (extensionsFolder: string, configs: seq<Option<GlobalConfig>>)
      ensures Valid()
      ensures this.extensionsFolder == extensionsFolder && this.configs == configs
      ensures manager == None && plugins == []
    {
      this.extensionsFolder := extensionsFolder;
      this.configs := configs;
      manager := None;
      plugins := [];
    }

    /** `_getPluginsLocation`: the instances' paths in order; an absent configuration raises */
    function PluginsLocation(): (r: Option<seq<Option<string>>>)
      ensures r.None? <==> None in configs
      ensures r.Some? ==> |r.value| == |configs| && forall i :: 0 <= i < |configs| ==> r.value[i] == configs[i].value.path
    {
      if None in configs then None
      else Some(seq(|configs|, i requires 0 <= i < |configs| => configs[i].value.path))
    }

    /** `_createManager`: the runtime is created once, over the instances' paths */
    method CreateManager() returns (r: ManagerResult)
      requires Valid()
      modifies this
      ensures Valid() && plugins == old(plugins)
      ensures old(manager).Some? ==> r == Existing && manager == old(manager)
      ensures old(manager).None? && PluginsLocation().None? ==> r == CreateRaised && manager == None
      ensures old(manager).None? && PluginsLocation().Some? ==>
        r == Created(PluginsLocation().value) && manager == PluginsLocation()
    {
      if manager.Some? {
        return Existing;
      }
      var dirs := PluginsLocation();
      if dirs.None? {
        return CreateRaised;
      }
      manager := dirs;
      r := Created(dirs.value);
    }

    /**
     * `_activatePlugins`: every inactive plugin, in order, is looked up,
     * named, activated and sent its configuration; the first lookup that
     * fails raises and leaves the plugins after it untouched.
     */
    method ActivatePlugins() returns (ok: bool)
      requires Valid()
      modifies this
      ensures Valid() && manager == old(manager) && |plugins| == |old(plugins)|
      ensures ok <==> (old(manager).Some? &&
        forall i :: 0 <= i < |old(plugins)| ==> ActivateOne(extensionsFolder, configs, old(plugins)[i]).Some?)
      ensures ok ==> forall i :: 0 <= i < |plugins| ==> ActivateOne(extensionsFolder, configs, old(plugins)[i]) == Some(plugins[i])
      ensures !ok && old(manager).Some? ==> exists k :: (0 <= k < |plugins|
        && ActivateOne(extensionsFolder, configs, old(plugins)[k]).None?
        && (forall i :: 0 <= i < k ==> ActivateOne(extensionsFolder, configs, old(plugins)[i]) == Some(plugins[i]))
        && plugins[k..] == old(plugins)[k..])
      ensures !ok && old(manager).None? ==> plugins == old(plugins)
    {
      if manager.None? {
        return false;  // `self.manager` does not exist yet
      }
      var i := 0;
      while i < |plugins|
        invariant 0 <= i <= |plugins| == |old(plugins)| && manager == old(manager)
        invariant forall j :: 0 <= j < i ==> ActivateOne(extensionsFolder, configs, old(plugins)[j]) == Some(plugins[j])
        invariant plugins[i..] == old(plugins)[i..]
      {
        assert plugins[i] == old(plugins)[i] by {
          assert plugins[i..][0] == old(plugins)[i..][0];
        }
        if !plugins[i].activated {
          var found := GetPluginConfigAsWritten(extensionsFolder, configs, plugins[i].path);
          if !found.Found? {
            return false;
          }
          var c := found.config;
          var named := plugins[i].(name := c.id, category := c.category);
          var active := named.(activated := true);
          plugins := plugins[i := SendConfigs(active, c)];
        }
        assert plugins[i + 1..] == old(plugins)[i + 1..] by {
          assert forall j :: i + 1 <= j < |plugins| ==> plugins[j] == plugins[i..][j - i];
        }
        i := i + 1;
      }
      ok := true;
    }

    /**
     * `runAll`: create the runtime, take the plugins its discovery reports
     * (a parameter here), and activate them.
     */
    method RunAll(discovered: seq<Plugin>) returns (ok: bool)
      requires Valid()
      modifies this
      ensures Valid()
      ensures old(manager).None? && PluginsLocation().None? ==> !ok && manager == None && plugins == old(plugins)
      ensures old(manager).Some? || PluginsLocation().Some? ==>
        && manager.Some?
        && |plugins| == |discovered|
        && (ok <==> forall i :: 0 <= i < |discovered| ==> ActivateOne(extensionsFolder, configs, discovered[i]).Some?)
        && (ok ==> forall i :: 0 <= i < |plugins| ==> ActivateOne(extensionsFolder, configs, discovered[i]) == Some(plugins[i]))
    {
      var created := CreateManager();
      if created == CreateRaised {
        return false;
      }
      plugins := discovered;  // `collectPlugins()`
      ok := ActivatePlugins();
    }

    /** `countAlive`: the number of active plugins (None where there is no runtime yet and Python raises) */
    function CountAlive(): (n: Option<nat>)
      reads this
      ensures n.Some? <==> manager.Some?
      ensures n.Some? ==> n.value == Alive(plugins)
    {
      if manager.None? then None else Some(Alive(plugins))
    }

    /** `killAll`: every active plugin is deactivated */
    method KillAll() returns (ok: bool)
      requires Valid()
      modifies this
      ensures Valid() && manager == old(manager)
      ensures ok <==> old(manager).Some?
      ensures plugins == Killed(old(plugins))
      ensures ok ==> CountAlive() == Some(0)
    {
      if manager.None? {
        return false;
      }
      var i := 0;
      while i < |plugins|
        invariant 0 <= i <= |plugins| == |old(plugins)| && manager == old(manager)
        invariant forall j :: 0 <= j < i ==> plugins[j] == old(plugins)[j].(activated := false)
        invariant forall j :: i <= j < |plugins| ==> plugins[j] == old(plugins)[j]
      {
        if plugins[i].activated {
          plugins := plugins[i := plugins[i].(activated := false)];
        }
        i := i + 1;
      }
      assert plugins == Killed(old(plugins));
      KilledNoneAlive(old(plugins));
      ok := true;
    }
  }
}
