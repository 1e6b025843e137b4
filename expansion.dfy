/**
 * `ExtensionHandler` (sonic_engine/core/extension.py): one extension
 * declaration becomes a list of instance configurations, which are then
 * installed one after the other.
 *
 * The default instance is the declaration without its `override` map. Each
 * override entry either replaces the default instance in place (its key is the
 * declaration's id) or appends a sibling instance whose id is its key; both
 * are derived from the un-overridden default with `dataclasses.replace`, so a
 * field given as None in an entry does replace. The entries of siblings get
 * their `id` written into the declaration's own map. Finally every instance
 * gets its path: its source when `copy_folder` is falsy, otherwise
 * `<extensions_folder>/<category>/<id>`.
 */
module Expansion {
  import opened Wrappers
  import opened Records
  import Paths
  import EngineUtil
  import Provisioning

  /** The fields expansion reads are present */
  predicate Complete(c: GlobalConfig) {
    c.id.Some? && c.category.Some? && c.source.Some? && Initialized(c)
  }

  /** `ExtensionGlobalConfig(**default_config_dict)`: the declaration's fields without `override` */
  function DefaultInstance(d: Declaration): (c: GlobalConfig)
    ensures Complete(c)
    ensures c.id == Some(d.id) && c.category == Some(d.category) && c.source == Some(d.source)
    ensures c.copyFolder == d.copyFolder && c.branch == d.branch && c.token == d.token && c.path == d.path
    ensures c.log == Some(DefaultLogConfig) && c.options == Some([])
    ensures c.(id := None, category := None, source := None, copyFolder := None, branch := None, token := None,
               path := None, log := None, options := None) == ClassDefaults.(copyFolder := None)
  {
    Construct(DeclarationPatch(d))
  }

  /** The keys of an override map, in iteration order */
  function Keys(es: seq<(string, Entry)>): (ks: seq<string>)
    ensures |ks| == |es| && forall j :: 0 <= j < |es| ==> ks[j] == es[j].0
  {
    seq(|es|, j requires 0 <= j < |es| => es[j].0)
  }

  /** The override keys that add a sibling, in iteration order */
  function SiblingKeys(id: string, es: seq<(string, Entry)>): (ks: seq<string>)
    ensures forall j :: 0 <= j < |ks| ==> ks[j] != id && ks[j] in Keys(es)
    ensures |ks| <= |es|
    decreases |es|
  {
    if es == [] then []
    else
      var ks := SiblingKeys(id, es[..|es| - 1]);
      assert forall k :: k in Keys(es[..|es| - 1]) ==> k in Keys(es) by {
        forall k | k in Keys(es[..|es| - 1]) ensures k in Keys(es) {
          var j :| 0 <= j < |es| - 1 && Keys(es[..|es| - 1])[j] == k;
          assert Keys(es)[j] == k;
        }
      }
      assert Keys(es)[|es| - 1] == es[|es| - 1].0;
      if es[|es| - 1].0 == id then ks else ks + [es[|es| - 1].0]
  }

  /** The entry of a sibling after line 70 has its `id` set to the key; a None entry raises there instead */
  function Mark(id: string, e: (string, Entry)): (string, Entry) {
    if e.0 == id || e.1.NullEntry? then e else (e.0, e.1.(patch := e.1.patch.(id := Some(Some(e.0)))))
  }

  function Marked(id: string, es: seq<(string, Entry)>): (ms: seq<(string, Entry)>)
    ensures |ms| == |es| && forall j :: 0 <= j < |es| ==> ms[j] == Mark(id, es[j])
  {
    seq(|es|, j requires 0 <= j < |es| => Mark(id, es[j]))
  }

  /** The position of the first None entry, where the override loop raises; the length when there is none */
  function FirstNull(es: seq<(string, Entry)>): (k: nat)
    ensures k <= |es|
    ensures k < |es| ==> es[k].1.NullEntry?
    ensures forall j :: 0 <= j < k ==> !es[j].1.NullEntry?
    decreases |es|
  {
    if es == [] || es[0].1.NullEntry? then 0
    else
      var k := FirstNull(es[1..]);
      assert forall j :: 1 <= j < k + 1 ==> es[j] == es[1..][j - 1];
      k + 1
  }

  /** The override map once the loop has run: the entries before the first None entry are marked */
  function MarkedUntilNull(id: string, es: seq<(string, Entry)>): (ms: seq<(string, Entry)>)
    ensures |ms| == |es|
  {
    var k := FirstNull(es);
    Marked(id, es[..k]) + es[k..]
  }

  /** The declaration after `_create_instances_list` wrote the sibling ids into its override map */
  function MarkSiblings(d: Declaration): Declaration {
    if d.override.Some? then d.(override := Some(MarkedUntilNull(d.id, d.override.value))) else d
  }

  /**
   * `override_config(default, entry)` for a mapping: `dataclasses.replace`
   * with the entry as keyword arguments. An unknown key makes the record's
   * `__init__` raise a TypeError that the initialiser wrapper swallows, so
   * the object has no instance fields and reads the class defaults.
   */
  function EntryConfig(def: GlobalConfig, e: Entry): (c: GlobalConfig)
    requires e.Mapping?
    ensures !e.unknownKey ==> Initialized(c)
  {
    if e.unknownKey then ClassDefaults else EngineUtil.OverrideConfig(def, e.patch)
  }

  /**
   * The instance list after the override loop has seen the entries `es`:
   * the default first, replaced by an entry keyed by the declaration's id,
   * then one sibling per other key, each derived from the default. None where
   * the loop raises: a None entry cannot be replaced with, nor have its `id`
   * set.
   */
  function Expanded(def: GlobalConfig, id: string, es: seq<(string, Entry)>): (r: Option<seq<GlobalConfig>>)
    requires Complete(def)
    ensures r.Some? ==> |r.value| == 1 + |SiblingKeys(id, es)|
    ensures r.Some? ==> forall i :: 0 <= i < |r.value| ==> Initialized(r.value[i]) || r.value[i] == ClassDefaults
    decreases |es|
  {
    if es == [] then Some([def])
    else match Expanded(def, id, es[..|es| - 1])
      case None => None
      case Some(r) =>
        var e := es[|es| - 1];
        if e.1.NullEntry? then None
        else if e.0 == id then Some(r[0 := EntryConfig(def, e.1)])
        else Some(r + [EntryConfig(def, Mark(id, e).1)])
  }

  /** The path rule of lines 77-83 raises where `os.path.join` receives a None category or id */
  predicate PathRaises(c: GlobalConfig) {
    Truthy(c.copyFolder) && (c.category.None? || c.id.None?)
  }

  /** The path rule of lines 77-83: None where it raises */
  function ResolvePath(folder: string, c: GlobalConfig): (r: Option<GlobalConfig>)
    ensures r.None? <==> PathRaises(c)
    ensures r.Some? ==> r.value == c.(path := r.value.path)
    ensures r.Some? && !Truthy(c.copyFolder) ==> r.value.path == c.source
  {
    if !Truthy(c.copyFolder) then Some(c.(path := c.source))
    else if c.category.None? || c.id.None? then None
    else Some(c.(path := Some(Paths.JoinAll(folder, [c.category.value, c.id.value]))))
  }

  /** The path loop over the instances, which stops at the first that raises */
  function ResolveAll(folder: string, base: seq<GlobalConfig>): (r: Option<seq<GlobalConfig>>)
    ensures r.None? <==> exists i :: 0 <= i < |base| && PathRaises(base[i])
    ensures r.Some? ==> |r.value| == |base| && forall i :: 0 <= i < |base| ==> Some(r.value[i]) == ResolvePath(folder, base[i])
  {
    if forall i :: 0 <= i < |base| ==> ResolvePath(folder, base[i]).Some? then
      Some(seq(|base|, i requires 0 <= i < |base| && ResolvePath(folder, base[i]).Some? => ResolvePath(folder, base[i]).value))
    else None
  }

  /** The instances before their paths are resolved */
  function Unresolved(d: Declaration): (r: Option<seq<GlobalConfig>>)
    ensures r.Some? ==> |r.value| >= 1
  {
    if d.override.Some? then Expanded(DefaultInstance(d), d.id, d.override.value) else Some([DefaultInstance(d)])
  }

  /** `_create_instances_list()`: None where it raises */
  function Expand(folder: string, d: Declaration): (r: Option<seq<GlobalConfig>>)
    ensures r.Some? ==> Unresolved(d).Some? && |r.value| == |Unresolved(d).value|
    ensures r.Some? ==> forall i :: 0 <= i < |r.value| ==> Initialized(r.value[i])
  {
    match Unresolved(d)
    case None => None
    case Some(base) =>
      var r := ResolveAll(folder, base);
      assert r.Some? ==> forall i :: 0 <= i < |base| ==> base[i] != ClassDefaults by {
        if r.Some? {
          forall i | 0 <= i < |base| ensures base[i] != ClassDefaults {
            assert !PathRaises(base[i]);
          }
        }
      }
      r
  }

  // ---------------------------------------------------------------------------
  // Properties of the expansion

  /** Without overrides there is exactly one instance: the declaration's fields, with the resolved path. */
  lemma NoOverride(folder: string, d: Declaration)
    requires d.override.None? || d.override == Some([])
    ensures Expand(folder, d) == Some([ResolvePath(folder, DefaultInstance(d)).value])
  {
    var def := DefaultInstance(d);
    assert Unresolved(d) == Some([def]);
    var c := ResolvePath(folder, def);
    assert c.Some?;
    var r := ResolveAll(folder, [def]);
    assert r.Some? by {
      assert !PathRaises([def][0]);
    }
    assert r.value == [c.value];
  }

  /** One instance plus one per override key that differs from the declaration's id */
  lemma InstanceCount(folder: string, d: Declaration)
    ensures Expand(folder, d).Some? ==>
      |Expand(folder, d).value| == 1 + if d.override.Some? then |SiblingKeys(d.id, d.override.value)| else 0
  {
  }

  /** The keys of an override map are distinct */
  predicate DistinctKeys(es: seq<(string, Entry)>) {
    forall i, j :: 0 <= i < j < |es| ==> es[i].0 != es[j].0
  }

  lemma {:induction false} SiblingKeysDistinct(id: string, es: seq<(string, Entry)>)
    requires DistinctKeys(es)
    ensures forall i, j :: 0 <= i < j < |SiblingKeys(id, es)| ==> SiblingKeys(id, es)[i] != SiblingKeys(id, es)[j]
    decreases |es|
  {
    if es != [] {
      var init := es[..|es| - 1];
      SiblingKeysDistinct(id, init);
      var last := es[|es| - 1].0;
      forall k | k in Keys(init) ensures k != last {
        var j :| 0 <= j < |init| && Keys(init)[j] == k;
      }
    }
  }

  /** The loop raises exactly when the map holds a None entry. */
  lemma {:induction false} ExpandedNull(def: GlobalConfig, id: string, es: seq<(string, Entry)>)
    requires Complete(def)
    ensures Expanded(def, id, es).None? <==> exists j :: 0 <= j < |es| && es[j].1.NullEntry?
    decreases |es|
  {
    if es != [] {
      var init := es[..|es| - 1];
      ExpandedNull(def, id, init);
      if exists j :: 0 <= j < |init| && init[j].1.NullEntry? {
        var j :| 0 <= j < |init| && init[j].1.NullEntry?;
        assert es[j] == init[j];
      }
      if exists j :: 0 <= j < |es| && es[j].1.NullEntry? {
        var j :| 0 <= j < |es| && es[j].1.NullEntry?;
        if j < |init| {
          assert init[j] == es[j];
        }
      }
    }
  }

  /**
   * Element 0 is the default, overridden in place by the entry keyed by the
   * declaration's id when there is one; no such entry ever appends.
   */
  lemma {:induction false} SelfOverride(def: GlobalConfig, id: string, es: seq<(string, Entry)>)
    requires Complete(def) && DistinctKeys(es)
    ensures Expanded(def, id, es).Some? ==> forall j :: 0 <= j < |es| && es[j].0 == id ==>
      es[j].1.Mapping? && Expanded(def, id, es).value[0] == EntryConfig(def, es[j].1)
    ensures Expanded(def, id, es).Some? && id !in Keys(es) ==> Expanded(def, id, es).value[0] == def
    decreases |es|
  {
    if es != [] {
      var init := es[..|es| - 1];
      SelfOverride(def, id, init);
      var r := Expanded(def, id, es);
      if r.Some? {
        forall j | 0 <= j < |es| && es[j].0 == id
          ensures es[j].1.Mapping? && r.value[0] == EntryConfig(def, es[j].1)
        {
          if j < |es| - 1 {
            assert init[j] == es[j];
          }
        }
        if id !in Keys(es) {
          assert forall j :: 0 <= j < |init| ==> init[j] == es[j];
          assert Keys(es)[|es| - 1] == es[|es| - 1].0;
        }
      }
    }
  }

  /**
   * The sibling for the `n`-th key different from the declaration's id sits at
   * index `1 + n`: it is the un-overridden default replaced with that entry,
   * whose `id` has been set to the key.
   */
  lemma {:induction false} SiblingAt(def: GlobalConfig, id: string, es: seq<(string, Entry)>, j: nat)
    requires Complete(def) && j < |es| && es[j].0 != id
    ensures var n := |SiblingKeys(id, es[..j])|;
      Expanded(def, id, es).Some? ==>
        && es[j].1.Mapping?
        && 1 + n < |Expanded(def, id, es).value|
        && SiblingKeys(id, es)[n] == es[j].0
        && Expanded(def, id, es).value[1 + n] == EntryConfig(def, Mark(id, es[j]).1)
    decreases |es|
  {
    var init := es[..|es| - 1];
    if j == |es| - 1 {
      assert init == es[..j];
    } else {
      SiblingAt(def, id, init, j);
      assert init[..j] == es[..j];
      assert init[j] == es[j];
    }
  }

  /** Every instance of the list is the default or comes from one mapping entry of the map. */
  lemma {:induction false} ExpandedFrom(def: GlobalConfig, id: string, es: seq<(string, Entry)>)
    requires Complete(def)
    ensures var r := Expanded(def, id, es);
      r.Some? ==> forall i :: 0 <= i < |r.value| ==>
        r.value[i] == def || exists j :: 0 <= j < |es| && es[j].1.Mapping? && r.value[i] == EntryConfig(def, Mark(id, es[j]).1)
    decreases |es|
  {
    var r := Expanded(def, id, es);
    if es != [] && r.Some? {
      var init := es[..|es| - 1];
      ExpandedFrom(def, id, init);
      var last := |es| - 1;
      forall i | 0 <= i < |r.value|
        ensures r.value[i] == def || exists j :: 0 <= j < |es| && es[j].1.Mapping? && r.value[i] == EntryConfig(def, Mark(id, es[j]).1)
      {
        assert Expanded(def, id, init).Some?;
        var p := Expanded(def, id, init).value;
        if i < |p| && r.value[i] == p[i] {
          if p[i] != def {
            var j :| 0 <= j < |init| && init[j].1.Mapping? && p[i] == EntryConfig(def, Mark(id, init[j]).1);
            assert es[j] == init[j];
          }
        } else {
          assert es[last].1.Mapping? && r.value[i] == EntryConfig(def, Mark(id, es[last]).1);
        }
      }
    }
  }

  /** Whether an entry of the map makes `_create_instances_list` raise */
  predicate Faults(def: GlobalConfig, id: string, e: (string, Entry)) {
    e.1.NullEntry? || PathRaises(EntryConfig(def, Mark(id, e).1))
  }

  /** A faulty entry leaves an instance whose path cannot be joined, when the loop gets past it. */
  lemma FaultLeavesUnjoinable(def: GlobalConfig, id: string, es: seq<(string, Entry)>, j: nat)
    requires Complete(def) && DistinctKeys(es) && j < |es| && Faults(def, id, es[j])
    requires Expanded(def, id, es).Some?
    ensures exists i :: 0 <= i < |Expanded(def, id, es).value| && PathRaises(Expanded(def, id, es).value[i])
  {
    var u := Expanded(def, id, es).value;
    if es[j].0 == id {
      SelfOverride(def, id, es);
      assert PathRaises(u[0]);
    } else {
      SiblingAt(def, id, es, j);
      assert PathRaises(u[1 + |SiblingKeys(id, es[..j])|]);
    }
  }

  /** An instance whose path cannot be joined comes from a faulty entry. */
  lemma UnjoinableFromFault(def: GlobalConfig, id: string, es: seq<(string, Entry)>, i: nat)
    requires Complete(def) && Expanded(def, id, es).Some?
    requires i < |Expanded(def, id, es).value| && PathRaises(Expanded(def, id, es).value[i])
    ensures exists j :: 0 <= j < |es| && Faults(def, id, es[j])
  {
    var u := Expanded(def, id, es).value;
    ExpandedFrom(def, id, es);
    assert !PathRaises(def);
    var j :| 0 <= j < |es| && es[j].1.Mapping? && u[i] == EntryConfig(def, Mark(id, es[j]).1);
    assert Faults(def, id, es[j]);
  }

  /**
   * `_create_instances_list` raises exactly when one entry of the map is None
   * or yields an instance whose path cannot be joined: it has a truthy
   * `copy_folder` and a None category or id, as the class defaults read by an
   * entry with an unknown key have.
   */
  lemma ExpandRaises(folder: string, d: Declaration)
    requires ValidDeclaration(d)
    ensures Expand(folder, d).None? <==>
      d.override.Some? && exists j :: 0 <= j < |d.override.value| && Faults(DefaultInstance(d), d.id, d.override.value[j])
  {
    var def := DefaultInstance(d);
    if d.override.Some? {
      var es := d.override.value;
      ExpandedNull(def, d.id, es);
      var u := Expanded(def, d.id, es);
      if u.Some? {
        if exists j :: 0 <= j < |es| && Faults(def, d.id, es[j]) {
          var j :| 0 <= j < |es| && Faults(def, d.id, es[j]);
          FaultLeavesUnjoinable(def, d.id, es, j);
        }
        if Expand(folder, d).None? {
          var i :| 0 <= i < |u.value| && PathRaises(u.value[i]);
          UnjoinableFromFault(def, d.id, es, i);
        }
      }
    } else {
      assert ResolveAll(folder, [def]).Some? by {
        assert !PathRaises(def);
      }
    }
  }

  /**
   * The entries that raise: a None entry; an entry with a key the record does
   * not have; and an entry that, under a truthy `copy_folder`, sets the
   * category, or for the default instance the id, to None.
   */
  lemma EntryRaises(folder: string, d: Declaration, j: nat)
    requires ValidDeclaration(d) && d.override.Some? && j < |d.override.value|
    ensures d.override.value[j].1.NullEntry? ==> Expand(folder, d).None?
    ensures d.override.value[j].1.Mapping? && d.override.value[j].1.unknownKey ==> Expand(folder, d).None?
    ensures var (key, e) := d.override.value[j];
      (e.Mapping? && Truthy(e.patch.copyFolder.GetOr(d.copyFolder)) &&
       (e.patch.category == Some(None) || (key == d.id && e.patch.id == Some(None)))) ==> Expand(folder, d).None?
  {
    ExpandRaises(folder, d);
    var def := DefaultInstance(d);
    assert Faults(def, d.id, d.override.value[j]) ==> Expand(folder, d).None?;
  }

  /** Ids of the expanded list: the declaration's id first, then the sibling keys in order */
  lemma {:induction false} ExpandedIds(def: GlobalConfig, id: string, es: seq<(string, Entry)>)
    requires Complete(def) && def.id == Some(id)
    requires forall j :: 0 <= j < |es| && es[j].0 == id && es[j].1.Mapping? ==>
      es[j].1.patch.id.None? || es[j].1.patch.id == Some(Some(id))
    ensures var r := Expanded(def, id, es);
      r.Some? ==>
        && (r.value[0].id == Some(id) || r.value[0] == ClassDefaults)
        && forall i :: 1 <= i < |r.value| ==> r.value[i].id == Some(SiblingKeys(id, es)[i - 1]) || r.value[i] == ClassDefaults
    decreases |es|
  {
    if es != [] {
      var init := es[..|es| - 1];
      assert forall j :: 0 <= j < |init| ==> init[j] == es[j];
      ExpandedIds(def, id, init);
    }
  }

  /**
   * With the distinct keys of a map, and an entry for the default instance
   * that leaves its id alone, the instance ids are pairwise distinct.
   */
  lemma DistinctIds(folder: string, d: Declaration)
    requires ValidDeclaration(d)
    requires d.override.Some? ==> forall j :: (0 <= j < |d.override.value| && d.override.value[j].0 == d.id &&
      d.override.value[j].1.Mapping?) ==> d.override.value[j].1.patch.id.None? || d.override.value[j].1.patch.id == Some(Some(d.id))
    ensures var r := Expand(folder, d);
      r.Some? ==> forall i, j :: 0 <= i < j < |r.value| ==> r.value[i].id != r.value[j].id
  {
    var r := Expand(folder, d);
    if r.Some? && d.override.Some? {
      var es := d.override.value;
      var def := DefaultInstance(d);
      var base := Unresolved(d).value;
      ExpandedIds(def, d.id, es);
      SiblingKeysDistinct(d.id, es);
      forall i | 0 <= i < |base| ensures r.value[i].id == base[i].id && base[i] != ClassDefaults {
        assert !PathRaises(base[i]);
      }
    }
  }

  /**
   * Two entries for ids other than the declaration's may not collide, but the
   * entry for the default instance may rename it onto a sibling: then two
   * instances share an id.
   */
  lemma DefaultRenamedOntoSibling(def: GlobalConfig, id: string, other: string)
    requires Complete(def) && def.id == Some(id) && other != id
    ensures var es := [(id, Mapping(EmptyPatch.(id := Some(Some(other))), false)), (other, Mapping(EmptyPatch, false))];
      && DistinctKeys(es)
      && Expanded(def, id, es).Some?
      && |Expanded(def, id, es).value| == 2
      && Expanded(def, id, es).value[0].id == Expanded(def, id, es).value[1].id == Some(other)
  {
    var es := [(id, Mapping(EmptyPatch.(id := Some(Some(other))), false)), (other, Mapping(EmptyPatch, false))];
    var first := EntryConfig(def, es[0].1);
    var s1 := es[..1];
    assert |s1| == 1 && s1[..0] == [] && s1[0] == es[0] && s1[0].0 == id;
    assert Expanded(def, id, s1[..0]) == Some([def]);
    assert [def][0 := first] == [first];
    assert Expanded(def, id, s1) == Some([first]);
    var second := EntryConfig(def, Mark(id, es[1]).1);
    assert es[..|es| - 1] == s1 && es[1].0 != id && es[1].1.Mapping?;
    assert [first] + [second] == [first, second];
    assert Expanded(def, id, es) == Some([first, second]);
  }

  /**
   * The path rule: a falsy `copy_folder` runs the instance in place at its
   * source; otherwise it lives at `<folder>/<category>/<id>`.
   */
  lemma PathRule(folder: string, d: Declaration, i: nat)
    requires Expand(folder, d).Some? && i < |Expand(folder, d).value|
    ensures var c := Expand(folder, d).value[i];
      && (!Truthy(c.copyFolder) ==> c.path == c.source)
      && (Truthy(c.copyFolder) ==>
            c.category.Some? && c.id.Some? && c.path == Some(Paths.JoinAll(folder, [c.category.value, c.id.value])))
      && (Truthy(c.copyFolder) && folder != [] && folder[|folder| - 1] != '/' &&
          Paths.IsComponent(c.category.value) && Paths.IsComponent(c.id.value) ==>
            c.path == Some(folder + "/" + c.category.value + "/" + c.id.value))
      && c == Unresolved(d).value[i].(path := c.path)
  {
    var c := Expand(folder, d).value[i];
    if Truthy(c.copyFolder) && folder != [] && folder[|folder| - 1] != '/' &&
       Paths.IsComponent(c.category.value) && Paths.IsComponent(c.id.value) {
      Paths.JoinThree(folder, c.category.value, c.id.value);
    }
  }

  /** The first None entry is the one every earlier entry precedes. */
  lemma FirstNullAt(es: seq<(string, Entry)>, k: nat)
    requires k <= |es| && (k < |es| ==> es[k].1.NullEntry?)
    requires forall j :: 0 <= j < k ==> !es[j].1.NullEntry?
    ensures FirstNull(es) == k
  {
  }

  /** The entries before the first None entry are marked, the others are as they were. */
  lemma MarkedUntilNullAt(id: string, es: seq<(string, Entry)>, j: nat)
    requires j < |es|
    ensures MarkedUntilNull(id, es)[j] == if j < FirstNull(es) then Mark(id, es[j]) else es[j]
  {
    var k := FirstNull(es);
    if j < k {
      assert MarkedUntilNull(id, es)[j] == Mark(id, es[j]) by {
        var front := Marked(id, es[..k]);
        assert MarkedUntilNull(id, es)[j] == front[j] == Mark(id, es[..k][j]);
        assert es[..k][j] == es[j];
      }
    } else {
      assert MarkedUntilNull(id, es)[j] == es[j] by {
        assert MarkedUntilNull(id, es)[j] == es[k..][j - k];
      }
    }
  }

  /** Marking never creates or removes a None entry. */
  lemma MarkedNulls(id: string, es: seq<(string, Entry)>)
    ensures forall j :: 0 <= j < |es| ==> (MarkedUntilNull(id, es)[j].1.NullEntry? <==> es[j].1.NullEntry?)
    ensures FirstNull(MarkedUntilNull(id, es)) == FirstNull(es)
  {
    var k := FirstNull(es);
    var ms := MarkedUntilNull(id, es);
    forall j | 0 <= j < |es| ensures ms[j].1.NullEntry? <==> es[j].1.NullEntry? {
      MarkedUntilNullAt(id, es, j);
    }
    FirstNullAt(ms, k);
  }

  /** Running the loop again on its own output changes the map no further. */
  lemma MarkSiblingsIdempotent(d: Declaration)
    ensures MarkSiblings(MarkSiblings(d)) == MarkSiblings(d)
  {
    if d.override.Some? {
      var es := d.override.value;
      var k := FirstNull(es);
      var ms := MarkedUntilNull(d.id, es);
      MarkedNulls(d.id, es);
      assert ms[..k] == Marked(d.id, es[..k]) && ms[k..] == es[k..];
      assert Marked(d.id, Marked(d.id, es[..k])) == Marked(d.id, es[..k]);
    }
  }

  lemma {:induction false} ExpandedMarked(def: GlobalConfig, id: string, es: seq<(string, Entry)>)
    requires Complete(def)
    ensures Expanded(def, id, Marked(id, es)) == Expanded(def, id, es)
    decreases |es|
  {
    if es != [] {
      var init := es[..|es| - 1];
      assert Marked(id, es)[..|es| - 1] == Marked(id, init);
      ExpandedMarked(def, id, init);
      SiblingKeysMarked(id, es);
    }
  }

  lemma {:induction false} SiblingKeysMarked(id: string, es: seq<(string, Entry)>)
    ensures SiblingKeys(id, Marked(id, es)) == SiblingKeys(id, es)
    decreases |es|
  {
    if es != [] {
      var init := es[..|es| - 1];
      assert Marked(id, es)[..|es| - 1] == Marked(id, init);
      SiblingKeysMarked(id, init);
    }
  }

  /** The ids written into the declaration's map change nothing when the list is built again. */
  lemma ExpandAgain(folder: string, d: Declaration)
    ensures Expand(folder, MarkSiblings(d)) == Expand(folder, d)
  {
    assert DefaultInstance(MarkSiblings(d)) == DefaultInstance(d);
    if d.override.Some? {
      var es := d.override.value;
      var def := DefaultInstance(d);
      var ms := MarkedUntilNull(d.id, es);
      var k := FirstNull(es);
      MarkedNulls(d.id, es);
      ExpandedNull(def, d.id, es);
      ExpandedNull(def, d.id, ms);
      if k == |es| {
        assert ms == Marked(d.id, es) by {
          assert es[..k] == es && es[k..] == [];
        }
        ExpandedMarked(def, d.id, es);
      } else {
        assert ms[k].1.NullEntry?;
      }
    }
  }

  // ---------------------------------------------------------------------------
  // Installing the instances

  /** What `install` ends in: one entry per instance, or an exception or exit that stopped the loop */
  datatype FanOut = Completed(results: seq<Option<GlobalConfig>>) | Aborted(result: Provisioning.InstallResult)

  /** The results of the instances seen before, in front of what the rest yields */
  function PrependAll(xs: seq<Option<GlobalConfig>>, r: (Provisioning.World, FanOut)): (Provisioning.World, FanOut) {
    match r.1
    case Completed(ys) => (r.0, Completed(xs + ys))
    case Aborted(_) => r
  }

  /** The instances installed in order on the same machine; Exit and exceptions stop the loop */
  function FanOutSpec(o: Provisioning.Oracles, policy: Option<bool>, w: Provisioning.World, cs: seq<GlobalConfig>)
    : (r: (Provisioning.World, FanOut))
    requires forall i :: 0 <= i < |cs| ==> Initialized(cs[i])
    decreases |cs|
  {
    if cs == [] then (w, Completed([]))
    else
      var run := Provisioning.InstallSpec(Provisioning.AsWritten, o, policy, w, cs[0]);
      match run.result
      case Installed(c) => PrependAll([Some(c)], FanOutSpec(o, policy, run.world, cs[1..]))
      case Failed => PrependAll([None], FanOutSpec(o, policy, run.world, cs[1..]))
      case _ => (run.world, Aborted(run.result))
  }

  /**
   * A completed installation returns one entry per instance, in order: None
   * for an instance whose transfer failed, otherwise its final configuration,
   * which keeps the instance's path.
   */
  lemma {:induction false} FanOutEntries(o: Provisioning.Oracles, policy: Option<bool>, w: Provisioning.World, cs: seq<GlobalConfig>)
    requires forall i :: 0 <= i < |cs| ==> Initialized(cs[i])
    ensures var r := FanOutSpec(o, policy, w, cs);
      r.1.Completed? ==>
        && |r.1.results| == |cs|
        && forall i :: 0 <= i < |cs| && r.1.results[i].Some? ==> r.1.results[i].value.path == cs[i].path
    decreases |cs|
  {
    if cs != [] {
      var run := Provisioning.InstallSpec(Provisioning.AsWritten, o, policy, w, cs[0]);
      var rest := FanOutSpec(o, policy, run.world, cs[1..]);
      FanOutEntries(o, policy, run.world, cs[1..]);
      if rest.1.Completed? && (run.result.Installed? || run.result.Failed?) {
        var x := if run.result.Installed? then Some(run.result.config) else None;
        assert FanOutSpec(o, policy, w, cs) == PrependAll([x], rest);
        PrependEntries(x, rest.1.results, cs);
      }
    }
  }

  /** One more entry in front keeps every entry at its instance's path. */
  lemma PrependEntries(x: Option<GlobalConfig>, ys: seq<Option<GlobalConfig>>, cs: seq<GlobalConfig>)
    requires |cs| >= 1 && |ys| == |cs| - 1 && (x.Some? ==> x.value.path == cs[0].path)
    requires forall i :: 0 <= i < |ys| && ys[i].Some? ==> ys[i].value.path == cs[1..][i].path
    ensures |[x] + ys| == |cs|
    ensures forall i :: 0 <= i < |cs| && ([x] + ys)[i].Some? ==> ([x] + ys)[i].value.path == cs[i].path
  {
    forall i | 1 <= i < |cs| && ([x] + ys)[i].Some?
      ensures ([x] + ys)[i].value.path == cs[i].path
    {
      assert ([x] + ys)[i] == ys[i - 1] && cs[1..][i - 1] == cs[i];
    }
  }

  /** The loop stops early only on `stop_engine(1)` or an exception. */
  lemma {:induction false} FanOutAborted(o: Provisioning.Oracles, policy: Option<bool>, w: Provisioning.World, cs: seq<GlobalConfig>)
    requires forall i :: 0 <= i < |cs| ==> Initialized(cs[i])
    ensures var r := FanOutSpec(o, policy, w, cs);
      r.1.Aborted? ==> r.1.result == Provisioning.Exit(1) || r.1.result.Raised?
    decreases |cs|
  {
    if cs != [] {
      var run := Provisioning.InstallSpec(Provisioning.AsWritten, o, policy, w, cs[0]);
      var rest := FanOutSpec(o, policy, run.world, cs[1..]);
      FanOutAborted(o, policy, run.world, cs[1..]);
      if run.result.Installed? {
        assert FanOutSpec(o, policy, w, cs) == PrependAll([Some(run.result.config)], rest);
      } else if run.result.Failed? {
        assert FanOutSpec(o, policy, w, cs) == PrependAll([None], rest);
      } else {
        assert FanOutSpec(o, policy, w, cs) == (run.world, Aborted(run.result));
      }
    }
  }

  /** One instance of the loop: what is left after it, in front of the results so far */
  lemma FanOutStep(o: Provisioning.Oracles, policy: Option<bool>, w: Provisioning.World, cs: seq<GlobalConfig>,
                   results: seq<Option<GlobalConfig>>)
    requires cs != [] && forall i :: 0 <= i < |cs| ==> Initialized(cs[i])
    ensures var run := Provisioning.InstallSpec(Provisioning.AsWritten, o, policy, w, cs[0]);
      PrependAll(results, FanOutSpec(o, policy, w, cs)) ==
        if run.result.Installed? then PrependAll(results + [Some(run.result.config)], FanOutSpec(o, policy, run.world, cs[1..]))
        else if run.result.Failed? then PrependAll(results + [None], FanOutSpec(o, policy, run.world, cs[1..]))
        else (run.world, Aborted(run.result))
  {
    var run := Provisioning.InstallSpec(Provisioning.AsWritten, o, policy, w, cs[0]);
    var rest := FanOutSpec(o, policy, run.world, cs[1..]);
    if run.result.Installed? {
      PrependAllStep(results, Some(run.result.config), rest);
    } else if run.result.Failed? {
      PrependAllStep(results, None, rest);
    }
  }

  /** One entry of the override loop, before any None entry */
  lemma OverrideStep(def: GlobalConfig, id: string, es: seq<(string, Entry)>, i: nat)
    requires Complete(def) && i < |es|
    ensures Marked(id, es[..i + 1]) == Marked(id, es[..i]) + [Mark(id, es[i])]
    ensures (Marked(id, es[..i]) + es[i..])[i] == es[i]
    ensures (Marked(id, es[..i]) + es[i..])[i := Mark(id, es[i])] == Marked(id, es[..i + 1]) + es[i + 1..]
    ensures Expanded(def, id, es[..i]).Some? && es[i].1.Mapping? ==>
      Expanded(def, id, es[..i + 1]) ==
        if es[i].0 == id then Some(Expanded(def, id, es[..i]).value[0 := EntryConfig(def, es[i].1)])
        else Some(Expanded(def, id, es[..i]).value + [EntryConfig(def, Mark(id, es[i]).1)])
  {
    assert es[..i + 1][..i] == es[..i];
  }

  /** The loop meets its first None entry: the list cannot be built, and the entries before it are marked. */
  lemma NullStops(def: GlobalConfig, id: string, es: seq<(string, Entry)>, i: nat)
    requires Complete(def) && i < |es| && es[i].1.NullEntry?
    requires forall j :: 0 <= j < i ==> !es[j].1.NullEntry?
    ensures Expanded(def, id, es).None?
    ensures Marked(id, es[..i]) + es[i..] == MarkedUntilNull(id, es)
  {
    ExpandedNull(def, id, es);
    FirstNullAt(es, i);
  }

  lemma PrependAllEmpty(r: (Provisioning.World, FanOut))
    ensures PrependAll([], r) == r
  {
    if r.1.Completed? {
      assert [] + r.1.results == r.1.results;
    }
  }

  /** After the last instance, the results gathered are the answer */
  lemma PrependAllDone(o: Provisioning.Oracles, policy: Option<bool>, w: Provisioning.World, results: seq<Option<GlobalConfig>>)
    ensures PrependAll(results, FanOutSpec(o, policy, w, [])) == (w, Completed(results))
  {
    assert results + [] == results;
  }

  lemma PrependAllStep(xs: seq<Option<GlobalConfig>>, x: Option<GlobalConfig>, r: (Provisioning.World, FanOut))
    ensures PrependAll(xs, PrependAll([x], r)) == PrependAll(xs + [x], r)
  {
    if r.1.Completed? {
      assert xs + ([x] + r.1.results) == xs + [x] + r.1.results;
    }
  }

  /** `ExtensionHandler`: the extensions folder and folder policy from the metadata, and one declaration */
  class ExtensionHandler {
    const extensionsFolder: string
    const replaceExisting: Option<bool>
    var config: Declaration

    constructor (meta: Metadata, config: Declaration)
      ensures extensionsFolder == meta.extensionsFolder && replaceExisting == meta.replaceExisting
      ensures this.config == config
    {
      extensionsFolder := meta.extensionsFolder;
      replaceExisting := meta.replaceExisting;
      this.config := config;
    }

    /** `_create_instances_list()`: None where it raises, after writing the sibling ids it reached */
    method CreateInstancesList() returns (instances: Option<seq<GlobalConfig>>)
      modifies this
      ensures instances == Expand(extensionsFolder, old(config))
      ensures config == MarkSiblings(old(config))
    {
      var default := Construct(DeclarationPatch(config));
      var base := ApplyOverrides(default);
      assert base == Unresolved(old(config));
      if base.None? {
        return None;
      }
      instances := ResolvePaths(base.value);
    }

    /** Lines 51-75: the default instance, then the override entries in iteration order */
    method ApplyOverrides(default: GlobalConfig) returns (instances: Option<seq<GlobalConfig>>)
      requires default == DefaultInstance(config)
      modifies this
      ensures instances == Unresolved(old(config))
      ensures config == MarkSiblings(old(config))
    {
      if config.override.None? {
        instances := Some([default]);
        return;
      }
      var entries;
      instances, entries := OverrideEntries(default, config.id, config.override.value);
      config := config.(override := Some(entries));
    }

    /**
     * The loop of lines 57-75 over the entries of the map: an entry for `id`
     * replaces the default in place, any other gets its `id` set to its key
     * and appends a sibling. A None entry raises, leaving the entries after
     * it unmarked.
     */
    method OverrideEntries(default: GlobalConfig, id: string, es: seq<(string, Entry)>)
      returns (instances: Option<seq<GlobalConfig>>, entries: seq<(string, Entry)>)
      requires Complete(default)
      ensures instances == Expanded(default, id, es)
      ensures entries == MarkedUntilNull(id, es)
    {
      var list := [default];
      entries := es;
      assert Marked(id, es[..0]) + es[0..] == es;
      var i := 0;
      while i < |entries|
        invariant 0 <= i <= |es| && entries == Marked(id, es[..i]) + es[i..]
        invariant forall j :: 0 <= j < i ==> !es[j].1.NullEntry?
        invariant Expanded(default, id, es[..i]) == Some(list)
      {
        var (key, entry) := entries[i];
        OverrideStep(default, id, es, i);
        if entry.NullEntry? {
          // `override_config(default, None)` and `None["id"] = ...` both raise a TypeError
          NullStops(default, id, es, i);
          return None, entries;
        }
        if key == id {
          list := list[0 := EntryConfig(default, entry)];
        } else {
          entries := entries[i := (key, entry.(patch := entry.patch.(id := Some(Some(key)))))];
          list := list + [EntryConfig(default, entries[i].1)];
        }
        i := i + 1;
      }
      assert es[..i] == es && es[i..] == [];
      instances := Some(list);
    }

    /** Lines 77-83: every instance gets its path; a None category or id under a truthy `copy_folder` raises */
    method ResolvePaths(base: seq<GlobalConfig>) returns (instances: Option<seq<GlobalConfig>>)
      ensures instances == ResolveAll(extensionsFolder, base)
    {
      var list := base;
      var j := 0;
      while j < |list|
        invariant 0 <= j <= |list| == |base|
        invariant forall k :: 0 <= k < j ==> Some(list[k]) == ResolvePath(extensionsFolder, base[k])
        invariant forall k :: j <= k < |base| ==> list[k] == base[k]
      {
        var c := list[j];
        if !Truthy(c.copyFolder) {
          list := list[j := c.(path := c.source)];
        } else if c.category.None? || c.id.None? {
          // `os.path.join` raises a TypeError on None
          assert PathRaises(base[j]);
          return None;
        } else {
          list := list[j := c.(path := Some(Paths.JoinAll(extensionsFolder, [c.category.value, c.id.value])))];
        }
        j := j + 1;
      }
      var r := ResolveAll(extensionsFolder, base);
      assert r.Some? by {
        forall i | 0 <= i < |base| ensures !PathRaises(base[i]) {
          assert ResolvePath(extensionsFolder, base[i]).Some?;
        }
      }
      assert list == r.value;
      instances := Some(list);
    }

    /** `install()`: the instances installed in order, or the exception `_create_instances_list` raised */
    method Install(host: Provisioning.Host) returns (r: FanOut)
      modifies this, host
      ensures Expand(extensionsFolder, old(config)).None? ==>
        r == Aborted(Provisioning.Raised) && host.Snapshot() == old(host.Snapshot())
      ensures Expand(extensionsFolder, old(config)).Some? ==>
        (host.Snapshot(), r) ==
          FanOutSpec(host.oracles, replaceExisting, old(host.Snapshot()), Expand(extensionsFolder, old(config)).value)
      ensures config == MarkSiblings(old(config))
    {
      var instances := CreateInstancesList();
      if instances.None? {
        return Aborted(Provisioning.Raised);
      }
      r := InstallAll(host, instances.value);
    }

    /** The loop of `install`: each instance in order on the same machine, until one stops the engine or raises */
    method InstallAll(host: Provisioning.Host, instances: seq<GlobalConfig>) returns (r: FanOut)
      requires forall i :: 0 <= i < |instances| ==> Initialized(instances[i])
      modifies host
      ensures (host.Snapshot(), r) == FanOutSpec(host.oracles, replaceExisting, old(host.Snapshot()), instances)
    {
      ghost var w0 := host.Snapshot();
      var results: seq<Option<GlobalConfig>> := [];
      assert instances[0..] == instances;
      PrependAllEmpty(FanOutSpec(host.oracles, replaceExisting, w0, instances));
      var i := 0;
      while i < |instances|
        invariant 0 <= i <= |instances|
        invariant FanOutSpec(host.oracles, replaceExisting, w0, instances) ==
                  PrependAll(results, FanOutSpec(host.oracles, replaceExisting, host.Snapshot(), instances[i..]))
      {
        ghost var before := host.Snapshot();
        var handler := new Provisioning.InstanceHandler(instances[i], replaceExisting, host);
        var result := handler.Install();
        assert instances[i..][0] == instances[i] && instances[i..][1..] == instances[i + 1..];
        FanOutStep(host.oracles, replaceExisting, before, instances[i..], results);
        assert handler.host == host && handler.replaceExisting == replaceExisting;
        assert Provisioning.Outcome(host.Snapshot(), handler.config, result) ==
               Provisioning.InstallSpec(Provisioning.AsWritten, host.oracles, replaceExisting, before, instances[i]);
        if result.Installed? {
          results := results + [Some(result.config)];
        } else if result.Failed? {
          results := results + [None];
        } else {
          r := Aborted(result);
          return;
        }
        i := i + 1;
      }
      assert instances[i..] == [];
      PrependAllDone(host.oracles, replaceExisting, host.Snapshot(), results);
      r := Completed(results);
    }
  }
}
