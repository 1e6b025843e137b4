/**
 * Dynamically typed Python values as the configuration code sees them after
 * YAML parsing: scalars, lists, insertion-ordered dicts, and record objects
 * (dataclass instances, which are not dicts). A dict is an association list
 * whose keys are distinct; a later store to an existing key keeps its position.
 */
module PyValues {
  import opened Wrappers

  datatype Value =
    | Null
    | Bool(b: bool)
    | Int(i: int)
    | Str(s: string)
    | List(items: seq<Value>)
    | Dict(entries: seq<(string, Value)>)
    | Obj(cls: string, attrs: seq<(string, Value)>)

  type Entries = seq<(string, Value)>

  function Size(v: Value): nat
    decreases v, 1
  {
    match v
    case List(items) => 1 + ItemsSize(items)
    case Dict(es) => 1 + EntriesSize(es)
    case Obj(_, es) => 1 + EntriesSize(es)
    case _ => 1
  }

  function ItemsSize(items: seq<Value>): nat
    decreases items, 0
  {
    if items == [] then 0 else Size(items[0]) + ItemsSize(items[1..])
  }

  /** Each entry weighs one more than its value, so a dict outweighs each of its values. */
  function EntriesSize(es: Entries): nat
    decreases es, 0
  {
    if es == [] then 0
    else
      assert es[0].1 < es[0];
      1 + Size(es[0].1) + EntriesSize(es[1..])
  }

  /** The keys of a dict, in insertion order */
  function Keys(es: Entries): (ks: seq<string>)
    ensures |ks| == |es|
    ensures forall i :: 0 <= i < |es| ==> ks[i] == es[i].0
  {
    if es == [] then [] else [es[0].0] + Keys(es[1..])
  }

  function KeySet(es: Entries): set<string> {
    set i | 0 <= i < |es| :: es[i].0
  }

  predicate DistinctKeys(es: Entries) {
    forall i, j :: 0 <= i < j < |es| ==> es[i].0 != es[j].0
  }

  /** `d.get(k)`: the value under the first entry with key `k` */
  function Lookup(es: Entries, k: string): (r: Option<Value>)
    ensures r.None? <==> k !in KeySet(es)
  {
    if es == [] then None
    else if es[0].0 == k then Some(es[0].1)
    else
      assert KeySet(es) == {es[0].0} + KeySet(es[1..]);
      Lookup(es[1..], k)
  }

  /** Index of the entry with key `k` */
  function IndexOf(es: Entries, k: string): (i: nat)
    requires k in KeySet(es)
    ensures i < |es| && es[i].0 == k
    ensures forall j :: 0 <= j < i ==> es[j].0 != k
  {
    if es[0].0 == k then 0
    else
      assert KeySet(es) == {es[0].0} + KeySet(es[1..]);
      1 + IndexOf(es[1..], k)
  }

  lemma LookupAt(es: Entries, i: nat)
    requires DistinctKeys(es) && i < |es|
    ensures Lookup(es, es[i].0) == Some(es[i].1)
  {
    var k := es[i].0;
    assert k in KeySet(es);
    var j := IndexOf(es, k);
    LookupIndex(es, k);
  }

  lemma {:induction false} LookupIndex(es: Entries, k: string)
    requires k in KeySet(es)
    ensures Lookup(es, k) == Some(es[IndexOf(es, k)].1)
  {
    if es[0].0 != k {
      assert KeySet(es) == {es[0].0} + KeySet(es[1..]);
      LookupIndex(es[1..], k);
    }
  }

  /** `d[k] = v`: overwrite in place when `k` is present, append otherwise */
  function Store(es: Entries, k: string, v: Value): (r: Entries)
  {
    if k in KeySet(es) then es[IndexOf(es, k) := (k, v)] else es + [(k, v)]
  }

  lemma StoreKeys(es: Entries, k: string, v: Value)
    ensures KeySet(Store(es, k, v)) == KeySet(es) + {k}
    ensures Keys(Store(es, k, v)) == if k in KeySet(es) then Keys(es) else Keys(es) + [k]
    ensures DistinctKeys(es) ==> DistinctKeys(Store(es, k, v))
  {
    var r := Store(es, k, v);
    if k in KeySet(es) {
      var i := IndexOf(es, k);
      forall x | x in KeySet(r) ensures x in KeySet(es) {
        var j :| 0 <= j < |r| && r[j].0 == x;
        assert es[j].0 == x;
      }
      forall x | x in KeySet(es) ensures x in KeySet(r) {
        var j :| 0 <= j < |es| && es[j].0 == x;
        assert r[j].0 == x;
      }
    } else {
      forall x | x in KeySet(r) ensures x in KeySet(es) + {k} {
        var j :| 0 <= j < |r| && r[j].0 == x;
        if j < |es| { assert es[j].0 == x; }
      }
      forall x | x in KeySet(es) + {k} ensures x in KeySet(r) {
        if x == k { assert r[|es|].0 == x; }
        else {
          var j :| 0 <= j < |es| && es[j].0 == x;
          assert r[j].0 == x;
        }
      }
    }
  }

  lemma StoreLookup(es: Entries, k: string, v: Value, x: string)
    requires DistinctKeys(es)
    ensures Lookup(Store(es, k, v), x) == if x == k then Some(v) else Lookup(es, x)
  {
    var r := Store(es, k, v);
    StoreKeys(es, k, v);
    if x == k {
      var i := if k in KeySet(es) then IndexOf(es, k) else |es|;
      assert r[i] == (k, v);
      LookupAt(r, i);
    } else if x in KeySet(es) {
      var j := IndexOf(es, x);
      assert r[j] == es[j];
      LookupAt(r, j);
      LookupAt(es, j);
    } else {
      assert x !in KeySet(r);
    }
  }

  /** Storing a key's current value back leaves the dict as it was. */
  lemma StoreSame(es: Entries, k: string, v: Value)
    requires Lookup(es, k) == Some(v)
    ensures Store(es, k, v) == es
  {
    LookupIndex(es, k);
  }

  /** A well-formed value: every dict in it, at any depth, has distinct keys. */
  predicate WellFormed(v: Value)
    decreases v, 1
  {
    match v
    case List(items) => forall i :: 0 <= i < |items| ==> WellFormed(items[i])
    case Dict(es) => DistinctKeys(es) && WellFormedEntries(es)
    case Obj(_, es) => WellFormedEntries(es)
    case _ => true
  }

  predicate WellFormedEntries(es: Entries)
    decreases es, 0
  {
    forall i :: 0 <= i < |es| ==> (assert es[i].1 < es[i]; WellFormed(es[i].1))
  }

  lemma WellFormedLookup(es: Entries, k: string)
    requires WellFormedEntries(es)
    requires k in KeySet(es)
    ensures WellFormed(Lookup(es, k).value)
  {
    LookupIndex(es, k);
  }

  lemma WellFormedStore(es: Entries, k: string, v: Value)
    requires DistinctKeys(es) && WellFormedEntries(es) && WellFormed(v)
    ensures DistinctKeys(Store(es, k, v)) && WellFormedEntries(Store(es, k, v))
  {
    StoreKeys(es, k, v);
  }

  lemma KeySetSingle(k: string, v: Value)
    ensures KeySet([(k, v)]) == {k}
  {
    assert [(k, v)][0].0 == k;
  }
}
