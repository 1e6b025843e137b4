/**
 * `_update_nested_dict` (sonic_engine/util/functions.py): merge an override
 * dict into a copy of an original dict. A non-None override value wins; a
 * None value leaves the original entry (or its absence) alone; when both
 * sides hold a dict under the same key, they are merged recursively by the
 * same rule. Records (dataclass objects) are not dicts and are replaced whole.
 * Values are immutable here, so "works on a copy" holds by construction.
 */
module NestedDict {
  import opened Wrappers
  import opened PyValues

  function UpdateNested(original: Entries, overrides: Entries): Entries
    decreases EntriesSize(overrides), 1
  {
    if overrides == [] then original
    else UpdateNested(MergeEntry(original, overrides[0].0, overrides[0].1), overrides[1..])
  }

  /** One iteration of the loop over `overrides.items()` */
  function MergeEntry(updated: Entries, k: string, v: Value): Entries
    decreases Size(v), 2
  {
    var current := Lookup(updated, k);
    if v.Dict? && current.Some? && current.value.Dict? then
      Store(updated, k, Dict(UpdateNested(current.value.entries, v.entries)))
    else if v != Null then Store(updated, k, v)
    else updated
  }

  /** What the merge leaves under one key, given the original entry and the override value */
  function Merged(original: Option<Value>, v: Value): Option<Value> {
    if v.Dict? && original.Some? && original.value.Dict? then
      Some(Dict(UpdateNested(original.value.entries, v.entries)))
    else if v != Null then Some(v)
    else original
  }

  /** The keys whose override value is not None */
  function NonNullKeys(overrides: Entries): set<string> {
    set i | 0 <= i < |overrides| && overrides[i].1 != Null :: overrides[i].0
  }

  lemma MergeEntryLookup(updated: Entries, k: string, v: Value, x: string)
    requires DistinctKeys(updated)
    ensures DistinctKeys(MergeEntry(updated, k, v))
    ensures Lookup(MergeEntry(updated, k, v), x) == if x == k then Merged(Lookup(updated, k), v) else Lookup(updated, x)
  {
    var current := Lookup(updated, k);
    if v.Dict? && current.Some? && current.value.Dict? {
      StoreKeys(updated, k, Dict(UpdateNested(current.value.entries, v.entries)));
      StoreLookup(updated, k, Dict(UpdateNested(current.value.entries, v.entries)), x);
    } else if v != Null {
      StoreKeys(updated, k, v);
      StoreLookup(updated, k, v, x);
    }
  }

  lemma MergeEntryKeys(updated: Entries, k: string, v: Value)
    ensures KeySet(MergeEntry(updated, k, v)) == KeySet(updated) + (if v != Null then {k} else {})
    ensures Keys(updated) <= Keys(MergeEntry(updated, k, v))
  {
    var current := Lookup(updated, k);
    if v.Dict? && current.Some? && current.value.Dict? {
      StoreKeys(updated, k, Dict(UpdateNested(current.value.entries, v.entries)));
    } else if v != Null {
      StoreKeys(updated, k, v);
    }
  }

  /**
   * The result's keys are the original keys plus every override key whose value
   * is not None; the original keys keep their positions and new keys follow them.
   */
  lemma {:induction false} UpdateNestedKeys(original: Entries, overrides: Entries)
    ensures KeySet(UpdateNested(original, overrides)) == KeySet(original) + NonNullKeys(overrides)
    ensures Keys(original) <= Keys(UpdateNested(original, overrides))
    decreases |overrides|
  {
    if overrides != [] {
      var (k, v) := overrides[0];
      var next := MergeEntry(original, k, v);
      MergeEntryKeys(original, k, v);
      UpdateNestedKeys(next, overrides[1..]);
      var tail := overrides[1..];
      assert NonNullKeys(overrides) == (if v != Null then {k} else {}) + NonNullKeys(tail) by {
        forall x | x in NonNullKeys(overrides)
          ensures x in (if v != Null then {k} else {}) + NonNullKeys(tail)
        {
          var i :| 0 <= i < |overrides| && overrides[i].1 != Null && overrides[i].0 == x;
          if i > 0 { assert tail[i - 1] == overrides[i]; }
        }
        forall x | x in NonNullKeys(tail) ensures x in NonNullKeys(overrides) {
          var i :| 0 <= i < |tail| && tail[i].1 != Null && tail[i].0 == x;
          assert overrides[i + 1] == tail[i];
        }
      }
    }
  }

  /**
   * Per key: an untouched key keeps its original entry; otherwise the entry is
   * the merge of the original entry with the override value.
   */
  lemma {:induction false} UpdateNestedLookup(original: Entries, overrides: Entries, x: string)
    requires DistinctKeys(original) && DistinctKeys(overrides)
    ensures DistinctKeys(UpdateNested(original, overrides))
    ensures Lookup(UpdateNested(original, overrides), x) ==
      if x in KeySet(overrides) then Merged(Lookup(original, x), Lookup(overrides, x).value)
      else Lookup(original, x)
    decreases |overrides|
  {
    if overrides != [] {
      var (k, v) := overrides[0];
      var tail := overrides[1..];
      var next := MergeEntry(original, k, v);
      MergeEntryLookup(original, k, v, x);
      UpdateNestedLookup(next, tail, x);
      assert KeySet(overrides) == {k} + KeySet(tail);
      if x == k {
        assert x !in KeySet(tail);
      }
    }
  }

  /** A None override value never changes the original entry, present or absent. */
  lemma NullKeepsOriginal(original: Entries, overrides: Entries, x: string)
    requires DistinctKeys(original) && DistinctKeys(overrides)
    requires Lookup(overrides, x) == Some(Null)
    ensures Lookup(UpdateNested(original, overrides), x) == Lookup(original, x)
  {
    UpdateNestedLookup(original, overrides, x);
  }

  /** A non-None override that is not a dict merged into a dict replaces the entry. */
  lemma NonNullReplaces(original: Entries, overrides: Entries, x: string, v: Value)
    requires DistinctKeys(original) && DistinctKeys(overrides)
    requires Lookup(overrides, x) == Some(v) && v != Null
    requires !(v.Dict? && Lookup(original, x).Some? && Lookup(original, x).value.Dict?)
    ensures Lookup(UpdateNested(original, overrides), x) == Some(v)
  {
    UpdateNestedLookup(original, overrides, x);
  }

  /** Two dicts under the same key merge recursively by the same rule. */
  lemma DictsMergeRecursively(original: Entries, overrides: Entries, x: string, a: Entries, b: Entries)
    requires DistinctKeys(original) && DistinctKeys(overrides)
    requires Lookup(original, x) == Some(Dict(a)) && Lookup(overrides, x) == Some(Dict(b))
    ensures Lookup(UpdateNested(original, overrides), x) == Some(Dict(UpdateNested(a, b)))
  {
    UpdateNestedLookup(original, overrides, x);
  }

  lemma {:induction false} EntrySmaller(es: Entries, i: nat)
    requires i < |es|
    ensures Size(es[i].1) < EntriesSize(es)
    decreases i
  {
    if i > 0 {
      EntrySmaller(es[1..], i - 1);
      assert es[1..][i - 1] == es[i];
    }
  }

  lemma {:induction false} UpdateNestedWellFormed(original: Entries, overrides: Entries)
    requires DistinctKeys(original) && WellFormedEntries(original) && WellFormedEntries(overrides)
    ensures DistinctKeys(UpdateNested(original, overrides)) && WellFormedEntries(UpdateNested(original, overrides))
    decreases EntriesSize(overrides)
  {
    if overrides != [] {
      var (k, v) := overrides[0];
      assert WellFormed(v);
      var current := Lookup(original, k);
      if v.Dict? && current.Some? && current.value.Dict? {
        WellFormedLookup(original, k);
        EntrySmaller(overrides, 0);
        UpdateNestedWellFormed(current.value.entries, v.entries);
        WellFormedStore(original, k, Dict(UpdateNested(current.value.entries, v.entries)));
      } else if v != Null {
        WellFormedStore(original, k, v);
      }
      assert WellFormedEntries(overrides[1..]) by {
        forall i | 0 <= i < |overrides[1..]| ensures WellFormed(overrides[1..][i].1) {
          assert overrides[1..][i] == overrides[i + 1];
        }
      }
      UpdateNestedWellFormed(MergeEntry(original, k, v), overrides[1..]);
    }
  }

  lemma {:induction false} FixedPoint(r: Entries, overrides: Entries)
    requires forall i :: 0 <= i < |overrides| ==> MergeEntry(r, overrides[i].0, overrides[i].1) == r
    ensures UpdateNested(r, overrides) == r
    decreases |overrides|
  {
    if overrides != [] {
      assert MergeEntry(r, overrides[0].0, overrides[0].1) == r;
      forall i | 0 <= i < |overrides[1..]|
        ensures MergeEntry(r, overrides[1..][i].0, overrides[1..][i].1) == r
      {
        assert overrides[1..][i] == overrides[i + 1];
      }
      FixedPoint(r, overrides[1..]);
    }
  }

  /** Merging a well-formed dict into itself changes nothing. */
  lemma {:induction false} SelfMerge(x: Entries)
    requires DistinctKeys(x) && WellFormedEntries(x)
    ensures UpdateNested(x, x) == x
    decreases EntriesSize(x)
  {
    forall i | 0 <= i < |x| ensures MergeEntry(x, x[i].0, x[i].1) == x {
      var (k, v) := x[i];
      LookupAt(x, i);
      assert WellFormed(v);
      if v.Dict? {
        EntrySmaller(x, i);
        SelfMerge(v.entries);
        StoreSame(x, k, v);
      } else if v != Null {
        StoreSame(x, k, v);
      }
    }
    FixedPoint(x, x);
  }

  /** Applying the same overrides a second time gives the same result as applying them once. */
  lemma {:induction false} UpdateNestedIdempotent(original: Entries, overrides: Entries)
    requires DistinctKeys(original) && WellFormedEntries(original)
    requires DistinctKeys(overrides) && WellFormedEntries(overrides)
    ensures UpdateNested(UpdateNested(original, overrides), overrides) == UpdateNested(original, overrides)
    decreases EntriesSize(overrides)
  {
    var r := UpdateNested(original, overrides);
    forall i | 0 <= i < |overrides|
      ensures MergeEntry(r, overrides[i].0, overrides[i].1) == r
    {
      var (k, v) := overrides[i];
      LookupAt(overrides, i);
      assert k in KeySet(overrides);
      UpdateNestedLookup(original, overrides, k);
      assert WellFormed(v);
      var o := Lookup(original, k);
      if v.Dict? {
        EntrySmaller(overrides, i);
        if o.Some? && o.value.Dict? {
          WellFormedLookup(original, k);
          UpdateNestedIdempotent(o.value.entries, v.entries);
          StoreSame(r, k, Dict(UpdateNested(o.value.entries, v.entries)));
        } else {
          SelfMerge(v.entries);
          StoreSame(r, k, v);
        }
      } else if v != Null {
        StoreSame(r, k, v);
      }
    }
    FixedPoint(r, overrides);
  }

  lemma {:induction false} DistinctCount(es: Entries)
    requires DistinctKeys(es)
    ensures |KeySet(es)| == |es|
  {
    if es != [] {
      assert KeySet(es) == {es[0].0} + KeySet(es[1..]);
      assert es[0].0 !in KeySet(es[1..]);
      DistinctCount(es[1..]);
    }
  }

  /** A merge whose overrides bring no new key does not grow the dict. */
  lemma NoNewKeys(original: Entries, overrides: Entries)
    requires DistinctKeys(original) && DistinctKeys(overrides)
    requires KeySet(overrides) <= KeySet(original)
    ensures Keys(UpdateNested(original, overrides)) == Keys(original)
  {
    var r := UpdateNested(original, overrides);
    UpdateNestedKeys(original, overrides);
    UpdateNestedLookup(original, overrides, "");
    assert KeySet(r) == KeySet(original);
    DistinctCount(original);
    DistinctCount(r);
  }

  /**
   * Merging two dicts that hold the same keys in the same order is a
   * position-by-position merge: the result keeps that key order.
   */
  lemma AlignedMerge(original: Entries, overrides: Entries)
    requires DistinctKeys(original) && Keys(overrides) == Keys(original)
    ensures |UpdateNested(original, overrides)| == |original|
    ensures forall i :: 0 <= i < |original| ==>
      UpdateNested(original, overrides)[i] == (original[i].0, Merged(Some(original[i].1), overrides[i].1).value)
  {
    var r := UpdateNested(original, overrides);
    assert DistinctKeys(overrides) by {
      forall i, j | 0 <= i < j < |overrides| ensures overrides[i].0 != overrides[j].0 {
        assert Keys(overrides)[i] == original[i].0 && Keys(overrides)[j] == original[j].0;
      }
    }
    assert KeySet(overrides) <= KeySet(original) by {
      forall x | x in KeySet(overrides) ensures x in KeySet(original) {
        var i :| 0 <= i < |overrides| && overrides[i].0 == x;
        assert Keys(overrides)[i] == original[i].0;
      }
    }
    NoNewKeys(original, overrides);
    forall i | 0 <= i < |original|
      ensures r[i] == (original[i].0, Merged(Some(original[i].1), overrides[i].1).value)
    {
      AlignedAt(original, overrides, i);
    }
  }

  lemma AlignedAt(original: Entries, overrides: Entries, i: nat)
    requires DistinctKeys(original) && DistinctKeys(overrides) && Keys(overrides) == Keys(original)
    requires Keys(UpdateNested(original, overrides)) == Keys(original)
    requires i < |original|
    ensures UpdateNested(original, overrides)[i] == (original[i].0, Merged(Some(original[i].1), overrides[i].1).value)
  {
    var r := UpdateNested(original, overrides);
    var k := original[i].0;
    assert Keys(r)[i] == Keys(original)[i];
    assert overrides[i].0 == k by { assert Keys(overrides)[i] == Keys(original)[i]; }
    assert k in KeySet(overrides);
    UpdateNestedLookup(original, overrides, k);
    LookupAt(original, i);
    LookupAt(overrides, i);
    LookupAt(r, i);
  }
}
