/**
 * The `nested_dataclass` decorator's `__init__` wrapper
 * (sonic_engine/util/dataclass.py): it reports the fields that have no
 * default and were not passed, raising a TypeError whose message lists them;
 * it turns a dict passed for a record-typed field into that record; and it
 * calls the dataclass initialiser, whose own TypeError (an unexpected keyword)
 * is logged and swallowed, leaving an object with no instance fields.
 * A class is described by a `ClassSpec`; objects are `PyValues.Obj`.
 */
module Dataclass {
  import opened Wrappers
  import opened PyValues
  import Strings
  import NestedDict

  datatype FieldSpec = FieldSpec(name: string, default: Option<Value>, record: Option<ClassSpec>)

  /**
   * A decorated class: its name, its optional `_parent_key`, its fields in
   * declaration order, and the defaults its `__post_init__` puts in place of None.
   */
  datatype ClassSpec = ClassSpec(name: string, parentKey: Option<string>, fields: seq<FieldSpec>, postInit: Entries)

  /** The names of the fields without a default that are not among the keyword arguments, in declaration order */
  function Missing(fields: seq<FieldSpec>, given: set<string>): seq<string> {
    if fields == [] then []
    else (if fields[0].default.None? && fields[0].name !in given then [fields[0].name] else []) + Missing(fields[1..], given)
  }

  /** A name is reported missing iff some field of that name has no default and was not passed. */
  lemma {:induction false} MissingIff(fields: seq<FieldSpec>, given: set<string>, x: string)
    ensures x in Missing(fields, given) <==>
      x !in given && exists i :: 0 <= i < |fields| && fields[i].name == x && fields[i].default.None?
  {
    if fields != [] {
      MissingIff(fields[1..], given, x);
      if x in Missing(fields[1..], given) {
        var i :| 1 <= i + 1 < |fields| && fields[1..][i].name == x && fields[1..][i].default.None?;
        assert fields[i + 1].name == x;
      }
      if x !in given && exists i :: 0 <= i < |fields| && fields[i].name == x && fields[i].default.None? {
        var i :| 0 <= i < |fields| && fields[i].name == x && fields[i].default.None?;
        if i > 0 { assert fields[1..][i - 1] == fields[i]; }
      }
    }
  }

  /** Missing fields keep declaration order: those of an earlier block of fields come first. */
  lemma {:induction false} MissingConcat(a: seq<FieldSpec>, b: seq<FieldSpec>, given: set<string>)
    ensures Missing(a + b, given) == Missing(a, given) + Missing(b, given)
  {
    if a == [] {
      assert a + b == b;
    } else {
      assert (a + b)[1..] == a[1..] + b;
      MissingConcat(a[1..], b, given);
    }
  }

  /** The missing-field loop of the wrapper */
  method MissingFields(spec: ClassSpec, kwargs: Entries) returns (missing: seq<string>)
    ensures missing == Missing(spec.fields, KeySet(kwargs))
  {
    missing := [];
    var i := 0;
    while i < |spec.fields|
      invariant 0 <= i <= |spec.fields|
      invariant missing == Missing(spec.fields[..i], KeySet(kwargs))
    {
      var f := spec.fields[i];
      MissingConcat(spec.fields[..i], [f], KeySet(kwargs));
      assert spec.fields[..i + 1] == spec.fields[..i] + [f];
      if f.default.None? && f.name !in KeySet(kwargs) {
        missing := missing + [f.name];
      }
      i := i + 1;
    }
    assert spec.fields[..i] == spec.fields;
  }

  /** `_parent_key + "."` when the class has a non-empty parent key, else nothing */
  function Prefix(spec: ClassSpec): string {
    if spec.parentKey.Some? && spec.parentKey.value != "" then spec.parentKey.value + "." else ""
  }

  function Quoted(prefix: string, names: seq<string>): (q: seq<string>)
    ensures |q| == |names|
    ensures forall i :: 0 <= i < |names| ==> q[i] == "'" + prefix + names[i] + "'"
  {
    seq(|names|, i requires 0 <= i < |names| => "'" + prefix + names[i] + "'")
  }

  /** The TypeError message for the given missing fields */
  function RequiredMessage(spec: ClassSpec, missing: seq<string>): string {
    "The following fields " + Strings.Join(",", Quoted(Prefix(spec), missing)) + " are required for " + spec.name
  }

  /**
   * The message can be read back: its list part splits at ',' into one quoted
   * entry per missing field, in order, and stripping the quotes and the parent
   * prefix gives the field's name (for names and a parent key without ',').
   */
  lemma RequiredMessageLists(spec: ClassSpec, missing: seq<string>)
    requires |missing| >= 1
    requires forall i :: 0 <= i < |missing| ==> ',' !in missing[i]
    requires ',' !in Prefix(spec)
    ensures var list := Strings.Join(",", Quoted(Prefix(spec), missing));
      && RequiredMessage(spec, missing) == "The following fields " + list + " are required for " + spec.name
      && |Strings.Split(list, ',')| == |missing|
      && forall i :: 0 <= i < |missing| ==>
           var piece := Strings.Split(list, ',')[i];
           |piece| == |missing[i]| + |Prefix(spec)| + 2 && piece[1 + |Prefix(spec)|..|piece| - 1] == missing[i]
  {
    var q := Quoted(Prefix(spec), missing);
    forall i | 0 <= i < |q| ensures ',' !in q[i] {
      assert q[i] == "'" + Prefix(spec) + missing[i] + "'";
    }
    assert Strings.Join(",", q) == Strings.Join([','], q);
    Strings.SplitJoin(q, ',');
    forall i | 0 <= i < |missing|
      ensures q[i][1 + |Prefix(spec)|..|q[i]| - 1] == missing[i]
    {
      assert q[i] == "'" + Prefix(spec) + missing[i] + "'";
    }
  }

  /** What constructing a decorated class gives */
  datatype Outcome =
    | Built(obj: Value)            // an initialised object
    | Unset(cls: string)           // the initialiser's TypeError was swallowed: no instance fields
    | Raised(message: string)      // a TypeError that propagates to the caller

  /** The object a successful or swallowed construction leaves behind */
  function ObjectOf(o: Outcome): Value
    requires !o.Raised?
  {
    if o.Built? then o.obj else Obj(o.cls, [])
  }

  /** The first field of the class with that name */
  function FieldFor(fields: seq<FieldSpec>, name: string): (r: Option<FieldSpec>)
    ensures r.Some? ==> r.value in fields && r.value.name == name
    ensures r.None? ==> forall i :: 0 <= i < |fields| ==> fields[i].name != name
  {
    if fields == [] then None else if fields[0].name == name then Some(fields[0]) else FieldFor(fields[1..], name)
  }

  lemma {:induction false} FieldForAt(fields: seq<FieldSpec>, i: nat)
    requires i < |fields|
    requires forall j :: 0 <= j < i ==> fields[j].name != fields[i].name
    ensures FieldFor(fields, fields[i].name) == Some(fields[i])
  {
    if i > 0 {
      FieldForAt(fields[1..], i - 1);
    }
  }

  /** Every keyword argument names a field of the class */
  predicate AllKnown(spec: ClassSpec, kwargs: Entries) {
    forall i :: 0 <= i < |kwargs| ==> FieldFor(spec.fields, kwargs[i].0).Some?
  }

  /** `cls(**kwargs)` through the wrapper */
  function Construct(spec: ClassSpec, kwargs: Entries): Outcome
    decreases EntriesSize(kwargs), 2
  {
    var missing := Missing(spec.fields, KeySet(kwargs));
    if missing != [] then Raised(RequiredMessage(spec, missing))
    else
      var converted := Convert(spec, kwargs, kwargs);
      if converted.Raised? then converted
      else if AllKnown(spec, kwargs) then Built(Obj(spec.name, Attributes(spec, spec.fields, converted.obj.entries)))
      else Unset(spec.name)
  }

  /**
   * The conversion loop over `rest`, the part of the keyword arguments not
   * visited yet. Gives `Built(Dict(kwargs'))` with the rewritten arguments,
   * or the first nested TypeError.
   */
  function Convert(spec: ClassSpec, kwargs: Entries, rest: Entries): (r: Outcome)
    requires EntriesSize(rest) <= EntriesSize(kwargs)
    ensures r.Built? ==> r.obj.Dict? && Keys(r.obj.entries) == Keys(rest)
    decreases EntriesSize(kwargs), 1, |rest|
  {
    if rest == [] then Built(Dict([]))
    else
      var (name, value) := rest[0];
      NestedDict.EntrySmaller(rest, 0);
      var head := ConvertValue(spec, kwargs, name, value);
      if head.Raised? then head
      else
        var tail := Convert(spec, kwargs, rest[1..]);
        if tail.Raised? then tail else Built(Dict([(name, head.obj)] + tail.obj.entries))
  }

  /** One step of the conversion loop: a dict passed for a record-typed field becomes that record. */
  function ConvertValue(spec: ClassSpec, kwargs: Entries, name: string, value: Value): Outcome
    requires Size(value) < EntriesSize(kwargs)
    decreases EntriesSize(kwargs), 0
  {
    var field := FieldFor(spec.fields, name);
    if field.Some? && field.value.record.Some? && value.Dict? then
      var nested := Construct(field.value.record.value, value.entries);
      if nested.Raised? then nested else Built(ObjectOf(nested))
    else Built(value)
  }

  /** The initialised fields, in declaration order: the argument passed, else the default, then `__post_init__` */
  function Attributes(spec: ClassSpec, fields: seq<FieldSpec>, kwargs: Entries): (attrs: Entries)
    ensures |attrs| == |fields|
    ensures forall i :: 0 <= i < |fields| ==> attrs[i].0 == fields[i].name
  {
    if fields == [] then []
    else
      var f := fields[0];
      var v := if f.name in KeySet(kwargs) then Lookup(kwargs, f.name).value else f.default.GetOr(Null);
      var w := if v == Null && f.name in KeySet(spec.postInit) then Lookup(spec.postInit, f.name).value else v;
      [(f.name, w)] + Attributes(spec, fields[1..], kwargs)
  }

  /**
   * Field `i` of an initialised object holds the argument passed for it, else
   * its default, with `__post_init__`'s default in place of None.
   */
  lemma {:induction false} AttributesAt(spec: ClassSpec, fields: seq<FieldSpec>, kwargs: Entries, i: nat)
    requires i < |fields|
    ensures var f := fields[i];
      var v := if f.name in KeySet(kwargs) then Lookup(kwargs, f.name).value else f.default.GetOr(Null);
      Attributes(spec, fields, kwargs)[i] ==
        (f.name, if v == Null && f.name in KeySet(spec.postInit) then Lookup(spec.postInit, f.name).value else v)
  {
    if i > 0 {
      AttributesAt(spec, fields[1..], kwargs, i - 1);
    }
  }

  /** TypeError is raised with the listed message whenever a field is missing. */
  lemma MissingRaises(spec: ClassSpec, kwargs: Entries)
    requires Missing(spec.fields, KeySet(kwargs)) != []
    ensures Construct(spec, kwargs) == Raised(RequiredMessage(spec, Missing(spec.fields, KeySet(kwargs))))
  {
  }

  /** With nothing missing and no dict given for a record field, the wrapper never raises; an unknown keyword is swallowed. */
  lemma NothingMissingNoRaise(spec: ClassSpec, kwargs: Entries)
    requires Missing(spec.fields, KeySet(kwargs)) == []
    requires forall i :: 0 <= i < |kwargs| ==> !kwargs[i].1.Dict?
    ensures !Construct(spec, kwargs).Raised?
    ensures !AllKnown(spec, kwargs) ==> Construct(spec, kwargs) == Unset(spec.name)
    ensures AllKnown(spec, kwargs) ==> Construct(spec, kwargs).Built? && Construct(spec, kwargs).obj.cls == spec.name
  {
    ConvertPlain(spec, kwargs, kwargs);
  }

  /** Values that are not dicts pass through the conversion loop unchanged. */
  lemma {:induction false} ConvertPlain(spec: ClassSpec, kwargs: Entries, rest: Entries)
    requires EntriesSize(rest) <= EntriesSize(kwargs)
    requires forall i :: 0 <= i < |rest| ==> !rest[i].1.Dict?
    ensures Convert(spec, kwargs, rest) == Built(Dict(rest))
    decreases |rest|
  {
    if rest != [] {
      assert EntriesSize(rest) == 1 + Size(rest[0].1) + EntriesSize(rest[1..]);
      ConvertPlain(spec, kwargs, rest[1..]);
      assert [rest[0]] + rest[1..] == rest;
    }
  }

  /**
   * A dict passed for a record-typed field is replaced by an object of that
   * record's class (whether or not its own initialiser swallowed an error);
   * any other value is passed on unchanged.
   */
  lemma {:induction false} ConvertAt(spec: ClassSpec, kwargs: Entries, rest: Entries, i: nat)
    requires EntriesSize(rest) <= EntriesSize(kwargs)
    requires Convert(spec, kwargs, rest).Built? && i < |rest|
    ensures var (name, value) := rest[i];
      var field := FieldFor(spec.fields, name);
      var out := Convert(spec, kwargs, rest).obj.entries[i].1;
      if field.Some? && field.value.record.Some? && value.Dict?
      then out.Obj? && out.cls == field.value.record.value.name
      else out == value
    decreases |rest|
  {
    var (name, value) := rest[0];
    var field := FieldFor(spec.fields, name);
    if field.Some? && field.value.record.Some? && value.Dict? {
      NestedDict.EntrySmaller(rest, 0);
      ConstructClass(field.value.record.value, value.entries);
    }
    assert EntriesSize(rest) == 1 + Size(rest[0].1) + EntriesSize(rest[1..]);
    if i > 0 {
      ConvertAt(spec, kwargs, rest[1..], i - 1);
    }
  }

  /** A construction that does not raise leaves an object of the class itself. */
  lemma ConstructClass(spec: ClassSpec, kwargs: Entries)
    requires !Construct(spec, kwargs).Raised?
    ensures ObjectOf(Construct(spec, kwargs)).Obj? && ObjectOf(Construct(spec, kwargs)).cls == spec.name
  {
  }

  /** The rewritten arguments of a visited prefix, followed by the conversion of the rest */
  function Combine(prefix: Entries, r: Outcome): Outcome {
    if r.Built? && r.obj.Dict? then Built(Dict(prefix + r.obj.entries)) else r
  }

  lemma CombineEmpty(r: Outcome)
    ensures Combine([], r) == r
  {
    if r.Built? && r.obj.Dict? {
      assert [] + r.obj.entries == r.obj.entries;
    }
  }

  /** After the last argument the prefix holds every rewritten argument. */
  lemma CombineDone(spec: ClassSpec, kwargs: Entries, prefix: Entries)
    requires EntriesSize(kwargs[|kwargs|..]) <= EntriesSize(kwargs)
    ensures Combine(prefix, Convert(spec, kwargs, kwargs[|kwargs|..])) == Built(Dict(prefix))
  {
    assert kwargs[|kwargs|..] == [];
    assert prefix + [] == prefix;
  }

  /** Converting a non-empty rest whose first value converts to `v` */
  lemma ConvertHead(spec: ClassSpec, kwargs: Entries, rest: Entries, v: Value)
    requires rest != [] && EntriesSize(rest) <= EntriesSize(kwargs)
    requires Size(rest[0].1) < EntriesSize(kwargs)
    requires ConvertValue(spec, kwargs, rest[0].0, rest[0].1) == Built(v)
    ensures EntriesSize(rest[1..]) <= EntriesSize(kwargs)
    ensures var tail := Convert(spec, kwargs, rest[1..]);
      Convert(spec, kwargs, rest) == if tail.Raised? then tail else Built(Dict([(rest[0].0, v)] + tail.obj.entries))
  {
    assert EntriesSize(rest) == 1 + Size(rest[0].1) + EntriesSize(rest[1..]);
  }

  /** Visiting one more argument moves its rewritten value from the rest into the prefix. */
  lemma ConvertStep(spec: ClassSpec, kwargs: Entries, i: nat, prefix: Entries, v: Value)
    requires i < |kwargs| && EntriesSize(kwargs[i..]) <= EntriesSize(kwargs)
    requires Size(kwargs[i].1) < EntriesSize(kwargs)
    requires ConvertValue(spec, kwargs, kwargs[i].0, kwargs[i].1) == Built(v)
    ensures EntriesSize(kwargs[i + 1..]) <= EntriesSize(kwargs)
    ensures Combine(prefix, Convert(spec, kwargs, kwargs[i..])) ==
            Combine(prefix + [(kwargs[i].0, v)], Convert(spec, kwargs, kwargs[i + 1..]))
  {
    var rest := kwargs[i..];
    assert rest[0] == kwargs[i] && rest[1..] == kwargs[i + 1..];
    ConvertHead(spec, kwargs, rest, v);
    var tail := Convert(spec, kwargs, rest[1..]);
    if tail.Built? {
      EntriesAssoc(prefix, (kwargs[i].0, v), tail.obj.entries);
    }
  }

  lemma EntriesAssoc(prefix: Entries, e: (string, Value), rest: Entries)
    ensures prefix + ([e] + rest) == (prefix + [e]) + rest
  {
  }

  /** A failing step ends the loop with its TypeError. */
  lemma ConvertFails(spec: ClassSpec, kwargs: Entries, i: nat, prefix: Entries)
    requires i < |kwargs| && EntriesSize(kwargs[i..]) <= EntriesSize(kwargs)
    requires Size(kwargs[i].1) < EntriesSize(kwargs)
    requires ConvertValue(spec, kwargs, kwargs[i].0, kwargs[i].1).Raised?
    ensures Combine(prefix, Convert(spec, kwargs, kwargs[i..])) == ConvertValue(spec, kwargs, kwargs[i].0, kwargs[i].1)
  {
    var rest := kwargs[i..];
    assert rest[0] == kwargs[i];
  }

  /** The wrapper's `__init__`: the missing-field loop, the conversion loop, then the initialiser */
  method ConstructObject(spec: ClassSpec, kwargs: Entries) returns (o: Outcome)
    ensures o == Construct(spec, kwargs)
    decreases EntriesSize(kwargs), 2
  {
    var missing := MissingFields(spec, kwargs);
    if |missing| > 0 {
      return Raised(RequiredMessage(spec, missing));
    }
    var converted := ConvertArguments(spec, kwargs);
    if converted.Raised? {
      return converted;
    }
    if AllKnown(spec, kwargs) {
      o := Built(Obj(spec.name, Attributes(spec, spec.fields, converted.obj.entries)));
    } else {
      o := Unset(spec.name);
    }
  }

  /** The conversion loop, rewriting the keyword arguments one by one */
  method ConvertArguments(spec: ClassSpec, kwargs: Entries) returns (r: Outcome)
    ensures r == Convert(spec, kwargs, kwargs)
    decreases EntriesSize(kwargs), 1
  {
    var converted: Entries := [];
    var i := 0;
    assert kwargs[0..] == kwargs;
    CombineEmpty(Convert(spec, kwargs, kwargs));
    while i < |kwargs|
      invariant 0 <= i <= |kwargs|
      invariant EntriesSize(kwargs[i..]) <= EntriesSize(kwargs)
      invariant Convert(spec, kwargs, kwargs) == Combine(converted, Convert(spec, kwargs, kwargs[i..]))
      decreases |kwargs| - i
    {
      var (name, value) := kwargs[i];
      NestedDict.EntrySmaller(kwargs, i);
      var step := ConvertOne(spec, kwargs, name, value);
      if step.Raised? {
        ConvertFails(spec, kwargs, i, converted);
        return step;
      }
      ConvertStep(spec, kwargs, i, converted, step.obj);
      converted := converted + [(name, step.obj)];
      i := i + 1;
    }
    CombineDone(spec, kwargs, converted);
    r := Built(Dict(converted));
  }

  /** One argument of the conversion loop: a dict for a record-typed field is built into that record */
  method ConvertOne(spec: ClassSpec, kwargs: Entries, name: string, value: Value) returns (o: Outcome)
    requires Size(value) < EntriesSize(kwargs)
    ensures o == ConvertValue(spec, kwargs, name, value)
    ensures o.Built? || o.Raised?
    decreases EntriesSize(kwargs), 0
  {
    var field := FieldFor(spec.fields, name);
    if field.Some? && field.value.record.Some? && value.Dict? {
      var nested := ConstructObject(field.value.record.value, value.entries);
      if nested.Raised? {
        return nested;
      }
      return Built(ObjectOf(nested));
    }
    return Built(value);
  }
}
