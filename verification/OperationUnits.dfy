/** Reading an OpenAPI document operation by operation: path items, references and identity overrides. */
module OperationUnits {
  import opened Text
  import opened JsonValues

  /** What a local reference resolves to, if it does. */
  type Resolver = string -> Option<Json>

  const REF := "$ref"
  const OPERATION_ID := "operationId"
  const OVERRIDES := "x-oblivious-operation-id-overrides"

  /** `d.get(key, default)`. */
  function GetOr(v: Json, key: string, default: Json): Json { if Has(v, key) then Get(v, key) else default }

  /** One operation with the path it stands under and its method in upper case. */
  datatype Unit = Unit(path: string, verb: string, operation: Json)

  /** A path item with its overrides, after following its `$ref`. */
  datatype Item = Item(item: Json, overrides: seq<Field>)

  /** The item a reference leads to, with the overrides given beside it. */
  function ReadAlias(resolve: Resolver, overrides: Json, ref: Json): Option<Item> {
    if !overrides.Obj? || !ref.Str? || resolve(ref.s).None? || !resolve(ref.s).value.Obj? then None
    else Some(Item(resolve(ref.s).value, overrides.fields))
  }

  function ReadItem(resolve: Resolver, raw: Json): Option<Item> {
    if !raw.Obj? then None
    else if !Has(raw, REF) then Some(Item(raw, []))
    else ReadAlias(resolve, GetOr(raw, OVERRIDES, Obj([])), Get(raw, REF))
  }

  /** Overrides name only operations of the item. */
  predicate OverridesKnown(i: Item, methods: seq<(string, string)>) {
    forall k :: k in Keys(i.overrides) ==> exists m :: m in methods && m.0 == k && Get(i.item, k).Obj?
  }

  /** A stripped non-blank string. */
  function Label(v: Json): Option<string> { if v.Str? && !Blank(v.s) then Some(Trim(v.s)) else None }

  function Renamed(operation: Json, id: string): Json
    requires operation.Obj?
  {
    Obj(SetField(operation.fields, OPERATION_ID, Str(id)))
  }

  /** An operation under a method, if there is one, with its id overridden if there is an override. */
  function UnitFor(path: string, verb: string, operation: Json, override: Option<Json>): Option<seq<Unit>> {
    if operation.Null? then Some([])
    else if !operation.Obj? then None
    else if override.None? then Some([Unit(path, verb, operation)])
    else if Label(override.value).None? then None
    else Some([Unit(path, verb, Renamed(operation, Label(override.value).value))])
  }

  /** The operation under one method of a path item. */
  function MethodUnits(path: string, i: Item, m: (string, string)): Option<seq<Unit>> {
    UnitFor(path, m.1, Get(i.item, m.0), Find(i.overrides, m.0))
  }

  /** The results for all elements in order, if each has one. */
  function Gather<S, T>(xs: seq<S>, f: S -> Option<seq<T>>): Option<seq<T>> {
    if xs == [] then Some([])
    else
      var init, last := Gather(xs[..|xs| - 1], f), f(xs[|xs| - 1]);
      if init.None? || last.None? then None else Some(init.value + last.value)
  }

  /** The operations of one entry of `paths`, if the entry is well formed. */
  function EntryUnits(resolve: Resolver, methods: seq<(string, string)>, entry: Field): Option<seq<Unit>> {
    var i := ReadItem(resolve, entry.value);
    if i.None? || !OverridesKnown(i.value, methods) then None
    else Gather(methods, m => MethodUnits(entry.key, i.value, m))
  }

  /** All operations of a document in the order of its paths; None if there are none or an entry is malformed. */
  function Units(paths: Json, resolve: Resolver, methods: seq<(string, string)>): Option<seq<Unit>> {
    if !paths.Obj? || paths.fields == [] then None
    else
      var units := Gather(paths.fields, entry => EntryUnits(resolve, methods, entry));
      if units.None? || units.value == [] then None else units
  }

  // ---------------------------------------------------------------- the loops

  lemma {:induction false} GatherStep<S, T>(xs: seq<S>, i: nat, f: S -> Option<seq<T>>)
    requires i < |xs|
    ensures Gather(xs[..i + 1], f) ==
      if Gather(xs[..i], f).None? || f(xs[i]).None? then None else Some(Gather(xs[..i], f).value + f(xs[i]).value)
  {
    assert xs[..i + 1][..i] == xs[..i];
  }

  lemma {:induction false} GatherStops<S, T>(xs: seq<S>, i: nat, f: S -> Option<seq<T>>)
    requires i < |xs| && f(xs[i]).None?
    ensures Gather(xs, f).None?
    decreases |xs|
  {
    if i < |xs| - 1 {
      GatherStops(xs[..|xs| - 1], i, f);
    }
  }

  lemma {:induction false} GatherSome<S, T>(xs: seq<S>, f: S -> Option<seq<T>>)
    ensures Gather(xs, f).Some? <==> forall x :: x in xs ==> f(x).Some?
    ensures Gather(xs, f).Some? <==> forall i :: 0 <= i < |xs| ==> f(xs[i]).Some?
  {
    if xs == [] {
    } else {
      var n := |xs| - 1;
      GatherSome(xs[..n], f);
      assert xs == xs[..n] + [xs[n]];
    }
  }

  lemma {:induction false} GatherMembers<S, T>(xs: seq<S>, f: S -> Option<seq<T>>, t: T)
    requires Gather(xs, f).Some?
    ensures t in Gather(xs, f).value <==> exists x :: x in xs && f(x).Some? && t in f(x).value
  {
    if xs == [] {
    } else {
      var n := |xs| - 1;
      GatherMembers(xs[..n], f, t);
      assert xs == xs[..n] + [xs[n]];
    }
  }

  /** Collects the results for all elements, stopping at the first that has none. */
  method GatherAll<S, T>(xs: seq<S>, f: S -> Option<seq<T>>) returns (r: Option<seq<T>>)
    ensures r == Gather(xs, f)
  {
    var all: seq<T> := [];
    for i := 0 to |xs|
      invariant Gather(xs[..i], f) == Some(all)
    {
      GatherStep(xs, i, f);
      var some := f(xs[i]);
      if some.None? {
        GatherStops(xs, i, f);
        return None;
      }
      all := all + some.value;
    }
    assert xs[..|xs|] == xs;
    return Some(all);
  }

  /** `iter_operations`. */
  method IterOperations(paths: Json, resolve: Resolver, methods: seq<(string, string)>) returns (r: Option<seq<Unit>>)
    ensures r == Units(paths, resolve, methods)
  {
    if !paths.Obj? || paths.fields == [] {
      return None;
    }
    var entries := paths.fields;
    ghost var f := (entry: Field) => EntryUnits(resolve, methods, entry);
    var units: seq<Unit> := [];
    for k := 0 to |entries|
      invariant Gather(entries[..k], f) == Some(units)
    {
      GatherStep(entries, k, f);
      var i := ReadItem(resolve, entries[k].value);
      if i.None? || !OverridesKnown(i.value, methods) {
        GatherStops(entries, k, f);
        return None;
      }
      var path := entries[k].key;
      var some := GatherAll(methods, m => MethodUnits(path, i.value, m));
      assert some == f(entries[k]);
      if some.None? {
        GatherStops(entries, k, f);
        return None;
      }
      units := units + some.value;
    }
    assert entries[..|entries|] == entries;
    return if units == [] then None else Some(units);
  }
}
