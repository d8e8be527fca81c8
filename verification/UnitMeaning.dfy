/** Which operations a document holds, told from its JSON alone. */
module UnitMeaning {
  import opened Text
  import opened JsonValues
  import opened OperationUnits
  import opened RequestMeaning
  import opened OperationMeaning

  /** What stands under a method of a path item. */
  type Method = (string, string)

  // ---------------------------------------------------------------- one path item

  /** The id that the path item gives an operation of the item it refers to, if it gives one. */
  function Override(raw: Json, m: Method): Option<Json> {
    var overrides := Get(raw, "x-oblivious-operation-id-overrides");
    if Has(raw, "$ref") && Has(overrides, m.0) then Some(Get(overrides, m.0)) else None
  }

  /** The operation itself, or the operation under another id and otherwise the same. */
  ghost predicate Renames(op: Json, id: Option<Json>, result: Json) {
    if id.None? then result == op
    else
      && result.Obj? && Get(result, "operationId").Str? && Stripped(id.value, Get(result, "operationId").s)
      && forall key :: key != "operationId" ==> Has(result, key) == Has(op, key) && Get(result, key) == Get(op, key)
  }

  /** `u` is the operation that stands under a method of a path item. */
  ghost predicate StandsAt(resolve: Resolver, path: string, raw: Json, m: Method, u: Unit) {
    exists item :: LeadsTo(resolve, raw, item) && Get(item, m.0).Obj? && u.path == path && u.verb == m.1
      && Renames(Get(item, m.0), Override(raw, m), u.operation)
  }

  /** Overrides are a dict and name methods under which the item has operations. */
  ghost predicate OverridesFine(raw: Json, methods: seq<Method>, item: Json) {
    var overrides := Get(raw, "x-oblivious-operation-id-overrides");
    Has(raw, "$ref") ==>
      && (Has(raw, "x-oblivious-operation-id-overrides") ==> overrides.Obj?)
      && forall key :: Has(overrides, key) ==> exists m :: m in methods && m.0 == key && Get(item, key).Obj?
  }

  /** Under a method there is nothing or a dict, and an override of its id is a string that is not blank. */
  predicate MethodFine(raw: Json, item: Json, m: Method) {
    var op, id := Get(item, m.0), Override(raw, m);
    op.Null? || (op.Obj? && (id.Some? ==> id.value.Str? && !Blank(id.value.s)))
  }

  ghost predicate ItemFine(resolve: Resolver, methods: seq<Method>, raw: Json) {
    exists item :: LeadsTo(resolve, raw, item) && OverridesFine(raw, methods, item)
      && forall m :: m in methods ==> MethodFine(raw, item, m)
  }

  lemma {:induction false} RenamedExactly(op: Json, id: Json, result: Json)
    requires op.Obj? && Label(id).Some? && result == Renamed(op, Label(id).value)
    ensures Renames(op, Some(id), result)
  {
    var text := Str(Label(id).value);
    forall key ensures Has(result, key) == (key == "operationId" || Has(op, key))
      ensures Get(result, key) == if key == "operationId" then text else Get(op, key)
    {
      FindSet(op.fields, "operationId", text, key);
    }
  }

  /** The item as the loop sees it: its value and the overrides that apply to it. */
  ghost predicate Sees(raw: Json, item: Json, i: Item) {
    && i.item == item
    && forall m: Method {:trigger Override(raw, m)} :: Find(i.overrides, m.0) == Override(raw, m)
  }

  lemma {:induction false} ItemRead(resolve: Resolver, methods: seq<Method>, raw: Json, item: Json)
    requires LeadsTo(resolve, raw, item)
    ensures OverridesFine(raw, methods, item) <==>
      ReadItem(resolve, raw).Some? && OverridesKnown(ReadItem(resolve, raw).value, methods)
    ensures ReadItem(resolve, raw).Some? ==> Sees(raw, item, ReadItem(resolve, raw).value)
  {
    var i := ReadItem(resolve, raw);
    if i.Some? {
      forall key ensures Find(i.value.overrides, key).Some? <==> key in Keys(i.value.overrides) {
        FoundExactly(i.value.overrides, key);
      }
      assert Has(raw, "$ref") ==>
        forall key :: Find(i.value.overrides, key)
          == (if Has(Get(raw, OVERRIDES), key) then Some(Get(Get(raw, OVERRIDES), key)) else None);
    }
  }

  lemma {:induction false} MethodExactly(path: string, raw: Json, item: Json, i: Item, m: Method)
    requires Sees(raw, item, i)
    ensures MethodUnits(path, i, m).Some? <==> MethodFine(raw, item, m)
    ensures MethodUnits(path, i, m).Some? ==>
      forall u :: u in MethodUnits(path, i, m).value ==>
        Get(item, m.0).Obj? && u.path == path && u.verb == m.1 && Renames(Get(item, m.0), Override(raw, m), u.operation)
    ensures MethodUnits(path, i, m).Some? && Get(item, m.0).Obj? ==> |MethodUnits(path, i, m).value| == 1
    ensures MethodUnits(path, i, m).Some? && Get(item, m.0).Null? ==> MethodUnits(path, i, m).value == []
  {
    var op, id := Get(item, m.0), Override(raw, m);
    if op.Obj? && id.Some? && Label(id.value).Some? {
      RenamedExactly(op, id.value, Renamed(op, Label(id.value).value));
    }
  }

  /** One entry of `paths`: it is read exactly if it is fine, and then to the operations under its methods. */
  lemma {:induction false} EntryExactly(resolve: Resolver, methods: seq<Method>, entry: Field)
    ensures EntryUnits(resolve, methods, entry).Some? <==> ItemFine(resolve, methods, entry.value)
    ensures EntryUnits(resolve, methods, entry).Some? ==>
      EntryOnly(resolve, methods, entry, EntryUnits(resolve, methods, entry).value)
      && EntryCovers(resolve, methods, entry, EntryUnits(resolve, methods, entry).value)
  {
    var i := ReadItem(resolve, entry.value);
    if i.Some? {
      var item := i.value.item;
      assert LeadsTo(resolve, entry.value, item);
      ItemRead(resolve, methods, entry.value, item);
      EntryRead(resolve, methods, entry, i.value);
    } else if ItemFine(resolve, methods, entry.value) {
      var item :| LeadsTo(resolve, entry.value, item) && OverridesFine(entry.value, methods, item)
        && forall m :: m in methods ==> MethodFine(entry.value, item, m);
      ItemRead(resolve, methods, entry.value, item);
    }
  }

  /** The operations read from an entry stand under its methods. */
  ghost predicate EntryOnly(resolve: Resolver, methods: seq<Method>, entry: Field, us: seq<Unit>) {
    forall u :: u in us ==> exists m :: m in methods && StandsAt(resolve, entry.key, entry.value, m, u)
  }

  /** Every operation that stands under a method is read. */
  ghost predicate EntryCovers(resolve: Resolver, methods: seq<Method>, entry: Field, us: seq<Unit>) {
    forall m, item :: m in methods && LeadsTo(resolve, entry.value, item) && Get(item, m.0).Obj? ==>
      exists u :: u in us && StandsAt(resolve, entry.key, entry.value, m, u)
  }

  lemma {:induction false} EntryRead(resolve: Resolver, methods: seq<Method>, entry: Field, i: Item)
    requires ReadItem(resolve, entry.value) == Some(i) && LeadsTo(resolve, entry.value, i.item)
    requires Sees(entry.value, i.item, i)
    requires OverridesFine(entry.value, methods, i.item) <==> OverridesKnown(i, methods)
    ensures EntryUnits(resolve, methods, entry).Some? <==> ItemFine(resolve, methods, entry.value)
    ensures EntryUnits(resolve, methods, entry).Some? ==>
      EntryOnly(resolve, methods, entry, EntryUnits(resolve, methods, entry).value)
      && EntryCovers(resolve, methods, entry, EntryUnits(resolve, methods, entry).value)
  {
    var f := (m: Method) => MethodUnits(entry.key, i, m);
    assert forall item :: LeadsTo(resolve, entry.value, item) ==> item == i.item;
    GatherSome(methods, f);
    forall m ensures f(m).Some? <==> MethodFine(entry.value, i.item, m) {
      MethodExactly(entry.key, entry.value, i.item, i, m);
    }
    if EntryUnits(resolve, methods, entry).Some? {
      var us := EntryUnits(resolve, methods, entry).value;
      assert us == Gather(methods, f).value;
      forall u | u in us ensures exists m :: m in methods && StandsAt(resolve, entry.key, entry.value, m, u) {
        GatherMembers(methods, f, u);
        var m :| m in methods && f(m).Some? && u in f(m).value;
        MethodExactly(entry.key, entry.value, i.item, i, m);
        assert StandsAt(resolve, entry.key, entry.value, m, u);
      }
      forall m, item | m in methods && LeadsTo(resolve, entry.value, item) && Get(item, m.0).Obj?
        ensures exists u :: u in us && StandsAt(resolve, entry.key, entry.value, m, u)
      {
        MethodExactly(entry.key, entry.value, i.item, i, m);
        var u := f(m).value[0];
        GatherMembers(methods, f, u);
        assert u in us && StandsAt(resolve, entry.key, entry.value, m, u);
      }
    }
  }

  // ---------------------------------------------------------------- all paths

  /** An operation of the document: it stands under a path and a method. */
  ghost predicate DocumentHolds(resolve: Resolver, methods: seq<Method>, paths: Json, path: string, m: Method, u: Unit) {
    Has(paths, path) && m in methods && StandsAt(resolve, path, Get(paths, path), m, u)
  }

  /** There is an operation under the path and the method. */
  ghost predicate Occupied(resolve: Resolver, methods: seq<Method>, paths: Json, path: string, m: Method) {
    && Has(paths, path) && m in methods
    && exists item :: LeadsTo(resolve, Get(paths, path), item) && Get(item, m.0).Obj?
  }

  /** Every path item is fine, and there is some operation. */
  ghost predicate PathsFine(resolve: Resolver, methods: seq<Method>, paths: Json) {
    && paths.Obj? && (forall path :: Has(paths, path) ==> ItemFine(resolve, methods, Get(paths, path)))
    && exists path, m :: Occupied(resolve, methods, paths, path, m)
  }

  lemma {:induction false} EntryUnder(paths: Json, e: Field)
    requires WellFormed(paths) && paths.Obj? && e in paths.fields
    ensures Has(paths, e.key) && Get(paths, e.key) == e.value
  {
    FindMember(paths.fields, e.key);
    assert e == Field(e.key, e.value);
  }

  lemma {:induction false} UnderEntry(paths: Json, path: string)
    requires WellFormed(paths) && Has(paths, path)
    ensures Field(path, Get(paths, path)) in paths.fields
  {
    FindMember(paths.fields, path);
  }

  lemma {:induction false} AllItemsFine(resolve: Resolver, methods: seq<Method>, paths: Json)
    requires WellFormed(paths) && paths.Obj?
    ensures Gather(paths.fields, entry => EntryUnits(resolve, methods, entry)).Some? <==>
      forall path :: Has(paths, path) ==> ItemFine(resolve, methods, Get(paths, path))
  {
    var f := entry => EntryUnits(resolve, methods, entry);
    GatherSome(paths.fields, f);
    forall e | e in paths.fields ensures f(e).Some? <==> ItemFine(resolve, methods, Get(paths, e.key)) {
      EntryExactly(resolve, methods, e);
      EntryUnder(paths, e);
    }
    forall e | e in paths.fields ensures Has(paths, e.key) {
      EntryUnder(paths, e);
    }
    forall path | Has(paths, path) ensures Field(path, Get(paths, path)) in paths.fields {
      UnderEntry(paths, path);
    }
  }

  lemma {:induction false} EntryStands(resolve: Resolver, methods: seq<Method>, entry: Field, u: Unit) returns (m: Method)
    requires EntryUnits(resolve, methods, entry).Some? && u in EntryUnits(resolve, methods, entry).value
    ensures m in methods && StandsAt(resolve, entry.key, entry.value, m, u)
  {
    assert EntryOnly(resolve, methods, entry, EntryUnits(resolve, methods, entry).value) by {
      EntryExactly(resolve, methods, entry);
    }
    m :| m in methods && StandsAt(resolve, entry.key, entry.value, m, u);
  }

  lemma {:induction false} EntryGives(resolve: Resolver, methods: seq<Method>, entry: Field, m: Method) returns (u: Unit)
    requires EntryUnits(resolve, methods, entry).Some? && m in methods
    requires exists item :: LeadsTo(resolve, entry.value, item) && Get(item, m.0).Obj?
    ensures u in EntryUnits(resolve, methods, entry).value && StandsAt(resolve, entry.key, entry.value, m, u)
  {
    assert EntryCovers(resolve, methods, entry, EntryUnits(resolve, methods, entry).value) by {
      EntryExactly(resolve, methods, entry);
    }
    u :| u in EntryUnits(resolve, methods, entry).value && StandsAt(resolve, entry.key, entry.value, m, u);
  }

  lemma {:induction false} GatheredEntry<T>(entries: seq<Field>, f: Field -> Option<seq<T>>, t: T) returns (e: Field)
    requires Gather(entries, f).Some? && t in Gather(entries, f).value
    ensures e in entries && f(e).Some? && t in f(e).value
  {
    GatherMembers(entries, f, t);
    e :| e in entries && f(e).Some? && t in f(e).value;
  }

  lemma {:induction false} UnitStands(resolve: Resolver, methods: seq<Method>, paths: Json, u: Unit) returns (path: string, m: Method)
    requires WellFormed(paths) && paths.Obj? && Gather(paths.fields, entry => EntryUnits(resolve, methods, entry)).Some?
    requires u in Gather(paths.fields, entry => EntryUnits(resolve, methods, entry)).value
    ensures DocumentHolds(resolve, methods, paths, path, m, u)
  {
    var e := GatheredEntry(paths.fields, entry => EntryUnits(resolve, methods, entry), u);
    EntryUnder(paths, e);
    path := e.key;
    m := EntryStands(resolve, methods, e, u);
  }

  lemma {:induction false} EntryCollected<T>(entries: seq<Field>, f: Field -> Option<seq<T>>, e: Field, t: T)
    requires Gather(entries, f).Some? && e in entries
    ensures f(e).Some? && (t in f(e).value ==> t in Gather(entries, f).value)
  {
    GatherSome(entries, f);
    GatherMembers(entries, f, t);
  }

  lemma {:induction false} OccupiedGives(resolve: Resolver, methods: seq<Method>, paths: Json, path: string, m: Method) returns (u: Unit)
    requires WellFormed(paths) && Occupied(resolve, methods, paths, path, m)
    requires Gather(paths.fields, entry => EntryUnits(resolve, methods, entry)).Some?
    ensures u in Gather(paths.fields, entry => EntryUnits(resolve, methods, entry)).value
    ensures DocumentHolds(resolve, methods, paths, path, m, u)
  {
    var f := entry => EntryUnits(resolve, methods, entry);
    var e := Field(path, Get(paths, path));
    UnderEntry(paths, path);
    EntryCollected(paths.fields, f, e, Unit(path, "", Null));
    assert f(e) == EntryUnits(resolve, methods, e);
    u := EntryGives(resolve, methods, e, m);
    EntryCollected(paths.fields, f, e, u);
  }

  /** The operations of a document are read exactly if its path items are fine and there is one, and then they are exactly
      those that stand under a path and a method. */
  lemma {:induction false} UnitsExactly(resolve: Resolver, methods: seq<Method>, paths: Json)
    requires WellFormed(paths)
    ensures Units(paths, resolve, methods).Some? <==> PathsFine(resolve, methods, paths)
    ensures Units(paths, resolve, methods).Some? ==>
      (forall u :: u in Units(paths, resolve, methods).value ==> exists path, m :: DocumentHolds(resolve, methods, paths, path, m, u))
    ensures Units(paths, resolve, methods).Some? ==>
      forall path, m :: Occupied(resolve, methods, paths, path, m) ==>
        exists u :: u in Units(paths, resolve, methods).value && DocumentHolds(resolve, methods, paths, path, m, u)
  {
    if paths.Obj? {
      AllItemsFine(resolve, methods, paths);
      var units := Gather(paths.fields, entry => EntryUnits(resolve, methods, entry));
      if units.Some? {
        forall u | u in units.value ensures exists path, m :: DocumentHolds(resolve, methods, paths, path, m, u) {
          var path, m := UnitStands(resolve, methods, paths, u);
        }
        forall path, m | Occupied(resolve, methods, paths, path, m)
          ensures exists u :: u in units.value && DocumentHolds(resolve, methods, paths, path, m, u)
        {
          var u := OccupiedGives(resolve, methods, paths, path, m);
        }
        if units.value != [] {
          var path, m := UnitStands(resolve, methods, paths, units.value[0]);
          assert Occupied(resolve, methods, paths, path, m);
        }
      }
    }
  }
}
