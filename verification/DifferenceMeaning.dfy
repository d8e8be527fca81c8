/** Which differences between two manifests are reported, told from their rows. */
module DifferenceMeaning {
  import opened Sorting
  import opened Text
  import Orders
  import opened JsonValues
  import opened JsonPositions
  import opened Flattening
  import opened SurfaceRows
  import opened RowFlattening
  import opened ProjectionDiff

  // ---------------------------------------------------------------- two tables

  lemma {:induction false} WholeMembers<K>(keys: seq<K>, kind: Kind, spell: K -> string, field: string, d: Difference)
    ensures d in Whole(keys, kind, spell, field) <==>
      d.kind == kind && d.field == field && exists k :: k in keys && spell(k) == d.id
  {
    if keys == [] {
    } else {
      WholeMembers(keys[1..], kind, spell, field, d);
      assert keys == [keys[0]] + keys[1..];
    }
  }

  lemma {:induction false} FieldMembers(id: string, fields: seq<string>, d: Difference)
    ensures d in PerField(id, fields) <==> d.kind == Incompatible && d.id == id && d.field in fields
  {
    if fields == [] {
    } else {
      FieldMembers(id, fields[1..], d);
      assert fields == [fields[0]] + fields[1..];
    }
  }

  lemma {:induction false} ChangeMembers<K, V>(
      keys: seq<K>, e: map<K, V>, a: map<K, V>, spell: K -> string, fields: (V, V) -> seq<string>, d: Difference)
    requires forall k :: k in keys ==> k in e && k in a
    ensures d in Changes(keys, e, a, spell, fields) <==>
      d.kind == Incompatible && exists k :: k in keys && spell(k) == d.id && d.field in fields(e[k], a[k])
  {
    if keys == [] {
    } else {
      ChangeMembers(keys[1..], e, a, spell, fields, d);
      FieldMembers(spell(keys[0]), fields(e[keys[0]], a[keys[0]]), d);
      assert keys == [keys[0]] + keys[1..];
    }
  }

  lemma {:induction false} TableMembers<K(!new), V>(
      e: map<K, V>, a: map<K, V>, le: (K, K) -> bool, spell: K -> string, whole: string, fields: (V, V) -> seq<string>, d: Difference)
    ensures d in DiffRows(e, a, le, spell, whole, fields) <==>
      match d.kind
      case Missing => d.field == whole && exists k :: k in e && k !in a && spell(k) == d.id
      case Extra => d.field == whole && exists k :: k in a && k !in e && spell(k) == d.id
      case Incompatible => exists k :: k in e && k in a && spell(k) == d.id && d.field in fields(e[k], a[k])
  {
    WholeMembers(Listing(e.Keys - a.Keys, le), Missing, spell, whole, d);
    WholeMembers(Listing(a.Keys - e.Keys, le), Extra, spell, whole, d);
    ChangeMembers(Listing(e.Keys * a.Keys, le), e, a, spell, fields, d);
  }

  /** A row of the first list, spelled so, whose key the second list lacks. */
  ghost predicate Lacks<R(!new), K(!new)>(e: seq<R>, a: seq<R>, key: R -> K, spell: K -> string, id: string) {
    exists r :: r in e && spell(key(r)) == id && forall s :: s in a ==> key(s) != key(r)
  }

  /** Rows of one key, spelled so, of which the field is reported. */
  ghost predicate Differs<R(!new), K(!new)>(
      e: seq<R>, a: seq<R>, key: R -> K, spell: K -> string, fields: (R, R) -> seq<string>, id: string, field: string)
  {
    exists r, s :: r in e && s in a && key(r) == key(s) && spell(key(r)) == id && field in fields(r, s)
  }

  /** Of rows with distinct keys: a row that only one list has is reported as a whole, and of rows of one key what differs. */
  ghost predicate RowDifference<R(!new), K(!new)>(
      e: seq<R>, a: seq<R>, key: R -> K, spell: K -> string, whole: string, fields: (R, R) -> seq<string>, d: Difference)
  {
    match d.kind
    case Missing => d.field == whole && Lacks(e, a, key, spell, d.id)
    case Extra => d.field == whole && Lacks(a, e, key, spell, d.id)
    case Incompatible => Differs(e, a, key, spell, fields, d.id, d.field)
  }

  lemma {:induction false} OnlyHere<R(!new), K(!new)>(e: seq<R>, a: seq<R>, key: R -> K, spell: K -> string, id: string)
    requires DistinctKeys(e, key) && DistinctKeys(a, key)
    ensures (exists k :: k in ByKey(e, key) && k !in ByKey(a, key) && spell(k) == id) <==> Lacks(e, a, key, spell, id)
  {
    ByKeyHolds(e, key);
    ByKeyHolds(a, key);
    var m, n := ByKey(e, key), ByKey(a, key);
    if k :| k in m && k !in n && spell(k) == id {
      assert m[k] in e && key(m[k]) == k;
      assert forall s :: s in a ==> key(s) != k;
    }
    if r :| r in e && spell(key(r)) == id && forall s :: s in a ==> key(s) != key(r) {
      assert key(r) in m && key(r) !in n;
    }
  }

  lemma {:induction false} OnBoth<R(!new), K(!new)>(
      e: seq<R>, a: seq<R>, key: R -> K, spell: K -> string, fields: (R, R) -> seq<string>, id: string, field: string)
    requires DistinctKeys(e, key) && DistinctKeys(a, key)
    ensures (exists k :: k in ByKey(e, key) && k in ByKey(a, key) && spell(k) == id
               && field in fields(ByKey(e, key)[k], ByKey(a, key)[k])) <==>
      Differs(e, a, key, spell, fields, id, field)
  {
    ByKeyHolds(e, key);
    ByKeyHolds(a, key);
    var m, n := ByKey(e, key), ByKey(a, key);
    if k :| k in m && k in n && spell(k) == id && field in fields(m[k], n[k]) {
      assert m[k] in e && n[k] in a && key(m[k]) == key(n[k]) == k;
    }
    if r, s :| r in e && s in a && key(r) == key(s) && spell(key(r)) == id && field in fields(r, s) {
      assert m[key(r)] == r && n[key(s)] == s;
    }
  }

  lemma {:induction false} RowsExactly<R(!new), K(!new)>(
      e: seq<R>, a: seq<R>, key: R -> K, le: (K, K) -> bool, spell: K -> string, whole: string, fields: (R, R) -> seq<string>,
      d: Difference)
    requires DistinctKeys(e, key) && DistinctKeys(a, key)
    ensures d in DiffRows(ByKey(e, key), ByKey(a, key), le, spell, whole, fields) <==>
      RowDifference(e, a, key, spell, whole, fields, d)
  {
    TableMembers(ByKey(e, key), ByKey(a, key), le, spell, whole, fields, d);
    OnlyHere(e, a, key, spell, d.id);
    OnlyHere(a, e, key, spell, d.id);
    OnBoth(e, a, key, spell, fields, d.id, d.field);
  }

  // ---------------------------------------------------------------- fields

  /** The field is the name of a position below the dicts where they hold different leaves. */
  ghost predicate FieldDiffers(v: Json, w: Json, field: string) {
    exists path: Path :: RootedPath(path) && field == Name(path) && LeafOrNull(v, path) != LeafOrNull(w, path)
  }

  lemma {:induction false} FieldExactly(v: Json, w: Json, field: string)
    requires v.Obj? && WellFormed(v) && Plain(v) && w.Obj? && WellFormed(w) && Plain(w)
    ensures field in FlatNames(v, w) <==> FieldDiffers(v, w, field)
  {
    FlatNamesMember(v, w, field);
    if path: Path :| RootedPath(path) && field == Name(path) && LeafOrNull(v, path) != LeafOrNull(w, path) {
      FlattenedDict(v, path);
      FlattenedDict(w, path);
    }
    if GetFlat(Flatten(v, ""), field) != GetFlat(Flatten(w, ""), field) {
      var x := if field in Flatten(v, "") then v else w;
      FieldSizes(x.fields);
      SortUnique(x.fields);
      var path := TopEntryHasPosition(x, Sort(x.fields, FieldLe), field);
      FlattenedDict(v, path);
      FlattenedDict(w, path);
    }
  }

  lemma {:induction false} OperationTidy(o: Operation)
    ensures OperationJson(o).Obj? && WellFormed(OperationJson(o)) && Plain(OperationJson(o))
  {
    OperationPlain(o);
    OperationWellFormed(o);
  }

  lemma {:induction false} OperationFields(o: Operation, p: Operation, field: string)
    ensures field in OperationNames(o, p) <==> FieldDiffers(OperationJson(o), OperationJson(p), field)
  {
    OperationTidy(o);
    OperationTidy(p);
    FieldExactly(OperationJson(o), OperationJson(p), field);
    PrefixedMember("", FlatNames(OperationJson(o), OperationJson(p)), field);
    assert "" + field == field;
  }

  lemma {:induction false} OnlyPrefixed(prefix: string, names: seq<string>, field: string)
    requires field in Prefixed(prefix, names)
    ensures exists n :: n in names && field == prefix + n
  {
    if field != prefix + names[0] {
      OnlyPrefixed(prefix, names[1..], field);
      var n :| n in names[1..] && field == prefix + n;
    }
  }

  lemma {:induction false} EventFields(b: BrowserEvent, c: BrowserEvent, field: string)
    ensures field in EventNames(b, c) <==> EventDiffers(b, c, field)
  {
    var names := FlatNames(BrowserEventJson(b), BrowserEventJson(c));
    BrowserEventPlain(b);
    BrowserEventPlain(c);
    BrowserEventGets(b);
    BrowserEventGets(c);
    forall n ensures n in names <==> FieldDiffers(BrowserEventJson(b), BrowserEventJson(c), n) {
      FieldExactly(BrowserEventJson(b), BrowserEventJson(c), n);
    }
    if field in EventNames(b, c) {
      OnlyPrefixed("browserEvents.", names, field);
    }
    if n :| field == "browserEvents." + n && FieldDiffers(BrowserEventJson(b), BrowserEventJson(c), n) {
      PrefixedMember("browserEvents.", names, n);
    }
  }

  // ---------------------------------------------------------------- the report

  /** A difference between the operations: by id, and field by field. */
  ghost predicate OperationDifference(e: seq<Operation>, a: seq<Operation>, d: Difference) {
    match d.kind
    case Missing => d.field == "operation" && exists o :: o in e && o.id == d.id && forall p :: p in a ==> p.id != o.id
    case Extra => d.field == "operation" && exists o :: o in a && o.id == d.id && forall p :: p in e ==> p.id != o.id
    case Incompatible =>
      exists o, p :: o in e && p in a && o.id == p.id == d.id && FieldDiffers(OperationJson(o), OperationJson(p), d.field)
  }

  predicate SamePlace(x: Disposition, y: Disposition) { x.verb == y.verb && x.path == y.path }

  /** What is reported of dispositions at one place. */
  predicate ScopeDiffers(x: Disposition, y: Disposition, field: string) {
    (field == "disposition" && x.disposition != y.disposition) || (field == "reason" && x.reason != y.reason)
  }

  /** A difference between the dispositions: by method and path, and in the disposition or the reason. */
  ghost predicate ScopeDifference(e: seq<Disposition>, a: seq<Disposition>, d: Difference) {
    match d.kind
    case Missing =>
      d.field == "disposition" && exists x :: x in e && d.id == x.verb + " " + x.path && forall y :: y in a ==> !SamePlace(x, y)
    case Extra =>
      d.field == "disposition" && exists x :: x in a && d.id == x.verb + " " + x.path && forall y :: y in e ==> !SamePlace(x, y)
    case Incompatible =>
      exists x, y :: x in e && y in a && SamePlace(x, y) && d.id == x.verb + " " + x.path && ScopeDiffers(x, y, d.field)
  }

  /** What is reported of browser events of one operation. */
  ghost predicate EventDiffers(b: BrowserEvent, c: BrowserEvent, field: string) {
    exists n :: field == "browserEvents." + n && FieldDiffers(BrowserEventJson(b), BrowserEventJson(c), n)
  }

  /** A difference between the browser events: by operation id, and field by field. */
  ghost predicate EventDifference(e: seq<BrowserEvent>, a: seq<BrowserEvent>, d: Difference) {
    match d.kind
    case Missing => d.field == "browserEvents" && exists b :: b in e && b.id == d.id && forall c :: c in a ==> c.id != b.id
    case Extra => d.field == "browserEvents" && exists b :: b in a && b.id == d.id && forall c :: c in e ==> c.id != b.id
    case Incompatible =>
      exists b, c :: b in e && c in a && b.id == c.id == d.id && EventDiffers(b, c, d.field)
  }

  lemma {:induction false} LacksOperation(e: seq<Operation>, a: seq<Operation>, id: string)
    ensures Lacks(e, a, OperationKey, Named, id) <==> exists o :: o in e && o.id == id && forall p :: p in a ==> p.id != o.id
  {
    if Lacks(e, a, OperationKey, Named, id) {
      var o :| o in e && Named(OperationKey(o)) == id && forall s :: s in a ==> OperationKey(s) != OperationKey(o);
      forall p | p in a ensures p.id != o.id {
        assert OperationKey(p) != OperationKey(o);
      }
    }
    if o :| o in e && o.id == id && forall p :: p in a ==> p.id != o.id {
      assert Named(OperationKey(o)) == id && forall s :: s in a ==> OperationKey(s) != OperationKey(o);
    }
  }

  lemma {:induction false} DiffersOperation(e: seq<Operation>, a: seq<Operation>, id: string, field: string)
    ensures Differs(e, a, OperationKey, Named, OperationNames, id, field) <==>
      exists o, p :: o in e && p in a && o.id == p.id == id && FieldDiffers(OperationJson(o), OperationJson(p), field)
  {
    if Differs(e, a, OperationKey, Named, OperationNames, id, field) {
      var o, p :| o in e && p in a && OperationKey(o) == OperationKey(p) && Named(OperationKey(o)) == id && field in OperationNames(o, p);
      OperationFields(o, p, field);
    }
    if o, p :| o in e && p in a && o.id == p.id == id && FieldDiffers(OperationJson(o), OperationJson(p), field) {
      OperationFields(o, p, field);
      assert OperationKey(o) == OperationKey(p) && Named(OperationKey(o)) == id;
    }
  }

  lemma {:induction false} OperationsExactly(e: seq<Operation>, a: seq<Operation>, d: Difference)
    requires DistinctKeys(e, OperationKey) && DistinctKeys(a, OperationKey)
    ensures d in OperationDifferences(e, a) <==> OperationDifference(e, a, d)
  {
    RowsExactly(e, a, OperationKey, StrLe, Named, "operation", OperationNames, d);
    match d.kind
    case Missing => LacksOperation(e, a, d.id);
    case Extra => LacksOperation(a, e, d.id);
    case Incompatible => DiffersOperation(e, a, d.id, d.field);
  }

  lemma {:induction false} LacksScope(e: seq<Disposition>, a: seq<Disposition>, id: string)
    ensures Lacks(e, a, ScopeKey, Spelled, id) <==>
      exists x :: x in e && id == x.verb + " " + x.path && forall y :: y in a ==> !SamePlace(x, y)
  {
    if Lacks(e, a, ScopeKey, Spelled, id) {
      var x :| x in e && Spelled(ScopeKey(x)) == id && forall y :: y in a ==> ScopeKey(y) != ScopeKey(x);
      forall y | y in a ensures !SamePlace(x, y) {
        assert ScopeKey(y) != ScopeKey(x);
      }
    }
    if x :| x in e && id == x.verb + " " + x.path && forall y :: y in a ==> !SamePlace(x, y) {
      assert Spelled(ScopeKey(x)) == id && forall y :: y in a ==> ScopeKey(y) != ScopeKey(x);
    }
  }

  lemma {:induction false} DiffersScope(e: seq<Disposition>, a: seq<Disposition>, id: string, field: string)
    ensures Differs(e, a, ScopeKey, Spelled, ScopeNames, id, field) <==>
      exists x, y :: x in e && y in a && SamePlace(x, y) && id == x.verb + " " + x.path && ScopeDiffers(x, y, field)
  {
    if Differs(e, a, ScopeKey, Spelled, ScopeNames, id, field) {
      var x, y :| x in e && y in a && ScopeKey(x) == ScopeKey(y) && Spelled(ScopeKey(x)) == id && field in ScopeNames(x, y);
      assert SamePlace(x, y);
    }
    if x, y :| x in e && y in a && SamePlace(x, y) && id == x.verb + " " + x.path && ScopeDiffers(x, y, field) {
      assert ScopeKey(x) == ScopeKey(y) && Spelled(ScopeKey(x)) == id && field in ScopeNames(x, y);
    }
  }

  lemma {:induction false} ScopesExactly(e: seq<Disposition>, a: seq<Disposition>, d: Difference)
    requires DistinctKeys(e, ScopeKey) && DistinctKeys(a, ScopeKey)
    ensures d in ScopeDifferences(e, a) <==> ScopeDifference(e, a, d)
  {
    RowsExactly(e, a, ScopeKey, Orders.PairLe, Spelled, "disposition", ScopeNames, d);
    match d.kind
    case Missing => LacksScope(e, a, d.id);
    case Extra => LacksScope(a, e, d.id);
    case Incompatible => DiffersScope(e, a, d.id, d.field);
  }

  lemma {:induction false} LacksEvent(e: seq<BrowserEvent>, a: seq<BrowserEvent>, id: string)
    ensures Lacks(e, a, EventKey, Named, id) <==> exists b :: b in e && b.id == id && forall c :: c in a ==> c.id != b.id
  {
    if Lacks(e, a, EventKey, Named, id) {
      var b :| b in e && Named(EventKey(b)) == id && forall c :: c in a ==> EventKey(c) != EventKey(b);
      forall c | c in a ensures c.id != b.id {
        assert EventKey(c) != EventKey(b);
      }
    }
    if b :| b in e && b.id == id && forall c :: c in a ==> c.id != b.id {
      assert Named(EventKey(b)) == id && forall c :: c in a ==> EventKey(c) != EventKey(b);
    }
  }

  lemma {:induction false} EventsDiffer(e: seq<BrowserEvent>, a: seq<BrowserEvent>, id: string, field: string)
    requires Differs(e, a, EventKey, Named, EventNames, id, field)
    ensures exists b, c :: b in e && c in a && b.id == c.id == id && EventDiffers(b, c, field)
  {
    var b, c :| b in e && c in a && EventKey(b) == EventKey(c) && Named(EventKey(b)) == id && field in EventNames(b, c);
    EventFields(b, c, field);
  }

  lemma {:induction false} EventsReported(e: seq<BrowserEvent>, a: seq<BrowserEvent>, b: BrowserEvent, c: BrowserEvent, field: string)
    requires b in e && c in a && b.id == c.id && EventDiffers(b, c, field)
    ensures Differs(e, a, EventKey, Named, EventNames, b.id, field)
  {
    EventFields(b, c, field);
    assert EventKey(b) == EventKey(c) && Named(EventKey(b)) == b.id;
  }

  lemma {:induction false} DiffersEvent(e: seq<BrowserEvent>, a: seq<BrowserEvent>, id: string, field: string)
    ensures Differs(e, a, EventKey, Named, EventNames, id, field) <==>
      exists b, c :: b in e && c in a && b.id == c.id == id && EventDiffers(b, c, field)
  {
    if Differs(e, a, EventKey, Named, EventNames, id, field) {
      EventsDiffer(e, a, id, field);
    }
    if b, c :| b in e && c in a && b.id == c.id == id && EventDiffers(b, c, field) {
      EventsReported(e, a, b, c, field);
    }
  }

  lemma {:induction false} EventsExactly(e: seq<BrowserEvent>, a: seq<BrowserEvent>, d: Difference)
    requires DistinctKeys(e, EventKey) && DistinctKeys(a, EventKey)
    ensures d in EventDifferences(e, a) <==> EventDifference(e, a, d)
  {
    RowsExactly(e, a, EventKey, StrLe, Named, "browserEvents", EventNames, d);
    match d.kind
    case Missing => LacksEvent(e, a, d.id);
    case Extra => LacksEvent(a, e, d.id);
    case Incompatible => DiffersEvent(e, a, d.id, d.field);
  }

  /** Between manifests with distinct keys exactly these differences are reported. */
  lemma {:induction false} DifferencesExactly(expected: Manifest, actual: Manifest, d: Difference)
    requires Distinct(expected) && Distinct(actual)
    ensures d in Differences(expected, actual) <==>
      OperationDifference(expected.operations, actual.operations, d)
      || ScopeDifference(expected.dispositions, actual.dispositions, d)
      || EventDifference(expected.events, actual.events, d)
  {
    OperationsExactly(expected.operations, actual.operations, d);
    ScopesExactly(expected.dispositions, actual.dispositions, d);
    EventsExactly(expected.events, actual.events, d);
  }
}
