/** `projection_differences`: how a manifest differs from the one expected. */
module ProjectionDiff {
  import opened Sorting
  import opened Text
  import opened Orders
  import opened JsonValues
  import opened JsonPositions
  import opened Flattening
  import opened SurfaceRows
  import opened RowFlattening
  import Distinctness
  import ManifestValidation

  datatype Kind = Missing | Extra | Incompatible

  datatype Difference = Difference(kind: Kind, id: string, field: string)

  // ---------------------------------------------------------------- tables of rows by key

  /** `{key(row): row for row in rows}`: a later row replaces an earlier one with its key. */
  function ByKey<R, K(==)>(rows: seq<R>, key: R -> K): map<K, R> {
    if rows == [] then map[] else ByKey(rows[..|rows| - 1], key)[key(rows[|rows| - 1]) := rows[|rows| - 1]]
  }

  ghost predicate DistinctKeys<R, K>(rows: seq<R>, key: R -> K) {
    forall i, j :: 0 <= i < j < |rows| ==> key(rows[i]) != key(rows[j])
  }

  /** With distinct keys no row is lost and none invented. */
  lemma {:induction false} ByKeyHolds<R, K>(rows: seq<R>, key: R -> K)
    requires DistinctKeys(rows, key)
    ensures forall r :: r in rows ==> key(r) in ByKey(rows, key) && ByKey(rows, key)[key(r)] == r
    ensures forall k :: k in ByKey(rows, key) ==> ByKey(rows, key)[k] in rows && key(ByKey(rows, key)[k]) == k
  {
    if rows == [] {
    } else {
      var init, last := rows[..|rows| - 1], rows[|rows| - 1];
      assert rows == init + [last];
      ByKeyHolds(init, key);
    }
  }

  // ---------------------------------------------------------------- the differences

  /** One difference per key, about the whole row. */
  function Whole<K>(keys: seq<K>, kind: Kind, spell: K -> string, field: string): seq<Difference> {
    if keys == [] then [] else [Difference(kind, spell(keys[0]), field)] + Whole(keys[1..], kind, spell, field)
  }

  /** One difference per field of one row. */
  function PerField(id: string, fields: seq<string>): seq<Difference> {
    if fields == [] then [] else [Difference(Incompatible, id, fields[0])] + PerField(id, fields[1..])
  }

  ghost function Changes<K, V>(keys: seq<K>, e: map<K, V>, a: map<K, V>, spell: K -> string, fields: (V, V) -> seq<string>)
    : seq<Difference>
    requires forall k :: k in keys ==> k in e && k in a
  {
    if keys == [] then []
    else PerField(spell(keys[0]), fields(e[keys[0]], a[keys[0]])) + Changes(keys[1..], e, a, spell, fields)
  }

  /** The differences of two tables, given the keys only expected, the keys only present and the common keys. */
  ghost function DiffKeys<K, V>(
      gone: seq<K>, added: seq<K>, both: seq<K>, e: map<K, V>, a: map<K, V>,
      spell: K -> string, whole: string, fields: (V, V) -> seq<string>)
    : seq<Difference>
    requires forall k :: k in both ==> k in e && k in a
  {
    Whole(gone, Missing, spell, whole) + Whole(added, Extra, spell, whole) + Changes(both, e, a, spell, fields)
  }

  ghost function DiffRows<K(!new), V>(
      e: map<K, V>, a: map<K, V>, le: (K, K) -> bool, spell: K -> string, whole: string, fields: (V, V) -> seq<string>)
    : seq<Difference>
  {
    DiffKeys(Listing(e.Keys - a.Keys, le), Listing(a.Keys - e.Keys, le), Listing(e.Keys * a.Keys, le),
             e, a, spell, whole, fields)
  }

  /** The names under which two flattened rows differ, sorted. */
  ghost function FlatNames(v: Json, w: Json): seq<string> {
    Differing(Listing(Flatten(v, "").Keys + Flatten(w, "").Keys, StrLe), Flatten(v, ""), Flatten(w, ""))
  }

  function Differing(names: seq<string>, f: Flat, g: Flat): seq<string> {
    if names == [] then []
    else (if GetFlat(f, names[0]) != GetFlat(g, names[0]) then [names[0]] else []) + Differing(names[1..], f, g)
  }

  function Prefixed(prefix: string, names: seq<string>): seq<string> {
    if names == [] then [] else [prefix + names[0]] + Prefixed(prefix, names[1..])
  }

  function OperationKey(o: Operation): string { o.id }

  function ScopeKey(d: Disposition): (string, string) { (d.verb, d.path) }

  function EventKey(b: BrowserEvent): string { b.id }

  function Named(id: string): string { id }

  function Spelled(key: (string, string)): string { key.0 + " " + key.1 }

  ghost function OperationNames(o: Operation, p: Operation): seq<string> {
    Prefixed("", FlatNames(OperationJson(o), OperationJson(p)))
  }

  ghost function EventNames(b: BrowserEvent, c: BrowserEvent): seq<string> {
    Prefixed("browserEvents.", FlatNames(BrowserEventJson(b), BrowserEventJson(c)))
  }

  function ScopeNames(d: Disposition, f: Disposition): seq<string> {
    (if d.disposition != f.disposition then ["disposition"] else []) + (if d.reason != f.reason then ["reason"] else [])
  }

  ghost function OperationDifferences(e: seq<Operation>, a: seq<Operation>): seq<Difference> {
    DiffRows(ByKey(e, OperationKey), ByKey(a, OperationKey), StrLe, Named, "operation", OperationNames)
  }

  ghost function ScopeDifferences(e: seq<Disposition>, a: seq<Disposition>): seq<Difference> {
    DiffRows(ByKey(e, ScopeKey), ByKey(a, ScopeKey), PairLe, Spelled, "disposition", ScopeNames)
  }

  ghost function EventDifferences(e: seq<BrowserEvent>, a: seq<BrowserEvent>): seq<Difference> {
    DiffRows(ByKey(e, EventKey), ByKey(a, EventKey), StrLe, Named, "browserEvents", EventNames)
  }

  ghost function Differences(expected: Manifest, actual: Manifest): seq<Difference> {
    OperationDifferences(expected.operations, actual.operations)
    + ScopeDifferences(expected.dispositions, actual.dispositions)
    + EventDifferences(expected.events, actual.events)
  }

  // ---------------------------------------------------------------- when there are none

  lemma {:induction false} NoChanges<K, V>(keys: seq<K>, e: map<K, V>, a: map<K, V>, spell: K -> string, fields: (V, V) -> seq<string>)
    requires forall k :: k in keys ==> k in e && k in a
    ensures Changes(keys, e, a, spell, fields) == [] <==> forall k :: k in keys ==> fields(e[k], a[k]) == []
  {
    if keys == [] {
    } else {
      NoChanges(keys[1..], e, a, spell, fields);
      assert keys == [keys[0]] + keys[1..];
    }
  }

  lemma {:induction false} NoKeyDifferences<K, V>(
      gone: seq<K>, added: seq<K>, both: seq<K>, e: map<K, V>, a: map<K, V>,
      spell: K -> string, whole: string, fields: (V, V) -> seq<string>)
    requires forall k :: k in both ==> k in e && k in a
    ensures DiffKeys(gone, added, both, e, a, spell, whole, fields) == [] <==>
      (gone == [] && added == [] && forall k :: k in both ==> fields(e[k], a[k]) == [])
  {
    NoChanges(both, e, a, spell, fields);
    var x, y := Whole(gone, Missing, spell, whole), Whole(added, Extra, spell, whole);
    assert |x + y + Changes(both, e, a, spell, fields)| == |x| + |y| + |Changes(both, e, a, spell, fields)|;
  }

  lemma {:induction false} TablesAgree<K(!new), V>(
      e: map<K, V>, a: map<K, V>, le: (K, K) -> bool, spell: K -> string, whole: string, fields: (V, V) -> seq<string>)
    requires DiffRows(e, a, le, spell, whole, fields) == []
    ensures e.Keys == a.Keys && forall k :: k in e && k in a ==> fields(e[k], a[k]) == []
  {
    var gone, added, both := Listing(e.Keys - a.Keys, le), Listing(a.Keys - e.Keys, le), Listing(e.Keys * a.Keys, le);
    NoKeyDifferences(gone, added, both, e, a, spell, whole, fields);
    assert forall k :: k in e && k in a ==> k in both;
  }

  lemma {:induction false} NoRowDifferences<K(!new), V>(
      e: map<K, V>, a: map<K, V>, le: (K, K) -> bool, spell: K -> string, whole: string, fields: (V, V) -> seq<string>)
    requires e.Keys == a.Keys && forall k :: k in e && k in a ==> fields(e[k], a[k]) == []
    ensures DiffRows(e, a, le, spell, whole, fields) == []
  {
    var gone, added, both := Listing(e.Keys - a.Keys, le), Listing(a.Keys - e.Keys, le), Listing(e.Keys * a.Keys, le);
    NoKeyDifferences(gone, added, both, e, a, spell, whole, fields);
    assert gone == [] && added == [];
  }

  /** Tables of rows with distinct keys hold the same rows exactly when they agree key by key. */
  lemma {:induction false} SameRows<R(!new), K>(e: seq<R>, a: seq<R>, key: R -> K)
    requires DistinctKeys(e, key) && DistinctKeys(a, key)
    ensures (forall r :: r in e <==> r in a) <==> ByKey(e, key) == ByKey(a, key)
  {
    ByKeyHolds(e, key);
    ByKeyHolds(a, key);
    var m, n := ByKey(e, key), ByKey(a, key);
    if m == n {
      forall r ensures r in e <==> r in a {
        assert r in e ==> key(r) in m && m[key(r)] == r;
        assert r in a ==> key(r) in n && n[key(r)] == r;
      }
    }
    if forall r :: r in e <==> r in a {
      forall k ensures (k in m <==> k in n) && (k in m ==> m[k] == n[k]) {
        if k in m {
          assert m[k] in a;
        }
        if k in n {
          assert n[k] in e;
        }
      }
    }
  }

  /** No fields differ between two rows with one key exactly when the rows are equal. */
  ghost predicate Telling<R(!new), K>(key: R -> K, fields: (R, R) -> seq<string>) {
    forall r, s :: key(r) == key(s) ==> (fields(r, s) == [] <==> r == s)
  }

  lemma {:induction false} SectionEmpty<R(!new), K(!new)>(
      e: seq<R>, a: seq<R>, key: R -> K, le: (K, K) -> bool, spell: K -> string, whole: string, fields: (R, R) -> seq<string>)
    requires DistinctKeys(e, key) && DistinctKeys(a, key) && Telling(key, fields)
    ensures DiffRows(ByKey(e, key), ByKey(a, key), le, spell, whole, fields) == [] <==> forall r :: r in e <==> r in a
  {
    var m, n := ByKey(e, key), ByKey(a, key);
    SameRows(e, a, key);
    ByKeyHolds(e, key);
    ByKeyHolds(a, key);
    if DiffRows(m, n, le, spell, whole, fields) == [] {
      TablesAgree(m, n, le, spell, whole, fields);
      assert forall k :: k in m ==> k in n && fields(m[k], n[k]) == [] && key(m[k]) == k == key(n[k]);
    }
    if m == n {
      forall k | k in m && k in n ensures fields(m[k], n[k]) == [] {
        assert key(m[k]) == key(n[k]);
      }
      NoRowDifferences(m, n, le, spell, whole, fields);
    }
  }

  lemma {:induction false} DifferingMember(names: seq<string>, f: Flat, g: Flat, n: string)
    ensures n in Differing(names, f, g) <==> n in names && GetFlat(f, n) != GetFlat(g, n)
  {
    if names == [] {
    } else {
      DifferingMember(names[1..], f, g, n);
      assert names == [names[0]] + names[1..];
    }
  }

  lemma {:induction false} NoneDiffering(names: seq<string>, f: Flat, g: Flat)
    requires forall n :: GetFlat(f, n) == GetFlat(g, n)
    ensures Differing(names, f, g) == []
  {
    if names == [] {
    } else {
      NoneDiffering(names[1..], f, g);
    }
  }

  lemma {:induction false} FlatNamesMember(v: Json, w: Json, n: string)
    ensures n in FlatNames(v, w) <==> GetFlat(Flatten(v, ""), n) != GetFlat(Flatten(w, ""), n)
  {
    var f, g := Flatten(v, ""), Flatten(w, "");
    DifferingMember(Listing(f.Keys + g.Keys, StrLe), f, g, n);
  }

  lemma {:induction false} NoFlatNames(v: Json, w: Json)
    ensures FlatNames(v, w) == [] <==> FlatAlike(v, w)
  {
    var f, g := Flatten(v, ""), Flatten(w, "");
    if FlatNames(v, w) == [] {
      forall n ensures GetFlat(f, n) == GetFlat(g, n) {
        FlatNamesMember(v, w, n);
      }
    }
    if FlatAlike(v, w) {
      NoneDiffering(Listing(f.Keys + g.Keys, StrLe), f, g);
    }
  }

  lemma {:induction false} OperationNamesTell()
    ensures Telling(OperationKey, OperationNames)
  {
    forall o: Operation, p: Operation ensures OperationNames(o, p) == [] <==> o == p {
      NoFlatNames(OperationJson(o), OperationJson(p));
      OperationRowsTold(o, p);
    }
  }

  lemma {:induction false} EventNamesTell()
    ensures Telling(EventKey, EventNames)
  {
    forall b: BrowserEvent, c: BrowserEvent ensures EventNames(b, c) == [] <==> b == c {
      NoFlatNames(BrowserEventJson(b), BrowserEventJson(c));
      BrowserEventRowsTold(b, c);
    }
  }

  ghost predicate Distinct(m: Manifest) {
    DistinctKeys(m.operations, OperationKey) && DistinctKeys(m.dispositions, ScopeKey) && DistinctKeys(m.events, EventKey)
  }

  lemma {:induction false} NoOperationDifferences(e: seq<Operation>, a: seq<Operation>)
    requires DistinctKeys(e, OperationKey) && DistinctKeys(a, OperationKey)
    ensures OperationDifferences(e, a) == [] <==> forall o :: o in e <==> o in a
  {
    OperationNamesTell();
    SectionEmpty(e, a, OperationKey, StrLe, Named, "operation", OperationNames);
  }

  lemma {:induction false} NoScopeDifferences(e: seq<Disposition>, a: seq<Disposition>)
    requires DistinctKeys(e, ScopeKey) && DistinctKeys(a, ScopeKey)
    ensures ScopeDifferences(e, a) == [] <==> forall d :: d in e <==> d in a
  {
    assert Telling(ScopeKey, ScopeNames);
    SectionEmpty(e, a, ScopeKey, PairLe, Spelled, "disposition", ScopeNames);
  }

  lemma {:induction false} NoEventDifferences(e: seq<BrowserEvent>, a: seq<BrowserEvent>)
    requires DistinctKeys(e, EventKey) && DistinctKeys(a, EventKey)
    ensures EventDifferences(e, a) == [] <==> forall b :: b in e <==> b in a
  {
    EventNamesTell();
    SectionEmpty(e, a, EventKey, StrLe, Named, "browserEvents", EventNames);
  }

  /** Manifests whose keys are distinct show no difference exactly when their operations, dispositions and browser
      events are the same sets. */
  lemma {:induction false} NoDifferences(expected: Manifest, actual: Manifest)
    requires Distinct(expected) && Distinct(actual)
    ensures Differences(expected, actual) == [] <==>
      ((forall o :: o in expected.operations <==> o in actual.operations)
       && (forall d :: d in expected.dispositions <==> d in actual.dispositions)
       && (forall b :: b in expected.events <==> b in actual.events))
  {
    NoOperationDifferences(expected.operations, actual.operations);
    NoScopeDifferences(expected.dispositions, actual.dispositions);
    NoEventDifferences(expected.events, actual.events);
  }

  lemma {:induction false} DistinctMapped<R, K>(rows: seq<R>, key: R -> K)
    ensures DistinctKeys(rows, key) <==> Distinctness.NoDuplicates(Map(rows, key))
  {
  }

  lemma {:induction false} ValidatedDistinct(m: Manifest)
    requires ManifestValidation.KeysFine(m)
    ensures Distinct(m)
  {
    DistinctMapped(m.operations, ManifestValidation.OperationId);
    DistinctMapped(m.dispositions, ManifestValidation.DispositionKey);
    DistinctMapped(m.events, ManifestValidation.EventId);
  }

  /** Two manifests that the validator lets pass show no difference exactly when they hold the same operations,
      dispositions and browser events. */
  lemma {:induction false} ValidatedNoDifferences(digest: Json -> string, expected: Manifest, actual: Manifest)
    requires ManifestValidation.Passes(digest, expected) && ManifestValidation.Passes(digest, actual)
    ensures Differences(expected, actual) == [] <==>
      ((forall o :: o in expected.operations <==> o in actual.operations)
       && (forall d :: d in expected.dispositions <==> d in actual.dispositions)
       && (forall b :: b in expected.events <==> b in actual.events))
  {
    ValidatedDistinct(expected);
    ValidatedDistinct(actual);
    NoDifferences(expected, actual);
  }

  // ---------------------------------------------------------------- what an entry says

  lemma {:induction false} PrefixedMember(prefix: string, names: seq<string>, n: string)
    ensures n in names <==> prefix + n in Prefixed(prefix, names)
  {
    if names == [] {
    } else {
      PrefixedMember(prefix, names[1..], n);
      assert names == [names[0]] + names[1..];
      assert prefix + n == prefix + names[0] <==> n == names[0] by {
        assert (prefix + n)[|prefix|..] == n && (prefix + names[0])[|prefix|..] == names[0];
      }
    }
  }

  lemma {:induction false} PrefixedFlatNames(prefix: string, v: Json, w: Json, n: string)
    ensures prefix + n in Prefixed(prefix, FlatNames(v, w)) <==> GetFlat(Flatten(v, ""), n) != GetFlat(Flatten(w, ""), n)
  {
    FlatNamesMember(v, w, n);
    PrefixedMember(prefix, FlatNames(v, w), n);
  }

  lemma {:induction false} OperationLeaf(o: Operation, path: Path)
    requires RootedPath(path)
    ensures GetFlat(Flatten(OperationJson(o), ""), Name(path)) == LeafOrNull(OperationJson(o), path)
  {
    OperationPlain(o);
    OperationWellFormed(o);
    FlattenedDict(OperationJson(o), path);
  }

  lemma {:induction false} UnprefixedFlatNames(v: Json, w: Json, n: string)
    ensures n in Prefixed("", FlatNames(v, w)) <==> GetFlat(Flatten(v, ""), n) != GetFlat(Flatten(w, ""), n)
  {
    PrefixedFlatNames("", v, w, n);
    assert "" + n == n;
  }

  /** A field of an operation is reported exactly when the two rows hold different leaves at that position. */
  lemma {:induction false} ReportedField(o: Operation, p: Operation, path: Path)
    requires RootedPath(path)
    ensures Name(path) in OperationNames(o, p) <==>
      LeafOrNull(OperationJson(o), path) != LeafOrNull(OperationJson(p), path)
  {
    OperationLeaf(o, path);
    OperationLeaf(p, path);
    UnprefixedFlatNames(OperationJson(o), OperationJson(p), Name(path));
  }

  // ---------------------------------------------------------------- exchanging the manifests

  function Only(ds: seq<Difference>, kind: Kind): seq<Difference> {
    if ds == [] then [] else (if ds[0].kind == kind then [ds[0]] else []) + Only(ds[1..], kind)
  }

  function Flip(kind: Kind): Kind {
    match kind case Missing => Extra case Extra => Missing case Incompatible => Incompatible
  }

  /** The same differences with "missing" and "extra" exchanged. */
  function Turned(ds: seq<Difference>): seq<Difference> {
    if ds == [] then [] else [ds[0].(kind := Flip(ds[0].kind))] + Turned(ds[1..])
  }

  lemma {:induction false} OnlyOfSum(x: seq<Difference>, y: seq<Difference>, kind: Kind)
    ensures Only(x + y, kind) == Only(x, kind) + Only(y, kind)
  {
    if x == [] {
      assert x + y == y;
    } else {
      assert (x + y)[0] == x[0] && (x + y)[1..] == x[1..] + y;
      OnlyOfSum(x[1..], y, kind);
    }
  }

  lemma {:induction false} TurnedSum(x: seq<Difference>, y: seq<Difference>)
    ensures Turned(x + y) == Turned(x) + Turned(y)
  {
    if x == [] {
      assert x + y == y;
    } else {
      assert (x + y)[0] == x[0] && (x + y)[1..] == x[1..] + y;
      TurnedSum(x[1..], y);
    }
  }

  /** Keeping or turning the entries of three sections, section by section. */
  lemma {:induction false} OnlyOfThree(x: seq<Difference>, y: seq<Difference>, z: seq<Difference>, kind: Kind)
    ensures Only(x + y + z, kind) == Only(x, kind) + Only(y, kind) + Only(z, kind)
    ensures Turned(x + y + z) == Turned(x) + Turned(y) + Turned(z)
  {
    OnlyOfSum(x + y, z, kind);
    OnlyOfSum(x, y, kind);
    TurnedSum(x + y, z);
    TurnedSum(x, y);
  }

  lemma {:induction false} WholeKind<K>(keys: seq<K>, kind: Kind, spell: K -> string, whole: string, other: Kind)
    ensures Only(Whole(keys, kind, spell, whole), other) == if kind == other then Whole(keys, kind, spell, whole) else []
    ensures Turned(Whole(keys, kind, spell, whole)) == Whole(keys, Flip(kind), spell, whole)
  {
    if keys == [] {
    } else {
      WholeKind(keys[1..], kind, spell, whole, other);
      var tail := Whole(keys[1..], kind, spell, whole);
      assert Whole(keys, kind, spell, whole)[1..] == tail;
    }
  }

  lemma {:induction false} PerFieldKind(id: string, fields: seq<string>, other: Kind)
    ensures Only(PerField(id, fields), other) == if other == Incompatible then PerField(id, fields) else []
    ensures Turned(PerField(id, fields)) == PerField(id, fields)
  {
    if fields == [] {
    } else {
      PerFieldKind(id, fields[1..], other);
      assert PerField(id, fields)[1..] == PerField(id, fields[1..]);
    }
  }

  lemma {:induction false} ChangesKind<K, V>(
      keys: seq<K>, e: map<K, V>, a: map<K, V>, spell: K -> string, fields: (V, V) -> seq<string>, other: Kind)
    requires forall k :: k in keys ==> k in e && k in a
    ensures Only(Changes(keys, e, a, spell, fields), other)
         == if other == Incompatible then Changes(keys, e, a, spell, fields) else []
    ensures Turned(Changes(keys, e, a, spell, fields)) == Changes(keys, e, a, spell, fields)
  {
    if keys == [] {
    } else {
      ChangesKind(keys[1..], e, a, spell, fields, other);
      var head, tail := PerField(spell(keys[0]), fields(e[keys[0]], a[keys[0]])), Changes(keys[1..], e, a, spell, fields);
      PerFieldKind(spell(keys[0]), fields(e[keys[0]], a[keys[0]]), other);
      OnlyOfSum(head, tail, other);
      TurnedSum(head, tail);
    }
  }

  ghost predicate Symmetric<V(!new)>(fields: (V, V) -> seq<string>) {
    forall x, y :: fields(x, y) == fields(y, x)
  }

  lemma {:induction false} ChangesExchanged<K, V(!new)>(
      keys: seq<K>, e: map<K, V>, a: map<K, V>, spell: K -> string, fields: (V, V) -> seq<string>)
    requires forall k :: k in keys ==> k in e && k in a
    requires Symmetric(fields)
    ensures Changes(keys, e, a, spell, fields) == Changes(keys, a, e, spell, fields)
  {
    if keys == [] {
    } else {
      assert fields(e[keys[0]], a[keys[0]]) == fields(a[keys[0]], e[keys[0]]);
      ChangesExchanged(keys[1..], e, a, spell, fields);
    }
  }

  lemma {:induction false} OneOfThree(x: seq<Difference>, y: seq<Difference>, z: seq<Difference>, kind: Kind)
    requires Only(x, kind) == (if kind.Missing? then x else []) && Only(y, kind) == (if kind.Extra? then y else [])
    requires Only(z, kind) == if kind.Incompatible? then z else []
    ensures Only(x + y + z, kind) == if kind.Missing? then x else if kind.Extra? then y else z
  {
    OnlyOfThree(x, y, z, kind);
    assert x + [] + [] == x && [] + y + [] == y && [] + [] + z == z;
  }

  lemma {:induction false} OnlyOfKeys<K, V>(
      gone: seq<K>, added: seq<K>, both: seq<K>, e: map<K, V>, a: map<K, V>,
      spell: K -> string, whole: string, fields: (V, V) -> seq<string>, kind: Kind)
    requires forall k :: k in both ==> k in e && k in a
    ensures Only(DiffKeys(gone, added, both, e, a, spell, whole, fields), kind) ==
      if kind.Missing? then Whole(gone, Missing, spell, whole)
      else if kind.Extra? then Whole(added, Extra, spell, whole)
      else Changes(both, e, a, spell, fields)
  {
    WholeKind(gone, Missing, spell, whole, kind);
    WholeKind(added, Extra, spell, whole, kind);
    ChangesKind(both, e, a, spell, fields, kind);
    OneOfThree(Whole(gone, Missing, spell, whole), Whole(added, Extra, spell, whole), Changes(both, e, a, spell, fields), kind);
  }

  lemma {:induction false} KeysExchanged<K, V(!new)>(
      gone: seq<K>, added: seq<K>, both: seq<K>, e: map<K, V>, a: map<K, V>,
      spell: K -> string, whole: string, fields: (V, V) -> seq<string>, kind: Kind)
    requires forall k :: k in both ==> k in e && k in a
    requires Symmetric(fields)
    ensures Only(DiffKeys(added, gone, both, a, e, spell, whole, fields), kind)
         == Turned(Only(DiffKeys(gone, added, both, e, a, spell, whole, fields), Flip(kind)))
  {
    OnlyOfKeys(gone, added, both, e, a, spell, whole, fields, Flip(kind));
    OnlyOfKeys(added, gone, both, a, e, spell, whole, fields, kind);
    match kind
    case Missing => WholeKind(added, Extra, spell, whole, kind);
    case Extra => WholeKind(gone, Missing, spell, whole, kind);
    case Incompatible =>
      ChangesKind(both, e, a, spell, fields, kind);
      ChangesExchanged(both, e, a, spell, fields);
  }

  lemma {:induction false} RowsExchanged<K(!new), V(!new)>(
      e: map<K, V>, a: map<K, V>, le: (K, K) -> bool, spell: K -> string, whole: string, fields: (V, V) -> seq<string>,
      kind: Kind)
    requires Symmetric(fields)
    ensures Only(DiffRows(a, e, le, spell, whole, fields), kind)
         == Turned(Only(DiffRows(e, a, le, spell, whole, fields), Flip(kind)))
  {
    assert e.Keys * a.Keys == a.Keys * e.Keys;
    var gone, added, both := Listing(e.Keys - a.Keys, le), Listing(a.Keys - e.Keys, le), Listing(e.Keys * a.Keys, le);
    KeysExchanged(gone, added, both, e, a, spell, whole, fields, kind);
  }

  lemma {:induction false} FlatNamesSymmetric(v: Json, w: Json)
    ensures FlatNames(v, w) == FlatNames(w, v)
  {
    var f, g := Flatten(v, ""), Flatten(w, "");
    assert f.Keys + g.Keys == g.Keys + f.Keys;
    DifferingSymmetric(Listing(f.Keys + g.Keys, StrLe), f, g);
  }

  lemma {:induction false} DifferingSymmetric(names: seq<string>, f: Flat, g: Flat)
    ensures Differing(names, f, g) == Differing(names, g, f)
  {
    if names == [] {
    } else {
      DifferingSymmetric(names[1..], f, g);
    }
  }

  lemma {:induction false} NamesSymmetric()
    ensures Symmetric(OperationNames) && Symmetric(ScopeNames) && Symmetric(EventNames)
  {
    forall o: Operation, p: Operation ensures OperationNames(o, p) == OperationNames(p, o) {
      FlatNamesSymmetric(OperationJson(o), OperationJson(p));
    }
    forall b: BrowserEvent, c: BrowserEvent ensures EventNames(b, c) == EventNames(c, b) {
      FlatNamesSymmetric(BrowserEventJson(b), BrowserEventJson(c));
    }
  }

  lemma {:induction false} SectionsExchanged(e: Manifest, a: Manifest, kind: Kind)
    ensures Only(OperationDifferences(a.operations, e.operations), kind)
         == Turned(Only(OperationDifferences(e.operations, a.operations), Flip(kind)))
    ensures Only(ScopeDifferences(a.dispositions, e.dispositions), kind)
         == Turned(Only(ScopeDifferences(e.dispositions, a.dispositions), Flip(kind)))
    ensures Only(EventDifferences(a.events, e.events), kind)
         == Turned(Only(EventDifferences(e.events, a.events), Flip(kind)))
  {
    NamesSymmetric();
    RowsExchanged(ByKey(e.operations, OperationKey), ByKey(a.operations, OperationKey),
                  StrLe, Named, "operation", OperationNames, kind);
    RowsExchanged(ByKey(e.dispositions, ScopeKey), ByKey(a.dispositions, ScopeKey),
                  PairLe, Spelled, "disposition", ScopeNames, kind);
    RowsExchanged(ByKey(e.events, EventKey), ByKey(a.events, EventKey),
                  StrLe, Named, "browserEvents", EventNames, kind);
  }

  /** Exchanging the two manifests exchanges "missing" with "extra", keeps every "incompatible", and keeps the order
      within each kind. */
  lemma {:induction false} DifferencesExchanged(expected: Manifest, actual: Manifest, kind: Kind)
    ensures Only(Differences(actual, expected), kind) == Turned(Only(Differences(expected, actual), Flip(kind)))
  {
    SectionsExchanged(expected, actual, kind);
    var x, y := OperationDifferences(expected.operations, actual.operations), ScopeDifferences(expected.dispositions, actual.dispositions);
    var z := EventDifferences(expected.events, actual.events);
    OnlyOfThree(x, y, z, Flip(kind));
    OnlyOfThree(Only(x, Flip(kind)), Only(y, Flip(kind)), Only(z, Flip(kind)), kind);
    OnlyOfThree(OperationDifferences(actual.operations, expected.operations),
                ScopeDifferences(actual.dispositions, expected.dispositions),
                EventDifferences(actual.events, expected.events), kind);
  }

  // ---------------------------------------------------------------- the loops

  method ReportWhole<K>(sorted: seq<K>, kind: Kind, spell: K -> string, field: string) returns (ds: seq<Difference>)
    ensures ds == Whole(sorted, kind, spell, field)
  {
    ds := [];
    for i := 0 to |sorted|
      invariant Whole(sorted, kind, spell, field) == ds + Whole(sorted[i..], kind, spell, field)
    {
      var d := Difference(kind, spell(sorted[i]), field);
      assert sorted[i..][1..] == sorted[i + 1..];
      Regroup(ds, [d], Whole(sorted[i + 1..], kind, spell, field));
      ds := ds + [d];
    }
  }

  method KeepDiffering(sorted: seq<string>, f: Flat, g: Flat) returns (names: seq<string>)
    ensures names == Differing(sorted, f, g)
  {
    names := [];
    for i := 0 to |sorted|
      invariant Differing(sorted, f, g) == names + Differing(sorted[i..], f, g)
    {
      assert sorted[i..][1..] == sorted[i + 1..];
      if GetFlat(f, sorted[i]) != GetFlat(g, sorted[i]) {
        Regroup(names, [sorted[i]], Differing(sorted[i + 1..], f, g));
        names := names + [sorted[i]];
      }
    }
  }

  method DifferingNames(v: Json, w: Json) returns (names: seq<string>)
    ensures names == FlatNames(v, w)
  {
    var f, g := Flatten(v, ""), Flatten(w, "");
    var sorted := SortedNames(f.Keys + g.Keys);
    names := KeepDiffering(sorted, f, g);
  }

  lemma {:induction false} ChangesStep<K, V>(
      done: seq<Difference>, keys: seq<K>, i: nat, e: map<K, V>, a: map<K, V>, spell: K -> string, fields: (V, V) -> seq<string>)
    requires i < |keys| && forall k :: k in keys ==> k in e && k in a
    ensures done + Changes(keys[i..], e, a, spell, fields)
         == done + PerField(spell(keys[i]), fields(e[keys[i]], a[keys[i]])) + Changes(keys[i + 1..], e, a, spell, fields)
  {
    assert keys[i..][1..] == keys[i + 1..];
    Regroup(done, PerField(spell(keys[i]), fields(e[keys[i]], a[keys[i]])), Changes(keys[i + 1..], e, a, spell, fields));
  }

  method ReportOperationFields(sorted: seq<string>, e: map<string, Operation>, a: map<string, Operation>)
    returns (ds: seq<Difference>)
    requires forall k :: k in sorted ==> k in e && k in a
    ensures ds == Changes(sorted, e, a, Named, OperationNames)
  {
    ds := [];
    for i := 0 to |sorted|
      invariant Changes(sorted, e, a, Named, OperationNames) == ds + Changes(sorted[i..], e, a, Named, OperationNames)
    {
      var k := sorted[i];
      var names := DifferingNames(OperationJson(e[k]), OperationJson(a[k]));
      ChangesStep(ds, sorted, i, e, a, Named, OperationNames);
      ds := ds + PerField(k, Prefixed("", names));
    }
  }

  method ReportEventFields(sorted: seq<string>, e: map<string, BrowserEvent>, a: map<string, BrowserEvent>)
    returns (ds: seq<Difference>)
    requires forall k :: k in sorted ==> k in e && k in a
    ensures ds == Changes(sorted, e, a, Named, EventNames)
  {
    ds := [];
    for i := 0 to |sorted|
      invariant Changes(sorted, e, a, Named, EventNames) == ds + Changes(sorted[i..], e, a, Named, EventNames)
    {
      var k := sorted[i];
      var names := DifferingNames(BrowserEventJson(e[k]), BrowserEventJson(a[k]));
      ChangesStep(ds, sorted, i, e, a, Named, EventNames);
      ds := ds + PerField(k, Prefixed("browserEvents.", names));
    }
  }

  lemma {:induction false} ScopeFields(id: string, d: Disposition, f: Disposition)
    ensures PerField(id, ScopeNames(d, f)) ==
      (if d.disposition != f.disposition then [Difference(Incompatible, id, "disposition")] else [])
      + (if d.reason != f.reason then [Difference(Incompatible, id, "reason")] else [])
  {
    assert PerField(id, []) == [];
    assert PerField(id, ["reason"]) == [Difference(Incompatible, id, "reason")] + PerField(id, []);
    assert ["disposition", "reason"][1..] == ["reason"];
    assert ["disposition"] + ["reason"] == ["disposition", "reason"];
  }

  method ScopeRow(id: string, d: Disposition, f: Disposition) returns (found: seq<Difference>)
    ensures found == PerField(id, ScopeNames(d, f))
  {
    found := [];
    if d.disposition != f.disposition {
      found := found + [Difference(Incompatible, id, "disposition")];
    }
    if d.reason != f.reason {
      found := found + [Difference(Incompatible, id, "reason")];
    }
    ScopeFields(id, d, f);
  }

  method ReportScope(sorted: seq<(string, string)>, e: map<(string, string), Disposition>, a: map<(string, string), Disposition>)
    returns (ds: seq<Difference>)
    requires forall k :: k in sorted ==> k in e && k in a
    ensures ds == Changes(sorted, e, a, Spelled, ScopeNames)
  {
    ds := [];
    for i := 0 to |sorted|
      invariant Changes(sorted, e, a, Spelled, ScopeNames) == ds + Changes(sorted[i..], e, a, Spelled, ScopeNames)
    {
      var k := sorted[i];
      var found := ScopeRow(Spelled(k), e[k], a[k]);
      ChangesStep(ds, sorted, i, e, a, Spelled, ScopeNames);
      ds := ds + found;
    }
  }

  method CompareOperations(e: seq<Operation>, a: seq<Operation>) returns (ds: seq<Difference>)
    ensures ds == OperationDifferences(e, a)
  {
    var m, n := ByKey(e, OperationKey), ByKey(a, OperationKey);
    var gone := SortedNames(m.Keys - n.Keys);
    ds := ReportWhole(gone, Missing, Named, "operation");
    var added := SortedNames(n.Keys - m.Keys);
    var extra := ReportWhole(added, Extra, Named, "operation");
    var both := SortedNames(m.Keys * n.Keys);
    var changed := ReportOperationFields(both, m, n);
    ds := ds + extra + changed;
  }

  method CompareScopes(e: seq<Disposition>, a: seq<Disposition>) returns (ds: seq<Difference>)
    ensures ds == ScopeDifferences(e, a)
  {
    var m, n := ByKey(e, ScopeKey), ByKey(a, ScopeKey);
    var gone := SortedPairs(m.Keys - n.Keys);
    ds := ReportWhole(gone, Missing, Spelled, "disposition");
    var added := SortedPairs(n.Keys - m.Keys);
    var extra := ReportWhole(added, Extra, Spelled, "disposition");
    var both := SortedPairs(m.Keys * n.Keys);
    var changed := ReportScope(both, m, n);
    ds := ds + extra + changed;
  }

  method CompareEvents(e: seq<BrowserEvent>, a: seq<BrowserEvent>) returns (ds: seq<Difference>)
    ensures ds == EventDifferences(e, a)
  {
    var m, n := ByKey(e, EventKey), ByKey(a, EventKey);
    var gone := SortedNames(m.Keys - n.Keys);
    ds := ReportWhole(gone, Missing, Named, "browserEvents");
    var added := SortedNames(n.Keys - m.Keys);
    var extra := ReportWhole(added, Extra, Named, "browserEvents");
    var both := SortedNames(m.Keys * n.Keys);
    var changed := ReportEventFields(both, m, n);
    ds := ds + extra + changed;
  }

  method ProjectionDifferences(expected: Manifest, actual: Manifest) returns (ds: seq<Difference>)
    ensures ds == Differences(expected, actual)
  {
    ds := CompareOperations(expected.operations, actual.operations);
    var scope := CompareScopes(expected.dispositions, actual.dispositions);
    var events := CompareEvents(expected.events, actual.events);
    ds := ds + scope + events;
  }
}
