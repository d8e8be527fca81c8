/** The projection does not depend on the order of keys anywhere in the document. */
module OperationOrder {
  import opened Sorting
  import opened Text
  import opened Orders
  import opened JsonValues
  import opened Distinctness
  import opened SurfaceRows
  import opened OperationUnits
  import opened OperationRows
  import opened OperationSurface
  import opened OperationCanon
  import opened ManifestValidation
  import CanonicalJson
  import JsonPointer

  // ---------------------------------------------------------------- collecting permuted lists

  function MapOpt<S, T>(o: Option<seq<S>>, h: S -> T): Option<seq<T>> { if o.Some? then Some(Map(o.value, h)) else None }

  lemma {:induction false} MapSum<S, T>(a: seq<S>, b: seq<S>, h: S -> T)
    ensures Map(a + b, h) == Map(a, h) + Map(b, h)
  {
  }

  lemma {:induction false} MapGather<S, T, U>(xs: seq<S>, f: S -> Option<seq<T>>, h: T -> U, g: S -> Option<seq<U>>)
    requires forall x :: x in xs ==> g(x) == MapOpt(f(x), h)
    ensures MapOpt(Gather(xs, f), h) == Gather(xs, g)
  {
    if xs == [] {
    } else {
      var n := |xs| - 1;
      MapGather(xs[..n], f, h, g);
      assert xs[n] in xs;
      if Gather(xs, f).Some? {
        MapSum(Gather(xs[..n], f).value, f(xs[n]).value, h);
      }
    }
  }

  lemma {:induction false} GatherSum<S, T>(xs: seq<S>, ys: seq<S>, f: S -> Option<seq<T>>)
    ensures Gather(xs + ys, f) ==
      if Gather(xs, f).None? || Gather(ys, f).None? then None else Some(Gather(xs, f).value + Gather(ys, f).value)
  {
    if ys == [] {
      assert xs + ys == xs;
      assert Gather(xs, f).Some? ==> Gather(xs, f).value + [] == Gather(xs, f).value;
    } else {
      var n := |ys| - 1;
      var all := xs + ys;
      assert all[..|all| - 1] == xs + ys[..n] && all[|all| - 1] == ys[n];
      GatherSum(xs, ys[..n], f);
      if Gather(xs, f).Some? && Gather(ys, f).Some? {
        var a, b, c := Gather(xs, f).value, Gather(ys[..n], f).value, f(ys[n]).value;
        assert (a + b) + c == a + (b + c);
      }
    }
  }

  lemma {:induction false} GatherOne<S, T>(x: S, f: S -> Option<seq<T>>)
    ensures Gather([x], f) == f(x)
  {
    assert [x][..0] == [];
    assert f(x).Some? ==> [] + f(x).value == f(x).value;
  }

  lemma {:induction false} GatherTakeOut<S, T>(b: seq<S>, i: nat, f: S -> Option<seq<T>>)
    requires i < |b| && Gather(b, f).Some?
    ensures f(b[i]).Some? && Gather(b[..i] + b[i + 1..], f).Some?
    ensures multiset(Gather(b, f).value) == multiset(Gather(b[..i] + b[i + 1..], f).value) + multiset(f(b[i]).value)
  {
    assert b == b[..i] + [b[i]] + b[i + 1..];
    GatherSum(b[..i] + [b[i]], b[i + 1..], f);
    GatherSum(b[..i], [b[i]], f);
    GatherOne(b[i], f);
    GatherSum(b[..i], b[i + 1..], f);
  }

  /** Collecting over a permuted list succeeds alike and gives a permutation. */
  lemma {:induction false} GatherPermutation<S(!new), T>(a: seq<S>, b: seq<S>, f: S -> Option<seq<T>>)
    requires multiset(a) == multiset(b)
    ensures Gather(a, f).Some? <==> Gather(b, f).Some?
    ensures Gather(a, f).Some? ==> multiset(Gather(a, f).value) == multiset(Gather(b, f).value)
    decreases |a|
  {
    SameMembers(a, b);
    GatherSome(a, f);
    GatherSome(b, f);
    if a != [] && Gather(a, f).Some? {
      var n := |a| - 1;
      assert a[n] in b;
      var i :| 0 <= i < |b| && b[i] == a[n];
      GatherTakeOut(b, i, f);
      LastRest(a, b, i);
      GatherPermutation(a[..n], b[..i] + b[i + 1..], f);
    }
  }

  lemma {:induction false} LastRest<T>(a: seq<T>, b: seq<T>, i: nat)
    requires multiset(a) == multiset(b) && a != [] && i < |b| && b[i] == a[|a| - 1]
    ensures multiset(a[..|a| - 1]) == multiset(b[..i] + b[i + 1..])
  {
    TakeOut(b, i);
    assert a == a[..|a| - 1] + [a[|a| - 1]];
    assert multiset(a[..|a| - 1]) == multiset(a) - multiset{a[|a| - 1]};
  }

  lemma {:induction false} GatherFrom<S, T>(xs: seq<S>, f: S -> Option<seq<T>>, t: T) returns (x: S)
    requires Gather(xs, f).Some? && t in Gather(xs, f).value
    ensures x in xs && f(x).Some? && t in f(x).value
  {
    var n := |xs| - 1;
    if t in f(xs[n]).value {
      x := xs[n];
    } else {
      x := GatherFrom(xs[..n], f, t);
    }
  }

  // ---------------------------------------------------------------- path items

  function CanonItem(i: Item): Item { Item(Canon(i.item), Canon(Obj(i.overrides)).fields) }

  ghost predicate WellItem(i: Item) { WellFormed(i.item) && WellFormed(Obj(i.overrides)) }

  lemma {:induction false} AliasCanon(r: Resolver, rc: Resolver, overrides: Json, ref: Json)
    requires Commutes(r, rc) && WellFormed(overrides)
    ensures ReadAlias(rc, Canon(overrides), Canon(ref)) ==
      if ReadAlias(r, overrides, ref).Some? then Some(CanonItem(ReadAlias(r, overrides, ref).value)) else None
    ensures ReadAlias(r, overrides, ref).Some? ==> WellItem(ReadAlias(r, overrides, ref).value)
  {
    CanonKinds(overrides);
    CanonKinds(ref);
    if ref.Str? && r(ref.s).Some? {
      CanonKinds(r(ref.s).value);
    }
  }

  lemma {:induction false} ItemCanon(r: Resolver, rc: Resolver, raw: Json)
    requires Commutes(r, rc) && WellFormed(raw)
    ensures ReadItem(rc, Canon(raw)) == if ReadItem(r, raw).Some? then Some(CanonItem(ReadItem(r, raw).value)) else None
    ensures ReadItem(r, raw).Some? ==> WellItem(ReadItem(r, raw).value)
  {
    EmptyDefaults();
    CanonKinds(raw);
    CanonGet(raw, REF);
    CanonGetOr(raw, OVERRIDES, Obj([]));
    AliasCanon(r, rc, GetOr(raw, OVERRIDES, Obj([])), Get(raw, REF));
  }

  lemma {:induction false} KnownCanon(i: Item, methods: seq<(string, string)>)
    requires WellItem(i)
    ensures OverridesKnown(CanonItem(i), methods) <==> OverridesKnown(i, methods)
  {
    CanonKeys(i.overrides);
    forall k: string ensures Get(Canon(i.item), k).Obj? == Get(i.item, k).Obj? {
      CanonGet(i.item, k);
      CanonKinds(Get(i.item, k));
    }
  }

  lemma {:induction false} FindCanon(fs: seq<Field>, k: string)
    requires UniqueKeys(fs)
    ensures Find(Canon(Obj(fs)).fields, k) == CanonOpt(Find(fs, k))
  {
    SortFind(CanonFields(fs), k);
    CanonFind(fs, k);
  }

  lemma {:induction false} RenamedCanon(op: Json, id: string)
    requires WellFormed(op) && op.Obj?
    ensures Canon(op).Obj? && Canon(Renamed(Canon(op), id)) == Canon(Renamed(op, id))
  {
    CanonIdempotent(op);
    CanonWellFormed(op);
    CanonSet(Canon(op).fields, op.fields, OPERATION_ID, Str(id));
  }

  lemma {:induction false} SameUnits(u: Unit, v: Unit)
    requires CanonUnit(u) == CanonUnit(v)
    ensures Map([u], CanonUnit) == Map([v], CanonUnit)
  {
  }

  lemma {:induction false} UnitForCanon(path: string, verb: string, operation: Json, override: Option<Json>)
    requires WellFormed(operation)
    ensures MapOpt(UnitFor(path, verb, Canon(operation), CanonOpt(override)), CanonUnit)
         == MapOpt(UnitFor(path, verb, operation, override), CanonUnit)
  {
    CanonKinds(operation);
    if operation.Obj? {
      if override.None? {
        CanonIdempotent(operation);
        SameUnits(Unit(path, verb, Canon(operation)), Unit(path, verb, operation));
      } else {
        LabelCanon(override.value);
        if Label(override.value).Some? {
          var id := Label(override.value).value;
          RenamedCanon(operation, id);
          SameUnits(Unit(path, verb, Renamed(Canon(operation), id)), Unit(path, verb, Renamed(operation, id)));
        }
      }
    }
  }

  lemma {:induction false} MethodCanon(path: string, i: Item, m: (string, string))
    requires WellItem(i)
    ensures MapOpt(MethodUnits(path, CanonItem(i), m), CanonUnit)
         == MapOpt(MethodUnits(path, i, m), CanonUnit)
  {
    CanonGet(i.item, m.0);
    GetWellFormed(i.item, m.0);
    FindCanon(i.overrides, m.0);
    UnitForCanon(path, m.1, Get(i.item, m.0), Find(i.overrides, m.0));
  }

  lemma {:induction false} EntryCanon(r: Resolver, rc: Resolver, methods: seq<(string, string)>, e: Field)
    requires Commutes(r, rc) && WellFormed(e.value)
    ensures MapOpt(EntryUnits(rc, methods, CanonField(e)), CanonUnit) == MapOpt(EntryUnits(r, methods, e), CanonUnit)
  {
    ItemCanon(r, rc, e.value);
    var read := ReadItem(r, e.value);
    if read.Some? {
      var i := read.value;
      var ic := CanonItem(i);
      KnownCanon(i, methods);
      var f, fc := m => MethodUnits(e.key, i, m), m => MethodUnits(e.key, ic, m);
      var g := m => MapOpt(MethodUnits(e.key, i, m), CanonUnit);
      forall m: (string, string) ensures g(m) == MapOpt(fc(m), CanonUnit) {
        MethodCanon(e.key, i, m);
      }
      MapGather(methods, f, CanonUnit, g);
      MapGather(methods, fc, CanonUnit, g);
    }
  }

  lemma {:induction false} MethodWellFormed(path: string, i: Item, m: (string, string))
    requires WellFormed(i.item) && MethodUnits(path, i, m).Some?
    ensures forall u :: u in MethodUnits(path, i, m).value ==> WellFormed(u.operation)
  {
    GetWellFormed(i.item, m.0);
    var operation, override := Get(i.item, m.0), Find(i.overrides, m.0);
    if operation.Obj? && override.Some? && Label(override.value).Some? {
      SetWellFormed(operation.fields, OPERATION_ID, Str(Label(override.value).value));
    }
  }

  lemma {:induction false} EntryWellFormed(r: Resolver, rc: Resolver, methods: seq<(string, string)>, e: Field, u: Unit)
    requires Commutes(r, rc) && WellFormed(e.value) && EntryUnits(r, methods, e).Some? && u in EntryUnits(r, methods, e).value
    ensures WellFormed(u.operation)
  {
    ItemCanon(r, rc, e.value);
    var i := ReadItem(r, e.value).value;
    var m := GatherFrom(methods, m => MethodUnits(e.key, i, m), u);
    MethodWellFormed(e.key, i, m);
  }

  // ---------------------------------------------------------------- all operations

  /** The operations under the sorted entries, with their own keys sorted. */
  function SortedEntry(rc: Resolver, methods: seq<(string, string)>): Field -> Option<seq<Unit>> {
    e => MapOpt(EntryUnits(rc, methods, e), CanonUnit)
  }

  lemma {:induction false} UnitsCanon(r: Resolver, rc: Resolver, methods: seq<(string, string)>, fs: seq<Field>)
    requires Commutes(r, rc) && WellFormed(Obj(fs))
    ensures MapOpt(Gather(fs, e => EntryUnits(r, methods, e)), CanonUnit) == Gather(CanonFields(fs), SortedEntry(rc, methods))
  {
    var f := (e: Field) => EntryUnits(r, methods, e);
    var g := (e: Field) => MapOpt(EntryUnits(r, methods, e), CanonUnit);
    MapGather(fs, f, CanonUnit, g);
    forall e | e in fs ensures SortedEntry(rc, methods)(CanonField(e)) == g(e) {
      var i :| 0 <= i < |fs| && fs[i] == e;
      EntryCanon(r, rc, methods, e);
    }
    CanonFieldsMap(fs);
    GatherMapped(fs, CanonField, SortedEntry(rc, methods), g);
  }

  lemma {:induction false} SamePathsPermute(fs: seq<Field>, gs: seq<Field>)
    requires Same(Obj(fs), Obj(gs))
    ensures multiset(CanonFields(fs)) == multiset(CanonFields(gs))
  {
    assert multiset(Sort(CanonFields(fs), FieldLe)) == multiset(CanonFields(fs));
    assert multiset(Sort(CanonFields(gs), FieldLe)) == multiset(CanonFields(gs));
  }

  /** Units of documents with the same entries up to key order: the same operations up to key order and position. */
  lemma {:induction false} UnitsPermute(r: Resolver, r': Resolver, rc: Resolver, methods: seq<(string, string)>, paths: Json, paths': Json)
    requires Commutes(r, rc) && Commutes(r', rc) && WellFormed(paths) && WellFormed(paths') && Same(paths, paths')
    ensures Units(paths, r, methods).Some? <==> Units(paths', r', methods).Some?
    ensures Units(paths, r, methods).Some? ==>
      multiset(Map(Units(paths, r, methods).value, CanonUnit)) == multiset(Map(Units(paths', r', methods).value, CanonUnit))
  {
    CanonKinds(paths);
    CanonKinds(paths');
    if paths.Obj? {
      var fs, gs := paths.fields, paths'.fields;
      SamePathsPermute(fs, gs);
      UnitsCanon(r, rc, methods, fs);
      UnitsCanon(r', rc, methods, gs);
      GatherPermutation(CanonFields(fs), CanonFields(gs), SortedEntry(rc, methods));
      SizesAgree(Gather(fs, e => EntryUnits(r, methods, e)), Gather(gs, e => EntryUnits(r', methods, e)));
    }
  }

  lemma {:induction false} SizesAgree(a: Option<seq<Unit>>, b: Option<seq<Unit>>)
    requires MapOpt(a, CanonUnit).Some? && MapOpt(b, CanonUnit).Some? ==>
      multiset(MapOpt(a, CanonUnit).value) == multiset(MapOpt(b, CanonUnit).value)
    ensures a.Some? && b.Some? ==> |a.value| == |b.value|
  {
    if a.Some? && b.Some? {
      SameMembers(Map(a.value, CanonUnit), Map(b.value, CanonUnit));
    }
  }

  lemma {:induction false} UnitsWellFormed(r: Resolver, rc: Resolver, methods: seq<(string, string)>, paths: Json)
    requires Commutes(r, rc) && WellFormed(paths) && Units(paths, r, methods).Some?
    ensures forall u :: u in Units(paths, r, methods).value ==> WellFormed(u.operation)
  {
    forall u | u in Units(paths, r, methods).value ensures WellFormed(u.operation) {
      var e := GatherFrom(paths.fields, e => EntryUnits(r, methods, e), u);
      var i :| 0 <= i < |paths.fields| && paths.fields[i] == e;
      EntryWellFormed(r, rc, methods, e, u);
    }
  }

  // ---------------------------------------------------------------- all rows

  lemma {:induction false} OneRow(r: Rows)
    ensures Map([r], CanonRows) == [CanonRows(r)]
  {
  }

  lemma {:induction false} RowsCanon(
      units: seq<Unit>, project: Unit -> Option<Rows>, projectc: Unit -> Option<Rows>)
    requires forall u :: u in units ==> projectc(CanonUnit(u)) == CanonRowsOpt(project(u))
    ensures MapOpt(AllRows(units, project), CanonRows) == AllRows(Map(units, CanonUnit), projectc)
  {
    var f := u => if project(u).Some? then Some([project(u).value]) else None;
    var fc := u => if projectc(u).Some? then Some([projectc(u).value]) else None;
    var g := u => MapOpt(f(u), CanonRows);
    MapGather(units, f, CanonRows, g);
    forall u | u in units ensures fc(CanonUnit(u)) == g(u) {
      assert projectc(CanonUnit(u)) == CanonRowsOpt(project(u));
      if project(u).Some? {
        OneRow(project(u).value);
      }
    }
    GatherMapped(units, CanonUnit, fc, g);
  }

  lemma {:induction false} RowsPermute(units: seq<Unit>, units': seq<Unit>, project: Unit -> Option<Rows>, project': Unit -> Option<Rows>, projectc: Unit -> Option<Rows>)
    requires multiset(Map(units, CanonUnit)) == multiset(Map(units', CanonUnit))
    requires forall u :: u in units ==> projectc(CanonUnit(u)) == CanonRowsOpt(project(u))
    requires forall u :: u in units' ==> projectc(CanonUnit(u)) == CanonRowsOpt(project'(u))
    ensures AllRows(units, project).Some? <==> AllRows(units', project').Some?
    ensures AllRows(units, project).Some? ==>
      multiset(Map(AllRows(units, project).value, CanonRows)) == multiset(Map(AllRows(units', project').value, CanonRows))
  {
    RowsCanon(units, project, projectc);
    RowsCanon(units', project', projectc);
    GatherPermutation(Map(units, CanonUnit), Map(units', CanonUnit), u => if projectc(u).Some? then Some([projectc(u).value]) else None);
  }

  // ---------------------------------------------------------------- manifests

  function CanonManifest(m: Manifest): Manifest { m.(samples := Map(m.samples, CanonSample)) }

  lemma {:induction false} KeptMapped<R, S, T>(rows: seq<R>, h: R -> S, pick: S -> Option<T>, pick': R -> Option<T>)
    requires forall r :: pick(h(r)) == pick'(r)
    ensures Kept(Map(rows, h), pick) == Kept(rows, pick')
  {
    if rows == [] {
    } else {
      assert Map(rows, h)[1..] == Map(rows[1..], h);
      KeptMapped(rows[1..], h, pick, pick');
    }
  }

  lemma {:induction false} KeptIsGather<R, T>(rows: seq<R>, pick: R -> Option<T>)
    ensures Gather(rows, r => if pick(r).Some? then Some([pick(r).value]) else Some([])) == Some(Kept(rows, pick))
  {
    if rows == [] {
    } else {
      var n := |rows| - 1;
      KeptIsGather(rows[..n], pick);
      assert rows == rows[..n] + [rows[n]];
      KeptSnoc(rows[..n], rows[n], pick);
    }
  }

  lemma {:induction false} KeptPermutation<R(!new), T>(a: seq<R>, b: seq<R>, pick: R -> Option<T>)
    requires multiset(a) == multiset(b)
    ensures multiset(Kept(a, pick)) == multiset(Kept(b, pick))
  {
    var f := r => if pick(r).Some? then Some([pick(r).value]) else Some([]);
    KeptIsGather(a, pick);
    KeptIsGather(b, pick);
    GatherPermutation(a, b, f);
  }

  /** Values with distinct keys never tie in an order that looks at the key. */
  lemma {:induction false} NoTiesByKey<T(!new), K>(xs: seq<T>, key: T -> K, le: (T, T) -> bool)
    requires NoDuplicates(Map(xs, key)) && forall x, y :: le(x, y) && le(y, x) ==> key(x) == key(y)
    ensures NoTies(xs, le)
  {
    forall x, y | x in xs && y in xs && le(x, y) && le(y, x) ensures x == y {
      var i, j :| 0 <= i < |xs| && xs[i] == x && 0 <= j < |xs| && xs[j] == y;
      assert Map(xs, key)[i] == key(x) && Map(xs, key)[j] == key(y);
    }
  }

  lemma {:induction false} SortSame<T(!new), K>(a: seq<T>, b: seq<T>, key: T -> K, le: (T, T) -> bool)
    requires Preorder(le) && multiset(a) == multiset(b) && NoDuplicates(Map(a, key))
    requires forall x, y :: le(x, y) && le(y, x) ==> key(x) == key(y)
    ensures Sort(a, le) == Sort(b, le)
  {
    NoTiesByKey(a, key, le);
    SortPermutation(a, b, le);
  }

  function DispositionPlace(d: Disposition): (string, string) { (d.path, d.verb) }

  function SamplePlace(s: Sample): (string, string) { (s.path, s.verb) }

  lemma {:induction false} DispositionOrder()
    ensures Preorder(DispositionLe) && forall x, y :: DispositionLe(x, y) && DispositionLe(y, x) ==> DispositionKey(x) == DispositionKey(y)
  {
    PreorderByPair(DispositionPlace, DispositionLe);
    assert forall x, y :: DispositionPlace(x) == DispositionPlace(y) ==> DispositionKey(x) == DispositionKey(y);
  }

  lemma {:induction false} SampleOrder()
    ensures Preorder(SampleLe) && forall x, y :: SampleLe(x, y) && SampleLe(y, x) ==> SampleKey(x) == SampleKey(y)
  {
    PreorderByPair(SamplePlace, SampleLe);
    assert forall x, y :: SamplePlace(x) == SamplePlace(y) ==> SampleKey(x) == SampleKey(y);
  }

  lemma {:induction false} EventOrder()
    ensures Preorder(EventLe) && forall x, y :: EventLe(x, y) && EventLe(y, x) ==> EventId(x) == EventId(y)
  {
    StrOrder();
  }

  lemma {:induction false} OperationOrderTotal(x: Operation, y: Operation)
    ensures OperationLe(x, y) || OperationLe(y, x)
    ensures OperationLe(x, y) && OperationLe(y, x) ==> OperationKey(x) == OperationKey(y)
  {
    var a, b := (x.path, x.verb), (y.path, y.verb);
    PairLeTotal(a, b);
    StrLeTotal(x.id, y.id);
    if a != b && PairLe(a, b) && PairLe(b, a) {
      PairLeAntisymmetric(a, b);
    }
  }

  lemma {:induction false} OperationOrderTransitive(x: Operation, y: Operation, z: Operation)
    requires OperationLe(x, y) && OperationLe(y, z)
    ensures OperationLe(x, z)
  {
    var a, b, c := (x.path, x.verb), (y.path, y.verb), (z.path, z.verb);
    if a == b == c {
      StrLeTransitive(x.id, y.id, z.id);
    } else if a != b && b != c {
      PairLeTransitive(a, b, c);
      if a == c {
        PairLeAntisymmetric(a, b);
      }
    }
  }

  lemma {:induction false} OperationsOrder()
    ensures Preorder(OperationLe) && forall x, y :: OperationLe(x, y) && OperationLe(y, x) ==> OperationKey(x) == OperationKey(y)
  {
    forall x: Operation, y: Operation
      ensures (OperationLe(x, y) || OperationLe(y, x)) && (OperationLe(x, y) && OperationLe(y, x) ==> OperationKey(x) == OperationKey(y))
    {
      OperationOrderTotal(x, y);
    }
    forall x: Operation, y: Operation, z: Operation | OperationLe(x, y) && OperationLe(y, z) ensures OperationLe(x, z) {
      OperationOrderTransitive(x, y, z);
    }
  }

  /** Permuted rows assemble to the same manifest. */
  lemma {:induction false} AssemblePermutation(digest: Json -> string, a: seq<Rows>, b: seq<Rows>)
    requires multiset(a) == multiset(b) && DistinctRows(a) && AllCoherent(a)
    ensures Assemble(digest, a) == Assemble(digest, b)
  {
    RowKeys(a);
    OperationsOf(a);
    EventsOf(a);
    MapPermutation(a, b, DispositionOf);
    MapPermutation(a, b, SampleOf);
    KeptPermutation(a, b, OperationOf);
    KeptPermutation(a, b, EventOf);
    DispositionOrder();
    SortSame(Map(a, DispositionOf), Map(b, DispositionOf), DispositionKey, DispositionLe);
    SampleOrder();
    SortSame(Map(a, SampleOf), Map(b, SampleOf), SampleKey, SampleLe);
    OperationsOrder();
    SortSame(Operations(a), Operations(b), OperationKey, OperationLe);
    EventOrder();
    SortSame(BrowserEvents(a), BrowserEvents(b), EventId, EventLe);
  }

  /** Sorting the keys of the tags before or after assembling. */
  lemma {:induction false} AssembleCanon(digest: Json -> string, rows: seq<Rows>)
    ensures Assemble(digest, Map(rows, CanonRows)) == CanonManifest(Assemble(digest, rows))
  {
    var rc := Map(rows, CanonRows);
    assert Map(rc, DispositionOf) == Map(rows, DispositionOf);
    assert Map(rc, SampleOf) == Map(Map(rows, SampleOf), CanonSample);
    KeptMapped(rows, CanonRows, OperationOf, OperationOf);
    KeptMapped(rows, CanonRows, EventOf, EventOf);
    SortMapped(Map(rows, SampleOf), CanonSample, SampleLe, SampleLe);
  }

  lemma {:induction false} RowsCanonKeep(rows: seq<Rows>)
    ensures DistinctRows(Map(rows, CanonRows)) <==> DistinctRows(rows)
    ensures AllCoherent(rows) ==> AllCoherent(Map(rows, CanonRows))
    ensures Operations(Map(rows, CanonRows)) == Operations(rows)
  {
    var rc := Map(rows, CanonRows);
    assert Map(rc, IdOf) == Map(rows, IdOf) && Map(rc, KeyOf) == Map(rows, KeyOf);
    KeptMapped(rows, CanonRows, OperationOf, OperationOf);
    if AllCoherent(rows) {
      forall i | 0 <= i < |rc| ensures Coherent(rc[i]) {
        assert Coherent(rows[i]);
      }
    }
  }

  lemma {:induction false} DistinctRowsPermutation(a: seq<Rows>, b: seq<Rows>)
    requires multiset(a) == multiset(b)
    ensures DistinctRows(a) <==> DistinctRows(b)
  {
    MapPermutation(a, b, IdOf);
    MapPermutation(a, b, KeyOf);
    DistinctPermutation(Map(a, IdOf), Map(b, IdOf));
    DistinctPermutation(Map(a, KeyOf), Map(b, KeyOf));
  }

  /** The manifest of a list of rows, if it is accepted. */
  ghost function FromRows(digest: Json -> string, rows: seq<Rows>): Option<Manifest> {
    if !DistinctRows(rows) || Operations(rows) == [] then None else Some(Assemble(digest, rows))
  }

  function CanonManifestOpt(o: Option<Manifest>): Option<Manifest> { if o.Some? then Some(CanonManifest(o.value)) else None }

  lemma {:induction false} FromRowsPermute(digest: Json -> string, a: seq<Rows>, b: seq<Rows>)
    requires multiset(Map(a, CanonRows)) == multiset(Map(b, CanonRows)) && AllCoherent(a)
    ensures CanonManifestOpt(FromRows(digest, a)) == CanonManifestOpt(FromRows(digest, b))
  {
    var ac, bc := Map(a, CanonRows), Map(b, CanonRows);
    RowsCanonKeep(a);
    RowsCanonKeep(b);
    DistinctRowsPermutation(ac, bc);
    KeptPermutation(ac, bc, OperationOf);
    assert |Operations(a)| == |multiset(Operations(a))| == |multiset(Operations(b))| == |Operations(b)|;
    if DistinctRows(a) {
      AssemblePermutation(digest, ac, bc);
      AssembleCanon(digest, a);
      AssembleCanon(digest, b);
    }
  }

  ghost function FromAll(digest: Json -> string, rows: Option<seq<Rows>>): Option<Manifest> {
    if rows.None? then None else FromRows(digest, rows.value)
  }

  lemma {:induction false} ProjectsPermute(
      digest: Json -> string, units: seq<Unit>, units': seq<Unit>,
      p: Unit -> Option<Rows>, p': Unit -> Option<Rows>, pc: Unit -> Option<Rows>)
    requires multiset(Map(units, CanonUnit)) == multiset(Map(units', CanonUnit))
    requires forall u :: u in units ==> pc(CanonUnit(u)) == CanonRowsOpt(p(u))
    requires forall u :: u in units' ==> pc(CanonUnit(u)) == CanonRowsOpt(p'(u))
    requires forall u :: p(u).Some? ==> Coherent(p(u).value)
    ensures CanonManifestOpt(FromAll(digest, AllRows(units, p))) == CanonManifestOpt(FromAll(digest, AllRows(units', p')))
  {
    RowsPermute(units, units', p, p', pc);
    if AllRows(units, p).Some? {
      RowsCoherent(units, p);
      FromRowsPermute(digest, AllRows(units, p).value, AllRows(units', p').value);
    }
  }

  lemma {:induction false} ManifestFromAll(c: Conventions, x: Context, units: seq<Unit>)
    ensures ManifestOf(c, x, units) == FromAll(c.digest, AllRows(units, u => ProjectUnit(c, x, u)))
  {
  }

  lemma {:induction false} ManifestsPermute(c: Conventions, x: Context, x': Context, xc: Context, units: seq<Unit>, units': seq<Unit>)
    requires Commutes(x.resolve, xc.resolve) && Commutes(x'.resolve, xc.resolve) && KeyBlind(c.digest)
    requires xc.capabilities == x.capabilities == x'.capabilities
    requires WellFormed(x.security) && WellFormed(x'.security) && xc.security == Canon(x.security) == Canon(x'.security)
    requires multiset(Map(units, CanonUnit)) == multiset(Map(units', CanonUnit))
    requires (forall u :: u in units ==> WellFormed(u.operation)) && forall u :: u in units' ==> WellFormed(u.operation)
    ensures CanonManifestOpt(ManifestOf(c, x, units)) == CanonManifestOpt(ManifestOf(c, x', units'))
  {
    ManifestFromAll(c, x, units);
    ManifestFromAll(c, x', units');
    var p, p', pc := u => ProjectUnit(c, x, u), u => ProjectUnit(c, x', u), u => ProjectUnit(c, xc, u);
    forall u | u in units ensures pc(CanonUnit(u)) == CanonRowsOpt(p(u)) {
      UnitCanon(c, x, xc, u);
    }
    forall u | u in units' ensures pc(CanonUnit(u)) == CanonRowsOpt(p'(u)) {
      UnitCanon(c, x', xc, u);
    }
    forall u | p(u).Some? ensures Coherent(p(u).value) {
      ProjectedCoherent(c, x, u);
    }
    ProjectsPermute(c.digest, units, units', p, p', pc);
  }

  // ---------------------------------------------------------------- whole documents

  function ResolverOf(spec: Json): Resolver { ref => JsonPointer.Resolve(spec, ref) }

  lemma {:induction false} ResolverCommutes(spec: Json)
    requires WellFormed(spec)
    ensures Commutes(ResolverOf(spec), ResolverOf(Canon(spec)))
  {
    forall ref: string
      ensures ResolverOf(Canon(spec))(ref) == CanonOpt(ResolverOf(spec)(ref)) && WellOpt(ResolverOf(spec)(ref))
    {
      if "#/" <= ref {
        JsonPointer.WalkCanon(spec, Split(ref[2..], '/'));
      }
    }
  }

  lemma {:induction false} PartsSame(a: Json, b: Json, key: string)
    requires WellFormed(a) && WellFormed(b) && Same(a, b)
    ensures Same(Get(a, key), Get(b, key)) && WellFormed(Get(a, key)) && WellFormed(Get(b, key))
  {
    CanonGet(a, key);
    CanonGet(b, key);
    GetWellFormed(a, key);
    GetWellFormed(b, key);
  }

  lemma {:induction false} ProjectsAlike(
      c: Conventions, r: Resolver, r': Resolver, rc: Resolver, security: Json, security': Json, paths: Json, paths': Json, contract: Json)
    requires Commutes(r, rc) && Commutes(r', rc) && KeyBlind(c.digest)
    requires WellFormed(security) && WellFormed(security') && Same(security, security')
    requires WellFormed(paths) && WellFormed(paths') && Same(paths, paths')
    ensures CanonManifestOpt(Project(c, r, security, paths, contract)) == CanonManifestOpt(Project(c, r', security', paths', contract))
  {
    var ids := CapabilityIds(contract);
    UnitsPermute(r, r', rc, c.methods, paths, paths');
    if ids.Some? && Units(paths, r, c.methods).Some? {
      UnitsWellFormed(r, rc, c.methods, paths);
      UnitsWellFormed(r', rc, c.methods, paths');
      ManifestsPermute(c, Context(r, security, ids.value), Context(r', security', ids.value), Context(rc, Canon(security), ids.value),
                       Units(paths, r, c.methods).value, Units(paths', r', c.methods).value);
    }
  }

  /** Reordering keys anywhere in the document, in paths, path items, responses, content, schemas or elsewhere, never
      changes whether the projection succeeds; on success the manifests are equal values with identical digests, only the
      keys inside tags may be listed in another order. */
  lemma {:induction false} ProjectionIgnoresKeyOrder(c: Conventions, a: Json, b: Json, contract: Json)
    requires WellFormed(a) && WellFormed(b) && Same(a, b) && KeyBlind(c.digest)
    ensures ProjectSpec(c, a, contract).Some? <==> ProjectSpec(c, b, contract).Some?
    ensures ProjectSpec(c, a, contract).Some? ==>
      (var m, n := ProjectSpec(c, a, contract).value, ProjectSpec(c, b, contract).value;
       CanonManifest(m) == CanonManifest(n) && m.projectionDigest == n.projectionDigest && m.eventDigest == n.eventDigest
       && m.operations == n.operations && m.dispositions == n.dispositions && m.events == n.events)
  {
    ResolverCommutes(a);
    ResolverCommutes(b);
    PartsSame(a, b, "security");
    PartsSame(a, b, "paths");
    ProjectsAlike(c, ResolverOf(a), ResolverOf(b), ResolverOf(Canon(a)), Get(a, "security"), Get(b, "security"),
                  Get(a, "paths"), Get(b, "paths"), contract);
    SameProjection(c, a, contract);
    SameProjection(c, b, contract);
  }

  /** `canonical_digest`. */
  function CanonicalDigest(hash: string -> string): Json -> string { v => "sha256:" + hash(CanonicalJson.Dump(Canon(v))) }

  /** The canonical digest prints sorted keys, so key order does not change it. */
  lemma {:induction false} CanonicalDigestIsKeyBlind(hash: string -> string)
    ensures KeyBlind(CanonicalDigest(hash))
  {
    forall v | WellFormed(v) ensures CanonicalDigest(hash)(Canon(v)) == CanonicalDigest(hash)(v) {
      CanonIdempotent(v);
    }
  }

  lemma {:induction false} SameProjection(c: Conventions, spec: Json, contract: Json)
    ensures ProjectSpec(c, spec, contract) == Project(c, ResolverOf(spec), Get(spec, "security"), Get(spec, "paths"), contract)
  {
  }
}
