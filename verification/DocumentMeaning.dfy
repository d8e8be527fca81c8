/** What a manifest says about the whole document it was projected from. */
module DocumentMeaning {
  import opened Sorting
  import opened Text
  import opened Orders
  import opened JsonValues
  import opened SurfaceRows
  import opened OperationUnits
  import opened OperationRows
  import opened OperationSurface
  import opened RequestMeaning
  import opened OperationMeaning
  import opened UnitMeaning
  import JsonPointer
  import OperationOrder

  // ---------------------------------------------------------------- capabilities

  /** The contract's capability rows have string ids, all different, and these are the ids. */
  ghost predicate CapabilitiesGiven(contract: Json, ids: set<string>) {
    var rows := Get(contract, "capabilities");
    && rows.Arr? && rows.items != [] && (forall i :: 0 <= i < |rows.items| ==> Get(rows.items[i], "id").Str?)
    && (forall i, j :: 0 <= i < j < |rows.items| ==> Get(rows.items[i], "id") != Get(rows.items[j], "id"))
    && forall id :: id in ids <==> exists i :: 0 <= i < |rows.items| && Get(rows.items[i], "id") == Str(id)
  }

  function TextIds(items: seq<Json>): set<string> {
    set i | 0 <= i < |items| && Get(items[i], "id").Str? :: Get(items[i], "id").s
  }

  ghost predicate IdsApart(items: seq<Json>) {
    && (forall i :: 0 <= i < |items| ==> Get(items[i], "id").Str?)
    && forall i, j :: 0 <= i < j < |items| ==> Get(items[i], "id") != Get(items[j], "id")
  }

  lemma {:induction false} TextIdsSnoc(items: seq<Json>, v: Json)
    ensures TextIds(items + [v]) == TextIds(items) + if Get(v, "id").Str? then {Get(v, "id").s} else {}
  {
    var all := items + [v];
    assert forall i :: 0 <= i < |items| ==> all[i] == items[i];
    assert all[|items|] == v;
    forall id | id in TextIds(items) ensures id in TextIds(all) {
      var i :| 0 <= i < |items| && Get(items[i], "id").Str? && Get(items[i], "id").s == id;
      assert Get(all[i], "id").s == id;
    }
  }

  lemma {:induction false} IdsApartSnoc(items: seq<Json>, v: Json)
    ensures IdsApart(items + [v]) <==> IdsApart(items) && Get(v, "id").Str? && Get(v, "id").s !in TextIds(items)
  {
    var all := items + [v];
    assert all[|items|] == v;
    forall i | 0 <= i < |items| ensures all[i] == items[i] {
    }
    if IdsApart(all) {
      forall i, j | 0 <= i < j < |items| ensures Get(items[i], "id") != Get(items[j], "id") {
        assert Get(all[i], "id") != Get(all[j], "id");
      }
      forall i | 0 <= i < |items| ensures Get(items[i], "id").Str? && Get(items[i], "id").s != Get(v, "id").s {
        assert Get(all[i], "id").Str? && Get(all[i], "id") != Get(all[|items|], "id");
      }
    }
  }

  /** There are as many ids as rows exactly when every row has one of its own. */
  lemma {:induction false} IdsCounted(items: seq<Json>)
    ensures |TextIds(items)| <= |items|
    ensures |TextIds(items)| == |items| <==> IdsApart(items)
  {
    if items == [] {
    } else {
      var init, v := items[..|items| - 1], items[|items| - 1];
      assert items == init + [v];
      IdsCounted(init);
      TextIdsSnoc(init, v);
      IdsApartSnoc(init, v);
      var ids := TextIds(init);
      if Get(v, "id").Str? {
        assert Get(v, "id").s in ids ==> ids + {Get(v, "id").s} == ids;
      }
    }
  }

  lemma {:induction false} CapabilitiesExactly(contract: Json)
    ensures CapabilityIds(contract).Some? <==> exists ids :: CapabilitiesGiven(contract, ids)
    ensures CapabilityIds(contract).Some? ==> CapabilitiesGiven(contract, CapabilityIds(contract).value)
    ensures forall ids :: CapabilitiesGiven(contract, ids) ==> CapabilityIds(contract) == Some(ids)
  {
    var rows := Get(contract, "capabilities");
    if rows.Arr? && rows.items != [] {
      IdsCounted(rows.items);
      forall ids | CapabilitiesGiven(contract, ids) ensures ids == TextIds(rows.items) {
      }
      assert IdsApart(rows.items) ==> CapabilitiesGiven(contract, TextIds(rows.items));
    }
  }

  // ---------------------------------------------------------------- rows of all operations

  /** Every operation has its rows. */
  ghost predicate RowsOfAll(c: Conventions, x: Context, us: seq<Unit>, rows: seq<Rows>) {
    |rows| == |us| && forall i {:trigger rows[i]} :: 0 <= i < |us| ==> RowsFor(c, x, us[i], rows[i])
  }

  ghost predicate AllProjectable(c: Conventions, x: Context, us: seq<Unit>) {
    forall u :: u in us ==> Projectable(c, x, u)
  }

  ghost predicate Projectable(c: Conventions, x: Context, u: Unit) {
    exists r :: RowsFor(c, x, u, r)
  }

  lemma {:induction false} GatherOnes<S, T>(xs: seq<S>, f: S -> Option<T>, g: S -> Option<seq<T>>)
    requires forall x :: g(x) == if f(x).Some? then Some([f(x).value]) else None
    ensures Gather(xs, g).Some? <==> forall x :: x in xs ==> f(x).Some?
    ensures Gather(xs, g).Some? ==> |Gather(xs, g).value| == |xs|
    ensures Gather(xs, g).Some? ==> forall i :: 0 <= i < |xs| ==> f(xs[i]) == Some(Gather(xs, g).value[i])
  {
    if xs == [] {
    } else {
      var n := |xs| - 1;
      GatherOnes(xs[..n], f, g);
      assert xs == xs[..n] + [xs[n]];
    }
  }

  lemma {:induction false} RelatedRows(us: seq<Unit>, f: Unit -> Option<Rows>, can: Unit -> bool, rel: (Unit, Rows) -> bool)
    requires forall u :: u in us ==> (f(u).Some? <==> can(u)) && (f(u).Some? ==> rel(u, f(u).value))
    ensures var rows := AllRows(us, f);
      && (rows.Some? <==> forall u :: u in us ==> can(u))
      && (rows.Some? ==> |rows.value| == |us| && forall i {:trigger rows.value[i]} :: 0 <= i < |us| ==> rel(us[i], rows.value[i]))
  {
    GatherOnes(us, f, u => if f(u).Some? then Some([f(u).value]) else None);
  }

  lemma {:induction false} AllRowsExactly(c: Conventions, x: Context, us: seq<Unit>)
    requires TidyTargets(x.resolve) && forall u :: u in us ==> WellFormed(u.operation)
    ensures var rows := AllRows(us, u => ProjectUnit(c, x, u));
      && (rows.Some? <==> AllProjectable(c, x, us))
      && (rows.Some? ==> RowsOfAll(c, x, us, rows.value))
  {
    AllRowsRelated(c, x, us, u => ProjectUnit(c, x, u), u => Projectable(c, x, u), (u, r) => RowsFor(c, x, u, r));
  }

  lemma {:induction false} AllRowsRelated(
      c: Conventions, x: Context, us: seq<Unit>, f: Unit -> Option<Rows>, can: Unit -> bool, rel: (Unit, Rows) -> bool)
    requires TidyTargets(x.resolve) && forall u :: u in us ==> WellFormed(u.operation)
    requires forall u {:trigger ProjectUnit(c, x, u)} :: f(u) == ProjectUnit(c, x, u)
    requires forall u {:trigger Projectable(c, x, u)} :: can(u) == Projectable(c, x, u)
    requires forall u, r {:trigger RowsFor(c, x, u, r)} :: rel(u, r) == RowsFor(c, x, u, r)
    ensures AllRows(us, f).Some? <==> AllProjectable(c, x, us)
    ensures AllRows(us, f).Some? ==> RowsOfAll(c, x, us, AllRows(us, f).value)
  {
    UnitsRelated(c, x, us, f, can, rel);
    RelatedRows(us, f, can, rel);
    RelationsMean(c, x, us, can, rel, AllRows(us, f));
  }

  lemma {:induction false} RelationsMean(
      c: Conventions, x: Context, us: seq<Unit>, can: Unit -> bool, rel: (Unit, Rows) -> bool, rows: Option<seq<Rows>>)
    requires forall u {:trigger Projectable(c, x, u)} :: can(u) == Projectable(c, x, u)
    requires forall u, r {:trigger RowsFor(c, x, u, r)} :: rel(u, r) == RowsFor(c, x, u, r)
    requires rows.Some? <==> forall u :: u in us ==> can(u)
    requires rows.Some? ==> |rows.value| == |us| && forall i {:trigger rows.value[i]} :: 0 <= i < |us| ==> rel(us[i], rows.value[i])
    ensures rows.Some? <==> AllProjectable(c, x, us)
    ensures rows.Some? ==> RowsOfAll(c, x, us, rows.value)
  {
    assert (forall u :: u in us ==> can(u)) <==> AllProjectable(c, x, us);
  }

  lemma {:induction false} UnitsRelated(
      c: Conventions, x: Context, us: seq<Unit>, f: Unit -> Option<Rows>, can: Unit -> bool, rel: (Unit, Rows) -> bool)
    requires TidyTargets(x.resolve) && forall u :: u in us ==> WellFormed(u.operation)
    requires forall u {:trigger ProjectUnit(c, x, u)} :: f(u) == ProjectUnit(c, x, u)
    requires forall u {:trigger Projectable(c, x, u)} :: can(u) == Projectable(c, x, u)
    requires forall u, r {:trigger RowsFor(c, x, u, r)} :: rel(u, r) == RowsFor(c, x, u, r)
    ensures forall u :: u in us ==> (f(u).Some? <==> can(u)) && (f(u).Some? ==> rel(u, f(u).value))
  {
    forall u | u in us ensures (f(u).Some? <==> can(u)) && (f(u).Some? ==> rel(u, f(u).value)) {
      UnitRelated(c, x, u, f, can, rel);
    }
  }

  lemma {:induction false} UnitRelated(
      c: Conventions, x: Context, u: Unit, f: Unit -> Option<Rows>, can: Unit -> bool, rel: (Unit, Rows) -> bool)
    requires TidyTargets(x.resolve) && WellFormed(u.operation)
    requires f(u) == ProjectUnit(c, x, u) && can(u) == Projectable(c, x, u)
    requires forall r {:trigger rel(u, r)} :: rel(u, r) == RowsFor(c, x, u, r)
    ensures (f(u).Some? <==> can(u)) && (f(u).Some? ==> rel(u, f(u).value))
  {
    OperationExactly(c, x, u);
  }

  // ---------------------------------------------------------------- the manifest

  /** Each list of the manifest holds the rows of its kind, and those only, in the order of path and method or of id. */
  ghost predicate Shows(m: Manifest, rows: seq<Rows>) {
    ShowsEach(m.dispositions, m.samples, rows) && ShowsIncluded(m.operations, m.events, rows)
  }

  ghost predicate ShowsEach(dispositions: seq<Disposition>, samples: seq<Sample>, rows: seq<Rows>) {
    && (forall d :: d in dispositions <==> exists i :: 0 <= i < |rows| && rows[i].disposition == d)
    && (forall s :: s in samples <==> exists i :: 0 <= i < |rows| && rows[i].sample == s)
    && |dispositions| == |samples| == |rows|
  }

  ghost predicate ShowsIncluded(operations: seq<Operation>, events: seq<BrowserEvent>, rows: seq<Rows>) {
    && (forall o :: o in operations <==> exists i :: 0 <= i < |rows| && rows[i].operation == Some(o))
    && (forall e :: e in events <==> exists i :: 0 <= i < |rows| && rows[i].event == Some(e))
  }

  ghost predicate Listed(m: Manifest) {
    && (forall i, j :: 0 <= i < j < |m.dispositions| ==>
          PairLe((m.dispositions[i].path, m.dispositions[i].verb), (m.dispositions[j].path, m.dispositions[j].verb)))
    && (forall i, j :: 0 <= i < j < |m.samples| ==>
          PairLe((m.samples[i].path, m.samples[i].verb), (m.samples[j].path, m.samples[j].verb)))
    && (forall i, j :: 0 <= i < j < |m.operations| ==>
          PairLe((m.operations[i].path, m.operations[i].verb), (m.operations[j].path, m.operations[j].verb)))
    && (forall i, j :: 0 <= i < j < |m.events| ==> StrLe(m.events[i].id, m.events[j].id))
  }

  lemma {:induction false} KeptMembers<R, T>(rows: seq<R>, pick: R -> Option<T>, t: T)
    ensures t in Kept(rows, pick) <==> exists i :: 0 <= i < |rows| && pick(rows[i]) == Some(t)
  {
    if rows == [] {
    } else {
      KeptMembers(rows[1..], pick, t);
      forall i | 0 < i < |rows| ensures rows[i] == rows[1..][i - 1] {
      }
      if i :| 0 <= i < |rows[1..]| && pick(rows[1..][i]) == Some(t) {
        assert rows[i + 1] == rows[1..][i];
      }
    }
  }

  lemma {:induction false} MapMembers<R, T>(rows: seq<R>, f: R -> T, t: T)
    ensures t in Map(rows, f) <==> exists i :: 0 <= i < |rows| && f(rows[i]) == t
  {
    forall i | 0 <= i < |rows| ensures Map(rows, f)[i] == f(rows[i]) {
    }
  }

  lemma {:induction false} SortedMapShown<R, T(!new)>(rows: seq<R>, f: R -> T, le: (T, T) -> bool)
    ensures forall t :: t in Sort(Map(rows, f), le) <==> exists i :: 0 <= i < |rows| && f(rows[i]) == t
    ensures |Sort(Map(rows, f), le)| == |rows|
  {
    forall t ensures t in Map(rows, f) <==> exists i :: 0 <= i < |rows| && f(rows[i]) == t {
      MapMembers(rows, f, t);
    }
  }

  lemma {:induction false} SortedKeptShown<R, T(!new)>(rows: seq<R>, pick: R -> Option<T>, le: (T, T) -> bool)
    ensures forall t :: t in Sort(Kept(rows, pick), le) <==> exists i :: 0 <= i < |rows| && pick(rows[i]) == Some(t)
  {
    forall t ensures t in Kept(rows, pick) <==> exists i :: 0 <= i < |rows| && pick(rows[i]) == Some(t) {
      KeptMembers(rows, pick, t);
    }
  }

  lemma {:induction false} DispositionsShown(rows: seq<Rows>)
    ensures var ds := Sort(Map(rows, DispositionOf), DispositionLe);
      |ds| == |rows| && forall d :: d in ds <==> exists i :: 0 <= i < |rows| && rows[i].disposition == d
  {
    SortedMapShown(rows, DispositionOf, DispositionLe);
  }

  lemma {:induction false} SamplesShown(rows: seq<Rows>)
    ensures var ss := Sort(Map(rows, SampleOf), SampleLe);
      |ss| == |rows| && forall s :: s in ss <==> exists i :: 0 <= i < |rows| && rows[i].sample == s
  {
    SortedMapShown(rows, SampleOf, SampleLe);
  }

  lemma {:induction false} OperationsShown(rows: seq<Rows>)
    ensures forall o :: o in Sort(Operations(rows), OperationLe) <==> exists i :: 0 <= i < |rows| && rows[i].operation == Some(o)
  {
    SortedKeptShown(rows, OperationOf, OperationLe);
  }

  lemma {:induction false} EventsShown(rows: seq<Rows>)
    ensures forall e :: e in Sort(BrowserEvents(rows), EventLe) <==> exists i :: 0 <= i < |rows| && rows[i].event == Some(e)
  {
    SortedKeptShown(rows, EventOf, EventLe);
  }

  lemma {:induction false} AssembledShows(digest: Json -> string, rows: seq<Rows>)
    ensures Shows(Assemble(digest, rows), rows)
  {
    DispositionsShown(rows);
    SamplesShown(rows);
    OperationsShown(rows);
    EventsShown(rows);
  }

  lemma {:induction false} AssembledListed(digest: Json -> string, rows: seq<Rows>)
    ensures Listed(Assemble(digest, rows))
  {
    OperationOrder.DispositionOrder();
    OperationOrder.SampleOrder();
    OperationOrder.EventOrder();
    OperationOrder.OperationsOrder();
    SortOrdered(Map(rows, DispositionOf), DispositionLe);
    SortOrdered(Map(rows, SampleOf), SampleLe);
    SortOrdered(BrowserEvents(rows), EventLe);
    SortOrdered(Operations(rows), OperationLe);
    var os := Assemble(digest, rows).operations;
    forall i, j | 0 <= i < j < |os| ensures PairLe((os[i].path, os[i].verb), (os[j].path, os[j].verb)) {
      assert OperationLe(os[i], os[j]);
      PairLeTotal((os[i].path, os[i].verb), (os[i].path, os[i].verb));
    }
  }

  /** The operations have different ids and stand at different places, and at least one is in scope. */
  ghost predicate Consistent(rows: seq<Rows>) {
    && (forall i, j :: 0 <= i < j < |rows| ==> rows[i].id != rows[j].id)
    && (forall i, j :: 0 <= i < j < |rows| ==>
          (rows[i].disposition.verb, rows[i].disposition.path) != (rows[j].disposition.verb, rows[j].disposition.path))
    && exists i :: 0 <= i < |rows| && rows[i].operation.Some?
  }

  lemma {:induction false} ConsistentExactly(rows: seq<Rows>)
    ensures Consistent(rows) <==> DistinctRows(rows) && Operations(rows) != []
  {
    var ids, keys := Map(rows, IdOf), Map(rows, KeyOf);
    assert forall i :: 0 <= i < |rows| ==> ids[i] == rows[i].id && keys[i] == (rows[i].disposition.verb, rows[i].disposition.path);
    if i :| 0 <= i < |rows| && rows[i].operation.Some? {
      KeptMembers(rows, OperationOf, rows[i].operation.value);
    }
    if Operations(rows) != [] {
      KeptMembers(rows, OperationOf, Operations(rows)[0]);
      assert Operations(rows)[0] in Operations(rows);
    }
  }

  /** The context in which a document's operations are projected. */
  function ContextOf(spec: Json, ids: set<string>): Context {
    Context(ref => JsonPointer.Resolve(spec, ref), Get(spec, "security"), ids)
  }

  lemma {:induction false} DocumentTidy(spec: Json, ids: set<string>)
    requires WellFormed(spec)
    ensures TidyTargets(ContextOf(spec, ids).resolve)
  {
    OperationOrder.ResolverCommutes(spec);
  }

  lemma {:induction false} UnitsTidy(c: Conventions, spec: Json, ids: set<string>)
    requires WellFormed(spec) && Units(Get(spec, "paths"), ContextOf(spec, ids).resolve, c.methods).Some?
    ensures forall u :: u in Units(Get(spec, "paths"), ContextOf(spec, ids).resolve, c.methods).value ==> WellFormed(u.operation)
  {
    GetWellFormed(spec, "paths");
    OperationOrder.ResolverCommutes(spec);
    OperationOrder.UnitsWellFormed(OperationOrder.ResolverOf(spec), OperationOrder.ResolverOf(Canon(spec)), c.methods, Get(spec, "paths"));
  }

  /** What a projected manifest is made of: the operations that stand in the document, each of them once, and their rows. */
  lemma {:induction false} ManifestExactly(c: Conventions, spec: Json, contract: Json)
      returns (ids: set<string>, us: seq<Unit>, rows: seq<Rows>)
    requires WellFormed(spec) && ProjectSpec(c, spec, contract).Some?
    ensures var m, x, paths := ProjectSpec(c, spec, contract).value, ContextOf(spec, ids), Get(spec, "paths");
      && CapabilitiesGiven(contract, ids)
      && (forall u :: u in us ==> exists path, verb :: DocumentHolds(x.resolve, c.methods, paths, path, verb, u))
      && (forall path, verb :: Occupied(x.resolve, c.methods, paths, path, verb) ==>
            exists u :: u in us && DocumentHolds(x.resolve, c.methods, paths, path, verb, u))
      && RowsOfAll(c, x, us, rows) && Consistent(rows)
      && Shows(m, rows) && Listed(m)
  {
    CapabilitiesExactly(contract);
    ids := CapabilityIds(contract).value;
    var x, paths := ContextOf(spec, ids), Get(spec, "paths");
    us := Units(paths, x.resolve, c.methods).value;
    rows := ProjectedRows(c, spec, contract, ids, us);
    GetWellFormed(spec, "paths");
    UnitsExactly(x.resolve, c.methods, paths);
  }

  lemma {:induction false} ProjectedRows(c: Conventions, spec: Json, contract: Json, ids: set<string>, us: seq<Unit>)
      returns (rows: seq<Rows>)
    requires WellFormed(spec) && ProjectSpec(c, spec, contract).Some? && CapabilityIds(contract) == Some(ids)
    requires Units(Get(spec, "paths"), ContextOf(spec, ids).resolve, c.methods) == Some(us)
    ensures RowsOfAll(c, ContextOf(spec, ids), us, rows) && Consistent(rows)
    ensures Shows(ProjectSpec(c, spec, contract).value, rows) && Listed(ProjectSpec(c, spec, contract).value)
  {
    var x := ContextOf(spec, ids);
    DocumentTidy(spec, ids);
    UnitsTidy(c, spec, ids);
    AllRowsExactly(c, x, us);
    assert ProjectSpec(c, spec, contract) == ManifestOf(c, x, us);
    rows := AllRows(us, u => ProjectUnit(c, x, u)).value;
    ConsistentExactly(rows);
    AssembledShows(c.digest, rows);
    AssembledListed(c.digest, rows);
  }

  // ---------------------------------------------------------------- acceptance

  lemma {:induction false} RowsAgree(c: Conventions, x: Context, u: Unit, r: Rows, r': Rows)
    requires RowsFor(c, x, u, r) && RowsFor(c, x, u, r')
    ensures r.id == r'.id && r.disposition == r'.disposition && (r.operation.Some? <==> r'.operation.Some?)
  {
  }

  lemma {:induction false} ConsistentAlike(c: Conventions, x: Context, us: seq<Unit>, rows: seq<Rows>, rows': seq<Rows>)
    requires RowsOfAll(c, x, us, rows) && RowsOfAll(c, x, us, rows') && Consistent(rows)
    ensures Consistent(rows')
  {
    forall i | 0 <= i < |us|
      ensures rows[i].id == rows'[i].id && rows[i].disposition == rows'[i].disposition
      ensures rows[i].operation.Some? <==> rows'[i].operation.Some?
    {
      RowsAgree(c, x, us[i], rows[i], rows'[i]);
    }
  }

  /** A document is accepted: the capability ids are given, the path items are fine, and every operation has rows, which are
      consistent with each other. */
  ghost predicate Accepted(c: Conventions, spec: Json, contract: Json, ids: set<string>, us: seq<Unit>, rows: seq<Rows>) {
    && CapabilitiesGiven(contract, ids)
    && Units(Get(spec, "paths"), ContextOf(spec, ids).resolve, c.methods) == Some(us)
    && RowsOfAll(c, ContextOf(spec, ids), us, rows) && Consistent(rows)
  }

  /** A document is projected exactly when it is accepted. */
  lemma {:induction false} ProjectsExactly(c: Conventions, spec: Json, contract: Json)
    requires WellFormed(spec)
    ensures ProjectSpec(c, spec, contract).Some? <==> exists ids, us, rows :: Accepted(c, spec, contract, ids, us, rows)
  {
    CapabilitiesExactly(contract);
    if ProjectSpec(c, spec, contract).Some? {
      var ids := CapabilityIds(contract).value;
      var us := Units(Get(spec, "paths"), ContextOf(spec, ids).resolve, c.methods).value;
      var rows := ProjectedRows(c, spec, contract, ids, us);
      assert Accepted(c, spec, contract, ids, us, rows);
    }
    if ids, us, rows :| Accepted(c, spec, contract, ids, us, rows) {
      AcceptedProjects(c, spec, contract, ids, us, rows);
    }
  }

  lemma {:induction false} AcceptedProjects(
      c: Conventions, spec: Json, contract: Json, ids: set<string>, us: seq<Unit>, rows: seq<Rows>)
    requires WellFormed(spec) && Accepted(c, spec, contract, ids, us, rows)
    ensures ProjectSpec(c, spec, contract).Some?
  {
    var x := ContextOf(spec, ids);
    CapabilitiesExactly(contract);
    DocumentTidy(spec, ids);
    UnitsTidy(c, spec, ids);
    AllRowsExactly(c, x, us);
    EachProjectable(c, x, us, rows);
    var projected := AllRows(us, u => ProjectUnit(c, x, u)).value;
    ConsistentAlike(c, x, us, rows, projected);
    ConsistentProjects(c, spec, contract, ids, us, projected);
  }

  lemma {:induction false} ConsistentProjects(
      c: Conventions, spec: Json, contract: Json, ids: set<string>, us: seq<Unit>, rows: seq<Rows>)
    requires CapabilityIds(contract) == Some(ids) && Units(Get(spec, "paths"), ContextOf(spec, ids).resolve, c.methods) == Some(us)
    requires AllRows(us, u => ProjectUnit(c, ContextOf(spec, ids), u)) == Some(rows) && Consistent(rows)
    ensures ProjectSpec(c, spec, contract).Some?
  {
    ConsistentExactly(rows);
    assert ProjectSpec(c, spec, contract) == ManifestOf(c, ContextOf(spec, ids), us);
  }

  lemma {:induction false} EachProjectable(c: Conventions, x: Context, us: seq<Unit>, rows: seq<Rows>)
    requires RowsOfAll(c, x, us, rows)
    ensures AllProjectable(c, x, us)
  {
    forall u | u in us ensures Projectable(c, x, u) {
      var i :| 0 <= i < |us| && us[i] == u;
      assert RowsFor(c, x, us[i], rows[i]);
    }
  }
}
