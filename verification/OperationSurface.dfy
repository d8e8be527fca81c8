/** `project_openapi`: from an OpenAPI document to a route surface manifest, and the manifest validator's own checks. */
module OperationSurface {
  import opened Sorting
  import opened Text
  import opened Orders
  import opened JsonValues
  import opened Distinctness
  import opened SurfaceRows
  import opened OperationUnits
  import opened OperationRows
  import JsonPointer

  // ---------------------------------------------------------------- assembling a manifest

  predicate DispositionLe(a: Disposition, b: Disposition) { PairLe((a.path, a.verb), (b.path, b.verb)) }

  predicate OperationLe(a: Operation, b: Operation) {
    if (a.path, a.verb) == (b.path, b.verb) then StrLe(a.id, b.id) else PairLe((a.path, a.verb), (b.path, b.verb))
  }

  predicate EventLe(a: BrowserEvent, b: BrowserEvent) { StrLe(a.id, b.id) }

  predicate SampleLe(a: Sample, b: Sample) { PairLe((a.path, a.verb), (b.path, b.verb)) }

  function DispositionOf(r: Rows): Disposition { r.disposition }

  function SampleOf(r: Rows): Sample { r.sample }

  /** The values picked from some of the rows, in order. */
  function Kept<R, T>(rows: seq<R>, pick: R -> Option<T>): seq<T> {
    if rows == [] then [] else (if pick(rows[0]).Some? then [pick(rows[0]).value] else []) + Kept(rows[1..], pick)
  }

  lemma {:induction false} KeptSnoc<R, T>(rows: seq<R>, row: R, pick: R -> Option<T>)
    ensures Kept(rows + [row], pick) == Kept(rows, pick) + Kept([row], pick)
    ensures Kept([row], pick) == if pick(row).Some? then [pick(row).value] else []
  {
    assert [row][1..] == [];
    if rows == [] {
      assert rows + [row] == [row];
    } else {
      var head := if pick(rows[0]).Some? then [pick(rows[0]).value] else [];
      assert (rows + [row])[1..] == rows[1..] + [row] && (rows + [row])[0] == rows[0];
      KeptSnoc(rows[1..], row, pick);
      assert head + (Kept(rows[1..], pick) + Kept([row], pick)) == head + Kept(rows[1..], pick) + Kept([row], pick);
    }
  }

  function OperationOf(r: Rows): Option<Operation> { r.operation }

  function EventOf(r: Rows): Option<BrowserEvent> { r.event }

  function Operations(rows: seq<Rows>): seq<Operation> { Kept(rows, OperationOf) }

  function BrowserEvents(rows: seq<Rows>): seq<BrowserEvent> { Kept(rows, EventOf) }

  const PREFIXES := Arr([Str("/api/"), Str("/v1/")])

  /** What the projection digest covers: the scope and the operations. */
  function CoreJson(dispositions: seq<Disposition>, operations: seq<Operation>): Json {
    Obj([Field("scope", Obj([Field("schemaVersion", Str("public-operation-scope/v1")), Field("mandatoryPrefixes", PREFIXES),
                             Field("dispositions", Arr(DispositionsJson(dispositions)))])),
         Field("operations", Arr(OperationsJson(operations)))])
  }

  function EventsValue(events: seq<BrowserEvent>): Json { Arr(BrowserEventsJson(events)) }

  /** The sorted rows with their digests. */
  function Assemble(digest: Json -> string, rows: seq<Rows>): Manifest {
    var dispositions, operations := Sort(Map(rows, DispositionOf), DispositionLe), Sort(Operations(rows), OperationLe);
    var events, samples := Sort(BrowserEvents(rows), EventLe), Sort(Map(rows, SampleOf), SampleLe);
    Manifest(digest(CoreJson(dispositions, operations)), digest(EventsValue(events)), dispositions, operations, events, samples)
  }

  function KeyOf(r: Rows): (string, string) { (r.disposition.verb, r.disposition.path) }

  function IdOf(r: Rows): string { r.id }

  ghost predicate DistinctRows(rows: seq<Rows>) { NoDuplicates(Map(rows, IdOf)) && NoDuplicates(Map(rows, KeyOf)) }

  lemma {:induction false} KeySnoc<R, K>(rows: seq<R>, row: R, key: R -> K)
    ensures Map(rows + [row], key) == Map(rows, key) + [key(row)]
    ensures NoDuplicates(Map(rows + [row], key)) <==> NoDuplicates(Map(rows, key)) && key(row) !in Members(Map(rows, key))
    ensures Members(Map(rows + [row], key)) == Members(Map(rows, key)) + {key(row)}
  {
    SnocDistinct(Map(rows, key), key(row));
  }

  /** The rows of all operations, if each has some. */
  ghost function AllRows(units: seq<Unit>, project: Unit -> Option<Rows>): Option<seq<Rows>> {
    Gather(units, u => if project(u).Some? then Some([project(u).value]) else None)
  }

  /** The manifest of a list of operations. */
  ghost function ManifestOf(c: Conventions, x: Context, units: seq<Unit>): Option<Manifest> {
    var rows := AllRows(units, u => ProjectUnit(c, x, u));
    if rows.None? || !DistinctRows(rows.value) || Operations(rows.value) == [] then None
    else Some(Assemble(c.digest, rows.value))
  }

  /** `contract["capabilities"]` as a set of ids; None unless every row is a dict with an id of its own. */
  function CapabilityIds(contract: Json): Option<set<string>> {
    var rows := Get(contract, "capabilities");
    if !rows.Arr? || rows.items == [] then None
    else
      var ids := set i | 0 <= i < |rows.items| && Get(rows.items[i], "id").Str? :: Get(rows.items[i], "id").s;
      if |ids| == |rows.items| then Some(ids) else None
  }

  ghost function Project(c: Conventions, resolve: Resolver, security: Json, paths: Json, contract: Json): Option<Manifest> {
    var ids, units := CapabilityIds(contract), Units(paths, resolve, c.methods);
    if ids.None? || units.None? then None else ManifestOf(c, Context(resolve, security, ids.value), units.value)
  }

  // ---------------------------------------------------------------- the loop

  /** The loop over the operations, with the projection of one kept abstract. */
  method CollectRows(c: Conventions, x: Context, units: seq<Unit>, ghost project: Unit -> Option<Rows>)
    returns (r: Option<seq<Rows>>)
    requires forall u {:trigger ProjectUnit(c, x, u)} :: project(u) == ProjectUnit(c, x, u)
    ensures r == (var rows := AllRows(units, project); if rows.None? || !DistinctRows(rows.value) then None else rows)
  {
    var rows: seq<Rows> := [];
    var ids: set<string>, keys: set<(string, string)> := {}, {};
    ghost var f := u => if project(u).Some? then Some([project(u).value]) else None;
    for i := 0 to |units|
      invariant Gather(units[..i], f) == Some(rows)
      invariant ids == Members(Map(rows, IdOf)) && keys == Members(Map(rows, KeyOf)) && DistinctRows(rows)
    {
      GatherStep(units, i, f);
      var row := ProjectOne(c, x, units[i], project);
      if row.None? {
        GatherStops(units, i, f);
        return None;
      }
      var id, key := row.value.id, KeyOf(row.value);
      KeySnoc(rows, row.value, IdOf);
      KeySnoc(rows, row.value, KeyOf);
      if key in keys || id in ids {
        RepeatedRow(units, i, f, rows, row.value);
        return None;
      }
      ids, keys := ids + {id}, keys + {key};
      rows := rows + [row.value];
    }
    assert units[..|units|] == units;
    return Some(rows);
  }

  method ProjectOne(c: Conventions, x: Context, u: Unit, ghost project: Unit -> Option<Rows>) returns (r: Option<Rows>)
    requires forall u {:trigger ProjectUnit(c, x, u)} :: project(u) == ProjectUnit(c, x, u)
    ensures r == project(u)
  {
    r := ProjectOperation(c, x, u);
  }

  /** A repeated id or key among the first rows is repeated among all. */
  lemma {:induction false} RepeatedRow(units: seq<Unit>, i: nat, f: Unit -> Option<seq<Rows>>, rows: seq<Rows>, row: Rows)
    requires i < |units| && Gather(units[..i], f) == Some(rows) && f(units[i]) == Some([row])
    requires !NoDuplicates(Map(rows + [row], IdOf)) || !NoDuplicates(Map(rows + [row], KeyOf))
    ensures Gather(units, f).Some? ==> !DistinctRows(Gather(units, f).value)
  {
    GatherStep(units, i, f);
    if Gather(units, f).Some? {
      GatherPrefix(units, i + 1, f);
      var all, some := Gather(units, f).value, rows + [row];
      assert Map(all, IdOf)[..|some|] == Map(some, IdOf) && Map(all, KeyOf)[..|some|] == Map(some, KeyOf);
      if DistinctRows(all) {
        PrefixDistinct(Map(all, IdOf), |some|);
        PrefixDistinct(Map(all, KeyOf), |some|);
      }
    }
  }

  lemma {:induction false} GatherPrefix<S, T>(xs: seq<S>, n: nat, f: S -> Option<seq<T>>)
    requires n <= |xs| && Gather(xs, f).Some?
    ensures Gather(xs[..n], f).Some? && Gather(xs[..n], f).value <= Gather(xs, f).value
    decreases |xs|
  {
    if n == |xs| {
      assert xs[..n] == xs;
    } else {
      var init := xs[..|xs| - 1];
      GatherPrefix(init, n, f);
      assert init[..n] == xs[..n];
    }
  }

  /** The rows of the operations, and from them the manifest. */
  method ProjectUnits(c: Conventions, x: Context, units: seq<Unit>) returns (r: Option<Manifest>)
    ensures r == ManifestOf(c, x, units)
  {
    var rows := CollectRows(c, x, units, u => ProjectUnit(c, x, u));
    if rows.None? || Operations(rows.value) == [] {
      return None;
    }
    return Some(Assemble(c.digest, rows.value));
  }

  /** `project_openapi`. */
  method ProjectOpenapi(c: Conventions, resolve: Resolver, security: Json, paths: Json, contract: Json) returns (r: Option<Manifest>)
    ensures r == Project(c, resolve, security, paths, contract)
  {
    var ids := CapabilityIds(contract);
    if ids.None? {
      return None;
    }
    var units := IterOperations(paths, resolve, c.methods);
    if units.None? {
      return None;
    }
    r := ProjectUnits(c, Context(resolve, security, ids.value), units.value);
  }

  /** `project_openapi` on a whole document. */
  ghost function ProjectSpec(c: Conventions, spec: Json, contract: Json): Option<Manifest> {
    Project(c, ref => JsonPointer.Resolve(spec, ref), Get(spec, "security"), Get(spec, "paths"), contract)
  }
}
