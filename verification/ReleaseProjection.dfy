/** The release projection, as the frontend verifier and the TypeScript generator each compute it. */
module ReleaseProjection {
  import opened Sorting
  import opened Text
  import opened Orders
  import opened JsonValues
  import opened Distinctness

  /** The commitments that count; any other value of `commitment` is no commitment. */
  datatype Level = Excluded | Conditional | Committed

  datatype CapabilityOut = CapabilityOut(id: string, disposition: Json, navigation: Level, reason: Json)

  datatype SurfaceOut = SurfaceOut(
    id: string, source: Json, consumer: Json, capabilityIds: seq<string>, disposition: Level)

  datatype Payload = Payload(capabilities: seq<CapabilityOut>, surfaces: seq<SurfaceOut>)

  // ---------------------------------------------------------------- what both compute

  function LevelOf(commitment: Json): Level {
    if commitment == Str("committed") then Committed
    else if commitment == Str("conditional") then Conditional
    else Excluded
  }

  /** One row of `capabilities`, under its id. */
  function ProjectCapability(row: Field): CapabilityOut {
    var commitment := Get(row.value, "commitment");
    CapabilityOut(row.key, commitment, LevelOf(commitment), Get(row.value, "reasonCode"))
  }

  /** The levels of the listed capabilities that the table knows. */
  function Levels(ids: seq<string>, table: seq<Field>): set<Level> {
    set id | id in ids && Find(table, id).Some? :: LevelOf(Get(Find(table, id).value, "commitment"))
  }

  function Combined(levels: set<Level>): Level {
    if Committed in levels then Committed else if Conditional in levels then Conditional else Excluded
  }

  function SurfaceId(v: Json): string { TextOf(Get(v, "id")) }

  predicate AllText(v: Json) { v.Arr? && forall i :: 0 <= i < |v.items| ==> v.items[i].Str? }

  function CapabilityIds(v: Json): seq<string> {
    var ids := Get(v, "capabilityIds");
    if ids.Arr? then Texts(ids.items) else []
  }

  predicate OutLe(a: CapabilityOut, b: CapabilityOut) { StrLe(a.id, b.id) }

  predicate SurfaceOutLe(a: SurfaceOut, b: SurfaceOut) { StrLe(a.id, b.id) }

  predicate SurfaceLe(a: Json, b: Json) { StrLe(SurfaceId(a), SurfaceId(b)) }

  // ---------------------------------------------------------------- the frontend verifier

  datatype Parse = Ok(id: string) | Bad | Raise

  predicate Hashable(v: Json) { !v.Arr? && !v.Obj? }

  predicate IsCommitment(v: Json) { v == Str("committed") || v == Str("conditional") || v == Str("excluded") }

  /** One capability row against the ids seen before it. */
  function ReadCapability(v: Json, seen: set<string>): Parse {
    var id := Get(v, "id");
    if !v.Obj? || !id.Str? || id.s == "" || id.s in seen then Bad
    else if !Hashable(Get(v, "commitment")) then Raise
    else if !IsCommitment(Get(v, "commitment")) then Bad
    else Ok(id.s)
  }

  /** One surface row against the known capabilities and the ids seen before it. */
  function ReadSurface(v: Json, known: set<string>, seen: set<string>): Parse {
    var id, ids := Get(v, "id"), Get(v, "capabilityIds");
    if !v.Obj? || !id.Str? || id.s == "" || id.s in seen || !ids.Arr? then Bad
    else if exists i :: 0 <= i < |ids.items| && !Hashable(ids.items[i]) then Raise
    else if AllText(ids) && NoDuplicates(Texts(ids.items)) && forall i :: 0 <= i < |ids.items| ==> TextOf(ids.items[i]) in known then Ok(id.s)
    else Bad
  }

  /** What is asked of a row apart from the other ids. */
  predicate CapabilityOk(v: Json) { ReadCapability(v, {}).Ok? }

  predicate SurfaceOk(v: Json, known: set<string>) { ReadSurface(v, known, {}).Ok? }

  function Ids(rows: seq<Json>): (r: seq<string>)
    ensures |r| == |rows| && forall i :: 0 <= i < |rows| ==> r[i] == SurfaceId(rows[i])
  {
    seq(|rows|, i requires 0 <= i < |rows| => SurfaceId(rows[i]))
  }

  function RowEntry(v: Json): Field { Field(SurfaceId(v), v) }

  function Surface(v: Json, table: seq<Field>): SurfaceOut {
    SurfaceOut(SurfaceId(v), Get(v, "canonicalSource"), Get(v, "consumer"), Sort(CapabilityIds(v), StrLe),
               Combined(Levels(CapabilityIds(v), table)))
  }

  predicate RowsOk(rows: seq<Json>, ok: Json -> bool) {
    (forall i :: 0 <= i < |rows| ==> ok(rows[i])) && NoDuplicates(Ids(rows))
  }

  predicate HeaderOk(contract: Json) {
    Get(contract, "schemaVersion") == Str("contract/v1") && Get(contract, "defaultProfile") == Str("monolith")
  }

  function Rows(contract: Json, key: string): seq<Json> {
    var rows := Get(contract, key);
    if rows.Arr? then rows.items else []
  }

  function Known(rows: seq<Json>): set<string> { Members(Ids(rows)) }

  /** What the frontend verifier accepts. */
  predicate ContractOk(contract: Json) {
    var capabilities, surfaces := Rows(contract, "capabilities"), Rows(contract, "surfaceReferences");
    HeaderOk(contract) && capabilities != [] && surfaces != []
    && RowsOk(capabilities, CapabilityOk) && RowsOk(surfaces, v => SurfaceOk(v, Known(capabilities)))
  }

  function FrontendPayload(capabilities: seq<Json>, surfaces: seq<Json>): Payload {
    var table := Map(capabilities, RowEntry);
    Payload(Sort(Map(table, ProjectCapability), OutLe), Sort(Map(surfaces, v => Surface(v, table)), SurfaceOutLe))
  }

  datatype Projection = Accepted(payload: Payload) | Refused | Raised

  lemma {:induction false} IdsSnoc(rows: seq<Json>, i: nat)
    requires i < |rows|
    ensures Known(rows[..i + 1]) == Known(rows[..i]) + {SurfaceId(rows[i])}
    ensures NoDuplicates(Ids(rows[..i + 1])) <==> NoDuplicates(Ids(rows[..i])) && SurfaceId(rows[i]) !in Known(rows[..i])
  {
    assert Ids(rows[..i + 1]) == Ids(rows[..i]) + [SurfaceId(rows[i])];
    SnocDistinct(Ids(rows[..i]), SurfaceId(rows[i]));
  }

  lemma {:induction false} DistinctPrefix(rows: seq<Json>, n: nat)
    requires n <= |rows| && NoDuplicates(Ids(rows))
    ensures NoDuplicates(Ids(rows[..n]))
  {
    assert Ids(rows[..n]) == Ids(rows)[..n];
    PrefixDistinct(Ids(rows), n);
  }

  /** Assigning to a new key puts it last. */
  lemma {:induction false} SetNew(fs: seq<Field>, key: string, v: Json)
    requires key !in Keys(fs)
    ensures SetField(fs, key, v) == fs + [Field(key, v)]
  {
    if fs == [] {
    } else {
      assert fs[0].key in Keys(fs);
      assert Keys(fs[1..]) <= Keys(fs);
      SetNew(fs[1..], key, v);
    }
  }

  lemma {:induction false} EntryKeys(rows: seq<Json>)
    ensures Keys(Map(rows, RowEntry)) == Known(rows)
    ensures NoDuplicates(Ids(rows)) <==> UniqueKeys(Map(rows, RowEntry))
  {
    var table, ids := Map(rows, RowEntry), Ids(rows);
    assert forall i :: 0 <= i < |rows| ==> table[i].key == ids[i];
    forall k ensures k in Keys(table) <==> k in Known(rows) {
      if k in Keys(table) {
        var i :| 0 <= i < |table| && table[i].key == k;
        assert ids[i] == k;
      }
      if k in Known(rows) {
        var i :| 0 <= i < |ids| && ids[i] == k;
        assert table[i].key == k;
      }
    }
  }

  lemma {:induction false} MapSnoc<S, T>(xs: seq<S>, i: nat, f: S -> T)
    requires i < |xs|
    ensures Map(xs[..i + 1], f) == Map(xs[..i], f) + [f(xs[i])]
  {
  }

  lemma {:induction false} TableSnoc(rows: seq<Json>, i: nat)
    requires i < |rows| && SurfaceId(rows[i]) !in Known(rows[..i])
    ensures Map(rows[..i + 1], RowEntry) == SetField(Map(rows[..i], RowEntry), SurfaceId(rows[i]), rows[i])
  {
    EntryKeys(rows[..i]);
    SetNew(Map(rows[..i], RowEntry), SurfaceId(rows[i]), rows[i]);
    MapSnoc(rows, i, RowEntry);
  }

  lemma {:induction false} TableGrows(es: seq<Field>, i: nat)
    requires i < |es|
    ensures UniqueKeys(es[..i + 1]) <==> UniqueKeys(es[..i]) && es[i].key !in Keys(es[..i])
    ensures es[i].key !in Keys(es[..i]) ==> SetField(es[..i], es[i].key, es[i].value) == es[..i + 1]
    ensures UniqueKeys(es) ==> UniqueKeys(es[..i + 1])
  {
    var before, after := es[..i], es[..i + 1];
    assert after == before + [es[i]];
    if UniqueKeys(after) {
      forall j, k | 0 <= j < k < i ensures before[j].key != before[k].key {
        assert after[j] == before[j] && after[k] == before[k];
      }
      forall f | f in before ensures f.key != es[i].key {
        var j :| 0 <= j < i && before[j] == f;
        assert after[j] == f && after[i] == es[i];
      }
    }
    if es[i].key !in Keys(before) {
      SetNew(before, es[i].key, es[i].value);
      assert Field(es[i].key, es[i].value) == es[i];
    }
  }

  predicate AllTrue(ok: seq<bool>) {
    forall i :: 0 <= i < |ok| ==> ok[i]
  }

  /** What the loop over the capabilities needs to know of the reading of one row. */
  ghost predicate ReadsEntries(rows: seq<Json>, read: (Json, set<string>) -> Parse, ok: seq<bool>, es: seq<Field>) {
    |ok| == |es| == |rows|
    && (forall i {:trigger es[i]} :: 0 <= i < |rows| ==> es[i].value == rows[i])
    && forall i, seen {:trigger read(rows[i], seen)} :: 0 <= i < |rows| ==>
         (read(rows[i], seen).Ok? <==> ok[i] && es[i].key !in seen) && (read(rows[i], seen).Ok? ==> read(rows[i], seen).id == es[i].key)
  }

  method CollectCapabilities(rows: seq<Json>, read: (Json, set<string>) -> Parse, ghost ok: seq<bool>, ghost es: seq<Field>)
    returns (r: Parse, table: seq<Field>, projected: seq<CapabilityOut>)
    requires ReadsEntries(rows, read, ok, es)
    ensures r.Ok? <==> AllTrue(ok) && UniqueKeys(es)
    ensures r.Ok? ==> table == es && projected == Map(es, ProjectCapability)
  {
    table, projected := [], [];
    for i := 0 to |rows|
      invariant table == es[..i] && UniqueKeys(table) && projected == Map(table, ProjectCapability)
      invariant forall j :: 0 <= j < i ==> ok[j]
    {
      r := read(rows[i], Keys(table));
      TableGrows(es, i);
      if !r.Ok? {
        return;
      }
      MapSnoc(es, i, ProjectCapability);
      table := SetField(table, r.id, rows[i]);
      projected := projected + [ProjectCapability(Field(r.id, rows[i]))];
    }
    assert es[..|rows|] == es;
    r := Ok("");
  }

  /** What the loop over the surfaces needs to know of the reading of one row. */
  ghost predicate ReadsIds(rows: seq<Json>, read: (Json, set<string>) -> Parse, ok: seq<bool>, ids: seq<string>) {
    |ok| == |ids| == |rows|
    && forall i, seen {:trigger read(rows[i], seen)} :: 0 <= i < |rows| ==>
         (read(rows[i], seen).Ok? <==> ok[i] && ids[i] !in seen) && (read(rows[i], seen).Ok? ==> read(rows[i], seen).id == ids[i])
  }

  method CollectSurfaces(
      rows: seq<Json>, read: (Json, set<string>) -> Parse, project: Json -> SurfaceOut, ghost ok: seq<bool>, ghost ids: seq<string>)
    returns (r: Parse, surfaces: seq<SurfaceOut>)
    requires ReadsIds(rows, read, ok, ids)
    ensures r.Ok? <==> AllTrue(ok) && NoDuplicates(ids)
    ensures r.Ok? ==> surfaces == Map(rows, project)
  {
    surfaces := [];
    var seen: set<string> := {};
    for i := 0 to |rows|
      invariant seen == Members(ids[..i]) && NoDuplicates(ids[..i])
      invariant surfaces == Map(rows[..i], project)
      invariant forall j :: 0 <= j < i ==> ok[j]
    {
      r := read(rows[i], seen);
      assert ids[..i + 1] == ids[..i] + [ids[i]];
      SnocDistinct(ids[..i], ids[i]);
      if !r.Ok? {
        if NoDuplicates(ids) {
          PrefixDistinct(ids, i + 1);
        }
        return;
      }
      MapSnoc(rows, i, project);
      seen := seen + {r.id};
      surfaces := surfaces + [project(rows[i])];
    }
    assert rows[..|rows|] == rows && ids[..|rows|] == ids;
    r := Ok("");
  }

  function Judged(rows: seq<Json>, ok: Json -> bool): (r: seq<bool>)
    ensures |r| == |rows| && forall i :: 0 <= i < |rows| ==> r[i] == ok(rows[i])
  {
    seq(|rows|, i requires 0 <= i < |rows| => ok(rows[i]))
  }

  lemma {:induction false} JudgedAll(rows: seq<Json>, ok: Json -> bool)
    ensures AllTrue(Judged(rows, ok)) <==> forall i :: 0 <= i < |rows| ==> ok(rows[i])
  {
    var judged := Judged(rows, ok);
    assert forall i :: 0 <= i < |rows| ==> judged[i] == ok(rows[i]);
  }

  lemma {:induction false} CapabilityRead(v: Json, seen: set<string>)
    ensures ReadCapability(v, seen).Ok? <==> CapabilityOk(v) && SurfaceId(v) !in seen
    ensures ReadCapability(v, seen).Ok? ==> ReadCapability(v, seen).id == SurfaceId(v)
  {
  }

  lemma {:induction false} SurfaceRead(v: Json, known: set<string>, seen: set<string>)
    ensures ReadSurface(v, known, seen).Ok? <==> SurfaceOk(v, known) && SurfaceId(v) !in seen
    ensures ReadSurface(v, known, seen).Ok? ==> ReadSurface(v, known, seen).id == SurfaceId(v)
  {
  }

  lemma {:induction false} CapabilitiesRead(rows: seq<Json>, ok: seq<bool>, es: seq<Field>)
    requires ok == Judged(rows, CapabilityOk) && es == Map(rows, RowEntry)
    ensures ReadsEntries(rows, ReadCapability, ok, es)
  {
    forall i: nat, seen: set<string> | i < |rows|
      ensures ReadCapability(rows[i], seen).Ok? <==> ok[i] && es[i].key !in seen
      ensures ReadCapability(rows[i], seen).Ok? ==> ReadCapability(rows[i], seen).id == es[i].key
    {
      CapabilityRead(rows[i], seen);
    }
  }

  lemma {:induction false} SurfacesRead(rows: seq<Json>, read: (Json, set<string>) -> Parse, known: set<string>, ok: seq<bool>)
    requires forall v, seen {:trigger read(v, seen)} :: read(v, seen) == ReadSurface(v, known, seen)
    requires ok == Judged(rows, v => SurfaceOk(v, known))
    ensures ReadsIds(rows, read, ok, Ids(rows))
  {
    forall i: nat, seen: set<string> | i < |rows|
      ensures read(rows[i], seen).Ok? <==> ok[i] && Ids(rows)[i] !in seen
      ensures read(rows[i], seen).Ok? ==> read(rows[i], seen).id == Ids(rows)[i]
    {
      SurfaceRead(rows[i], known, seen);
    }
  }

  method AcceptCapabilities(rows: seq<Json>) returns (r: Parse, table: seq<Field>, projected: seq<CapabilityOut>)
    ensures r.Ok? <==> RowsOk(rows, CapabilityOk)
    ensures r.Ok? ==> table == Map(rows, RowEntry) && projected == Map(table, ProjectCapability)
  {
    JudgedAll(rows, CapabilityOk);
    EntryKeys(rows);
    ghost var ok, es := Judged(rows, CapabilityOk), Map(rows, RowEntry);
    CapabilitiesRead(rows, ok, es);
    r, table, projected := CollectCapabilities(rows, ReadCapability, ok, es);
  }

  method AcceptSurfaces(rows: seq<Json>, known: set<string>, table: seq<Field>) returns (r: Parse, outs: seq<SurfaceOut>)
    ensures r.Ok? <==> RowsOk(rows, v => SurfaceOk(v, known))
    ensures r.Ok? ==> outs == Map(rows, v => Surface(v, table))
  {
    ghost var ok := (v: Json) => SurfaceOk(v, known);
    JudgedAll(rows, ok);
    var read := (v, seen) => ReadSurface(v, known, seen);
    SurfacesRead(rows, read, known, Judged(rows, ok));
    r, outs := CollectSurfaces(rows, read, v => Surface(v, table), Judged(rows, ok), Ids(rows));
  }

  /** `project_release_contract`. */
  method ProjectReleaseContract(contract: Json) returns (r: Projection)
    ensures r.Accepted? <==> ContractOk(contract)
    ensures r.Accepted? ==> r.payload == FrontendPayload(Rows(contract, "capabilities"), Rows(contract, "surfaceReferences"))
  {
    var capabilities, surfaces := Rows(contract, "capabilities"), Rows(contract, "surfaceReferences");
    if !HeaderOk(contract) || capabilities == [] {
      return Refused;
    }
    var p, table, projected := AcceptCapabilities(capabilities);
    if !p.Ok? {
      return if p.Bad? then Refused else Raised;
    }
    if surfaces == [] {
      return Refused;
    }
    var outs;
    p, outs := AcceptSurfaces(surfaces, Known(capabilities), table);
    if !p.Ok? {
      return if p.Bad? then Refused else Raised;
    }
    return Accepted(Payload(Sort(projected, OutLe), Sort(outs, SurfaceOutLe)));
  }

  // ---------------------------------------------------------------- the TypeScript generator

  /** The rows an iteration over `contract.get(key, [])` meets, where it does not raise. */
  function Iterated(contract: Json, key: string): Option<seq<Json>> {
    if !Has(contract, key) then Some([])
    else
      match Get(contract, key)
      case Arr(items) => Some(items)
      case Str(s) => Some(seq(|s|, i requires 0 <= i < |s| => Str([s[i]])))
      case Obj(fs) => Some(seq(|fs|, i requires 0 <= i < |fs| => Str(fs[i].key)))
      case _ => None
  }

  function AddCapability(table: seq<Field>, v: Json): seq<Field> {
    if v.Obj? && Get(v, "id").Str? then SetField(table, SurfaceId(v), v) else table
  }

  /** `{row["id"]: row ...}`: a later row with the same id replaces an earlier one in its place. */
  function TableOf(rows: seq<Json>): seq<Field> {
    if rows == [] then [] else AddCapability(TableOf(rows[..|rows| - 1]), rows[|rows| - 1])
  }

  /** A surface row the generator is modelled on: its ids are strings and its known capabilities have commitments. */
  predicate SurfaceReadable(v: Json, table: seq<Field>) {
    v.Obj? && Get(v, "id").Str? && (Has(v, "capabilityIds") ==> AllText(Get(v, "capabilityIds")))
    && forall id :: id in CapabilityIds(v) && Find(table, id).Some? ==>
         Has(Find(table, id).value, "commitment") && Hashable(Get(Find(table, id).value, "commitment"))
  }

  function GeneratedSurface(v: Json, table: seq<Field>): SurfaceOut {
    var ids := Sort(CapabilityIds(v), StrLe);
    SurfaceOut(SurfaceId(v), Get(v, "canonicalSource"), Get(v, "consumer"), ids, Combined(Levels(ids, table)))
  }

  /** The payload of `release_projection_typescript`, where it is modelled. */
  function GeneratedPayload(contract: Json): Option<Payload> {
    var capabilities, surfaces := Iterated(contract, "capabilities"), Iterated(contract, "surfaceReferences");
    if capabilities.None? || surfaces.None? then None
    else
      var table := TableOf(capabilities.value);
      if forall i :: 0 <= i < |surfaces.value| ==> SurfaceReadable(surfaces.value[i], table) then
        Some(Payload(Map(Sort(table, FieldLe), ProjectCapability),
                     Map(Sort(surfaces.value, SurfaceLe), v => GeneratedSurface(v, table))))
      else None
  }

  method ProjectAll<S, T>(rows: seq<S>, project: S -> T) returns (outs: seq<T>)
    ensures outs == Map(rows, project)
  {
    outs := [];
    for i := 0 to |rows|
      invariant outs == Map(rows[..i], project)
    {
      MapSnoc(rows, i, project);
      outs := outs + [project(rows[i])];
    }
    assert rows[..|rows|] == rows;
  }

  method GenerateReleaseProjection(contract: Json) returns (r: Option<Payload>)
    ensures r == GeneratedPayload(contract)
  {
    var capabilities, surfaces := Iterated(contract, "capabilities"), Iterated(contract, "surfaceReferences");
    if capabilities.None? || surfaces.None? {
      return None;
    }
    var rows := capabilities.value;
    var table: seq<Field> := [];
    for i := 0 to |rows|
      invariant table == TableOf(rows[..i])
    {
      assert rows[..i + 1][..i] == rows[..i];
      table := AddCapability(table, rows[i]);
    }
    assert rows[..|rows|] == rows;
    if exists i :: 0 <= i < |surfaces.value| && !SurfaceReadable(surfaces.value[i], table) {
      return None;
    }
    var projected := ProjectAll(Sort(table, FieldLe), ProjectCapability);
    var outs := ProjectAll(Sort(surfaces.value, SurfaceLe), v => GeneratedSurface(v, table));
    return Some(Payload(projected, outs));
  }

  // ---------------------------------------------------------------- the two agree

  lemma {:induction false} AcceptedTable(rows: seq<Json>)
    requires RowsOk(rows, CapabilityOk)
    ensures TableOf(rows) == Map(rows, RowEntry)
  {
    if rows == [] {
    } else {
      var n := |rows| - 1;
      DistinctPrefix(rows, n);
      AcceptedTable(rows[..n]);
      IdsSnoc(rows, n);
      assert rows[..n + 1] == rows;
      TableSnoc(rows, n);
      assert CapabilityOk(rows[n]);
    }
  }

  lemma {:induction false} MapAlike<S, T>(xs: seq<S>, f: S -> T, g: S -> T)
    requires forall x :: x in xs ==> f(x) == g(x)
    ensures Map(xs, f) == Map(xs, g)
  {
    assert forall i :: 0 <= i < |xs| ==> f(xs[i]) == g(xs[i]);
  }

  lemma {:induction false} SortThenProject<S(!new), T(!new)>(
      xs: seq<S>, f: S -> T, g: S -> T, le: (S, S) -> bool, le': (T, T) -> bool)
    requires forall y, z :: le'(f(y), f(z)) == le(y, z)
    requires forall x :: f(x) == g(x)
    ensures Map(Sort(xs, le), g) == Sort(Map(xs, f), le')
  {
    SortMapped(xs, f, le, le');
    MapAlike(Sort(xs, le), f, g);
  }

  lemma {:induction false} SurfaceAlike(v: Json, table: seq<Field>)
    ensures Surface(v, table) == GeneratedSurface(v, table)
  {
    var ids := CapabilityIds(v);
    assert Levels(ids, table) == Levels(Sort(ids, StrLe), table);
  }

  lemma {:induction false} SurfacesAlike(surfaces: seq<Json>, table: seq<Field>)
    ensures Map(Sort(surfaces, SurfaceLe), v => GeneratedSurface(v, table)) == Sort(Map(surfaces, v => Surface(v, table)), SurfaceOutLe)
  {
    var f, g := (v: Json) => Surface(v, table), (v: Json) => GeneratedSurface(v, table);
    forall v ensures f(v) == g(v) {
      SurfaceAlike(v, table);
    }
    SortThenProject(surfaces, f, g, SurfaceLe, SurfaceOutLe);
  }

  lemma {:induction false} EntryFound(rows: seq<Json>, id: string)
    requires RowsOk(rows, CapabilityOk) && Find(Map(rows, RowEntry), id).Some?
    ensures CapabilityOk(Find(Map(rows, RowEntry), id).value)
  {
    var table := Map(rows, RowEntry);
    EntryKeys(rows);
    FindMember(table, id);
    var v := Find(table, id).value;
    assert Field(id, v) in table;
    var i :| 0 <= i < |table| && table[i] == Field(id, v);
    assert rows[i] == v && CapabilityOk(rows[i]);
  }

  lemma {:induction false} CommitmentPresent(v: Json)
    requires CapabilityOk(v)
    ensures Has(v, "commitment") && Hashable(Get(v, "commitment"))
  {
  }

  lemma {:induction false} AcceptedReadable(v: Json, rows: seq<Json>)
    requires RowsOk(rows, CapabilityOk) && SurfaceOk(v, Known(rows))
    ensures SurfaceReadable(v, Map(rows, RowEntry))
  {
    var table := Map(rows, RowEntry);
    forall id | id in CapabilityIds(v) && Find(table, id).Some?
      ensures Has(Find(table, id).value, "commitment") && Hashable(Get(Find(table, id).value, "commitment"))
    {
      EntryFound(rows, id);
      CommitmentPresent(Find(table, id).value);
    }
  }

  lemma {:induction false} PayloadsAlike(capabilities: seq<Json>, surfaces: seq<Json>)
    requires RowsOk(capabilities, CapabilityOk)
    ensures var table := Map(capabilities, RowEntry);
      Payload(Map(Sort(TableOf(capabilities), FieldLe), ProjectCapability),
              Map(Sort(surfaces, SurfaceLe), v => GeneratedSurface(v, table))) == FrontendPayload(capabilities, surfaces)
  {
    AcceptedTable(capabilities);
    SortMapped(Map(capabilities, RowEntry), ProjectCapability, FieldLe, OutLe);
    SurfacesAlike(surfaces, Map(capabilities, RowEntry));
  }

  lemma {:induction false} AllReadable(capabilities: seq<Json>, surfaces: seq<Json>)
    requires RowsOk(capabilities, CapabilityOk) && RowsOk(surfaces, v => SurfaceOk(v, Known(capabilities)))
    ensures forall i :: 0 <= i < |surfaces| ==> SurfaceReadable(surfaces[i], TableOf(capabilities))
  {
    AcceptedTable(capabilities);
    var ok := v => SurfaceOk(v, Known(capabilities));
    forall i | 0 <= i < |surfaces| ensures SurfaceReadable(surfaces[i], TableOf(capabilities)) {
      assert ok(surfaces[i]);
      AcceptedReadable(surfaces[i], capabilities);
    }
  }

  lemma {:induction false} AcceptedRows(contract: Json, key: string)
    requires Rows(contract, key) != []
    ensures Iterated(contract, key) == Some(Rows(contract, key))
  {
  }

  /** On every contract the frontend verifier accepts, the TypeScript generator builds the identical payload. */
  lemma {:induction false} ProjectionsAgree(contract: Json)
    requires ContractOk(contract)
    ensures GeneratedPayload(contract) == Some(FrontendPayload(Rows(contract, "capabilities"), Rows(contract, "surfaceReferences")))
  {
    var capabilities, surfaces := Rows(contract, "capabilities"), Rows(contract, "surfaceReferences");
    AcceptedRows(contract, "capabilities");
    AcceptedRows(contract, "surfaceReferences");
    AcceptedTable(capabilities);
    AllReadable(capabilities, surfaces);
    PayloadsAlike(capabilities, surfaces);
  }

  // ---------------------------------------------------------------- dispositions

  function Rank(l: Level): nat { match l case Excluded => 0 case Conditional => 1 case Committed => 2 }

  lemma {:induction false} CombinedIsMaximum(levels: set<Level>)
    ensures forall l :: l in levels ==> Rank(l) <= Rank(Combined(levels))
    ensures levels != {} ==> Combined(levels) in levels
    ensures levels == {} ==> Combined(levels) == Excluded
  {
    if levels != {} && Committed !in levels && Conditional !in levels {
      var l :| l in levels;
      assert l == Excluded;
    }
  }

  /** The surface's disposition is the strongest navigation level among its capabilities, all of which are listed. */
  ghost predicate StrongestOf(s: SurfaceOut, capabilities: seq<CapabilityOut>) {
    && (forall id :: id in s.capabilityIds ==> exists x :: x in capabilities && x.id == id)
    && (forall x :: x in capabilities && x.id in s.capabilityIds ==> Rank(x.navigation) <= Rank(s.disposition))
    && (s.capabilityIds == [] ==> s.disposition == Excluded)
    && (s.capabilityIds != [] ==>
          exists x :: x in capabilities && x.id in s.capabilityIds && x.navigation == s.disposition)
  }

  lemma {:induction false} ListedCapability(table: seq<Field>, id: string)
    requires UniqueKeys(table)
    ensures forall x :: x in Sort(Map(table, ProjectCapability), OutLe) && x.id == id ==>
      Find(table, id).Some? && x.navigation == LevelOf(Get(Find(table, id).value, "commitment"))
    ensures Find(table, id).Some? ==>
      ProjectCapability(Field(id, Find(table, id).value)) in Sort(Map(table, ProjectCapability), OutLe)
  {
    var outs := Map(table, ProjectCapability);
    SameMembers(Sort(outs, OutLe), outs);
    FindMember(table, id);
    forall x | x in Sort(outs, OutLe) && x.id == id
      ensures Find(table, id).Some? && x.navigation == LevelOf(Get(Find(table, id).value, "commitment"))
    {
      var i :| 0 <= i < |table| && outs[i] == x;
      assert table[i] == Field(id, table[i].value) && table[i] in table;
    }
    if Find(table, id).Some? {
      var i :| 0 <= i < |table| && table[i] == Field(id, Find(table, id).value);
      assert outs[i] == ProjectCapability(table[i]);
    }
  }

  function LevelIn(table: seq<Field>, id: string): Option<Level> {
    var row := Find(table, id);
    if row.Some? then Some(LevelOf(Get(row.value, "commitment"))) else None
  }

  /** The listed capabilities are those of the table, with the levels they have there. */
  ghost predicate Reflects(capabilities: seq<CapabilityOut>, table: seq<Field>) {
    && (forall x :: x in capabilities ==> LevelIn(table, x.id) == Some(x.navigation))
    && (forall id {:trigger LevelIn(table, id)} :: LevelIn(table, id).Some? ==>
          exists x :: x in capabilities && x.id == id)
  }

  lemma {:induction false} CapabilitiesReflect(table: seq<Field>)
    requires UniqueKeys(table)
    ensures Reflects(Sort(Map(table, ProjectCapability), OutLe), table)
  {
    var capabilities := Sort(Map(table, ProjectCapability), OutLe);
    forall x | x in capabilities ensures LevelIn(table, x.id) == Some(x.navigation) {
      ListedCapability(table, x.id);
    }
    forall id {:trigger LevelIn(table, id)} | LevelIn(table, id).Some? ensures exists x :: x in capabilities && x.id == id {
      ListedCapability(table, id);
      assert ProjectCapability(Field(id, Find(table, id).value)).id == id;
    }
  }

  lemma {:induction false} LevelsAre(ids: seq<string>, table: seq<Field>)
    ensures forall l :: l in Levels(ids, table) <==> exists id :: id in ids && LevelIn(table, id) == Some(l)
  {
    forall l | l in Levels(ids, table) ensures exists id :: id in ids && LevelIn(table, id) == Some(l) {
      var id :| id in ids && Find(table, id).Some? && LevelOf(Get(Find(table, id).value, "commitment")) == l;
      assert LevelIn(table, id) == Some(l);
    }
  }

  lemma {:induction false} StrongestInTable(
      s: SurfaceOut, ids: seq<string>, table: seq<Field>, capabilities: seq<CapabilityOut>, levels: set<Level>)
    requires Reflects(capabilities, table) && (forall id :: id in ids ==> LevelIn(table, id).Some?)
    requires forall l :: l in levels <==> exists id :: id in ids && LevelIn(table, id) == Some(l)
    requires (forall id :: id in s.capabilityIds <==> id in ids) && s.disposition == Combined(levels)
    ensures StrongestOf(s, capabilities)
  {
    CombinedIsMaximum(levels);
    forall x | x in capabilities && x.id in s.capabilityIds ensures Rank(x.navigation) <= Rank(s.disposition) {
      assert LevelIn(table, x.id) == Some(x.navigation);
      assert x.navigation in levels;
    }
    if s.capabilityIds == [] {
      assert levels == {};
    } else {
      assert s.capabilityIds[0] in ids;
      assert LevelIn(table, s.capabilityIds[0]).value in levels;
      var id :| id in ids && LevelIn(table, id) == Some(s.disposition);
      var x :| x in capabilities && x.id == id;
    }
  }

  lemma {:induction false} SurfaceStrongest(v: Json, table: seq<Field>, capabilities: seq<CapabilityOut>)
    requires UniqueKeys(table) && (forall id :: id in CapabilityIds(v) ==> id in Keys(table)) && Reflects(capabilities, table)
    ensures StrongestOf(Surface(v, table), capabilities)
  {
    var ids := CapabilityIds(v);
    forall id | id in ids ensures LevelIn(table, id).Some? {
      FindMember(table, id);
    }
    LevelsAre(ids, table);
    StrongestInTable(Surface(v, table), ids, table, capabilities, Levels(ids, table));
  }

  lemma {:induction false} SurfacesStrongest(
      surfaces: seq<Json>, known: set<string>, table: seq<Field>, capabilities: seq<CapabilityOut>)
    requires UniqueKeys(table) && Keys(table) == known && Reflects(capabilities, table)
    requires forall i :: 0 <= i < |surfaces| ==> SurfaceOk(surfaces[i], known)
    ensures forall s :: s in Map(surfaces, v => Surface(v, table)) ==> StrongestOf(s, capabilities)
  {
    var outs := Map(surfaces, v => Surface(v, table));
    forall s | s in outs ensures StrongestOf(s, capabilities) {
      var i :| 0 <= i < |surfaces| && outs[i] == s;
      KnownIds(surfaces[i], known);
      SurfaceStrongest(surfaces[i], table, capabilities);
    }
  }

  /** In the payload of every accepted contract, each surface's disposition is the strongest commitment among its
      capabilities, and excluded if it has none. */
  lemma {:induction false} DispositionIsStrongest(contract: Json)
    requires ContractOk(contract)
    ensures var p := FrontendPayload(Rows(contract, "capabilities"), Rows(contract, "surfaceReferences"));
      forall s :: s in p.surfaces ==> StrongestOf(s, p.capabilities)
  {
    var capabilities, surfaces := Rows(contract, "capabilities"), Rows(contract, "surfaceReferences");
    var table, known := Map(capabilities, RowEntry), Known(capabilities);
    EntryKeys(capabilities);
    CapabilitiesReflect(table);
    var ok := v => SurfaceOk(v, known);
    forall i | 0 <= i < |surfaces| ensures SurfaceOk(surfaces[i], known) {
      assert ok(surfaces[i]);
    }
    SurfacesStrongest(surfaces, known, table, Sort(Map(table, ProjectCapability), OutLe));
  }

  lemma {:induction false} KnownIds(v: Json, known: set<string>)
    requires SurfaceOk(v, known)
    ensures forall id :: id in CapabilityIds(v) ==> id in known
  {
  }

  /** Raising commitments, or naming more capabilities, never lowers a surface's disposition. */
  lemma {:induction false} DispositionIsMonotone(c: Json, d: Json)
    requires ContractOk(c) && ContractOk(d)
    ensures var p := FrontendPayload(Rows(c, "capabilities"), Rows(c, "surfaceReferences"));
      var q := FrontendPayload(Rows(d, "capabilities"), Rows(d, "surfaceReferences"));
      (forall x, y :: x in p.capabilities && y in q.capabilities && x.id == y.id ==> Rank(x.navigation) <= Rank(y.navigation)) ==>
      forall s, t :: s in p.surfaces && t in q.surfaces && (forall id :: id in s.capabilityIds ==> id in t.capabilityIds) ==>
        Rank(s.disposition) <= Rank(t.disposition)
  {
    DispositionIsStrongest(c);
    DispositionIsStrongest(d);
    var p := FrontendPayload(Rows(c, "capabilities"), Rows(c, "surfaceReferences"));
    var q := FrontendPayload(Rows(d, "capabilities"), Rows(d, "surfaceReferences"));
    if forall x, y :: x in p.capabilities && y in q.capabilities && x.id == y.id ==> Rank(x.navigation) <= Rank(y.navigation) {
      forall s, t | s in p.surfaces && t in q.surfaces && (forall id :: id in s.capabilityIds ==> id in t.capabilityIds)
        ensures Rank(s.disposition) <= Rank(t.disposition)
      {
        StrongerThan(s, p.capabilities, t, q.capabilities);
      }
    }
  }

  lemma {:induction false} StrongerThan(s: SurfaceOut, lower: seq<CapabilityOut>, t: SurfaceOut, higher: seq<CapabilityOut>)
    requires StrongestOf(s, lower) && StrongestOf(t, higher)
    requires forall x, y :: x in lower && y in higher && x.id == y.id ==> Rank(x.navigation) <= Rank(y.navigation)
    requires forall id :: id in s.capabilityIds ==> id in t.capabilityIds
    ensures Rank(s.disposition) <= Rank(t.disposition)
  {
    if s.capabilityIds != [] {
      var x :| x in lower && x.id in s.capabilityIds && x.navigation == s.disposition;
      var y :| y in higher && y.id == x.id;
    }
  }

  // ---------------------------------------------------------------- order of rows

  lemma {:induction false} IdsPermutation(a: seq<Json>, b: seq<Json>)
    requires multiset(a) == multiset(b)
    ensures Known(a) == Known(b) && (NoDuplicates(Ids(a)) <==> NoDuplicates(Ids(b)))
  {
    MapPermutation(a, b, SurfaceId);
    assert Ids(a) == Map(a, SurfaceId) && Ids(b) == Map(b, SurfaceId);
    DistinctPermutation(Ids(a), Ids(b));
  }

  lemma {:induction false} RowsOkPermutation(a: seq<Json>, b: seq<Json>, ok: Json -> bool)
    requires multiset(a) == multiset(b) && RowsOk(a, ok)
    ensures RowsOk(b, ok) && Known(a) == Known(b)
  {
    IdsPermutation(a, b);
    SameMembers(a, b);
    forall i | 0 <= i < |b| ensures ok(b[i]) {
      assert b[i] in a;
    }
  }

  lemma {:induction false} TablePermutation(a: seq<Json>, b: seq<Json>, id: string)
    requires multiset(a) == multiset(b) && NoDuplicates(Ids(a)) && NoDuplicates(Ids(b))
    ensures Find(Map(a, RowEntry), id) == Find(Map(b, RowEntry), id)
  {
    MapPermutation(a, b, RowEntry);
    SameMembers(Map(a, RowEntry), Map(b, RowEntry));
    EntryKeys(a);
    EntryKeys(b);
    FindMember(Map(a, RowEntry), id);
    FindMember(Map(b, RowEntry), id);
    var x := Find(Map(a, RowEntry), id);
    if x.Some? {
      assert Field(id, x.value) in Map(b, RowEntry);
    } else {
      assert id !in Known(a) && Known(a) == Known(b) by {
        IdsPermutation(a, b);
      }
    }
  }

  lemma {:induction false} OutPreorder()
    ensures Preorder(OutLe) && Preorder(SurfaceOutLe)
  {
    StrOrder();
    forall a: CapabilityOut, b: CapabilityOut, c: CapabilityOut | OutLe(a, b) && OutLe(b, c) ensures OutLe(a, c) {
      StrLeTransitive(a.id, b.id, c.id);
    }
    forall a: SurfaceOut, b: SurfaceOut, c: SurfaceOut | SurfaceOutLe(a, b) && SurfaceOutLe(b, c) ensures SurfaceOutLe(a, c) {
      StrLeTransitive(a.id, b.id, c.id);
    }
  }

  /** Rows with distinct ids project to rows that tie only when equal. */
  lemma {:induction false} NoTiesByIds<T(!new)>(rows: seq<Json>, project: Json -> T, idOf: T -> string, le: (T, T) -> bool)
    requires NoDuplicates(Ids(rows)) && forall v :: idOf(project(v)) == SurfaceId(v)
    requires forall x, y :: le(x, y) == StrLe(idOf(x), idOf(y))
    ensures NoTies(Map(rows, project), le)
  {
    var outs := Map(rows, project);
    forall x, y | x in outs && y in outs && le(x, y) && le(y, x) ensures x == y {
      StrLeAntisymmetric(idOf(x), idOf(y));
      var i, j :| 0 <= i < |outs| && outs[i] == x && 0 <= j < |outs| && outs[j] == y;
      assert Ids(rows)[i] == Ids(rows)[j];
    }
  }

  lemma {:induction false} SortedRowsPermutation<T(!new)>(
      a: seq<Json>, b: seq<Json>, project: Json -> T, idOf: T -> string, le: (T, T) -> bool)
    requires multiset(a) == multiset(b) && NoDuplicates(Ids(a)) && Preorder(le) && forall v :: idOf(project(v)) == SurfaceId(v)
    requires forall x, y :: le(x, y) == StrLe(idOf(x), idOf(y))
    ensures Sort(Map(a, project), le) == Sort(Map(b, project), le)
  {
    MapPermutation(a, b, project);
    NoTiesByIds(a, project, idOf, le);
    SortPermutation(Map(a, project), Map(b, project), le);
  }

  lemma {:induction false} MapMap<R, S, T>(xs: seq<R>, f: R -> S, g: S -> T, h: R -> T)
    requires forall x :: x in xs ==> g(f(x)) == h(x)
    ensures Map(Map(xs, f), g) == Map(xs, h)
  {
    assert forall i :: 0 <= i < |xs| ==> g(f(xs[i])) == h(xs[i]);
  }

  function CapabilityOf(v: Json): CapabilityOut { ProjectCapability(RowEntry(v)) }

  lemma {:induction false} CapabilityOrder(a: seq<Json>, b: seq<Json>)
    requires multiset(a) == multiset(b) && NoDuplicates(Ids(a))
    ensures Sort(Map(Map(a, RowEntry), ProjectCapability), OutLe) == Sort(Map(Map(b, RowEntry), ProjectCapability), OutLe)
  {
    MapMap(a, RowEntry, ProjectCapability, CapabilityOf);
    MapMap(b, RowEntry, ProjectCapability, CapabilityOf);
    OutPreorder();
    SortedRowsPermutation(a, b, CapabilityOf, (x: CapabilityOut) => x.id, OutLe);
  }

  lemma {:induction false} SurfaceOrder(a: seq<Json>, b: seq<Json>, table: seq<Field>)
    requires multiset(a) == multiset(b) && NoDuplicates(Ids(a))
    ensures Sort(Map(a, v => Surface(v, table)), SurfaceOutLe) == Sort(Map(b, v => Surface(v, table)), SurfaceOutLe)
  {
    OutPreorder();
    SortedRowsPermutation(a, b, v => Surface(v, table), (x: SurfaceOut) => x.id, SurfaceOutLe);
  }

  lemma {:induction false} SurfacesByTable(surfaces: seq<Json>, a: seq<Field>, b: seq<Field>)
    requires forall id :: Find(a, id) == Find(b, id)
    ensures Map(surfaces, v => Surface(v, a)) == Map(surfaces, v => Surface(v, b))
  {
    var f, g := (v: Json) => Surface(v, a), (v: Json) => Surface(v, b);
    forall v: Json ensures f(v) == g(v) {
      assert Levels(CapabilityIds(v), a) == Levels(CapabilityIds(v), b);
    }
    MapAlike(surfaces, f, g);
  }

  lemma {:induction false} PayloadPermutation(a: seq<Json>, b: seq<Json>, s: seq<Json>, t: seq<Json>)
    requires multiset(a) == multiset(b) && NoDuplicates(Ids(a)) && NoDuplicates(Ids(b)) && multiset(s) == multiset(t) && NoDuplicates(Ids(s))
    ensures FrontendPayload(a, s) == FrontendPayload(b, t)
  {
    CapabilityOrder(a, b);
    forall id ensures Find(Map(a, RowEntry), id) == Find(Map(b, RowEntry), id) {
      TablePermutation(a, b, id);
    }
    SurfacesByTable(s, Map(a, RowEntry), Map(b, RowEntry));
    SurfaceOrder(s, t, Map(b, RowEntry));
  }

  lemma {:induction false} AcceptancePermutation(c: Json, d: Json)
    requires ContractOk(c) && HeaderOk(d)
    requires multiset(Rows(c, "capabilities")) == multiset(Rows(d, "capabilities"))
    requires multiset(Rows(c, "surfaceReferences")) == multiset(Rows(d, "surfaceReferences"))
    ensures ContractOk(d)
  {
    var a, b := Rows(c, "capabilities"), Rows(d, "capabilities");
    var s, t := Rows(c, "surfaceReferences"), Rows(d, "surfaceReferences");
    RowsOkPermutation(a, b, CapabilityOk);
    RowsOkPermutation(s, t, v => SurfaceOk(v, Known(a)));
    SameMembers(a, b);
    SameMembers(s, t);
  }

  /** Listing the capabilities and the surfaces in another order changes neither acceptance nor the payload. */
  lemma {:induction false} ProjectionIgnoresOrder(c: Json, d: Json)
    requires HeaderOk(c) && HeaderOk(d)
    requires multiset(Rows(c, "capabilities")) == multiset(Rows(d, "capabilities"))
    requires multiset(Rows(c, "surfaceReferences")) == multiset(Rows(d, "surfaceReferences"))
    ensures ContractOk(c) <==> ContractOk(d)
    ensures ContractOk(c) ==>
      FrontendPayload(Rows(c, "capabilities"), Rows(c, "surfaceReferences"))
        == FrontendPayload(Rows(d, "capabilities"), Rows(d, "surfaceReferences"))
  {
    if ContractOk(c) {
      AcceptancePermutation(c, d);
      PayloadPermutation(Rows(c, "capabilities"), Rows(d, "capabilities"), Rows(c, "surfaceReferences"), Rows(d, "surfaceReferences"));
    } else if ContractOk(d) {
      AcceptancePermutation(d, c);
    }
  }
}
