/** When a projection lists a success response twice: media types that differ only in letter case. */
module ResponseClashes {
  import opened Sorting
  import opened JsonValues
  import opened Distinctness
  import opened SurfaceRows
  import opened OperationUnits
  import opened OperationRows
  import opened OperationSurface
  import opened ManifestValidation

  /** Two entries of a `content` dict with the same lowered media type and the same schema identity. */
  ghost predicate Clash(c: Conventions, resolve: Resolver, fs: seq<Field>) {
    exists i, j :: 0 <= i < j < |fs| && Clashing(c, resolve, fs[i], fs[j])
  }

  predicate Clashing(c: Conventions, resolve: Resolver, d: Field, e: Field) {
    && c.lower(d.key) == c.lower(e.key)
    && SchemaIdentity(resolve, c.digest, Get(d.value, "schema")) == SchemaIdentity(resolve, c.digest, Get(e.value, "schema"))
  }

  /** The `content` entries of the response under a status. */
  function ContentUnder(resolve: Resolver, responses: Json, status: string): seq<Field> {
    var component := Component(resolve, Get(responses, status));
    if component.Some? && ContentOf(component.value).Obj? then ContentOf(component.value).fields else []
  }

  /** Some success status of the operation lists clashing media types. */
  ghost predicate StatusClash(c: Conventions, resolve: Resolver, responses: Json, terminal: Json) {
    var statuses := SuccessStatuses(c, responses, terminal);
    statuses.Some? && exists s :: s in statuses.value && Clash(c, resolve, ContentUnder(resolve, responses, s))
  }

  // ---------------------------------------------------------------- concatenations

  lemma {:induction false} ListingDistinct<T(!new)>(s: set<T>, le: (T, T) -> bool)
    ensures NoDuplicates(Listing(s, le))
  {
    var r := Listing(s, le);
    assert Members(r) == s;
    SetSize(r);
  }

  /** What all elements give is distinct when each gives distinct values that name it. */
  lemma {:induction false} GatherDistinct<S(!new), T(!new)>(xs: seq<S>, f: S -> Option<seq<T>>, tag: T -> S)
    requires NoDuplicates(xs) && Gather(xs, f).Some?
    requires forall x, t :: f(x).Some? && t in f(x).value ==> tag(t) == x
    ensures NoDuplicates(Gather(xs, f).value) <==> forall x :: x in xs ==> f(x).Some? && NoDuplicates(f(x).value)
    ensures forall t :: t in Gather(xs, f).value ==> tag(t) in xs
  {
    if xs == [] {
    } else {
      var n := |xs| - 1;
      var init, last := xs[..n], xs[n];
      assert xs == init + [last];
      SnocDistinct(init, last);
      GatherDistinct(init, f, tag);
      var a, b := Gather(init, f).value, f(last).value;
      AppendDistinct(a, b);
      forall t | t in Members(a) ensures t !in Members(b) {
        assert tag(t) in init;
        assert last !in init;
      }
    }
  }

  lemma {:induction false} GatherSingles<S, T>(xs: seq<S>, f: S -> Option<seq<T>>, g: S -> T)
    requires forall x :: f(x).Some? ==> f(x).value == [g(x)]
    ensures Gather(xs, f).Some? ==> Gather(xs, f).value == Map(xs, g)
    ensures Gather(xs, f).Some? <==> forall i :: 0 <= i < |xs| ==> f(xs[i]).Some?
  {
    GatherSome(xs, f);
    if xs == [] {
    } else if Gather(xs, f).Some? {
      var n := |xs| - 1;
      GatherSingles(xs[..n], f, g);
      assert Map(xs, g) == Map(xs[..n], g) + [g(xs[n])];
    }
  }

  // ---------------------------------------------------------------- one status

  function RowOf(c: Conventions, resolve: Resolver, status: string, e: Field): Response {
    var m := ProjectMedia(c, resolve, e);
    if m.Some? then Response(status, m.value.mediaType, m.value.schema) else Response(status, None, NoSchema)
  }

  lemma {:induction false} SortedSingles<T(!new)>(fs: seq<Field>, f: Field -> Option<seq<T>>, g: Field -> T)
    requires forall x :: f(x).Some? ==> f(x).value == [g(x)]
    requires Gather(Sort(fs, FieldLe), f).Some?
    ensures NoDuplicates(Gather(Sort(fs, FieldLe), f).value) <==> NoDuplicates(Map(fs, g))
    ensures Members(Gather(Sort(fs, FieldLe), f).value) == Members(Map(fs, g))
    ensures forall i :: 0 <= i < |fs| ==> f(fs[i]).Some?
  {
    var sorted := Sort(fs, FieldLe);
    GatherSingles(sorted, f, g);
    MapPermutation(sorted, fs, g);
    DistinctPermutation(Map(sorted, g), Map(fs, g));
    forall i | 0 <= i < |fs| ensures f(fs[i]).Some? {
      assert fs[i] in sorted;
      var k :| 0 <= k < |sorted| && sorted[k] == fs[i];
    }
  }

  lemma {:induction false} SameRow(c: Conventions, resolve: Resolver, status: string, d: Field, e: Field)
    requires ProjectMedia(c, resolve, d).Some? && ProjectMedia(c, resolve, e).Some?
    ensures RowOf(c, resolve, status, d) == RowOf(c, resolve, status, e) <==> Clashing(c, resolve, d, e)
    ensures RowOf(c, resolve, status, d).status == status
  {
  }

  lemma {:induction false} ContentRows(c: Conventions, resolve: Resolver, status: string, fs: seq<Field>)
    requires Gather(Sort(fs, FieldLe), entry => OneRow(c, resolve, status, entry)).Some?
    ensures var rows := Gather(Sort(fs, FieldLe), entry => OneRow(c, resolve, status, entry)).value;
      (NoDuplicates(rows) <==> !Clash(c, resolve, fs)) && forall r :: r in rows ==> r.status == status
  {
    var f, g := (e: Field) => OneRow(c, resolve, status, e), (e: Field) => RowOf(c, resolve, status, e);
    SortedSingles(fs, f, g);
    RowsClash(c, resolve, status, fs, Map(fs, g));
    var rows := Gather(Sort(fs, FieldLe), f).value;
    forall r | r in rows ensures r.status == status {
      assert r in Members(rows);
    }
  }

  lemma {:induction false} RowsClash(c: Conventions, resolve: Resolver, status: string, fs: seq<Field>, rows: seq<Response>)
    requires |rows| == |fs|
    requires forall i :: 0 <= i < |fs| ==> ProjectMedia(c, resolve, fs[i]).Some? && rows[i] == RowOf(c, resolve, status, fs[i])
    ensures NoDuplicates(rows) <==> !Clash(c, resolve, fs)
    ensures forall r :: r in Members(rows) ==> r.status == status
  {
    forall i, j | 0 <= i < j < |fs|
      ensures rows[i] == rows[j] <==> Clashing(c, resolve, fs[i], fs[j])
    {
      SameRow(c, resolve, status, fs[i], fs[j]);
    }
  }

  lemma {:induction false} OneStatus(c: Conventions, resolve: Resolver, responses: Json, status: string)
    requires StatusRows(c, resolve, status, Get(responses, status)).Some?
    ensures var rows := StatusRows(c, resolve, status, Get(responses, status)).value;
      (NoDuplicates(rows) <==> !Clash(c, resolve, ContentUnder(resolve, responses, status)))
      && forall r :: r in rows ==> r.status == status
  {
    var fs := ContentUnder(resolve, responses, status);
    if fs != [] {
      ContentRows(c, resolve, status, fs);
    }
  }

  // ---------------------------------------------------------------- all statuses

  function StatusOf(r: Response): string { r.status }

  lemma {:induction false} GatherHas<S, T>(xs: seq<S>, f: S -> Option<seq<T>>, x: S)
    requires Gather(xs, f).Some? && x in xs
    ensures f(x).Some?
  {
    if xs[|xs| - 1] != x {
      GatherHas(xs[..|xs| - 1], f, x);
    }
  }

  /** A success response is listed twice exactly when some success status lists two media types that are equal after
      lower-casing and have the same schema identity. */
  lemma {:induction false} RepeatedResponseIsClash(c: Conventions, resolve: Resolver, responses: Json, terminal: Json)
    requires ProjectResponses(c, resolve, responses, terminal).Some?
    ensures NoDuplicates(ProjectResponses(c, resolve, responses, terminal).value) <==> !StatusClash(c, resolve, responses, terminal)
  {
    var statuses := SuccessStatuses(c, responses, terminal).value;
    var f := status => StatusRows(c, resolve, status, Get(responses, status));
    var listing := Listing(statuses, StatusLe);
    var rows := Gather(listing, f).value;
    ListingDistinct(statuses, StatusLe);
    forall s, r | f(s).Some? && r in f(s).value ensures StatusOf(r) == s {
      OneStatus(c, resolve, responses, s);
    }
    GatherDistinct(listing, f, StatusOf);
    DistinctPermutation(Sort(rows, ResponseLe), rows);
    forall s | s in listing ensures f(s).Some? && (NoDuplicates(f(s).value) <==> !Clash(c, resolve, ContentUnder(resolve, responses, s))) {
      GatherHas(listing, f, s);
      OneStatus(c, resolve, responses, s);
    }
  }

  // ---------------------------------------------------------------- whole projections

  /** The operation is in scope and lists clashing media types. */
  ghost predicate UnitClash(c: Conventions, x: Context, u: Unit) {
    var d := ReadOperation(u.operation, x.security);
    ReadScope(d.disposition).disposition == INCLUDED && StatusClash(c, x.resolve, d.responses, d.terminal)
  }

  lemma {:induction false} InScope(c: Conventions, x: Context, u: Unit)
    requires ProjectUnit(c, x, u).Some?
    ensures ProjectUnit(c, x, u).value.operation.Some?
      <==> ReadScope(ReadOperation(u.operation, x.security).disposition).disposition == INCLUDED
  {
  }

  lemma {:induction false} IncludedResponses(c: Conventions, x: Context, rawPath: string, verb: string, d: OpDoc)
    requires ProjectDoc(c, x, rawPath, verb, d).Some? && ProjectDoc(c, x, rawPath, verb, d).value.operation.Some?
    ensures ProjectResponses(c, x.resolve, d.responses, d.terminal)
         == Some(ProjectDoc(c, x, rawPath, verb, d).value.operation.value.responses)
  {
  }

  lemma {:induction false} UnitResponses(c: Conventions, x: Context, u: Unit)
    requires ProjectUnit(c, x, u).Some? && ProjectUnit(c, x, u).value.operation.Some?
    ensures NoDuplicates(ProjectUnit(c, x, u).value.operation.value.responses) <==> !UnitClash(c, x, u)
  {
    var d := ReadOperation(u.operation, x.security);
    InScope(c, x, u);
    IncludedResponses(c, x, u.path, u.verb, d);
    RepeatedResponseIsClash(c, x.resolve, d.responses, d.terminal);
  }

  /** The operation's responses, if it is in scope, are distinct. */
  predicate Fine(r: Option<Rows>) { r.Some? && r.value.operation.Some? ==> NoDuplicates(r.value.operation.value.responses) }

  lemma {:induction false} OperationsDistinct(units: seq<Unit>, project: Unit -> Option<Rows>)
    requires AllRows(units, project).Some?
    ensures ResponsesDistinct(Operations(AllRows(units, project).value)) <==> forall u :: u in units ==> Fine(project(u))
  {
    if units == [] {
    } else {
      var n := |units| - 1;
      var init, last := units[..n], units[n];
      assert units == init + [last];
      OperationsDistinct(init, project);
      assert (forall u :: u in units ==> Fine(project(u))) <==> (forall u :: u in init ==> Fine(project(u))) && Fine(project(last));
      var rows, row := AllRows(init, project).value, project(last).value;
      assert AllRows(units, project).value == rows + [row];
      KeptSnoc(rows, row, OperationOf);
      assert Operations(rows + [row]) == Operations(rows) + if row.operation.Some? then [row.operation.value] else [];
      assert !row.operation.Some? ==> Operations(rows) + [] == Operations(rows);
      if row.operation.Some? {
        ResponsesSnoc(Operations(rows), row.operation.value);
      }
    }
  }

  lemma {:induction false} ResponsesSnoc(os: seq<Operation>, o: Operation)
    ensures ResponsesDistinct(os + [o]) <==> ResponsesDistinct(os) && NoDuplicates(o.responses)
  {
    var all := os + [o];
    assert all[|os|] == o && forall i :: 0 <= i < |os| ==> all[i] == os[i];
    if ResponsesDistinct(all) {
      forall i | 0 <= i < |os| ensures NoDuplicates(os[i].responses) {
        assert NoDuplicates(all[i].responses);
      }
    }
  }

  lemma {:induction false} GatheredAll<S, T>(xs: seq<S>, f: S -> Option<seq<T>>)
    requires Gather(xs, f).Some?
    ensures forall x :: x in xs ==> f(x).Some?
  {
    forall x | x in xs ensures f(x).Some? {
      GatherHas(xs, f, x);
    }
  }

  lemma {:induction false} UnitsDistinct(c: Conventions, x: Context, units: seq<Unit>, project: Unit -> Option<Rows>)
    requires forall u {:trigger project(u)} :: project(u) == ProjectUnit(c, x, u)
    requires AllRows(units, project).Some?
    ensures ResponsesDistinct(Operations(AllRows(units, project).value)) <==> forall u :: u in units ==> !UnitClash(c, x, u)
  {
    OperationsDistinct(units, project);
    GatheredAll(units, u => if project(u).Some? then Some([project(u).value]) else None);
    forall u | u in units
      ensures UnitClash(c, x, u) <==> !Fine(project(u))
    {
      assert project(u) == ProjectUnit(c, x, u) && project(u).Some?;
      InScope(c, x, u);
      if project(u).value.operation.Some? {
        UnitResponses(c, x, u);
      }
    }
  }

  lemma {:induction false} ManifestPasses(c: Conventions, x: Context, units: seq<Unit>)
    requires ManifestOf(c, x, units).Some?
    ensures Passes(c.digest, ManifestOf(c, x, units).value) <==> forall u :: u in units ==> !UnitClash(c, x, u)
  {
    var project := u => ProjectUnit(c, x, u);
    forall u | project(u).Some? ensures Coherent(project(u).value) {
      ProjectedCoherent(c, x, u);
    }
    RowsCoherent(units, project);
    AssembledPasses(c.digest, AllRows(units, project).value);
    UnitsDistinct(c, x, units, project);
  }

  /** Every successful projection passes the manifest validator's own checks, unless some operation in scope lists, under a
      success status, two media types that differ only in letter case and have the same schema identity; then it fails. */
  lemma {:induction false} ProjectionPassesUnlessClash(c: Conventions, resolve: Resolver, security: Json, paths: Json, contract: Json)
    requires Project(c, resolve, security, paths, contract).Some?
    ensures var x := Context(resolve, security, CapabilityIds(contract).value);
      Passes(c.digest, Project(c, resolve, security, paths, contract).value) <==>
        forall u :: u in Units(paths, resolve, c.methods).value ==> !UnitClash(c, x, u)
  {
    ManifestPasses(c, Context(resolve, security, CapabilityIds(contract).value), Units(paths, resolve, c.methods).value);
  }
}
