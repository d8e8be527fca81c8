/** A document that the projection accepts and the manifest validator then refuses. */
module ClashingDocument {
  import opened Sorting
  import opened Text
  import opened JsonValues
  import opened Distinctness
  import opened SurfaceRows
  import opened OperationUnits
  import opened OperationRows
  import opened OperationSurface
  import opened ManifestValidation
  import opened ResponseClashes
  import JsonPointer
  import MediaTypes

  /** `HTTP_METHODS`, with their upper case. */
  const METHODS := [("delete", "DELETE"), ("get", "GET"), ("head", "HEAD"), ("options", "OPTIONS"),
                    ("patch", "PATCH"), ("post", "POST"), ("put", "PUT"), ("trace", "TRACE")]

  const TWICE := [Field("A/b", Obj([])), Field("a/b", Obj([]))]
  const RESPONSE := [Field("content", Obj(TWICE))]
  const RESPONSES := [Field("200", Obj(RESPONSE))]
  const SCOPE := [Field("disposition", Str("included")), Field("reason", Str("r"))]
  const OPERATION := [
    Field("operationId", Str("o")), Field("x-oblivious-public-operation", Obj(SCOPE)), Field("tags", Arr([Str("t")])),
    Field("x-oblivious-capability-id", Str("c")), Field("responses", Obj(RESPONSES))]
  const ITEM := [Field("get", Obj(OPERATION))]
  const PATHS := [Field("/p", Obj(ITEM))]
  const SPEC := [Field("security", Arr([])), Field("paths", Obj(PATHS))]
  const CAPABILITY := [Field("id", Str("c"))]
  const CONTRACT := [Field("capabilities", Arr([Obj(CAPABILITY)]))]
  const UNIT := Unit("/p", "GET", Obj(OPERATION))
  const DOC := OpDoc(Str("o"), Obj(SCOPE), Arr([Str("t")]), Arr([]), Str("c"), Arr([]), Null, Obj(RESPONSES), Arr([]), Null, Null)

  /** What the conventions say of the few texts in the document. */
  ghost predicate Usual(c: Conventions) {
    && c.methods == METHODS && c.lower == MediaTypes.LowerText && c.success("200")
    && c.normalize("/p") == Some("/p") && c.sample("/p") == "/p"
  }

  // ---------------------------------------------------------------- reading the document

  lemma {:induction false} DocRead()
    ensures ReadOperation(Obj(OPERATION), Arr([])) == DOC
  {
    FindFirst(OPERATION, 0);
    FindFirst(OPERATION, 1);
    FindFirst(OPERATION, 2);
    FindFirst(OPERATION, 3);
    FindFirst(OPERATION, 4);
    FindAbsent(OPERATION, "parameters");
    FindAbsent(OPERATION, "security");
    FindAbsent(OPERATION, "requestBody");
    FindAbsent(OPERATION, "x-oblivious-terminal-success-statuses");
    FindAbsent(OPERATION, "x-websocket-client-message");
    FindAbsent(OPERATION, "x-websocket-server-message");
  }

  lemma {:induction false} GatherOnly<S, T>(xs: seq<S>, k: nat, f: S -> Option<seq<T>>, v: seq<T>)
    requires k < |xs| && f(xs[k]) == Some(v) && forall i :: 0 <= i < |xs| && i != k ==> f(xs[i]) == Some([])
    ensures Gather(xs, f) == Some(v)
    decreases |xs|
  {
    var n := |xs| - 1;
    if k == n {
      GatherNothing(xs[..n], f);
      assert [] + v == v;
    } else {
      GatherOnly(xs[..n], k, f, v);
      assert v + [] == v;
    }
  }

  lemma {:induction false} GatherNothing<S, T>(xs: seq<S>, f: S -> Option<seq<T>>)
    requires forall i :: 0 <= i < |xs| ==> f(xs[i]) == Some([])
    ensures Gather(xs, f) == Some([])
    decreases |xs|
  {
    if xs == [] {
    } else {
      GatherNothing(xs[..|xs| - 1], f);
      var nothing: seq<T> := [];
      assert nothing + [] == nothing;
    }
  }

  lemma {:induction false} ItemUnits(resolve: Resolver)
    ensures EntryUnits(resolve, METHODS, PATHS[0]) == Some([UNIT])
  {
    FindAbsent(ITEM, REF);
    var item := Item(Obj(ITEM), []);
    assert ReadItem(resolve, Obj(ITEM)) == Some(item);
    var f := m => MethodUnits("/p", item, m);
    forall i | 0 <= i < |METHODS| && i != 1 ensures f(METHODS[i]) == Some([]) {
      FindAbsent(ITEM, METHODS[i].0);
    }
    FindFirst(ITEM, 0);
    assert f(METHODS[1]) == Some([UNIT]);
    GatherOnly(METHODS, 1, f, [UNIT]);
  }

  lemma {:induction false} DocumentUnits(resolve: Resolver)
    ensures Units(Obj(PATHS), resolve, METHODS) == Some([UNIT])
  {
    ItemUnits(resolve);
    GatherOnly(PATHS, 0, entry => EntryUnits(resolve, METHODS, entry), [UNIT]);
  }

  lemma {:induction false} Capabilities()
    ensures CapabilityIds(Obj(CONTRACT)) == Some({"c"})
  {
    FindFirst(CONTRACT, 0);
    FindFirst(CAPABILITY, 0);
    var rows := [Obj(CAPABILITY)];
    assert (set i | 0 <= i < |rows| && Get(rows[i], "id").Str? :: Get(rows[i], "id").s) == {"c"} by {
      assert Get(rows[0], "id") == Str("c");
    }
  }

  // ---------------------------------------------------------------- the clash

  lemma {:induction false} TwiceClashes(c: Conventions, resolve: Resolver)
    requires c.lower == MediaTypes.LowerText
    ensures forall i :: 0 <= i < 2 ==> ProjectMedia(c, resolve, TWICE[i]) == Some(Media(Some("a/b"), NoSchema))
    ensures Clash(c, resolve, TWICE)
  {
    assert MediaTypes.LowerText("A/b") == "a/b" && MediaTypes.LowerText("a/b") == "a/b";
    assert !Blank("A/b") && !Blank("a/b") by {
      assert !IsSpace("A/b"[0]) && !IsSpace("a/b"[0]);
    }
    assert Clashing(c, resolve, TWICE[0], TWICE[1]);
  }

  lemma {:induction false} GatheredSorted<T(!new)>(fs: seq<Field>, f: Field -> Option<seq<T>>, g: Field -> T)
    requires forall x :: f(x).Some? ==> f(x).value == [g(x)]
    requires forall e :: e in fs ==> f(e).Some?
    ensures Gather(Sort(fs, FieldLe), f).Some?
    ensures Members(Gather(Sort(fs, FieldLe), f).value) == Members(Map(fs, g))
  {
    var sorted := Sort(fs, FieldLe);
    GatherSingles(sorted, f, g);
    forall i | 0 <= i < |sorted| ensures f(sorted[i]).Some? {
      assert sorted[i] in fs;
    }
    SortedSingles(fs, f, g);
  }

  lemma {:induction false} ResponseRead(resolve: Resolver)
    ensures Component(resolve, Obj(RESPONSE)) == Some(Obj(RESPONSE)) && ContentOf(Obj(RESPONSE)) == Obj(TWICE)
    ensures Get(Obj(RESPONSES), "200") == Obj(RESPONSE)
  {
    FindFirst(RESPONSE, 0);
    FindFirst(RESPONSES, 0);
    FindAbsent(RESPONSE, REF);
  }

  lemma {:induction false} BothMapped<T(!new)>(xs: seq<Field>, g: Field -> T, t: T)
    requires xs != [] && forall e :: e in xs ==> g(e) == t
    ensures Members(Map(xs, g)) == {t}
  {
    assert g(xs[0]) == Map(xs, g)[0];
  }

  lemma {:induction false} TwiceRows(c: Conventions, resolve: Resolver)
    requires c.lower == MediaTypes.LowerText
    ensures var r := StatusRows(c, resolve, "200", Obj(RESPONSE));
      r.Some? && Members(r.value) == {Response("200", Some("a/b"), NoSchema)}
  {
    TwiceClashes(c, resolve);
    ResponseRead(resolve);
    var f, g := (e: Field) => OneRow(c, resolve, "200", e), (e: Field) => RowOf(c, resolve, "200", e);
    var row := Response("200", Some("a/b"), NoSchema);
    forall e | e in TWICE ensures f(e).Some? && g(e) == row {
      assert e == TWICE[0] || e == TWICE[1];
    }
    GatheredSorted(TWICE, f, g);
    BothMapped(TWICE, g, row);
  }

  lemma {:induction false} OneSuccess(c: Conventions)
    requires c.success("200")
    ensures SuccessStatuses(c, Obj(RESPONSES), Arr([])) == Some({"200"})
  {
    assert Keys(RESPONSES) == {"200"};
    var regular := set k | k in Keys(RESPONSES) && c.success(k);
    assert regular == {"200"} && Terminal([]) == {} && regular + Terminal([]) == {"200"};
  }

  lemma {:induction false} OneListed(status: string)
    ensures Listing({status}, StatusLe) == [status]
  {
    var listing := Listing({status}, StatusLe);
    assert |listing| == 1 && listing[0] in listing;
  }

  lemma {:induction false} OneStatusProjects(c: Conventions, resolve: Resolver, responses: Json, terminal: Json, status: string)
    requires SuccessStatuses(c, responses, terminal) == Some({status})
    requires StatusRows(c, resolve, status, Get(responses, status)).Some?
    ensures var r := ProjectResponses(c, resolve, responses, terminal);
      r.Some? && Members(r.value) == Members(StatusRows(c, resolve, status, Get(responses, status)).value)
  {
    OneListed(status);
    var f := s => StatusRows(c, resolve, s, Get(responses, s));
    var rows := f(status).value;
    GatherOnly([status], 0, f, rows);
    DistinctPermutation(Sort(rows, ResponseLe), rows);
  }

  lemma {:induction false} ResponsesProject(c: Conventions, resolve: Resolver)
    requires c.lower == MediaTypes.LowerText && c.success("200")
    ensures var r := ProjectResponses(c, resolve, Obj(RESPONSES), Arr([]));
      r.Some? && Members(r.value) == {Response("200", Some("a/b"), NoSchema)}
  {
    OneSuccess(c);
    TwiceRows(c, resolve);
    ResponseRead(resolve);
    OneStatusProjects(c, resolve, Obj(RESPONSES), Arr([]), "200");
  }

  lemma {:induction false} ResponsesClash(c: Conventions, resolve: Resolver)
    requires c.lower == MediaTypes.LowerText && c.success("200")
    ensures StatusClash(c, resolve, Obj(RESPONSES), Arr([]))
  {
    OneSuccess(c);
    ResponseRead(resolve);
    TwiceClashes(c, resolve);
    assert ContentUnder(resolve, Obj(RESPONSES), "200") == TWICE;
  }

  // ---------------------------------------------------------------- the projection

  lemma {:induction false} ScopeRead(c: Conventions)
    ensures ProjectScope(ReadScope(Obj(SCOPE)), "GET", "/p", c.mandatory("/p")) == Some(Disposition("GET", "/p", "included", "r"))
  {
    FindFirst(SCOPE, 0);
    FindFirst(SCOPE, 1);
    assert Keys(SCOPE) == {"disposition", "reason"} by {
      assert SCOPE[0] in SCOPE && SCOPE[1] in SCOPE;
    }
    LabelOf("r");
  }

  lemma {:induction false} LabelOf(s: string)
    requires |s| == 1 && !IsSpace(s[0])
    ensures Label(Str(s)) == Some(s)
  {
    TrimOfTrimmed(s);
  }

  lemma {:induction false} NoStreams(responses: seq<Response>)
    requires forall r :: r in responses ==> r.mediaType == Some("a/b")
    ensures StreamSchemas(responses) == {}
  {
    assert |EVENT_STREAM| != |"a/b"|;
  }

  lemma {:induction false} NoEventsProject(c: Conventions, resolve: Resolver, responses: seq<Response>)
    requires Members(responses) == {Response("200", Some("a/b"), NoSchema)}
    ensures ProjectEvents(c, resolve, "o", Null, Null, responses) == NoEvents
  {
    forall r | r in responses ensures r.mediaType == Some("a/b") {
      assert r in Members(responses);
    }
    NoStreams(responses);
  }

  lemma {:induction false} IncludedProjects(c: Conventions, x: Context)
    requires Usual(c) && x.capabilities == {"c"}
    ensures ProjectIncluded(c, x, "o", "GET", "/p", DOC).Some?
  {
    ResponsesProject(c, x.resolve);
    NoEventsProject(c, x.resolve, ProjectResponses(c, x.resolve, Obj(RESPONSES), Arr([])).value);
  }

  lemma {:induction false} PartsProject(c: Conventions, x: Context, d: OpDoc, id: string, path: string, raw: string, verb: string)
    requires Label(d.id) == Some(id) && c.normalize(raw) == Some(path)
    requires var scope := ProjectScope(ReadScope(d.disposition), verb, path, c.mandatory(path));
      scope.Some? && scope.value.disposition == "included"
    requires ProjectSample(c, x.resolve, verb, path, d.tags, d.parameters).Some?
    requires ProjectIncluded(c, x, id, verb, path, d).Some?
    ensures ProjectDoc(c, x, raw, verb, d).Some? && ProjectDoc(c, x, raw, verb, d).value.operation.Some?
  {
  }

  lemma {:induction false} SampleProjects(c: Conventions, resolve: Resolver, tag: Json)
    requires c.sample("/p") == "/p"
    ensures ProjectSample(c, resolve, "GET", "/p", Arr([tag]), Arr([])).Some?
  {
  }

  lemma {:induction false} DocProjects(c: Conventions, x: Context, d: OpDoc)
    requires Usual(c) && x.capabilities == {"c"} && d == DOC
    ensures ProjectDoc(c, x, "/p", "GET", d).Some? && ProjectDoc(c, x, "/p", "GET", d).value.operation.Some?
  {
    LabelOf("o");
    ScopeRead(c);
    SampleProjects(c, x.resolve, Str("t"));
    IncludedProjects(c, x);
    PartsProject(c, x, d, "o", "/p", "/p", "GET");
  }

  lemma {:induction false} OneRowDistinct(row: Rows)
    requires row.operation.Some?
    ensures DistinctRows([row]) && Operations([row]) != []
  {
    KeptSnoc([], row, OperationOf);
    assert [] + [row] == [row];
  }

  lemma {:induction false} OneUnitRows(u: Unit, project: Unit -> Option<Rows>)
    requires project(u).Some?
    ensures AllRows([u], project) == Some([project(u).value])
  {
    GatherOnly([u], 0, v => if project(v).Some? then Some([project(v).value]) else None, [project(u).value]);
  }

  lemma {:induction false} OneRowManifest(c: Conventions, x: Context, u: Unit)
    requires ProjectUnit(c, x, u).Some? && ProjectUnit(c, x, u).value.operation.Some?
    ensures ManifestOf(c, x, [u]).Some?
  {
    OneRowDistinct(ProjectUnit(c, x, u).value);
    OneUnitRows(u, v => ProjectUnit(c, x, v));
  }

  /** The validator really refuses some successful projections: the projection of this document lists one response twice. */
  lemma {:induction false} ProjectsAndIsRefused(c: Conventions)
    requires Usual(c)
    ensures ProjectSpec(c, Obj(SPEC), Obj(CONTRACT)).Some?
    ensures !Passes(c.digest, ProjectSpec(c, Obj(SPEC), Obj(CONTRACT)).value)
  {
    var resolve := (ref: string) => JsonPointer.Resolve(Obj(SPEC), ref);
    FindFirst(SPEC, 0);
    FindFirst(SPEC, 1);
    DocumentUnits(resolve);
    Capabilities();
    DocRead();
    var x := Context(resolve, Arr([]), {"c"});
    DocProjects(c, x, DOC);
    OneRowManifest(c, x, UNIT);
    ResponsesClash(c, resolve);
    FindFirst(SCOPE, 0);
    assert UnitClash(c, x, UNIT);
    ProjectionPassesUnlessClash(c, resolve, Arr([]), Obj(PATHS), Obj(CONTRACT));
    assert UNIT in [UNIT];
  }
}
