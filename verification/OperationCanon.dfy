/** Projecting an operation does not look at key order: sorting the keys of its document gives the same rows. */
module OperationCanon {
  import opened Sorting
  import opened JsonValues
  import opened SurfaceRows
  import opened OperationUnits
  import opened OperationRows

  function CanonOpt(o: Option<Json>): Option<Json> { if o.Some? then Some(Canon(o.value)) else None }

  function CanonField(f: Field): Field { Field(f.key, Canon(f.value)) }

  ghost predicate WellOpt(o: Option<Json>) { o.Some? ==> WellFormed(o.value) }

  /** `rc` resolves references in the sorted document as `r` does in the document itself. */
  ghost predicate Commutes(r: Resolver, rc: Resolver) {
    forall ref {:trigger rc(ref)} {:trigger r(ref)} :: rc(ref) == CanonOpt(r(ref)) && WellOpt(r(ref))
  }

  /** A digest that key order does not change. */
  ghost predicate KeyBlind(digest: Json -> string) {
    forall v {:trigger digest(v)} :: WellFormed(v) ==> digest(Canon(v)) == digest(v)
  }

  // ---------------------------------------------------------------- lookups

  lemma {:induction false} CanonKinds(v: Json)
    ensures Canon(v).Null? == v.Null? && Canon(v).Str? == v.Str? && Canon(v).Obj? == v.Obj? && Canon(v).Arr? == v.Arr?
    ensures !v.Obj? && !v.Arr? ==> Canon(v) == v
    ensures v.Arr? ==> Canon(v).items == CanonItems(v.items)
    ensures v.Obj? ==> |Canon(v).fields| == |v.fields|
  {
  }

  lemma {:induction false} CanonGetOr(v: Json, key: string, default: Json)
    requires WellFormed(v) && WellFormed(default)
    ensures GetOr(Canon(v), key, Canon(default)) == Canon(GetOr(v, key, default))
    ensures WellFormed(GetOr(v, key, default)) && WellFormed(Get(v, key))
  {
    CanonGet(v, key);
    GetWellFormed(v, key);
  }

  lemma {:induction false} CanonFieldsKeys(fs: seq<Field>)
    ensures Keys(CanonFields(fs)) == Keys(fs)
  {
    var cs := CanonFields(fs);
    forall k ensures k in Keys(cs) <==> k in Keys(fs) {
      if k in Keys(cs) {
        var i :| 0 <= i < |cs| && cs[i].key == k;
        assert fs[i].key == k;
      }
      if k in Keys(fs) {
        var i :| 0 <= i < |fs| && fs[i].key == k;
        assert cs[i].key == k;
      }
    }
  }

  lemma {:induction false} CanonKeys(fs: seq<Field>)
    requires UniqueKeys(fs)
    ensures Keys(Canon(Obj(fs)).fields) == Keys(fs)
  {
    CanonFieldsKeys(fs);
    SortUnique(CanonFields(fs));
  }

  lemma {:induction false} EmptyDefaults()
    ensures Canon(Arr([])) == Arr([]) && Canon(Obj([])) == Obj([])
    ensures WellFormed(Arr([])) && WellFormed(Obj([]))
  {
    assert CanonItems([]) == [] && CanonFields([]) == [];
  }

  // ---------------------------------------------------------------- reading an operation

  function CanonDoc(d: OpDoc): OpDoc {
    OpDoc(Canon(d.id), Canon(d.disposition), Canon(d.tags), Canon(d.parameters), Canon(d.capability), Canon(d.security),
          Canon(d.request), Canon(d.responses), Canon(d.terminal), Canon(d.client), Canon(d.server))
  }

  ghost predicate WellDoc(d: OpDoc) {
    && WellFormed(d.id) && WellFormed(d.disposition) && WellFormed(d.tags) && WellFormed(d.parameters)
    && WellFormed(d.capability) && WellFormed(d.security) && WellFormed(d.request) && WellFormed(d.responses)
    && WellFormed(d.terminal) && WellFormed(d.client) && WellFormed(d.server)
  }

  lemma {:induction false} DocCanon(op: Json, security: Json)
    requires WellFormed(op) && WellFormed(security)
    ensures ReadOperation(Canon(op), Canon(security)) == CanonDoc(ReadOperation(op, security))
    ensures WellDoc(ReadOperation(op, security))
  {
    EmptyDefaults();
    CanonGet(op, "operationId");
    GetWellFormed(op, "operationId");
    CanonGet(op, "x-oblivious-public-operation");
    GetWellFormed(op, "x-oblivious-public-operation");
    CanonGetOr(op, "tags", Arr([]));
    CanonGetOr(op, "parameters", Arr([]));
    CanonGet(op, "x-oblivious-capability-id");
    GetWellFormed(op, "x-oblivious-capability-id");
    CanonGetOr(op, "security", security);
    CanonGet(op, "requestBody");
    GetWellFormed(op, "requestBody");
    CanonGet(op, "responses");
    GetWellFormed(op, "responses");
    CanonGetOr(op, "x-oblivious-terminal-success-statuses", Arr([]));
    CanonGet(op, "x-websocket-client-message");
    GetWellFormed(op, "x-websocket-client-message");
    CanonGet(op, "x-websocket-server-message");
    GetWellFormed(op, "x-websocket-server-message");
  }

  lemma {:induction false} LabelCanon(v: Json)
    ensures Label(Canon(v)) == Label(v)
  {
    CanonKinds(v);
  }

  lemma {:induction false} ScopeCanon(v: Json, verb: string, path: string, mandatory: bool)
    requires WellFormed(v)
    ensures ProjectScope(ReadScope(Canon(v)), verb, path, mandatory) == ProjectScope(ReadScope(v), verb, path, mandatory)
  {
    var s := ReadScope(v);
    CanonGet(v, "disposition");
    CanonGet(v, "reason");
    CanonKinds(v);
    CanonKinds(s.disposition);
    LabelCanon(s.reason);
    if v.Obj? {
      CanonKeys(v.fields);
    }
  }

  // ---------------------------------------------------------------- security

  lemma {:induction false} NamesCanon(items: seq<Json>)
    requires forall i :: 0 <= i < |items| ==> WellFormed(items[i])
    ensures SchemeNames(CanonItems(items)) == SchemeNames(items)
  {
    if items == [] {
    } else {
      var n := |items| - 1;
      assert CanonItems(items)[..n] == CanonItems(items[..n]);
      NamesCanon(items[..n]);
      CanonKinds(items[n]);
      if items[n].Obj? {
        CanonKeys(items[n].fields);
      }
    }
  }

  lemma {:induction false} SecurityCanon(v: Json)
    requires WellFormed(v)
    ensures SecurityKind(Canon(v)) == SecurityKind(v)
  {
    CanonKinds(v);
    if v.Arr? {
      NamesCanon(v.items);
    }
  }

  // ---------------------------------------------------------------- schemas

  lemma {:induction false} RefCanon(r: Resolver, rc: Resolver, ref: Json)
    requires Commutes(r, rc)
    ensures RefOk(rc, Canon(ref)) <==> RefOk(r, ref)
  {
    CanonKinds(ref);
  }

  lemma {:induction false} NestedCanon(r: Resolver, rc: Resolver, v: Json)
    requires Commutes(r, rc) && WellFormed(v)
    ensures NestedRefs(rc, Canon(v)) <==> NestedRefs(r, v)
    decreases v
  {
    match v
    case Arr(items) =>
      forall i | 0 <= i < |items| ensures NestedRefs(rc, Canon(items[i])) <==> NestedRefs(r, items[i]) {
        NestedCanon(r, rc, items[i]);
      }
    case Obj(fs) =>
      forall i | 0 <= i < |fs| ensures NestedRefs(rc, Canon(fs[i].value)) <==> NestedRefs(r, fs[i].value) {
        NestedCanon(r, rc, fs[i].value);
      }
      ObjectNested(r, rc, fs);
    case _ =>
  }

  ghost predicate AllValues(fs: seq<Field>, ok: Json -> bool) { forall i :: 0 <= i < |fs| ==> ok(fs[i].value) }

  lemma {:induction false} NestedMeans(resolve: Resolver, fs: seq<Field>, ok: Json -> bool)
    requires forall v {:trigger ok(v)} :: ok(v) == NestedRefs(resolve, v)
    ensures NestedRefs(resolve, Obj(fs)) <==> RefOk(resolve, GetField(fs, REF)) && AllValues(fs, ok)
  {
    assert forall i :: 0 <= i < |fs| ==> ok(fs[i].value) == NestedRefs(resolve, fs[i].value);
  }

  lemma {:induction false} ObjectNested(r: Resolver, rc: Resolver, fs: seq<Field>)
    requires Commutes(r, rc) && WellFormed(Obj(fs))
    requires forall i :: 0 <= i < |fs| ==> (NestedRefs(rc, Canon(fs[i].value)) <==> NestedRefs(r, fs[i].value))
    ensures NestedRefs(rc, Canon(Obj(fs))) <==> NestedRefs(r, Obj(fs))
  {
    CanonGet(Obj(fs), REF);
    RefCanon(r, rc, GetField(fs, REF));
    var ok, okc := (v: Json) => NestedRefs(r, v), (v: Json) => NestedRefs(rc, v);
    NestedMeans(r, fs, ok);
    NestedMeans(rc, Canon(Obj(fs)).fields, okc);
    if AllValues(fs, ok) {
      ValuesForward(fs, ok, okc);
    }
    if AllValues(Canon(Obj(fs)).fields, okc) {
      ValuesBack(fs, ok, okc);
    }
  }

  lemma {:induction false} ValuesForward(fs: seq<Field>, ok: Json -> bool, okc: Json -> bool)
    requires forall i :: 0 <= i < |fs| ==> (okc(Canon(fs[i].value)) <==> ok(fs[i].value))
    requires AllValues(fs, ok)
    ensures AllValues(Canon(Obj(fs)).fields, okc)
  {
    var cs := CanonFields(fs);
    var sorted := Sort(cs, FieldLe);
    forall i | 0 <= i < |sorted| ensures okc(sorted[i].value) {
      assert sorted[i] in cs;
      var k :| 0 <= k < |cs| && cs[k] == sorted[i];
      assert ok(fs[k].value);
    }
  }

  lemma {:induction false} ValuesBack(fs: seq<Field>, ok: Json -> bool, okc: Json -> bool)
    requires forall i :: 0 <= i < |fs| ==> (okc(Canon(fs[i].value)) <==> ok(fs[i].value))
    requires AllValues(Canon(Obj(fs)).fields, okc)
    ensures AllValues(fs, ok)
  {
    var cs := CanonFields(fs);
    var sorted := Sort(cs, FieldLe);
    forall k | 0 <= k < |fs| ensures ok(fs[k].value) {
      assert cs[k] in sorted;
      var i :| 0 <= i < |sorted| && sorted[i] == cs[k];
      assert okc(sorted[i].value);
    }
  }

  lemma {:induction false} SchemaCanon(r: Resolver, rc: Resolver, digest: Json -> string, schema: Json)
    requires Commutes(r, rc) && KeyBlind(digest) && WellFormed(schema)
    ensures SchemaIdentity(rc, digest, Canon(schema)) == SchemaIdentity(r, digest, schema)
  {
    CanonKinds(schema);
    if schema.Obj? {
      NestedCanon(r, rc, schema);
      CanonKeys(schema.fields);
      CanonGet(schema, REF);
      CanonKinds(GetField(schema.fields, REF));
      assert digest(Canon(schema)) == digest(schema);
    }
  }

  lemma {:induction false} ComponentCanon(r: Resolver, rc: Resolver, v: Json)
    requires Commutes(r, rc) && WellFormed(v)
    ensures Component(rc, Canon(v)) == CanonOpt(Component(r, v)) && WellOpt(Component(r, v))
  {
    CanonKinds(v);
    CanonGet(v, REF);
    var ref := Get(v, REF);
    CanonKinds(ref);
    if ref.Str? && r(ref.s).Some? {
      CanonKinds(r(ref.s).value);
    }
  }

  lemma {:induction false} ContentCanon(v: Json)
    requires WellFormed(v)
    ensures ContentOf(Canon(v)) == Canon(ContentOf(v)) && WellFormed(ContentOf(v))
  {
    EmptyDefaults();
    CanonGetOr(v, "content", Obj([]));
  }

  lemma {:induction false} MediaCanon(c: Conventions, r: Resolver, rc: Resolver, e: Field)
    requires Commutes(r, rc) && KeyBlind(c.digest) && WellFormed(e.value)
    ensures ProjectMedia(c, rc, CanonField(e)) == ProjectMedia(c, r, e)
  {
    CanonKinds(e.value);
    CanonGet(e.value, "schema");
    GetWellFormed(e.value, "schema");
    SchemaCanon(r, rc, c.digest, Get(e.value, "schema"));
  }

  lemma {:induction false} SingleCanon(f: Field)
    ensures Canon(Obj([f])) == Obj([CanonField(f)])
  {
    assert CanonFields([f]) == [CanonField(f)];
    assert CanonFields([f])[1..] == [];
  }

  lemma {:induction false} RequestCanon(c: Conventions, r: Resolver, rc: Resolver, body: Json)
    requires Commutes(r, rc) && KeyBlind(c.digest) && WellFormed(body)
    ensures ProjectRequest(c, rc, Canon(body)) == ProjectRequest(c, r, body)
  {
    CanonKinds(body);
    ComponentCanon(r, rc, body);
    var component := Component(r, body);
    if component.Some? {
      var content := ContentOf(component.value);
      ContentCanon(component.value);
      CanonKinds(content);
      if content.Obj? && |content.fields| == 1 {
        assert content.fields == [content.fields[0]];
        SingleCanon(content.fields[0]);
        MediaCanon(c, r, rc, content.fields[0]);
      }
    }
  }

  // ---------------------------------------------------------------- responses

  lemma {:induction false} CanonFieldsMap(fs: seq<Field>)
    ensures CanonFields(fs) == Map(fs, CanonField)
  {
  }

  /** Sorting the fields before or after sorting inside their values. */
  lemma {:induction false} SortCanonFields(fs: seq<Field>)
    requires UniqueKeys(fs)
    ensures Sort(Canon(Obj(fs)).fields, FieldLe) == Map(Sort(fs, FieldLe), CanonField)
    ensures Canon(Obj(fs)).fields == Map(Sort(fs, FieldLe), CanonField)
  {
    CanonFieldsMap(fs);
    SortMapped(fs, CanonField, FieldLe, FieldLe);
    var cs := Sort(CanonFields(fs), FieldLe);
    FieldPreorder();
    SortOrdered(CanonFields(fs), FieldLe);
    SortUnique(CanonFields(fs));
    FieldsNoTies(cs);
    SortFixed(cs, FieldLe);
  }

  lemma {:induction false} GatherMapped<S, U, T>(xs: seq<S>, h: S -> U, f: U -> Option<seq<T>>, g: S -> Option<seq<T>>)
    requires forall x :: x in xs ==> f(h(x)) == g(x)
    ensures Gather(Map(xs, h), f) == Gather(xs, g)
  {
    if xs == [] {
    } else {
      var n := |xs| - 1;
      assert Map(xs, h)[..n] == Map(xs[..n], h);
      GatherMapped(xs[..n], h, f, g);
      assert xs[n] in xs;
    }
  }

  lemma {:induction false} RowCanon(c: Conventions, r: Resolver, rc: Resolver, status: string, e: Field)
    requires Commutes(r, rc) && KeyBlind(c.digest) && WellFormed(e.value)
    ensures OneRow(c, rc, status, CanonField(e)) == OneRow(c, r, status, e)
  {
    MediaCanon(c, r, rc, e);
  }

  lemma {:induction false} ContentRowsCanon(c: Conventions, r: Resolver, rc: Resolver, status: string, fs: seq<Field>)
    requires Commutes(r, rc) && KeyBlind(c.digest) && WellFormed(Obj(fs))
    ensures Gather(Sort(Canon(Obj(fs)).fields, FieldLe), entry => OneRow(c, rc, status, entry))
         == Gather(Sort(fs, FieldLe), entry => OneRow(c, r, status, entry))
  {
    SortCanonFields(fs);
    var sorted := Sort(fs, FieldLe);
    var f, g := (e: Field) => OneRow(c, rc, status, e), (e: Field) => OneRow(c, r, status, e);
    forall e | e in sorted ensures f(CanonField(e)) == g(e) {
      assert e in fs;
      var i :| 0 <= i < |fs| && fs[i] == e;
      RowCanon(c, r, rc, status, e);
    }
    GatherMapped(sorted, CanonField, f, g);
  }

  lemma {:induction false} StatusCanon(c: Conventions, r: Resolver, rc: Resolver, status: string, response: Json)
    requires Commutes(r, rc) && KeyBlind(c.digest) && WellFormed(response)
    ensures StatusRows(c, rc, status, Canon(response)) == StatusRows(c, r, status, response)
  {
    ComponentCanon(r, rc, response);
    var component := Component(r, response);
    if component.Some? {
      var content := ContentOf(component.value);
      ContentCanon(component.value);
      CanonKinds(content);
      if content.Obj? {
        ContentRowsCanon(c, r, rc, status, content.fields);
      }
    }
  }

  lemma {:induction false} TextCanon(v: Json)
    ensures StatusText(Canon(v)) == StatusText(v)
  {
    CanonKinds(v);
  }

  lemma {:induction false} TerminalCanon(items: seq<Json>, statuses: set<string>)
    ensures Terminal(CanonItems(items)) == Terminal(items)
    ensures forall i :: 0 <= i < |items| ==> (TerminalOk(CanonItems(items)[i], statuses) <==> TerminalOk(items[i], statuses))
  {
    forall i | 0 <= i < |items| ensures StatusText(CanonItems(items)[i]) == StatusText(items[i]) {
      TextCanon(items[i]);
    }
  }

  lemma {:induction false} StatusesCanon(c: Conventions, responses: Json, terminal: Json)
    requires WellFormed(responses)
    ensures SuccessStatuses(c, Canon(responses), Canon(terminal)) == SuccessStatuses(c, responses, terminal)
  {
    CanonKinds(responses);
    CanonKinds(terminal);
    if responses.Obj? && terminal.Arr? {
      CanonKeys(responses.fields);
      TerminalCanon(terminal.items, Keys(responses.fields));
    }
  }

  lemma {:induction false} ListedStatusCanon(c: Conventions, r: Resolver, rc: Resolver, status: string, responses: Json)
    requires Commutes(r, rc) && KeyBlind(c.digest) && WellFormed(responses)
    ensures StatusRows(c, rc, status, Get(Canon(responses), status)) == StatusRows(c, r, status, Get(responses, status))
  {
    CanonGet(responses, status);
    GetWellFormed(responses, status);
    StatusCanon(c, r, rc, status, Get(responses, status));
  }

  lemma {:induction false} ListingCanon(c: Conventions, r: Resolver, rc: Resolver, listing: seq<string>, responses: Json)
    requires Commutes(r, rc) && KeyBlind(c.digest) && WellFormed(responses)
    ensures Gather(listing, s => StatusRows(c, rc, s, Get(Canon(responses), s)))
            == Gather(listing, s => StatusRows(c, r, s, Get(responses, s)))
  {
    var f := s => StatusRows(c, rc, s, Get(Canon(responses), s));
    var g := s => StatusRows(c, r, s, Get(responses, s));
    forall s: string ensures f(s) == g(s) {
      ListedStatusCanon(c, r, rc, s, responses);
    }
    GatherAlike(listing, f, g);
  }

  lemma {:induction false} ResponsesCanon(c: Conventions, r: Resolver, rc: Resolver, responses: Json, terminal: Json)
    requires Commutes(r, rc) && KeyBlind(c.digest) && WellFormed(responses)
    ensures ProjectResponses(c, rc, Canon(responses), Canon(terminal)) == ProjectResponses(c, r, responses, terminal)
  {
    StatusesCanon(c, responses, terminal);
    var statuses := SuccessStatuses(c, responses, terminal);
    if statuses.Some? {
      ListingCanon(c, r, rc, Listing(statuses.value, StatusLe), responses);
    }
  }

  lemma {:induction false} GatherAlike<S, T>(xs: seq<S>, f: S -> Option<seq<T>>, g: S -> Option<seq<T>>)
    requires forall x :: x in xs ==> f(x) == g(x)
    ensures Gather(xs, f) == Gather(xs, g)
  {
    if xs == [] {
    } else {
      GatherAlike(xs[..|xs| - 1], f, g);
      assert xs[|xs| - 1] in xs;
    }
  }

  lemma {:induction false} EventsCanon(c: Conventions, r: Resolver, rc: Resolver, id: string, client: Json, server: Json, responses: seq<Response>)
    requires Commutes(r, rc) && KeyBlind(c.digest) && WellFormed(client) && WellFormed(server)
    ensures ProjectEvents(c, rc, id, Canon(client), Canon(server), responses) == ProjectEvents(c, r, id, client, server, responses)
  {
    CanonKinds(client);
    CanonKinds(server);
    SchemaCanon(r, rc, c.digest, client);
    SchemaCanon(r, rc, c.digest, server);
    var streams := StreamSchemas(responses);
    if |streams| == 1 && client.Null? && server.Null? {
      var x, y := ProjectEvents(c, rc, id, Canon(client), Canon(server), responses), ProjectEvents(c, r, id, client, server, responses);
      OnlyMember(streams, x.row.events[0].schema, y.row.events[0].schema);
    }
  }

  // ---------------------------------------------------------------- samples

  lemma {:induction false} DefaultCanon(name: string, schema: Json)
    requires WellFormed(schema)
    ensures DefaultValue(name, Canon(schema)) == DefaultValue(name, schema)
  {
    CanonKinds(schema);
    CanonGet(schema, "format");
    CanonGet(schema, "type");
    CanonKinds(Get(schema, "format"));
    CanonKinds(Get(schema, "type"));
  }

  lemma {:induction false} ParameterCanon(p: Json)
    requires WellFormed(p)
    ensures var a, b := ReadParameter(Canon(p)), ReadParameter(p);
      && (Sampled(a) <==> Sampled(b)) && (Sampled(b) ==> a.name == b.name) && a.schema == Canon(b.schema) && WellFormed(b.schema)
  {
    EmptyDefaults();
    CanonGet(p, "name");
    CanonGet(p, "in");
    CanonGet(p, "required");
    CanonGetOr(p, "schema", Obj([]));
    CanonKinds(Get(p, "name"));
    CanonKinds(Get(p, "in"));
    CanonKinds(Get(p, "required"));
  }

  lemma {:induction false} AddCanon(r: Resolver, rc: Resolver, query: map<string, string>, raw: Json)
    requires Commutes(r, rc) && WellFormed(raw)
    ensures AddParameter(rc, query, Canon(raw)) == AddParameter(r, query, raw)
  {
    ComponentCanon(r, rc, raw);
    var component := Component(r, raw);
    if component.Some? {
      ParameterCanon(component.value);
      var p := ReadParameter(component.value);
      if Sampled(p) {
        DefaultCanon(p.name.s, p.schema);
      }
    }
  }

  lemma {:induction false} CanonPrefix(items: seq<Json>, n: nat)
    requires n <= |items|
    ensures CanonItems(items)[..n] == CanonItems(items[..n])
  {
  }

  lemma {:induction false} QueryCanon(r: Resolver, rc: Resolver, parameters: seq<Json>)
    requires Commutes(r, rc) && forall i :: 0 <= i < |parameters| ==> WellFormed(parameters[i])
    ensures QueryOf(rc, CanonItems(parameters)) == QueryOf(r, parameters)
  {
    if parameters == [] {
    } else {
      var n := |parameters| - 1;
      CanonPrefix(parameters, n);
      QueryCanon(r, rc, parameters[..n]);
      if QueryOf(r, parameters[..n]).Some? {
        LastCanon(r, rc, QueryOf(r, parameters[..n]).value, parameters, n);
      }
    }
  }

  lemma {:induction false} LastCanon(r: Resolver, rc: Resolver, query: map<string, string>, parameters: seq<Json>, n: nat)
    requires Commutes(r, rc) && n < |parameters| && WellFormed(parameters[n])
    ensures AddParameter(rc, query, CanonItems(parameters)[n]) == AddParameter(r, query, parameters[n])
  {
    AddCanon(r, rc, query, parameters[n]);
  }

  function CanonSample(s: Sample): Sample { s.(tags := CanonItems(s.tags)) }

  function CanonSampleOpt(o: Option<Sample>): Option<Sample> { if o.Some? then Some(CanonSample(o.value)) else None }

  lemma {:induction false} SampleCanon(c: Conventions, r: Resolver, rc: Resolver, verb: string, path: string, tags: Json, parameters: Json)
    requires Commutes(r, rc) && WellFormed(parameters)
    ensures var a, b := ProjectSample(c, rc, verb, path, Canon(tags), Canon(parameters)), ProjectSample(c, r, verb, path, tags, parameters);
      a == CanonSampleOpt(b)
  {
    CanonKinds(tags);
    CanonKinds(parameters);
    if parameters.Arr? {
      QueryCanon(r, rc, parameters.items);
    }
  }

  // ---------------------------------------------------------------- one operation

  function CanonRows(r: Rows): Rows { r.(sample := CanonSample(r.sample)) }

  function CanonRowsOpt(o: Option<Rows>): Option<Rows> { if o.Some? then Some(CanonRows(o.value)) else None }

  lemma {:induction false} IncludedCanon(c: Conventions, x: Context, xc: Context, id: string, verb: string, path: string, d: OpDoc)
    requires Commutes(x.resolve, xc.resolve) && KeyBlind(c.digest) && WellDoc(d) && xc.capabilities == x.capabilities
    ensures ProjectIncluded(c, xc, id, verb, path, CanonDoc(d)) == ProjectIncluded(c, x, id, verb, path, d)
  {
    CanonKinds(d.capability);
    SecurityCanon(d.security);
    ResponsesCanon(c, x.resolve, xc.resolve, d.responses, d.terminal);
    RequestCanon(c, x.resolve, xc.resolve, d.request);
    EventsCanon(c, x.resolve, xc.resolve, id, d.client, d.server, RowsOrNone(ProjectResponses(c, x.resolve, d.responses, d.terminal)));
  }

  lemma {:induction false} CombineCanon(
      id: string, scope: Option<Disposition>, sample: Option<Sample>, included: Option<(Operation, Option<BrowserEvent>)>)
    ensures Combine(id, scope, CanonSampleOpt(sample), included) == CanonRowsOpt(Combine(id, scope, sample, included))
  {
  }

  lemma {:induction false} DocRowsCanon(c: Conventions, x: Context, xc: Context, rawPath: string, verb: string, d: OpDoc)
    requires Commutes(x.resolve, xc.resolve) && KeyBlind(c.digest) && WellDoc(d) && xc.capabilities == x.capabilities
    ensures ProjectDoc(c, xc, rawPath, verb, CanonDoc(d)) == CanonRowsOpt(ProjectDoc(c, x, rawPath, verb, d))
  {
    LabelCanon(d.id);
    var id, path := Label(d.id), c.normalize(rawPath);
    if id.Some? && path.Some? {
      var scope := ProjectScope(ReadScope(d.disposition), verb, path.value, c.mandatory(path.value));
      var sample := ProjectSample(c, x.resolve, verb, path.value, d.tags, d.parameters);
      var included := ProjectIncluded(c, x, id.value, verb, path.value, d);
      ScopeCanon(d.disposition, verb, path.value, c.mandatory(path.value));
      SampleCanon(c, x.resolve, xc.resolve, verb, path.value, d.tags, d.parameters);
      IncludedCanon(c, x, xc, id.value, verb, path.value, d);
      CombineCanon(id.value, scope, sample, included);
    }
  }

  function CanonUnit(u: Unit): Unit { u.(operation := Canon(u.operation)) }

  /** An operation's rows, up to the key order of its tags, are those of the operation with sorted keys. */
  lemma {:induction false} UnitCanon(c: Conventions, x: Context, xc: Context, u: Unit)
    requires Commutes(x.resolve, xc.resolve) && KeyBlind(c.digest) && WellFormed(u.operation) && WellFormed(x.security)
    requires xc.capabilities == x.capabilities && xc.security == Canon(x.security)
    ensures ProjectUnit(c, xc, CanonUnit(u)) == CanonRowsOpt(ProjectUnit(c, x, u))
  {
    DocCanon(u.operation, x.security);
    DocRowsCanon(c, x, xc, u.path, u.verb, ReadOperation(u.operation, x.security));
  }
}
