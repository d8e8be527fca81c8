/** What the envelope gate decides, told from the positions of the document alone. */
module EnvelopePositions {
  import opened JsonValues
  import opened JsonPositions
  import opened EnvelopeSearch
  import opened EnvelopeReachability
  import opened EnvelopeGate

  // ---------------------------------------------------------------- references

  /** A dict is a reference exactly when its "$ref" holds something that Python does not take for false. */
  lemma {:induction false} ReferenceExactly(j: Json)
    ensures IsRef(j) <==>
      (At(j, [Key("$ref")]).Some? && At(j, [Key("$ref")]).value !in {Null, Bool(false), Num(0), Str(""), Arr([]), Obj([])})
  {
    assert [Key("$ref")][1..] == [];
  }

  /** Every step of the document graph leads to a value whose references the document or the start holds. */
  lemma {:induction false} EdgeRefs(spec: Json, a: Json, b: Json)
    requires Edge(spec, a, b, false)
    ensures Refs(b) <= Refs(spec) + Refs(a)
  {
    if IsRef(a) {
      RefsOfTarget(spec, Get(a, "$ref").s);
    } else if a.Arr? {
      var i :| 0 <= i < |a.items| && a.items[i] == b;
      RefsOfItem(a.items, i);
    } else {
      var i :| 0 <= i < |a.fields| && a.fields[i].value == b;
      RefsOfField(a.fields, i);
    }
  }

  lemma {:induction false} PathRefs(spec: Json, p: seq<Json>)
    requires IsPath(spec, p, false)
    ensures Refs(p[|p| - 1]) <= Refs(spec) + Refs(p[0])
    decreases |p|
  {
    if |p| > 1 {
      var q := p[1..];
      forall i | 0 <= i < |q| - 1 ensures Edge(spec, q[i], q[i + 1], false) {
        assert q[i] == p[i + 1] && q[i + 1] == p[i + 2];
      }
      assert Edge(spec, p[0], p[1], false);
      EdgeRefs(spec, p[0], p[1]);
      PathRefs(spec, q);
    }
  }

  /** A document and a schema in which the Envelope is nowhere referred to by its one name are never taken to lead to it. */
  lemma {:induction false} NoYesWithoutEnvelope(spec: Json, schema: Json)
    requires "#/components/schemas/Envelope" !in Refs(spec) + Refs(schema)
    ensures Search(spec, schema, {}).0 != Yes
  {
    SearchDecidesReachability(spec, schema);
    if Reachable(spec, schema, Envelope) {
      var p: seq<Json> :| Witness(spec, p, Envelope, false, {}) && p[0] == schema;
      PathRefs(spec, p);
      RefsOfFound(p[|p| - 1].fields, "$ref");
    }
  }

  // ---------------------------------------------------------------- responses

  /** A response that is no reference is judged by what stands at content and "application/json": without a dict there it
      passes, and otherwise it is judged by whether the schema there leads to the Envelope. */
  lemma {:induction false} DirectResponse(spec: Json, response: Json, seen: set<string>)
    requires response.Obj? && !IsRef(response)
    ensures var media := At(response, [Key("content"), Key("application/json")]);
      if media.None? || !media.value.Obj? then SearchResponse(spec, response, seen) == Yes
      else
        var verdict, schema := SearchResponse(spec, response, seen), Get(media.value, "schema");
        && (verdict == Yes ==> Reachable(spec, schema, Envelope))
        && (verdict == No ==> !Reachable(spec, schema, Envelope))
        && (verdict == Crash ==> Reachable(spec, schema, Broken))
  {
    MediaPosition(response);
    SearchDecidesReachability(spec, Get(JsonContent(response), "schema"));
  }

  // ---------------------------------------------------------------- the gate

  /** The gate looks at this operation: an API path under one of five methods, neither relayed nor proxied nor one of the
      two raw ones. */
  predicate LookedAt(path: string, verb: string) {
    && "/api/" <= path && !("/api/v1/relay/" <= path) && !("/api/v1/gateway/proxy/" <= path)
    && verb in {"get", "post", "put", "patch", "delete"}
    && !(verb == "get" && (path == "/api/v1/admin/readiness" || path == "/api/v1/app/readiness/capabilities"))
  }

  function ResponseAt(spec: Json, path: string, verb: string, status: string): Option<Json> {
    At(spec, [Key("paths"), Key(path), Key(verb), Key("responses"), Key(status)])
  }

  lemma {:induction false} FieldAt(j: Json, key: string, v: Json)
    requires WellFormed(j) && j.Obj?
    ensures Field(key, v) in j.fields <==> Has(j, key) && Get(j, key) == v
  {
    FindMember(j.fields, key);
  }

  lemma {:induction false} EntryAt(j: Json, table: string, key: string, v: Json)
    requires WellFormed(j) && ItemsOf(j, table).Some?
    ensures Field(key, v) in ItemsOf(j, table).value <==> Has(j, table) && Has(Get(j, table), key) && Get(Get(j, table), key) == v
  {
    GetWellFormed(j, table);
    if Has(j, table) {
      FieldAt(Get(j, table), key, v);
    }
  }

  lemma {:induction false} StepInto(j: Json, key: string, path: Path)
    ensures At(j, [Key(key)] + path) == if Has(j, key) then At(Get(j, key), path) else None
  {
    assert ([Key(key)] + path)[1..] == path;
  }

  lemma {:induction false} FiveSteps(j: Json, a: string, b: string, c: string, d: string, e: string)
    ensures At(j, [Key(a), Key(b), Key(c), Key(d), Key(e)]) ==
      if Has(j, a) && Has(Get(j, a), b) && Has(Get(Get(j, a), b), c) && Has(Get(Get(Get(j, a), b), c), d)
         && Has(Get(Get(Get(Get(j, a), b), c), d), e)
      then Some(Get(Get(Get(Get(Get(j, a), b), c), d), e)) else None
  {
    StepInto(j, a, [Key(b), Key(c), Key(d), Key(e)]);
    StepInto(Get(j, a), b, [Key(c), Key(d), Key(e)]);
    StepInto(Get(Get(j, a), b), c, [Key(d), Key(e)]);
    StepInto(Get(Get(Get(j, a), b), c), d, [Key(e)]);
    StepInto(Get(Get(Get(Get(j, a), b), c), d), e, []);
    assert [Key(a)] + [Key(b), Key(c), Key(d), Key(e)] == [Key(a), Key(b), Key(c), Key(d), Key(e)];
    assert [Key(b)] + [Key(c), Key(d), Key(e)] == [Key(b), Key(c), Key(d), Key(e)];
    assert [Key(c)] + [Key(d), Key(e)] == [Key(c), Key(d), Key(e)];
    assert [Key(d)] + [Key(e)] == [Key(d), Key(e)];
    assert [Key(e)] + [] == [Key(e)];
  }

  lemma {:induction false} ScopeExactly(path: string, verb: string, op: Json)
    ensures LookedAt(path, verb) <==> "/api/" <= path && verb in METHODS && InScope(EnvelopeGate.Operation(path, verb, op))
  {
  }

  lemma {:induction false} ListedExactly(spec: Json, path: string, verb: string, op: Json)
    requires WellFormed(spec) && ItemsOf(spec, "paths").Some?
    ensures Listed(ItemsOf(spec, "paths").value, EnvelopeGate.Operation(path, verb, op)) <==>
      (var paths := Get(spec, "paths");
       && Has(spec, "paths") && Has(paths, path) && Has(Get(paths, path), verb) && Get(Get(paths, path), verb) == op && op.Obj?
       && "/api/" <= path && verb in METHODS)
  {
    var paths, fs := Get(spec, "paths"), ItemsOf(spec, "paths").value;
    GetWellFormed(spec, "paths");
    GetWellFormed(paths, path);
    var item := Get(paths, path);
    EntryAt(spec, "paths", path, item);
    if item.Obj? {
      FieldAt(item, verb, op);
    }
    if Listed(fs, EnvelopeGate.Operation(path, verb, op)) {
      var i, e :| i in fs && i.value.Obj? && e in i.value.fields && "/api/" <= i.key && e.key in METHODS && e.value.Obj?
        && EnvelopeGate.Operation(path, verb, op) == EnvelopeGate.Operation(i.key, e.key, e.value);
      assert i == Field(path, i.value) && e == Field(verb, op);
      EntryAt(spec, "paths", path, i.value);
    }
    if Field(path, item) in fs && item.Obj? && Field(verb, op) in item.fields {
      assert Field(path, item).value.Obj? && Field(verb, op).key == verb;
    }
  }

  /** In a document without repeated keys, what the gate takes a finding to be about is what stands at its position. */
  lemma {:induction false} DocumentsExactly(spec: Json, f: Finding, response: Json)
    requires WellFormed(spec) && ItemsOf(spec, "paths").Some?
    ensures Documents(spec, f, response) <==> LookedAt(f.path, f.verb) && ResponseAt(spec, f.path, f.verb, f.status) == Some(response)
  {
    FiveSteps(spec, "paths", f.path, f.verb, "responses", f.status);
    if Documents(spec, f, response) {
      var o :| InScope(o) && Listed(ItemsOf(spec, "paths").value, o) && Gives(o, f, response);
      DocumentedAt(spec, f, response, o.op);
    }
    var op := Get(Get(Get(spec, "paths"), f.path), f.verb);
    if LookedAt(f.path, f.verb) && ResponseAt(spec, f.path, f.verb, f.status) == Some(response) {
      DocumentedAt(spec, f, response, op);
    }
  }

  lemma {:induction false} DocumentedAt(spec: Json, f: Finding, response: Json, op: Json)
    requires WellFormed(spec) && ItemsOf(spec, "paths").Some?
    ensures var o := EnvelopeGate.Operation(f.path, f.verb, op);
      (InScope(o) && Listed(ItemsOf(spec, "paths").value, o) && Gives(o, f, response)) <==>
      (LookedAt(f.path, f.verb) && ResponseAt(spec, f.path, f.verb, f.status) == Some(response)
       && op == Get(Get(Get(spec, "paths"), f.path), f.verb))
  {
    FiveSteps(spec, "paths", f.path, f.verb, "responses", f.status);
    ScopeExactly(f.path, f.verb, op);
    ListedExactly(spec, f.path, f.verb, op);
    GetWellFormed(spec, "paths");
    GetWellFormed(Get(spec, "paths"), f.path);
    GetWellFormed(Get(Get(spec, "paths"), f.path), f.verb);
    if op == Get(Get(Get(spec, "paths"), f.path), f.verb) && ItemsOf(op, "responses").Some? {
      EntryAt(op, "responses", f.status, response);
    }
  }

  /** Where the gate does not raise, it reports a status of an operation exactly when it looks at the operation and the
      response that stands there breaks the rule. */
  lemma {:induction false} GateAtPositions(spec: Json, f: Finding)
    requires WellFormed(spec) && Gate(spec).Missing?
    ensures f in Gate(spec).findings <==>
      LookedAt(f.path, f.verb) && ResponseAt(spec, f.path, f.verb, f.status).Some?
      && !Conforms(spec, ResponseAt(spec, f.path, f.verb, f.status).value)
  {
    GateMeaning(spec);
    var found := ResponseAt(spec, f.path, f.verb, f.status);
    forall response ensures Documents(spec, f, response) <==> LookedAt(f.path, f.verb) && found == Some(response) {
      DocumentsExactly(spec, f, response);
    }
  }

  /** Checking what stands under a path and a method raises. */
  ghost predicate RaisesAt(spec: Json, path: string, verb: string) {
    var op := At(spec, [Key("paths"), Key(path), Key(verb)]);
    && LookedAt(path, verb) && op.Some? && op.value.Obj? && Has(op.value, "responses")
    && (Get(op.value, "responses").Obj? ==>
          exists status :: Has(Get(op.value, "responses"), status)
            && SearchResponse(spec, Get(Get(op.value, "responses"), status), {}) == Crash)
  }

  lemma {:induction false} ThreeSteps(j: Json, a: string, b: string, c: string)
    ensures At(j, [Key(a), Key(b), Key(c)]) ==
      if Has(j, a) && Has(Get(j, a), b) && Has(Get(Get(j, a), b), c) then Some(Get(Get(Get(j, a), b), c)) else None
  {
    StepInto(j, a, [Key(b), Key(c)]);
    StepInto(Get(j, a), b, [Key(c)]);
    StepInto(Get(Get(j, a), b), c, []);
    assert [Key(a)] + [Key(b), Key(c)] == [Key(a), Key(b), Key(c)];
    assert [Key(b)] + [Key(c)] == [Key(b), Key(c)];
    assert [Key(c)] + [] == [Key(c)];
  }

  lemma {:induction false} BreaksExactly(spec: Json, path: string, verb: string, op: Json)
    requires WellFormed(op)
    ensures var o := EnvelopeGate.Operation(path, verb, op);
      Breaks(spec, o) <==> Has(op, "responses") && (Get(op, "responses").Obj? ==>
        exists status :: Has(Get(op, "responses"), status)
          && SearchResponse(spec, Get(Get(op, "responses"), status), {}) == Crash)
  {
    var o := EnvelopeGate.Operation(path, verb, op);
    if ItemsOf(op, "responses").Some? {
      var rs := ItemsOf(op, "responses").value;
      if Breaks(spec, o) {
        var r :| r in rs && SearchResponse(spec, r.value, {}) == Crash;
        assert r == Field(r.key, r.value);
        EntryAt(op, "responses", r.key, r.value);
      }
      forall status | Has(Get(op, "responses"), status)
        ensures Field(status, Get(Get(op, "responses"), status)) in rs
      {
        EntryAt(op, "responses", status, Get(Get(op, "responses"), status));
      }
    }
  }

  lemma {:induction false} BreaksAt(spec: Json, path: string, verb: string, op: Json)
    requires WellFormed(spec) && ItemsOf(spec, "paths").Some?
    ensures var o := EnvelopeGate.Operation(path, verb, op);
      (Listed(ItemsOf(spec, "paths").value, o) && InScope(o) && Breaks(spec, o)) <==>
      (RaisesAt(spec, path, verb) && At(spec, [Key("paths"), Key(path), Key(verb)]) == Some(op))
  {
    ThreeSteps(spec, "paths", path, verb);
    ScopeExactly(path, verb, op);
    ListedExactly(spec, path, verb, op);
    GetWellFormed(spec, "paths");
    GetWellFormed(Get(spec, "paths"), path);
    GetWellFormed(Get(Get(spec, "paths"), path), verb);
    if op == Get(Get(Get(spec, "paths"), path), verb) {
      BreaksExactly(spec, path, verb, op);
    }
  }

  /** The gate raises exactly when the document's paths are no dict, or when what stands under some path and method that it
      looks at has responses that are no dict, or one whose check raises. */
  lemma {:induction false} GateRaisesAtPositions(spec: Json)
    requires WellFormed(spec)
    ensures Gate(spec).Raised? <==>
      ((Has(spec, "paths") && !Get(spec, "paths").Obj?) || exists path, verb :: RaisesAt(spec, path, verb))
  {
    GateRaises(spec);
    if ItemsOf(spec, "paths").Some? {
      if Gate(spec).Raised? {
        var o :| Listed(ItemsOf(spec, "paths").value, o) && InScope(o) && Breaks(spec, o);
        BreaksAt(spec, o.path, o.verb, o.op);
      }
      if path, verb :| RaisesAt(spec, path, verb) {
        BreaksAt(spec, path, verb, At(spec, [Key("paths"), Key(path), Key(verb)]).value);
      }
    } else {
      assert Has(spec, "paths") && !Get(spec, "paths").Obj?;
    }
  }

  /** In particular, an operation that the gate looks at, with a response of its own whose JSON schema does not lead to the
      Envelope, is among the findings. */
  lemma {:induction false} UnreachableIsReported(spec: Json, f: Finding, response: Json)
    requires WellFormed(spec) && Gate(spec).Missing?
    requires LookedAt(f.path, f.verb) && ResponseAt(spec, f.path, f.verb, f.status) == Some(response)
    requires response.Obj? && !IsRef(response)
    ensures var media := At(response, [Key("content"), Key("application/json")]);
      f in Gate(spec).findings <==> media.Some? && media.value.Obj? && !Reachable(spec, Get(media.value, "schema"), Envelope)
  {
    GateAtPositions(spec, f);
    var media := MediaAt(response);
    if EndsIn(spec, response, response, {}) && Conforms(spec, response) {
      var t :| EndsIn(spec, response, t, {}) && t.Obj? &&
        (MediaAt(t).Some? && MediaAt(t).value.Obj? ==> Reachable(spec, Get(MediaAt(t).value, "schema"), Envelope));
      EndsInItself(spec, response, t);
    }
    ReachedAtOnce(spec, response, End(response), true, {});
    assert EndsIn(spec, response, response, {});
  }

  lemma {:induction false} EndsInItself(spec: Json, response: Json, t: Json)
    requires !IsRef(response) && EndsIn(spec, response, t, {})
    ensures t == response
  {
    if response != t {
      var next := FirstStep(spec, response, End(t), true, {});
    }
  }
}
