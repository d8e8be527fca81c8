/** The gate over a whole API document: every in-scope JSON response must lead to the Envelope. */
module EnvelopeGate {
  import opened JsonValues
  import opened EnvelopeSearch
  import opened EnvelopeReachability

  const METHODS := {"get", "post", "put", "patch", "delete"}

  const RAW_CONTROL_PLANE := {
    ("get", "/api/v1/admin/readiness"),
    ("get", "/api/v1/app/readiness/capabilities")
  }

  datatype Operation = Operation(path: string, verb: string, op: Json)

  datatype Finding = Finding(path: string, verb: string, status: string)

  /** Missing lists what the gate prints before it exits; an empty list passes. */
  datatype Report = Raised | Missing(findings: seq<Finding>)

  predicate InScope(o: Operation) {
    && !("/api/v1/relay/" <= o.path)
    && !("/api/v1/gateway/proxy/" <= o.path)
    && (o.verb, o.path) !in RAW_CONTROL_PLANE
  }

  /** `d.get(key, {})` followed by `.items()`: a missing key is an empty dict, any other non-dict raises. */
  function ItemsOf(j: Json, key: string): Option<seq<Field>> {
    if !Has(j, key) then Some([])
    else if Get(j, key).Obj? then Some(Get(j, key).fields)
    else None
  }

  /** `o` is one of the operations that `api_operations` yields for these path items. */
  ghost predicate Listed(paths: seq<Field>, o: Operation) {
    exists item, entry :: item in paths && item.value.Obj? && entry in item.value.fields
      && "/api/" <= item.key && entry.key in METHODS && entry.value.Obj?
      && o == Operation(item.key, entry.key, entry.value)
  }

  /** The operations of one path item. */
  function ItemOperations(path: string, entries: seq<Field>): seq<Operation> {
    if entries == [] then []
    else
      var n := |entries| - 1;
      ItemOperations(path, entries[..n])
      + if entries[n].key in METHODS && entries[n].value.Obj? then [Operation(path, entries[n].key, entries[n].value)] else []
  }

  function OperationsOf(paths: seq<Field>): seq<Operation> {
    if paths == [] then []
    else
      var n := |paths| - 1;
      OperationsOf(paths[..n])
      + if "/api/" <= paths[n].key && paths[n].value.Obj? then ItemOperations(paths[n].key, paths[n].value.fields) else []
  }

  /** `api_operations`. */
  method ApiOperations(paths: seq<Field>) returns (ops: seq<Operation>)
    ensures ops == OperationsOf(paths)
    ensures forall o :: o in ops <==> Listed(paths, o)
  {
    ops := [];
    for i := 0 to |paths|
      invariant ops == OperationsOf(paths[..i])
    {
      var item := paths[i];
      assert paths[..i + 1][..i] == paths[..i];
      if "/api/" <= item.key && item.value.Obj? {
        var entries, found := item.value.fields, [];
        for k := 0 to |entries|
          invariant found == ItemOperations(item.key, entries[..k])
        {
          assert entries[..k + 1][..k] == entries[..k];
          if entries[k].key in METHODS && entries[k].value.Obj? {
            found := found + [Operation(item.key, entries[k].key, entries[k].value)];
          }
        }
        assert entries[..|entries|] == entries;
        ops := ops + found;
      }
    }
    assert paths[..|paths|] == paths;
    forall o ensures o in ops <==> Listed(paths, o) {
      OperationListed(paths, o);
    }
  }

  lemma {:induction false} ItemOperationListed(path: string, entries: seq<Field>, o: Operation)
    ensures o in ItemOperations(path, entries) <==>
      exists e :: e in entries && e.key in METHODS && e.value.Obj? && o == Operation(path, e.key, e.value)
  {
    if entries == [] {
    } else {
      var n := |entries| - 1;
      ItemOperationListed(path, entries[..n], o);
      assert entries == entries[..n] + [entries[n]];
    }
  }

  lemma {:induction false} OperationListed(paths: seq<Field>, o: Operation)
    ensures o in OperationsOf(paths) <==> Listed(paths, o)
  {
    if paths == [] {
    } else {
      var n := |paths| - 1;
      var item := paths[n];
      OperationListed(paths[..n], o);
      assert paths == paths[..n] + [item];
      if "/api/" <= item.key && item.value.Obj? {
        ItemOperationListed(item.key, item.value.fields, o);
      }
      assert Listed(paths, o) <==> Listed(paths[..n], o) || Listed([item], o);
    }
  }

  /** The operation documents `response` under the path, verb and status of `f`. */
  ghost predicate Gives(o: Operation, f: Finding, response: Json) {
    && o.path == f.path && o.verb == f.verb
    && ItemsOf(o.op, "responses").Some? && Field(f.status, response) in ItemsOf(o.op, "responses").value
  }

  /** `response` is what the document gives for status `f.status` of the in-scope operation named by `f`. */
  ghost predicate Documents(spec: Json, f: Finding, response: Json) {
    exists o :: InScope(o) && ItemsOf(spec, "paths").Some? && Listed(ItemsOf(spec, "paths").value, o) && Gives(o, f, response)
  }

  /** The part of `Documents` that the first operations of a list account for. */
  ghost predicate DocumentsIn(ops: seq<Operation>, f: Finding, response: Json) {
    exists o :: o in ops && InScope(o) && Gives(o, f, response)
  }

  ghost predicate Failing(spec: Json, ops: seq<Operation>, f: Finding) {
    exists response :: DocumentsIn(ops, f, response) && SearchResponse(spec, response, {}) == No
  }

  /** What the gate finds among the responses of one operation; None where it raises. */
  ghost function Checked(spec: Json, o: Operation, responses: seq<Field>): Option<seq<Finding>> {
    if responses == [] then Some([])
    else
      var n := |responses| - 1;
      var before, verdict := Checked(spec, o, responses[..n]), SearchResponse(spec, responses[n].value, {});
      if before.None? || verdict == Crash then None
      else Some(before.value + if verdict == No then [Finding(o.path, o.verb, responses[n].key)] else [])
  }

  /** What the gate finds among the operations, in order; None where it raises. */
  ghost function Found(spec: Json, ops: seq<Operation>): Option<seq<Finding>> {
    if ops == [] then Some([])
    else
      var n := |ops| - 1;
      var before := Found(spec, ops[..n]);
      if before.None? || !InScope(ops[n]) then before
      else if ItemsOf(ops[n].op, "responses").None? then None
      else
        var part := Checked(spec, ops[n], ItemsOf(ops[n].op, "responses").value);
        if part.None? then None else Some(before.value + part.value)
  }

  lemma {:induction false} CheckedStops(spec: Json, o: Operation, responses: seq<Field>, i: nat)
    requires i <= |responses| && Checked(spec, o, responses[..i]).None?
    ensures Checked(spec, o, responses).None?
    decreases |responses| - i
  {
    if i == |responses| {
      assert responses[..i] == responses;
    } else {
      assert responses[..i + 1][..i] == responses[..i];
      CheckedStops(spec, o, responses, i + 1);
    }
  }

  lemma {:induction false} FoundStops(spec: Json, ops: seq<Operation>, i: nat)
    requires i <= |ops| && Found(spec, ops[..i]).None?
    ensures Found(spec, ops).None?
    decreases |ops| - i
  {
    if i == |ops| {
      assert ops[..i] == ops;
    } else {
      assert ops[..i + 1][..i] == ops[..i];
      FoundStops(spec, ops, i + 1);
    }
  }

  method CheckResponses(spec: Json, o: Operation, responses: seq<Field>) returns (findings: Option<seq<Finding>>)
    ensures findings == Checked(spec, o, responses)
  {
    var found := [];
    for i := 0 to |responses|
      invariant Checked(spec, o, responses[..i]) == Some(found)
    {
      assert responses[..i + 1][..i] == responses[..i];
      var seen := new SeenRefs({});
      var verdict := ResponseRefsEnvelope(spec, responses[i].value, seen);
      if verdict == Crash {
        CheckedStops(spec, o, responses, i + 1);
        return None;
      }
      if verdict == No {
        found := found + [Finding(o.path, o.verb, responses[i].key)];
      }
      assert found + [] == found;
    }
    assert responses[..|responses|] == responses;
    return Some(found);
  }

  /** The document has no path table, some in-scope operation has no response table,
      or some response the gate checks follows a reference that cannot be followed. */
  ghost predicate Malformed(spec: Json) {
    || ItemsOf(spec, "paths").None?
    || (exists o :: InScope(o) && Listed(ItemsOf(spec, "paths").value, o) && ItemsOf(o.op, "responses").None?)
    || (exists f, response :: Documents(spec, f, response) && Unsound(spec, response))
  }

  /** What `require_api_json_responses_use_envelope` reports. */
  ghost function Gate(spec: Json): Report {
    var paths := ItemsOf(spec, "paths");
    if paths.None? then Raised
    else
      var found := Found(spec, OperationsOf(paths.value));
      if found.None? then Raised else Missing(found.value)
  }

  method RequireEnvelope(spec: Json) returns (report: Report)
    ensures report == Gate(spec)
  {
    var paths := ItemsOf(spec, "paths");
    if paths.None? {
      return Raised;
    }
    var ops := ApiOperations(paths.value);
    var findings := [];
    for i := 0 to |ops|
      invariant Found(spec, ops[..i]) == Some(findings)
    {
      assert ops[..i + 1][..i] == ops[..i];
      if InScope(ops[i]) {
        var responses := ItemsOf(ops[i].op, "responses");
        if responses.None? {
          FoundStops(spec, ops, i + 1);
          return Raised;
        }
        var part := CheckResponses(spec, ops[i], responses.value);
        if part.None? {
          FoundStops(spec, ops, i + 1);
          return Raised;
        }
        findings := findings + part.value;
      }
    }
    assert ops[..|ops|] == ops;
    return Missing(findings);
  }

  // ---------------------------------------------------------------- what the gate decides

  /** Checking this operation raises: it has no response table, or some response follows a reference that cannot be
      followed before it is decided. */
  ghost predicate Breaks(spec: Json, o: Operation) {
    || ItemsOf(o.op, "responses").None?
    || exists r :: r in ItemsOf(o.op, "responses").value && SearchResponse(spec, r.value, {}) == Crash
  }

  lemma {:induction false} CheckedMeaning(spec: Json, o: Operation, responses: seq<Field>)
    ensures Checked(spec, o, responses).None? <==> exists r :: r in responses && SearchResponse(spec, r.value, {}) == Crash
    ensures Checked(spec, o, responses).Some? ==> forall f :: f in Checked(spec, o, responses).value <==>
      exists r :: r in responses && f == Finding(o.path, o.verb, r.key) && SearchResponse(spec, r.value, {}) == No
  {
    if responses == [] {
    } else {
      var n := |responses| - 1;
      var before, last := responses[..n], responses[n];
      CheckedMeaning(spec, o, before);
      assert responses == before + [last];
      assert forall r :: r in responses <==> r in before || r == last;
    }
  }

  lemma {:induction false} FoundMeaning(spec: Json, ops: seq<Operation>)
    ensures Found(spec, ops).None? <==> exists o :: o in ops && InScope(o) && Breaks(spec, o)
    ensures Found(spec, ops).Some? ==> forall f :: f in Found(spec, ops).value <==> Failing(spec, ops, f)
    ensures Found(spec, ops).Some? ==> forall f, r :: DocumentsIn(ops, f, r) ==> SearchResponse(spec, r, {}) != Crash
  {
    if ops == [] {
    } else {
      var n := |ops| - 1;
      var init, last := ops[..n], ops[n];
      FoundMeaning(spec, init);
      assert ops == init + [last];
      assert forall o :: o in ops <==> o in init || o == last;
      if !InScope(last) {
        OutOfScope(init, last);
      } else if ItemsOf(last.op, "responses").Some? {
        CheckedMeaning(spec, last, ItemsOf(last.op, "responses").value);
        if Found(spec, ops).Some? {
          OneMore(spec, init, last, Found(spec, init).value, Checked(spec, last, ItemsOf(last.op, "responses").value).value);
        }
      }
    }
  }

  /** The gate raises exactly on a document without a path table or with an operation in scope that breaks the check. */
  lemma {:induction false} GateRaises(spec: Json)
    ensures Gate(spec).Raised? <==>
      (ItemsOf(spec, "paths").None? || exists o :: Listed(ItemsOf(spec, "paths").value, o) && InScope(o) && Breaks(spec, o))
    ensures Gate(spec).Raised? ==> Malformed(spec)
  {
    if ItemsOf(spec, "paths").Some? {
      var paths := ItemsOf(spec, "paths").value;
      var ops := OperationsOf(paths);
      FoundMeaning(spec, ops);
      forall o ensures o in ops <==> Listed(paths, o) {
        OperationListed(paths, o);
      }
      if Found(spec, ops).None? {
        var o :| o in ops && InScope(o) && Breaks(spec, o);
        BreaksMeansMalformed(spec, o);
      }
    }
  }

  /** Where it does not raise, the gate reports exactly the responses that break the rule, and passes exactly when there
      is none. */
  lemma {:induction false} GateMeaning(spec: Json)
    requires Gate(spec).Missing?
    ensures forall f :: f in Gate(spec).findings <==> exists response :: Documents(spec, f, response) && !Conforms(spec, response)
    ensures Gate(spec).findings == [] <==> forall f, response :: Documents(spec, f, response) ==> Conforms(spec, response)
  {
    var paths := ItemsOf(spec, "paths").value;
    var ops := OperationsOf(paths);
    FoundMeaning(spec, ops);
    forall o ensures o in ops <==> Listed(paths, o) {
      OperationListed(paths, o);
    }
    WholeDocument(spec, ops, Found(spec, ops).value);
    GateDecidesRule(spec, Found(spec, ops).value);
  }

  lemma {:induction false} BreaksMeansMalformed(spec: Json, o: Operation)
    requires ItemsOf(spec, "paths").Some? && Listed(ItemsOf(spec, "paths").value, o) && InScope(o) && Breaks(spec, o)
    ensures Malformed(spec)
  {
    if ItemsOf(o.op, "responses").Some? {
      var r :| r in ItemsOf(o.op, "responses").value && SearchResponse(spec, r.value, {}) == Crash;
      assert r == Field(r.key, r.value);
      assert Documents(spec, Finding(o.path, o.verb, r.key), r.value);
      ResponseDecidesRule(spec, r.value);
    }
  }

  lemma {:induction false} OutOfScope(ops: seq<Operation>, o: Operation)
    requires !InScope(o)
    ensures forall f, r :: DocumentsIn(ops + [o], f, r) <==> DocumentsIn(ops, f, r)
    ensures forall spec, f :: Failing(spec, ops + [o], f) <==> Failing(spec, ops, f)
  {
    forall f, r ensures DocumentsIn(ops + [o], f, r) <==> DocumentsIn(ops, f, r) {
      assert forall p :: p in ops + [o] && InScope(p) <==> p in ops && InScope(p);
    }
  }

  lemma {:induction false} WholeDocument(spec: Json, ops: seq<Operation>, findings: seq<Finding>)
    requires ItemsOf(spec, "paths").Some?
    requires forall o :: o in ops <==> Listed(ItemsOf(spec, "paths").value, o)
    requires forall f :: f in findings <==> Failing(spec, ops, f)
    requires forall f, r :: DocumentsIn(ops, f, r) ==> SearchResponse(spec, r, {}) != Crash
    ensures forall f :: f in findings <==>
      exists response :: Documents(spec, f, response) && SearchResponse(spec, response, {}) == No
    ensures forall f, response :: Documents(spec, f, response) ==> SearchResponse(spec, response, {}) != Crash
  {
    forall f, r ensures DocumentsIn(ops, f, r) <==> Documents(spec, f, r) {
      if Documents(spec, f, r) {
        var o :| InScope(o) && Listed(ItemsOf(spec, "paths").value, o) && Gives(o, f, r);
        assert o in ops;
      }
    }
  }

  lemma {:induction false} OneMore(spec: Json, ops: seq<Operation>, o: Operation, before: seq<Finding>, part: seq<Finding>)
    requires InScope(o) && ItemsOf(o.op, "responses").Some?
    requires forall f :: f in before <==> Failing(spec, ops, f)
    requires forall f :: f in part <==>
      exists r :: r in ItemsOf(o.op, "responses").value && f == Finding(o.path, o.verb, r.key)
        && SearchResponse(spec, r.value, {}) == No
    requires forall f, r :: DocumentsIn(ops, f, r) ==> SearchResponse(spec, r, {}) != Crash
    requires forall r :: r in ItemsOf(o.op, "responses").value ==> SearchResponse(spec, r.value, {}) != Crash
    ensures forall f :: f in before + part <==> Failing(spec, ops + [o], f)
    ensures forall f, r :: DocumentsIn(ops + [o], f, r) ==> SearchResponse(spec, r, {}) != Crash
  {
    forall f, r | DocumentsIn(ops + [o], f, r) ensures SearchResponse(spec, r, {}) != Crash {
      DocumentedByLast(ops, o, f, r);
    }
    forall f ensures f in before + part <==> Failing(spec, ops + [o], f) {
      OneMoreFinding(spec, ops, o, f);
      assert f in part <==> exists response :: Gives(o, f, response) && SearchResponse(spec, response, {}) == No by {
        if response :| Gives(o, f, response) && SearchResponse(spec, response, {}) == No {
          assert Field(f.status, response) in ItemsOf(o.op, "responses").value;
        }
        if f in part {
          var r :| r in ItemsOf(o.op, "responses").value && f == Finding(o.path, o.verb, r.key)
            && SearchResponse(spec, r.value, {}) == No;
          assert r == Field(f.status, r.value);
          assert Gives(o, f, r.value);
        }
      }
    }
  }

  lemma {:induction false} DocumentedByLast(ops: seq<Operation>, o: Operation, f: Finding, response: Json)
    requires InScope(o)
    ensures DocumentsIn(ops + [o], f, response) <==> (DocumentsIn(ops, f, response) || Gives(o, f, response))
  {
    assert o in ops + [o];
    assert forall p :: p in ops + [o] <==> p in ops || p == o;
  }

  lemma {:induction false} OneMoreFinding(spec: Json, ops: seq<Operation>, o: Operation, f: Finding)
    requires InScope(o)
    ensures Failing(spec, ops + [o], f) <==> (Failing(spec, ops, f)
      || exists response :: Gives(o, f, response) && SearchResponse(spec, response, {}) == No)
  {
    forall response
      ensures DocumentsIn(ops + [o], f, response) <==> (DocumentsIn(ops, f, response) || Gives(o, f, response))
    {
      DocumentedByLast(ops, o, f, response);
    }
  }

  /** When every reference can be followed, the gate passes exactly when every response obeys the rule. */
  lemma {:induction false} GateDecidesRule(spec: Json, findings: seq<Finding>)
    requires forall f :: f in findings <==>
      exists response :: Documents(spec, f, response) && SearchResponse(spec, response, {}) == No
    requires forall f, response :: Documents(spec, f, response) ==> SearchResponse(spec, response, {}) != Crash
    ensures findings == [] <==> forall f, response :: Documents(spec, f, response) ==> Conforms(spec, response)
    ensures forall f :: f in findings <==> exists response :: Documents(spec, f, response) && !Conforms(spec, response)
  {
    forall f, response | Documents(spec, f, response)
      ensures SearchResponse(spec, response, {}) == No <==> !Conforms(spec, response)
    {
      ResponseDecidesRule(spec, response);
    }
    if findings == [] {
      forall f, response | Documents(spec, f, response) ensures Conforms(spec, response) {
        assert f !in findings;
      }
    } else {
      assert findings[0] in findings;
      var response :| Documents(spec, findings[0], response) && SearchResponse(spec, response, {}) == No;
    }
  }
}
