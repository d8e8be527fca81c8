/** What all the rows of an operation say, told from its JSON alone. */
module OperationMeaning {
  import opened Text
  import opened JsonValues
  import opened SurfaceRows
  import opened OperationUnits
  import opened OperationRows
  import opened RequestMeaning
  import opened ResponseMeaning

  // ---------------------------------------------------------------- browser events

  predicate Streaming(r: Response) { r.mediaType == Some("text/event-stream") }

  /** Two websocket messages, or the one schema of the event streams, or neither. */
  ghost predicate EventFor(
      resolve: Resolver, digest: Json -> string, id: string, client: Json, server: Json, rs: seq<Response>, ev: Option<BrowserEvent>)
  {
    && (client.Null? <==> server.Null?)
    && if !client.Null? then
         && (forall r :: r in rs ==> !Streaming(r))
         && ev.Some? && ev.value.id == id && ev.value.transport == "websocket" && |ev.value.events| == 2
         && IsMessage(resolve, digest, ev.value.events[0], "client", client)
         && IsMessage(resolve, digest, ev.value.events[1], "server", server)
       else if forall r :: r in rs ==> !Streaming(r) then ev.None?
       else
         && ev.Some? && ev.value.id == id && ev.value.transport == "sse" && |ev.value.events| == 1
         && ev.value.events[0].direction == "server" && ev.value.events[0].kind == "event"
         && forall r :: r in rs && Streaming(r) ==> r.schema == ev.value.events[0].schema
  }

  ghost predicate IsMessage(resolve: Resolver, digest: Json -> string, e: Event, direction: string, schema: Json) {
    e.direction == direction && e.kind == "message" && Identifies(resolve, digest, schema, e.schema)
  }

  lemma {:induction false} NoStreams(rs: seq<Response>)
    ensures StreamSchemas(rs) == {} <==> forall r :: r in rs ==> !Streaming(r)
  {
    forall r | r in rs && Streaming(r) ensures r.schema in StreamSchemas(rs) {
    }
    assert StreamSchemas(rs) != {} ==> exists x :: x in StreamSchemas(rs);
  }

  lemma {:induction false} OneStream(rs: seq<Response>, x: SchemaId)
    ensures StreamSchemas(rs) == {x} <==>
      (exists r :: r in rs && Streaming(r)) && forall r :: r in rs && Streaming(r) ==> r.schema == x
    ensures StreamSchemas(rs) == {x} ==> |StreamSchemas(rs)| == 1
  {
    var all := StreamSchemas(rs);
    forall r | r in rs && Streaming(r) ensures r.schema in all {
    }
    if all == {x} {
      assert x in all;
    }
    if (exists r :: r in rs && Streaming(r)) && forall r :: r in rs && Streaming(r) ==> r.schema == x {
      assert x in all && forall y :: y in all ==> y == x;
    }
  }

  /** Which event there is depends on the rows only as a set. */
  lemma {:induction false} EventOfMembers(
      resolve: Resolver, digest: Json -> string, id: string, client: Json, server: Json,
      rs: seq<Response>, qs: seq<Response>, ev: Option<BrowserEvent>)
    requires forall r :: r in rs <==> r in qs
    requires EventFor(resolve, digest, id, client, server, rs, ev)
    ensures EventFor(resolve, digest, id, client, server, qs, ev)
  {
  }

  function EventGiven(events: Events): Option<Option<BrowserEvent>> {
    match events case Refused => None case NoEvents => Some(None) case Events(row) => Some(Some(row))
  }

  lemma {:induction false} EventsExactly(
      c: Conventions, resolve: Resolver, id: string, client: Json, server: Json, rs: seq<Response>, ev: Option<BrowserEvent>)
    requires WellFormed(client) && WellFormed(server)
    ensures EventGiven(ProjectEvents(c, resolve, id, client, server, rs)) == Some(ev) <==>
      EventFor(resolve, c.digest, id, client, server, rs, ev)
  {
    if client.Null? && server.Null? {
      StreamsMatch(c, resolve, id, client, server, rs, ev);
    } else if !client.Null? && !server.Null? {
      MessagesMatch(c, resolve, id, client, server, rs, ev);
    }
  }

  lemma {:induction false} MessagesMatch(
      c: Conventions, resolve: Resolver, id: string, client: Json, server: Json, rs: seq<Response>, ev: Option<BrowserEvent>)
    requires WellFormed(client) && WellFormed(server) && !client.Null? && !server.Null?
    ensures EventGiven(ProjectEvents(c, resolve, id, client, server, rs)) == Some(ev) <==>
      EventFor(resolve, c.digest, id, client, server, rs, ev)
  {
    NoStreams(rs);
    var first, second := SchemaIdentity(resolve, c.digest, client), SchemaIdentity(resolve, c.digest, server);
    forall x ensures first == Some(x) <==> Identifies(resolve, c.digest, client, x) {
      IdentityExactly(resolve, c.digest, client, x);
    }
    forall x ensures second == Some(x) <==> Identifies(resolve, c.digest, server, x) {
      IdentityExactly(resolve, c.digest, server, x);
    }
    if EventFor(resolve, c.digest, id, client, server, rs, ev) {
      assert first == Some(ev.value.events[0].schema) && second == Some(ev.value.events[1].schema);
      assert ev.value.events == [Event("client", "message", first.value), Event("server", "message", second.value)];
    }
  }

  lemma {:induction false} StreamsMatch(
      c: Conventions, resolve: Resolver, id: string, client: Json, server: Json, rs: seq<Response>, ev: Option<BrowserEvent>)
    requires client.Null? && server.Null?
    ensures EventGiven(ProjectEvents(c, resolve, id, client, server, rs)) == Some(ev) <==>
      EventFor(resolve, c.digest, id, client, server, rs, ev)
  {
    NoStreams(rs);
    var streams := StreamSchemas(rs);
    if streams != {} {
      if EventFor(resolve, c.digest, id, client, server, rs, ev) {
        OneStream(rs, ev.value.events[0].schema);
        assert ev.value.events == [Event("server", "event", ev.value.events[0].schema)];
        var x := EventGiven(ProjectEvents(c, resolve, id, client, server, rs)).value.value.events[0].schema;
        OnlyMember(streams, x, ev.value.events[0].schema);
      }
      if EventGiven(ProjectEvents(c, resolve, id, client, server, rs)) == Some(ev) {
        var x := ev.value.events[0].schema;
        assert streams == {x} by {
          forall y | y in streams ensures y == x {
            OnlyMember(streams, x, y);
          }
        }
        OneStream(rs, x);
      }
    }
  }

  // ---------------------------------------------------------------- samples

  /** The parameter leads to a query parameter of the name that a sample must give. */
  predicate Asks(resolve: Resolver, raw: Json, name: string, t: Json) {
    && LeadsTo(resolve, raw, t) && Get(t, "in") == Str("query") && Get(t, "name") == Str(name)
    && (Get(t, "required") == Bool(true) || name == "from" || name == "to")
  }

  /** The value a sample gives for a parameter. */
  predicate SampleValue(t: Json, name: string, value: string) {
    var schema := GetOr(t, "schema", Obj([]));
    var format, kind := Get(schema, "format"), Get(schema, "type");
    if !schema.Obj? then value == "value_1"
    else if format == Str("date-time") || format == Str("date") then
      value == if format == Str("date") then "1970-01-01" else "1970-01-01T00:00:00Z"
    else
      && !kind.Arr? && !kind.Obj?
      && (kind == Str("integer") || kind == Str("number") ==> value == "1") && (kind == Str("boolean") ==> value == "true")
      && (kind != Str("integer") && kind != Str("number") && kind != Str("boolean") ==> value == name + "_1")
  }

  ghost predicate Samplable(resolve: Resolver, raw: Json) {
    exists t :: LeadsTo(resolve, raw, t) && forall name :: Asks(resolve, raw, name, t) ==> exists value :: SampleValue(t, name, value)
  }

  lemma {:induction false} ValueExactly(t: Json, name: string, value: string)
    ensures DefaultValue(name, GetOr(t, "schema", Obj([]))) == Some(value) <==> SampleValue(t, name, value)
  {
  }

  /** What the parameter asks for is given its value; nothing else changes. */
  ghost predicate Adds(resolve: Resolver, before: map<string, string>, raw: Json, after: map<string, string>) {
    exists t :: LeadsTo(resolve, raw, t) && forall name :: AddsName(resolve, before, raw, after, t, name)
  }

  ghost predicate AddsName(
      resolve: Resolver, before: map<string, string>, raw: Json, after: map<string, string>, t: Json, name: string)
  {
    if Asks(resolve, raw, name, t) then name in after && SampleValue(t, name, after[name])
    else (name in after <==> name in before) && (name in after ==> after[name] == before[name])
  }

  lemma {:induction false} AddExactly(resolve: Resolver, query: map<string, string>, raw: Json)
    ensures AddParameter(resolve, query, raw).Some? <==> Samplable(resolve, raw)
    ensures AddParameter(resolve, query, raw).Some? ==> Adds(resolve, query, raw, AddParameter(resolve, query, raw).value)
  {
    var found := Component(resolve, raw);
    if found.Some? {
      var t := found.value;
      ComponentExactly(resolve, raw, t);
      assert forall u :: LeadsTo(resolve, raw, u) ==> u == t;
      var p := ReadParameter(t);
      if Sampled(p) {
        assert Asks(resolve, raw, p.name.s, t);
        forall value ensures DefaultValue(p.name.s, p.schema) == Some(value) <==> SampleValue(t, p.name.s, value) {
          ValueExactly(t, p.name.s, value);
        }
        forall name | Asks(resolve, raw, name, t) ensures name == p.name.s {
        }
      }
      if AddParameter(resolve, query, raw).Some? {
        forall name ensures AddsName(resolve, query, raw, AddParameter(resolve, query, raw).value, t, name) {
        }
      }
    } else if t :| LeadsTo(resolve, raw, t) {
      ComponentExactly(resolve, raw, t);
      assert false;
    }
  }

  /** The sample query gives every parameter asked for the value of the last one of its name. */
  ghost predicate QueryFor(resolve: Resolver, parameters: seq<Json>, query: map<string, string>) {
    && (forall name :: name in query <==> exists i, t :: 0 <= i < |parameters| && Asks(resolve, parameters[i], name, t))
    && (forall name :: name in query ==> exists i, t :: LastAsk(resolve, parameters, i, name, t) && SampleValue(t, name, query[name]))
  }

  ghost predicate LastAsk(resolve: Resolver, parameters: seq<Json>, i: int, name: string, t: Json) {
    && 0 <= i < |parameters| && Asks(resolve, parameters[i], name, t)
    && forall j, u :: i < j < |parameters| ==> !Asks(resolve, parameters[j], name, u)
  }

  lemma {:induction false} AskedAmong(resolve: Resolver, init: seq<Json>, raw: Json, name: string)
    ensures (exists i, u :: 0 <= i < |init + [raw]| && Asks(resolve, (init + [raw])[i], name, u)) <==>
      ((exists i, u :: 0 <= i < |init| && Asks(resolve, init[i], name, u)) || exists u :: Asks(resolve, raw, name, u))
  {
    var all := init + [raw];
    if i, u :| 0 <= i < |all| && Asks(resolve, all[i], name, u) {
      assert if i < |init| then all[i] == init[i] else all[i] == raw;
    }
    if i, u :| 0 <= i < |init| && Asks(resolve, init[i], name, u) {
      assert all[i] == init[i];
    }
    if u :| Asks(resolve, raw, name, u) {
      assert all[|init|] == raw;
    }
  }

  lemma {:induction false} LastAmong(resolve: Resolver, init: seq<Json>, raw: Json, i: int, name: string, t: Json)
    ensures LastAsk(resolve, init, i, name, t) && (forall u :: !Asks(resolve, raw, name, u)) ==>
      LastAsk(resolve, init + [raw], i, name, t)
    ensures Asks(resolve, raw, name, t) ==> LastAsk(resolve, init + [raw], |init|, name, t)
  {
    var all := init + [raw];
    assert all[|init|] == raw;
    if LastAsk(resolve, init, i, name, t) && forall u :: !Asks(resolve, raw, name, u) {
      forall j, w | i < j < |all| ensures !Asks(resolve, all[j], name, w) {
        assert j < |init| ==> all[j] == init[j];
      }
    }
  }

  lemma {:induction false} QueryGrows(
      resolve: Resolver, init: seq<Json>, raw: Json, before: map<string, string>, after: map<string, string>)
    requires QueryFor(resolve, init, before) && Adds(resolve, before, raw, after)
    ensures QueryFor(resolve, init + [raw], after)
  {
    var all := init + [raw];
    var t :| LeadsTo(resolve, raw, t) && forall name :: AddsName(resolve, before, raw, after, t, name);
    forall name
      ensures name in after <==> exists i, u :: 0 <= i < |all| && Asks(resolve, all[i], name, u)
      ensures name in after ==> exists i, u :: LastAsk(resolve, all, i, name, u) && SampleValue(u, name, after[name])
    {
      OneName(resolve, init, raw, before, after, t, name);
    }
  }

  lemma {:induction false} OneName(
      resolve: Resolver, init: seq<Json>, raw: Json, before: map<string, string>, after: map<string, string>, t: Json, name: string)
    requires QueryFor(resolve, init, before) && LeadsTo(resolve, raw, t) && AddsName(resolve, before, raw, after, t, name)
    ensures var all := init + [raw];
      && (name in after <==> exists i, u :: 0 <= i < |all| && Asks(resolve, all[i], name, u))
      && (name in after ==> exists i, u :: LastAsk(resolve, all, i, name, u) && SampleValue(u, name, after[name]))
  {
    AskedAmong(resolve, init, raw, name);
    assert forall u :: Asks(resolve, raw, name, u) ==> u == t;
    if Asks(resolve, raw, name, t) {
      LastAmong(resolve, init, raw, 0, name, t);
    } else if name in before {
      var i, u :| LastAsk(resolve, init, i, name, u) && SampleValue(u, name, before[name]);
      LastAmong(resolve, init, raw, i, name, u);
    }
  }

  lemma {:induction false} QueryExactly(resolve: Resolver, parameters: seq<Json>)
    ensures QueryOf(resolve, parameters).Some? <==> forall i :: 0 <= i < |parameters| ==> Samplable(resolve, parameters[i])
    ensures QueryOf(resolve, parameters).Some? ==> QueryFor(resolve, parameters, QueryOf(resolve, parameters).value)
  {
    if parameters == [] {
    } else {
      var n := |parameters| - 1;
      QueryExactly(resolve, parameters[..n]);
      assert forall i :: 0 <= i < n ==> parameters[..n][i] == parameters[i];
      var query := QueryOf(resolve, parameters[..n]);
      if query.Some? {
        AddExactly(resolve, query.value, parameters[n]);
        if AddParameter(resolve, query.value, parameters[n]).Some? {
          QueryGrows(resolve, parameters[..n], parameters[n], query.value, AddParameter(resolve, query.value, parameters[n]).value);
          assert parameters[..n] + [parameters[n]] == parameters;
        }
      }
    }
  }

  ghost predicate SampleFor(c: Conventions, resolve: Resolver, verb: string, path: string, op: Json, s: Sample) {
    var tags, parameters := GetOr(op, "tags", Arr([])), GetOr(op, "parameters", Arr([]));
    && tags.Arr? && tags.items != [] && parameters.Arr? && '{' !in c.sample(path)
    && (forall i :: 0 <= i < |parameters.items| ==> Samplable(resolve, parameters.items[i]))
    && s.verb == verb && s.path == path && s.samplePath == c.sample(path) && s.tags == tags.items
    && QueryFor(resolve, parameters.items, s.query)
  }

  // ---------------------------------------------------------------- the whole operation

  /** A non-blank string, as its stripped text. */
  predicate Stripped(v: Json, text: string) { v.Str? && !Blank(v.s) && text == Trim(v.s) }

  /** The disposition row: the extension's two entries, and a mandatory path is not excluded. */
  predicate ScopeFor(c: Conventions, verb: string, path: string, op: Json, d: Disposition) {
    var scope := Get(op, "x-oblivious-public-operation");
    && scope.Obj? && Keys(scope.fields) == {"disposition", "reason"}
    && Get(scope, "disposition") == Str(d.disposition) && (d.disposition == "included" || d.disposition == "excluded")
    && Stripped(Get(scope, "reason"), d.reason) && (c.mandatory(path) ==> d.disposition == "included")
    && d.verb == verb && d.path == path
  }

  /** The contract row. */
  ghost predicate ContractFor(c: Conventions, x: Context, verb: string, path: string, id: string, op: Json, o: Operation) {
    && o.verb == verb && o.path == path && o.id == id
    && Get(op, "x-oblivious-capability-id") == Str(o.capability) && o.capability in x.capabilities
    && SumsUp(GetOr(op, "security", x.security), o.security, o.csrf)
    && RequestFor(c, x.resolve, Get(op, "requestBody"), o.request)
    && ResponsesFor(c, x.resolve, Get(op, "responses"), GetOr(op, "x-oblivious-terminal-success-statuses", Arr([])), o.responses)
  }

  /** The rows of an operation that stands under a path and a method. */
  ghost predicate RowsFor(c: Conventions, x: Context, u: Unit, rows: Rows) {
    var op, path := u.operation, rows.disposition.path;
    && Stripped(Get(op, "operationId"), rows.id) && c.normalize(u.path) == Some(path)
    && ScopeFor(c, u.verb, path, op, rows.disposition) && SampleFor(c, x.resolve, u.verb, path, op, rows.sample)
    && if rows.disposition.disposition == "excluded" then rows.operation.None? && rows.event.None?
       else rows.operation.Some? && InScopeFor(c, x, u.verb, path, rows.id, op, rows.operation.value, rows.event)
  }

  /** The contract row and the event of an operation in scope. */
  ghost predicate InScopeFor(
      c: Conventions, x: Context, verb: string, path: string, id: string, op: Json, o: Operation, ev: Option<BrowserEvent>)
  {
    && ContractFor(c, x, verb, path, id, op, o)
    && EventFor(x.resolve, c.digest, id, Get(op, "x-websocket-client-message"), Get(op, "x-websocket-server-message"),
                o.responses, ev)
  }

  lemma {:induction false} ScopeExactly(c: Conventions, verb: string, path: string, op: Json, d: Disposition)
    ensures ProjectScope(ReadScope(Get(op, "x-oblivious-public-operation")), verb, path, c.mandatory(path)) == Some(d) <==>
      ScopeFor(c, verb, path, op, d)
  {
  }

  lemma {:induction false} SampleExactly(c: Conventions, resolve: Resolver, verb: string, path: string, op: Json)
    ensures var s := ProjectSample(c, resolve, verb, path, GetOr(op, "tags", Arr([])), GetOr(op, "parameters", Arr([])));
      && (s.Some? ==> SampleFor(c, resolve, verb, path, op, s.value))
      && ((exists t :: SampleFor(c, resolve, verb, path, op, t)) ==> s.Some?)
  {
    var parameters := GetOr(op, "parameters", Arr([]));
    if parameters.Arr? {
      QueryExactly(resolve, parameters.items);
    }
  }

  /** The projection of an operation in scope: its contract row, and its event if it has one. */
  lemma {:induction false} ContractProjected(c: Conventions, x: Context, verb: string, path: string, id: string, op: Json)
    requires TidyTargets(x.resolve) && WellFormed(op)
    requires ProjectIncluded(c, x, id, verb, path, ReadOperation(op, x.security)).Some?
    ensures var (o, ev) := ProjectIncluded(c, x, id, verb, path, ReadOperation(op, x.security)).value;
      InScopeFor(c, x, verb, path, id, op, o, ev)
  {
    var (o, ev) := ProjectIncluded(c, x, id, verb, path, ReadOperation(op, x.security)).value;
    PartsWellFormed(op);
    SecurityExactly(GetOr(op, "security", x.security), o.security, o.csrf);
    RequestExactly(c, x.resolve, Get(op, "requestBody"), o.request);
    ResponsesExactly(c, x.resolve, Get(op, "responses"), GetOr(op, "x-oblivious-terminal-success-statuses", Arr([])));
    EventsExactly(c, x.resolve, id, Get(op, "x-websocket-client-message"), Get(op, "x-websocket-server-message"), o.responses, ev);
  }

  lemma {:induction false} PartsWellFormed(op: Json)
    requires WellFormed(op)
    ensures WellFormed(Get(op, "requestBody")) && WellFormed(Get(op, "responses"))
    ensures WellFormed(Get(op, "x-websocket-client-message")) && WellFormed(Get(op, "x-websocket-server-message"))
  {
    GetWellFormed(op, "requestBody");
    GetWellFormed(op, "responses");
    GetWellFormed(op, "x-websocket-client-message");
    GetWellFormed(op, "x-websocket-server-message");
  }

  /** An operation that has a contract row and an event to go with it is projected. */
  lemma {:induction false} ContractGiven(
      c: Conventions, x: Context, verb: string, path: string, id: string, op: Json, o: Operation, ev: Option<BrowserEvent>)
    requires TidyTargets(x.resolve) && WellFormed(op) && InScopeFor(c, x, verb, path, id, op, o, ev)
    ensures ProjectIncluded(c, x, id, verb, path, ReadOperation(op, x.security)).Some?
  {
    var responses, terminal := Get(op, "responses"), GetOr(op, "x-oblivious-terminal-success-statuses", Arr([]));
    var client, server := Get(op, "x-websocket-client-message"), Get(op, "x-websocket-server-message");
    PartsWellFormed(op);
    SecurityExactly(GetOr(op, "security", x.security), o.security, o.csrf);
    RequestExactly(c, x.resolve, Get(op, "requestBody"), o.request);
    ResponsesExactly(c, x.resolve, responses, terminal);
    var rows := ProjectResponses(c, x.resolve, responses, terminal).value;
    EventOfMembers(x.resolve, c.digest, id, client, server, o.responses, rows, ev);
    EventsExactly(c, x.resolve, id, client, server, rows, ev);
  }

  /** An operation is projected exactly when it has rows in this sense, and then to such rows. */
  lemma {:induction false} OperationExactly(c: Conventions, x: Context, u: Unit)
    requires TidyTargets(x.resolve) && WellFormed(u.operation)
    ensures ProjectUnit(c, x, u).Some? <==> exists rows :: RowsFor(c, x, u, rows)
    ensures ProjectUnit(c, x, u).Some? ==> RowsFor(c, x, u, ProjectUnit(c, x, u).value)
  {
    if ProjectUnit(c, x, u).Some? {
      OperationProjected(c, x, u);
    }
    if rows :| RowsFor(c, x, u, rows) {
      OperationGiven(c, x, u, rows);
    }
  }

  lemma {:induction false} UnitFromParts(c: Conventions, x: Context, u: Unit, id: string, path: string)
    requires Stripped(Get(u.operation, "operationId"), id) && c.normalize(u.path) == Some(path)
    ensures var op := u.operation;
      ProjectUnit(c, x, u) == Combine(
        id, ProjectScope(ReadScope(Get(op, "x-oblivious-public-operation")), u.verb, path, c.mandatory(path)),
        ProjectSample(c, x.resolve, u.verb, path, GetOr(op, "tags", Arr([])), GetOr(op, "parameters", Arr([]))),
        ProjectIncluded(c, x, id, u.verb, path, ReadOperation(op, x.security)))
  {
  }

  lemma {:induction false} OperationProjected(c: Conventions, x: Context, u: Unit)
    requires TidyTargets(x.resolve) && WellFormed(u.operation) && ProjectUnit(c, x, u).Some?
    ensures RowsFor(c, x, u, ProjectUnit(c, x, u).value)
  {
    var op, rows := u.operation, ProjectUnit(c, x, u).value;
    var path := c.normalize(u.path).value;
    UnitFromParts(c, x, u, rows.id, path);
    ScopeExactly(c, u.verb, path, op, rows.disposition);
    SampleExactly(c, x.resolve, u.verb, path, op);
    if rows.disposition.disposition == "included" {
      ContractProjected(c, x, u.verb, path, rows.id, op);
    }
  }

  lemma {:induction false} OperationGiven(c: Conventions, x: Context, u: Unit, rows: Rows)
    requires TidyTargets(x.resolve) && WellFormed(u.operation) && RowsFor(c, x, u, rows)
    ensures ProjectUnit(c, x, u).Some?
  {
    var op, path := u.operation, rows.disposition.path;
    UnitFromParts(c, x, u, rows.id, path);
    ScopeExactly(c, u.verb, path, op, rows.disposition);
    SampleExactly(c, x.resolve, u.verb, path, op);
    if rows.disposition.disposition == "included" {
      ContractGiven(c, x, u.verb, path, rows.id, op, rows.operation.value, rows.event);
    }
  }
}
