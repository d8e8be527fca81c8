/** Projecting one operation to its manifest rows. */
module OperationRows {
  import opened Sorting
  import opened Text
  import opened JsonValues
  import opened SurfaceRows
  import opened OperationUnits

  /** Conventions that do not depend on the document. `digest` is the canonical digest of a value, `success` recognises a
      2xx status, `mandatory` a path that must be included; `sample` fills in a path template. */
  datatype Conventions = Conventions(
    methods: seq<(string, string)>, normalize: string -> Option<string>, sample: string -> string, lower: string -> string,
    success: string -> bool, mandatory: string -> bool, digest: Json -> string)

  /** What an operation is projected against: the document's references and default security, and the capability ids. */
  datatype Context = Context(resolve: Resolver, security: Json, capabilities: set<string>)

  // ---------------------------------------------------------------- reading an operation

  datatype OpDoc = OpDoc(
    id: Json, disposition: Json, tags: Json, parameters: Json, capability: Json, security: Json,
    request: Json, responses: Json, terminal: Json, client: Json, server: Json)

  function ReadOperation(op: Json, security: Json): OpDoc {
    OpDoc(Get(op, "operationId"), Get(op, "x-oblivious-public-operation"), GetOr(op, "tags", Arr([])),
          GetOr(op, "parameters", Arr([])), Get(op, "x-oblivious-capability-id"), GetOr(op, "security", security),
          Get(op, "requestBody"), Get(op, "responses"), GetOr(op, "x-oblivious-terminal-success-statuses", Arr([])),
          Get(op, "x-websocket-client-message"), Get(op, "x-websocket-server-message"))
  }

  // ---------------------------------------------------------------- disposition

  datatype Scope = Scope(disposition: Json, reason: Json, exact: bool)

  function ReadScope(v: Json): Scope {
    Scope(Get(v, "disposition"), Get(v, "reason"), v.Obj? && Keys(v.fields) == {"disposition", "reason"})
  }

  const INCLUDED := Str("included")
  const EXCLUDED := Str("excluded")

  function ProjectScope(s: Scope, verb: string, path: string, mandatory: bool): Option<Disposition> {
    var reason := Label(s.reason);
    if s.exact && (s.disposition == INCLUDED || s.disposition == EXCLUDED) && reason.Some? && (mandatory ==> s.disposition == INCLUDED)
    then Some(Disposition(verb, path, s.disposition.s, reason.value))
    else None
  }

  // ---------------------------------------------------------------- security

  /** The scheme names of all alternatives. */
  function SchemeNames(alternatives: seq<Json>): set<string> {
    if alternatives == [] then {}
    else
      var last := alternatives[|alternatives| - 1];
      SchemeNames(alternatives[..|alternatives| - 1]) + if last.Obj? then Keys(last.fields) else {}
  }

  function KindOfNames(names: set<string>): Option<(string, bool)> {
    if "cookieAuth" in names && "csrfHeader" in names then Some(("cookie+csrf", true))
    else if "bearerAuth" in names then Some(("bearer", false))
    else if "cookieAuth" in names then Some(("cookie", false))
    else None
  }

  /** `security_kind`. */
  function SecurityKind(security: Json): Option<(string, bool)> {
    if !security.Arr? then None
    else if security.items == [] then Some(("public", false))
    else KindOfNames(SchemeNames(security.items))
  }

  // ---------------------------------------------------------------- schemas

  predicate RefOk(resolve: Resolver, ref: Json) { ref.Null? || (ref.Str? && resolve(ref.s).Some?) }

  /** `validate_nested_refs`: every `$ref` in the value resolves. */
  predicate NestedRefs(resolve: Resolver, v: Json)
    decreases v
  {
    match v
    case Arr(items) => forall i :: 0 <= i < |items| ==> NestedRefs(resolve, items[i])
    case Obj(fs) => RefOk(resolve, GetField(fs, REF)) && forall i :: 0 <= i < |fs| ==> NestedRefs(resolve, fs[i].value)
    case _ => true
  }

  /** `schema_identity`. */
  function SchemaIdentity(resolve: Resolver, digest: Json -> string, schema: Json): Option<SchemaId> {
    if schema.Null? then Some(NoSchema)
    else if !schema.Obj? || schema.fields == [] || !NestedRefs(resolve, schema) then None
    else if Keys(schema.fields) == {REF} then
      if GetField(schema.fields, REF).Str? then Some(RefSchema(GetField(schema.fields, REF).s)) else None
    else Some(InlineSchema(digest(schema)))
  }

  /** `resolve_component_object`. */
  function Component(resolve: Resolver, v: Json): Option<Json> {
    if !v.Obj? then None
    else if !Has(v, REF) then Some(v)
    else
      var ref := Get(v, REF);
      if !ref.Str? || resolve(ref.s).None? || !resolve(ref.s).value.Obj? then None else resolve(ref.s)
  }

  /** One entry of a `content` dict: the lowered media type and the identity of its schema. */
  function ProjectMedia(c: Conventions, resolve: Resolver, entry: Field): Option<Media> {
    if Blank(entry.key) || !entry.value.Obj? then None
    else
      var schema := SchemaIdentity(resolve, c.digest, Get(entry.value, "schema"));
      if schema.None? then None else Some(Media(Some(c.lower(entry.key)), schema.value))
  }

  function ContentOf(component: Json): Json { GetOr(component, "content", Obj([])) }

  const NO_MEDIA := Media(None, NoSchema)

  /** `project_request`. */
  function ProjectRequest(c: Conventions, resolve: Resolver, body: Json): Option<Media> {
    if body.Null? then Some(NO_MEDIA)
    else
      var component := Component(resolve, body);
      if component.None? then None
      else
        var content := ContentOf(component.value);
        if !content.Obj? || |content.fields| > 1 then None
        else if content.fields == [] then Some(NO_MEDIA)
        else ProjectMedia(c, resolve, content.fields[0])
  }

  // ---------------------------------------------------------------- responses

  /** `str(v)` for the values a terminal status may be. */
  function StatusText(v: Json): Option<string> {
    match v
    case Str(s) => Some(s)
    case Num(n) => Some(IntText(n))
    case Bool(b) => Some(if b then "True" else "False")
    case _ => None
  }

  predicate TerminalOk(v: Json, statuses: set<string>) { StatusText(v).Some? && StatusText(v).value in statuses }

  function Terminal(items: seq<Json>): set<string> {
    set i | 0 <= i < |items| && StatusText(items[i]).Some? :: StatusText(items[i]).value
  }

  /** The statuses that count as success; None if a terminal one is malformed or missing, or there is none at all. */
  function SuccessStatuses(c: Conventions, responses: Json, terminal: Json): Option<set<string>> {
    if !responses.Obj? || responses.fields == [] || !terminal.Arr? then None
    else if exists i :: 0 <= i < |terminal.items| && !TerminalOk(terminal.items[i], Keys(responses.fields)) then None
    else
      var regular := set k | k in Keys(responses.fields) && c.success(k);
      var all := regular + Terminal(terminal.items);
      if all == {} then None else Some(all)
  }

  /** Statuses sort by length, then by code points. */
  predicate StatusLe(a: string, b: string) { |a| < |b| || (|a| == |b| && StrLe(a, b)) }

  lemma {:induction false} StatusOrder()
    ensures LinearOrder(StatusLe)
  {
    forall a, b ensures StatusLe(a, b) || StatusLe(b, a) {
      StrLeTotal(a, b);
    }
    forall a, b, c | StatusLe(a, b) && StatusLe(b, c) ensures StatusLe(a, c) {
      if |a| == |b| == |c| {
        StrLeTransitive(a, b, c);
      }
    }
    forall a, b | StatusLe(a, b) && StatusLe(b, a) ensures a == b {
      StrLeAntisymmetric(a, b);
    }
  }

  function OneRow(c: Conventions, resolve: Resolver, status: string, entry: Field): Option<seq<Response>> {
    var media := ProjectMedia(c, resolve, entry);
    if media.None? then None else Some([Response(status, media.value.mediaType, media.value.schema)])
  }

  /** The rows of one success status, in the order of its sorted media types. */
  function StatusRows(c: Conventions, resolve: Resolver, status: string, response: Json): Option<seq<Response>> {
    var component := Component(resolve, response);
    if component.None? then None
    else
      var content := ContentOf(component.value);
      if !content.Obj? then None
      else if content.fields == [] then Some([Response(status, None, NoSchema)])
      else Gather(Sort(content.fields, FieldLe), entry => OneRow(c, resolve, status, entry))
  }

  function KindText(s: SchemaId): string { match s case NoSchema => "none" case RefSchema(_) => "ref" case InlineSchema(_) => "inline" }

  function ValueText(s: SchemaId): string { match s case NoSchema => "" case RefSchema(r) => r case InlineSchema(d) => d }

  function OrEmpty(s: Option<string>): string { if s.Some? then s.value else "" }

  /** The sort key of response rows, compared component by component. */
  predicate ResponseLe(a: Response, b: Response) {
    if a.status != b.status then StrLe(a.status, b.status)
    else if OrEmpty(a.mediaType) != OrEmpty(b.mediaType) then StrLe(OrEmpty(a.mediaType), OrEmpty(b.mediaType))
    else if KindText(a.schema) != KindText(b.schema) then StrLe(KindText(a.schema), KindText(b.schema))
    else StrLe(ValueText(a.schema), ValueText(b.schema))
  }

  /** `project_success_responses`. */
  ghost function ProjectResponses(c: Conventions, resolve: Resolver, responses: Json, terminal: Json): Option<seq<Response>> {
    var statuses := SuccessStatuses(c, responses, terminal);
    if statuses.None? then None
    else
      var rows := Gather(Listing(statuses.value, StatusLe), status => StatusRows(c, resolve, status, Get(responses, status)));
      if rows.None? then None else Some(Sort(rows.value, ResponseLe))
  }

  method ProjectSuccessResponses(c: Conventions, resolve: Resolver, responses: Json, terminal: Json) returns (r: Option<seq<Response>>)
    ensures r == ProjectResponses(c, resolve, responses, terminal)
  {
    var statuses := SuccessStatuses(c, responses, terminal);
    if statuses.None? {
      return None;
    }
    StatusOrder();
    var sorted := SortedSet(statuses.value, StatusLe);
    var rows := GatherAll(sorted, status => StatusRows(c, resolve, status, Get(responses, status)));
    return if rows.None? then None else Some(Sort(rows.value, ResponseLe));
  }

  // ---------------------------------------------------------------- browser events

  const EVENT_STREAM := "text/event-stream"

  function StreamSchemas(responses: seq<Response>): set<SchemaId> {
    set r | r in responses && r.mediaType == Some(EVENT_STREAM) :: r.schema
  }

  /** The outcome of projecting browser events: an error, none, or one row. */
  datatype Events = Refused | NoEvents | Events(row: BrowserEvent)

  /** `project_browser_events`. */
  ghost function ProjectEvents(c: Conventions, resolve: Resolver, id: string, client: Json, server: Json, responses: seq<Response>): Events {
    var streams := StreamSchemas(responses);
    if client.Null? != server.Null? then Refused
    else if !client.Null? then
      var first, second := SchemaIdentity(resolve, c.digest, client), SchemaIdentity(resolve, c.digest, server);
      if streams != {} || first.None? || second.None? then Refused
      else Events(BrowserEvent(id, "websocket", [Event("client", "message", first.value), Event("server", "message", second.value)]))
    else if streams == {} then NoEvents
    else if |streams| != 1 then Refused
    else
      var schema :| schema in streams;
      Events(BrowserEvent(id, "sse", [Event("server", "event", schema)]))
  }

  lemma {:induction false} OnlyMember<T>(s: set<T>, x: T, y: T)
    requires |s| == 1 && x in s && y in s
    ensures x == y
  {
    var rest := s - {x};
    assert |rest| == 0;
  }

  method ProjectBrowserEvents(c: Conventions, resolve: Resolver, id: string, client: Json, server: Json, responses: seq<Response>)
    returns (r: Events)
    ensures r == ProjectEvents(c, resolve, id, client, server, responses)
  {
    var streams := StreamSchemas(responses);
    if client.Null? != server.Null? {
      return Refused;
    }
    if !client.Null? {
      var first, second := SchemaIdentity(resolve, c.digest, client), SchemaIdentity(resolve, c.digest, server);
      if streams != {} || first.None? || second.None? {
        return Refused;
      }
      return Events(BrowserEvent(id, "websocket", [Event("client", "message", first.value), Event("server", "message", second.value)]));
    }
    if streams == {} {
      return NoEvents;
    }
    if |streams| != 1 {
      return Refused;
    }
    var schema :| schema in streams;
    ghost var spec := ProjectEvents(c, resolve, id, client, server, responses);
    OnlyMember(streams, schema, spec.row.events[0].schema);
    return Events(BrowserEvent(id, "sse", [Event("server", "event", schema)]));
  }

  // ---------------------------------------------------------------- samples

  datatype Parameter = Parameter(name: Json, place: Json, required: Json, schema: Json)

  function ReadParameter(p: Json): Parameter {
    Parameter(Get(p, "name"), Get(p, "in"), Get(p, "required"), GetOr(p, "schema", Obj([])))
  }

  /** `_default_query_value`; an unhashable `type` raises. */
  function DefaultValue(name: string, schema: Json): Option<string> {
    var format, kind := Get(schema, "format"), Get(schema, "type");
    if !schema.Obj? then Some("value_1")
    else if format == Str("date-time") then Some("1970-01-01T00:00:00Z")
    else if format == Str("date") then Some("1970-01-01")
    else if kind.Arr? || kind.Obj? then None
    else if kind == Str("integer") || kind == Str("number") then Some("1")
    else if kind == Str("boolean") then Some("true")
    else Some(name + "_1")
  }

  predicate Sampled(p: Parameter) {
    p.place == Str("query") && p.name.Str? && (p.required == Bool(true) || p.name.s == "from" || p.name.s == "to")
  }

  /** The sample query after one more parameter. */
  function AddParameter(resolve: Resolver, query: map<string, string>, raw: Json): Option<map<string, string>> {
    var component := Component(resolve, raw);
    if component.None? then None
    else
      var p := ReadParameter(component.value);
      if !Sampled(p) then Some(query)
      else
        var value := DefaultValue(p.name.s, p.schema);
        if value.None? then None else Some(query[p.name.s := value.value])
  }

  function QueryOf(resolve: Resolver, parameters: seq<Json>): Option<map<string, string>> {
    if parameters == [] then Some(map[])
    else
      var query := QueryOf(resolve, parameters[..|parameters| - 1]);
      if query.None? then None else AddParameter(resolve, query.value, parameters[|parameters| - 1])
  }

  function ProjectSample(c: Conventions, resolve: Resolver, verb: string, path: string, tags: Json, parameters: Json): Option<Sample> {
    if !parameters.Arr? || !tags.Arr? || tags.items == [] || '{' in c.sample(path) then None
    else
      var query := QueryOf(resolve, parameters.items);
      if query.None? then None else Some(Sample(verb, path, c.sample(path), tags.items, query.value))
  }

  // ---------------------------------------------------------------- one operation

  /** The rows of one operation; `included` has its contract row and its browser event, if it is in scope. */
  datatype Rows = Rows(id: string, disposition: Disposition, sample: Sample, operation: Option<Operation>, event: Option<BrowserEvent>)

  /** The contract row and browser event of an operation in scope, from its projected parts. */
  function Included(
      id: string, verb: string, path: string, capability: Json, capabilities: set<string>,
      security: Option<(string, bool)>, request: Option<Media>, responses: Option<seq<Response>>, events: Events)
    : Option<(Operation, Option<BrowserEvent>)>
  {
    if !capability.Str? || capability.s !in capabilities || security.None? || responses.None? || request.None? || events.Refused? then None
    else
      var operation := Operation(verb, path, id, security.value.0, security.value.1, capability.s, request.value, responses.value);
      Some((operation, if events.Events? then Some(events.row) else None))
  }

  function RowsOrNone(responses: Option<seq<Response>>): seq<Response> { if responses.Some? then responses.value else [] }

  ghost function ProjectIncluded(c: Conventions, x: Context, id: string, verb: string, path: string, d: OpDoc)
    : Option<(Operation, Option<BrowserEvent>)>
  {
    var responses := ProjectResponses(c, x.resolve, d.responses, d.terminal);
    Included(id, verb, path, d.capability, x.capabilities, SecurityKind(d.security), ProjectRequest(c, x.resolve, d.request),
             responses, ProjectEvents(c, x.resolve, id, d.client, d.server, RowsOrNone(responses)))
  }

  /** The rows of an operation: only one in scope needs its contract row. */
  function Finish(id: string, scope: Disposition, sample: Sample, included: Option<(Operation, Option<BrowserEvent>)>): Option<Rows> {
    if scope.disposition != "included" then Some(Rows(id, scope, sample, None, None))
    else if included.None? then None
    else Some(Rows(id, scope, sample, Some(included.value.0), included.value.1))
  }

  /** The rows of an operation from its scope, its sample and its contract row, if it has all it needs. */
  function Combine(
      id: string, scope: Option<Disposition>, sample: Option<Sample>, included: Option<(Operation, Option<BrowserEvent>)>)
    : Option<Rows>
  {
    if scope.None? || sample.None? then None else Finish(id, scope.value, sample.value, included)
  }

  ghost function ProjectDoc(c: Conventions, x: Context, rawPath: string, verb: string, d: OpDoc): Option<Rows> {
    var id, path := Label(d.id), c.normalize(rawPath);
    if id.None? || path.None? then None
    else
      var scope := ProjectScope(ReadScope(d.disposition), verb, path.value, c.mandatory(path.value));
      var sample := ProjectSample(c, x.resolve, verb, path.value, d.tags, d.parameters);
      Combine(id.value, scope, sample, ProjectIncluded(c, x, id.value, verb, path.value, d))
  }

  ghost function ProjectUnit(c: Conventions, x: Context, u: Unit): Option<Rows> {
    ProjectDoc(c, x, u.path, u.verb, ReadOperation(u.operation, x.security))
  }

  method ProjectOperation(c: Conventions, x: Context, u: Unit) returns (r: Option<Rows>)
    ensures r == ProjectUnit(c, x, u)
  {
    var d := ReadOperation(u.operation, x.security);
    var id, path := Label(d.id), c.normalize(u.path);
    if id.None? || path.None? {
      return None;
    }
    var scope := ProjectScope(ReadScope(d.disposition), u.verb, path.value, c.mandatory(path.value));
    var sample := ProjectSample(c, x.resolve, u.verb, path.value, d.tags, d.parameters);
    if scope.None? || sample.None? {
      return None;
    }
    if scope.value.disposition != "included" {
      return Some(Rows(id.value, scope.value, sample.value, None, None));
    }
    var included := ProjectInScope(c, x, id.value, u.verb, path.value, d);
    return Finish(id.value, scope.value, sample.value, included);
  }

  method ProjectInScope(c: Conventions, x: Context, id: string, verb: string, path: string, d: OpDoc)
    returns (r: Option<(Operation, Option<BrowserEvent>)>)
    ensures r == ProjectIncluded(c, x, id, verb, path, d)
  {
    if !d.capability.Str? || d.capability.s !in x.capabilities {
      return None;
    }
    var security := SecurityKind(d.security);
    var responses := ProjectSuccessResponses(c, x.resolve, d.responses, d.terminal);
    var request := ProjectRequest(c, x.resolve, d.request);
    if security.None? || responses.None? || request.None? {
      return None;
    }
    var events := ProjectBrowserEvents(c, x.resolve, id, d.client, d.server, responses.value);
    return Included(id, verb, path, d.capability, x.capabilities, security, request, responses, events);
  }
}
