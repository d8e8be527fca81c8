/** The rows of a route surface manifest and the JSON they are written as. */
module SurfaceRows {
  import opened JsonValues

  datatype SchemaId = NoSchema | RefSchema(ref: string) | InlineSchema(digest: string)

  datatype Media = Media(mediaType: Option<string>, schema: SchemaId)

  datatype Response = Response(status: string, mediaType: Option<string>, schema: SchemaId)

  datatype Operation = Operation(
    verb: string, path: string, id: string, security: string, csrf: bool, capability: string,
    request: Media, responses: seq<Response>)

  datatype Disposition = Disposition(verb: string, path: string, disposition: string, reason: string)

  datatype Event = Event(direction: string, kind: string, schema: SchemaId)

  datatype BrowserEvent = BrowserEvent(id: string, transport: string, events: seq<Event>)

  datatype Sample = Sample(verb: string, path: string, samplePath: string, tags: seq<Json>, query: map<string, string>)

  datatype Manifest = Manifest(
    projectionDigest: string, eventDigest: string, dispositions: seq<Disposition>,
    operations: seq<Operation>, events: seq<BrowserEvent>, samples: seq<Sample>)

  // ---------------------------------------------------------------- JSON forms

  function OptText(s: Option<string>): Json { if s.Some? then Str(s.value) else Null }

  function SchemaJson(s: SchemaId): Json {
    match s
    case NoSchema => Obj([Field("kind", Str("none")), Field("value", Null)])
    case RefSchema(ref) => Obj([Field("kind", Str("ref")), Field("value", Str(ref))])
    case InlineSchema(digest) => Obj([Field("kind", Str("inline")), Field("value", Str(digest))])
  }

  function MediaJson(m: Media): Json {
    Obj([Field("mediaType", OptText(m.mediaType)), Field("schemaIdentity", SchemaJson(m.schema))])
  }

  function ResponseJson(r: Response): Json {
    Obj([Field("status", Str(r.status)), Field("mediaType", OptText(r.mediaType)), Field("schemaIdentity", SchemaJson(r.schema))])
  }

  function ResponsesJson(rs: seq<Response>): (items: seq<Json>)
    ensures |items| == |rs| && forall i :: 0 <= i < |rs| ==> items[i] == ResponseJson(rs[i])
  {
    if rs == [] then [] else [ResponseJson(rs[0])] + ResponsesJson(rs[1..])
  }

  function OperationFields(o: Operation): seq<Field> {
    [Field("method", Str(o.verb)), Field("normalizedPath", Str(o.path)), Field("operationId", Str(o.id)),
     Field("security", Str(o.security)), Field("csrf", Bool(o.csrf)), Field("capabilityId", Str(o.capability)),
     Field("request", MediaJson(o.request)), Field("successResponses", Arr(ResponsesJson(o.responses)))]
  }

  function OperationJson(o: Operation): Json { Obj(OperationFields(o)) }

  function OperationsJson(os: seq<Operation>): (items: seq<Json>)
    ensures |items| == |os| && forall i :: 0 <= i < |os| ==> items[i] == OperationJson(os[i])
  {
    if os == [] then [] else [OperationJson(os[0])] + OperationsJson(os[1..])
  }

  function DispositionFields(d: Disposition): seq<Field> {
    [Field("method", Str(d.verb)), Field("normalizedPath", Str(d.path)),
     Field("disposition", Str(d.disposition)), Field("reason", Str(d.reason))]
  }

  function DispositionJson(d: Disposition): Json { Obj(DispositionFields(d)) }

  function DispositionsJson(ds: seq<Disposition>): (items: seq<Json>)
    ensures |items| == |ds| && forall i :: 0 <= i < |ds| ==> items[i] == DispositionJson(ds[i])
  {
    if ds == [] then [] else [DispositionJson(ds[0])] + DispositionsJson(ds[1..])
  }

  function EventJson(e: Event): Json {
    Obj([Field("direction", Str(e.direction)), Field("kind", Str(e.kind)), Field("schemaIdentity", SchemaJson(e.schema))])
  }

  function EventsJson(es: seq<Event>): (items: seq<Json>)
    ensures |items| == |es| && forall i :: 0 <= i < |es| ==> items[i] == EventJson(es[i])
  {
    if es == [] then [] else [EventJson(es[0])] + EventsJson(es[1..])
  }

  function BrowserEventFields(b: BrowserEvent): seq<Field> {
    [Field("operationId", Str(b.id)), Field("transport", Str(b.transport)), Field("events", Arr(EventsJson(b.events)))]
  }

  function BrowserEventJson(b: BrowserEvent): Json { Obj(BrowserEventFields(b)) }

  function BrowserEventsJson(bs: seq<BrowserEvent>): (items: seq<Json>)
    ensures |items| == |bs| && forall i :: 0 <= i < |bs| ==> items[i] == BrowserEventJson(bs[i])
  {
    if bs == [] then [] else [BrowserEventJson(bs[0])] + BrowserEventsJson(bs[1..])
  }

  // ---------------------------------------------------------------- looking into a row

  lemma {:induction false} SchemaGets(s: SchemaId)
    ensures WellFormed(SchemaJson(s))
    ensures Find(SchemaJson(s).fields, "kind") == Some(Str(if s.NoSchema? then "none" else if s.RefSchema? then "ref" else "inline"))
    ensures Find(SchemaJson(s).fields, "value")
         == Some(if s.NoSchema? then Null else if s.RefSchema? then Str(s.ref) else Str(s.digest))
  {
    FindFirst(SchemaJson(s).fields, 1);
  }

  lemma {:induction false} MediaGets(m: Media)
    ensures WellFormed(MediaJson(m))
    ensures Find(MediaJson(m).fields, "mediaType") == Some(OptText(m.mediaType))
    ensures Find(MediaJson(m).fields, "schemaIdentity") == Some(SchemaJson(m.schema))
  {
    SchemaGets(m.schema);
    FindFirst(MediaJson(m).fields, 1);
  }

  lemma {:induction false} ResponseGets(r: Response)
    ensures WellFormed(ResponseJson(r))
    ensures Find(ResponseJson(r).fields, "status") == Some(Str(r.status))
    ensures Find(ResponseJson(r).fields, "mediaType") == Some(OptText(r.mediaType))
    ensures Find(ResponseJson(r).fields, "schemaIdentity") == Some(SchemaJson(r.schema))
  {
    SchemaGets(r.schema);
    FindFirst(ResponseJson(r).fields, 1);
    FindFirst(ResponseJson(r).fields, 2);
  }

  lemma {:induction false} EventGets(e: Event)
    ensures WellFormed(EventJson(e))
    ensures Find(EventJson(e).fields, "direction") == Some(Str(e.direction))
    ensures Find(EventJson(e).fields, "kind") == Some(Str(e.kind))
    ensures Find(EventJson(e).fields, "schemaIdentity") == Some(SchemaJson(e.schema))
  {
    SchemaGets(e.schema);
    FindFirst(EventJson(e).fields, 1);
    FindFirst(EventJson(e).fields, 2);
  }

  lemma {:induction false} OperationGetsNames(o: Operation)
    ensures var fs := OperationFields(o);
      && Find(fs, "method") == Some(Str(o.verb)) && Find(fs, "normalizedPath") == Some(Str(o.path))
      && Find(fs, "operationId") == Some(Str(o.id)) && Find(fs, "security") == Some(Str(o.security))
  {
    var fs := OperationFields(o);
    FindFirst(fs, 0);
    FindFirst(fs, 1);
    FindFirst(fs, 2);
    FindFirst(fs, 3);
  }

  lemma {:induction false} OperationGets(o: Operation)
    ensures var fs := OperationFields(o);
      && Find(fs, "method") == Some(Str(o.verb)) && Find(fs, "normalizedPath") == Some(Str(o.path))
      && Find(fs, "operationId") == Some(Str(o.id)) && Find(fs, "security") == Some(Str(o.security))
      && Find(fs, "csrf") == Some(Bool(o.csrf)) && Find(fs, "capabilityId") == Some(Str(o.capability))
      && Find(fs, "request") == Some(MediaJson(o.request))
      && Find(fs, "successResponses") == Some(Arr(ResponsesJson(o.responses)))
  {
    var fs := OperationFields(o);
    OperationGetsNames(o);
    FindFirst(fs, 4);
    FindFirst(fs, 5);
    FindFirst(fs, 6);
    FindFirst(fs, 7);
  }

  lemma {:induction false} OperationWellFormed(o: Operation)
    ensures WellFormed(OperationJson(o))
  {
    MediaGets(o.request);
    forall i | 0 <= i < |o.responses| ensures WellFormed(ResponsesJson(o.responses)[i]) {
      ResponseGets(o.responses[i]);
    }
    assert WellFormed(Arr(ResponsesJson(o.responses)));
  }

  lemma {:induction false} BrowserEventGets(b: BrowserEvent)
    ensures WellFormed(BrowserEventJson(b))
    ensures Find(BrowserEventFields(b), "operationId") == Some(Str(b.id))
    ensures Find(BrowserEventFields(b), "transport") == Some(Str(b.transport))
    ensures Find(BrowserEventFields(b), "events") == Some(Arr(EventsJson(b.events)))
  {
    FindFirst(BrowserEventFields(b), 0);
    FindFirst(BrowserEventFields(b), 1);
    FindFirst(BrowserEventFields(b), 2);
    forall i | 0 <= i < |b.events| ensures WellFormed(EventsJson(b.events)[i]) {
      EventGets(b.events[i]);
    }
    assert WellFormed(Arr(EventsJson(b.events)));
  }
}
