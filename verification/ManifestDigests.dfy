/** What the two digests of a manifest identify: all dispositions and operations, and all browser events. */
module ManifestDigests {
  import opened JsonValues
  import opened CanonicalJson
  import opened SurfaceRows
  import opened OperationSurface
  import OperationOrder
  import DigestMeaning

  // ---------------------------------------------------------------- same JSON, same row

  lemma {:induction false} SameBelow(v: Json, w: Json, key: string)
    requires WellFormed(v) && WellFormed(w) && Same(v, w)
    ensures Same(Get(v, key), Get(w, key))
  {
    CanonGet(v, key);
    CanonGet(w, key);
  }

  lemma {:induction false} SameText(x: string, y: string)
    requires Same(Str(x), Str(y))
    ensures x == y
  {
  }

  lemma {:induction false} SameOptText(x: Option<string>, y: Option<string>)
    requires Same(OptText(x), OptText(y))
    ensures x == y
  {
  }

  lemma {:induction false} SameItems(xs: seq<Json>, ys: seq<Json>)
    requires Same(Arr(xs), Arr(ys))
    ensures |xs| == |ys| && forall i :: 0 <= i < |xs| ==> Same(xs[i], ys[i])
  {
    DigestMeaning.ItemsSame(xs, ys);
  }

  lemma {:induction false} SchemaTold(s: SchemaId, t: SchemaId)
    requires Same(SchemaJson(s), SchemaJson(t))
    ensures s == t
  {
    SchemaGets(s);
    SchemaGets(t);
    SameBelow(SchemaJson(s), SchemaJson(t), "kind");
    SameBelow(SchemaJson(s), SchemaJson(t), "value");
    KindsDiffer(s, t);
  }

  lemma {:induction false} KindsDiffer(s: SchemaId, t: SchemaId)
    requires (if s.NoSchema? then "none" else if s.RefSchema? then "ref" else "inline")
          == (if t.NoSchema? then "none" else if t.RefSchema? then "ref" else "inline")
    ensures (s.NoSchema? <==> t.NoSchema?) && (s.RefSchema? <==> t.RefSchema?)
  {
    assert |"none"| == 4 && |"ref"| == 3 && |"inline"| == 6;
  }

  lemma {:induction false} MediaTold(m: Media, n: Media)
    requires Same(MediaJson(m), MediaJson(n))
    ensures m == n
  {
    MediaGets(m);
    MediaGets(n);
    SameBelow(MediaJson(m), MediaJson(n), "mediaType");
    SameBelow(MediaJson(m), MediaJson(n), "schemaIdentity");
    SameOptText(m.mediaType, n.mediaType);
    SchemaTold(m.schema, n.schema);
  }

  lemma {:induction false} ResponseTold(r: Response, s: Response)
    requires Same(ResponseJson(r), ResponseJson(s))
    ensures r == s
  {
    ResponseGets(r);
    ResponseGets(s);
    SameBelow(ResponseJson(r), ResponseJson(s), "status");
    SameBelow(ResponseJson(r), ResponseJson(s), "mediaType");
    SameBelow(ResponseJson(r), ResponseJson(s), "schemaIdentity");
    SameText(r.status, s.status);
    SameOptText(r.mediaType, s.mediaType);
    SchemaTold(r.schema, s.schema);
  }

  lemma {:induction false} ResponsesTold(rs: seq<Response>, ss: seq<Response>)
    requires Same(Arr(ResponsesJson(rs)), Arr(ResponsesJson(ss)))
    ensures rs == ss
  {
    SameItems(ResponsesJson(rs), ResponsesJson(ss));
    forall i | 0 <= i < |rs| ensures rs[i] == ss[i] {
      assert Same(ResponsesJson(rs)[i], ResponsesJson(ss)[i]);
      ResponseTold(rs[i], ss[i]);
    }
  }

  /** The text or flag of an operation under a key. */
  lemma {:induction false} OperationBelow(o: Operation, p: Operation, key: string)
    requires Same(OperationJson(o), OperationJson(p))
    ensures Same(GetField(OperationFields(o), key), GetField(OperationFields(p), key))
  {
    OperationWellFormed(o);
    OperationWellFormed(p);
    SameBelow(OperationJson(o), OperationJson(p), key);
  }

  lemma {:induction false} OperationNamesTold(o: Operation, p: Operation)
    requires Same(OperationJson(o), OperationJson(p))
    ensures o.verb == p.verb && o.path == p.path && o.id == p.id && o.security == p.security
  {
    OperationGetsNames(o);
    OperationGetsNames(p);
    OperationBelow(o, p, "method");
    OperationBelow(o, p, "normalizedPath");
    OperationBelow(o, p, "operationId");
    OperationBelow(o, p, "security");
  }

  lemma {:induction false} OperationTold(o: Operation, p: Operation)
    requires Same(OperationJson(o), OperationJson(p))
    ensures o == p
  {
    OperationNamesTold(o, p);
    OperationGets(o);
    OperationGets(p);
    OperationBelow(o, p, "csrf");
    OperationBelow(o, p, "capabilityId");
    OperationBelow(o, p, "request");
    OperationBelow(o, p, "successResponses");
    MediaTold(o.request, p.request);
    ResponsesTold(o.responses, p.responses);
  }

  lemma {:induction false} DispositionGets(d: Disposition)
    ensures var v := DispositionJson(d);
      && WellFormed(v)
      && Get(v, "method") == Str(d.verb) && Get(v, "normalizedPath") == Str(d.path)
      && Get(v, "disposition") == Str(d.disposition) && Get(v, "reason") == Str(d.reason)
  {
    var fs, keys := DispositionFields(d), ["method", "normalizedPath", "disposition", "reason"];
    FindEach(fs, keys);
    assert Find(fs, keys[0]) == Some(fs[0].value) && Find(fs, keys[1]) == Some(fs[1].value)
      && Find(fs, keys[2]) == Some(fs[2].value) && Find(fs, keys[3]) == Some(fs[3].value);
  }

  lemma {:induction false} TextTold(v: Json, w: Json, key: string, x: string, y: string)
    requires WellFormed(v) && WellFormed(w) && Same(v, w) && Get(v, key) == Str(x) && Get(w, key) == Str(y)
    ensures x == y
  {
    SameBelow(v, w, key);
    SameText(x, y);
  }

  lemma {:induction false} DispositionTold(d: Disposition, e: Disposition)
    requires Same(DispositionJson(d), DispositionJson(e))
    ensures d == e
  {
    DispositionGets(d);
    DispositionGets(e);
    var v, w := DispositionJson(d), DispositionJson(e);
    TextTold(v, w, "method", d.verb, e.verb);
    TextTold(v, w, "normalizedPath", d.path, e.path);
    TextTold(v, w, "disposition", d.disposition, e.disposition);
    TextTold(v, w, "reason", d.reason, e.reason);
  }

  lemma {:induction false} EventTold(e: Event, f: Event)
    requires Same(EventJson(e), EventJson(f))
    ensures e == f
  {
    EventGets(e);
    EventGets(f);
    SameBelow(EventJson(e), EventJson(f), "direction");
    SameBelow(EventJson(e), EventJson(f), "kind");
    SameBelow(EventJson(e), EventJson(f), "schemaIdentity");
    SchemaTold(e.schema, f.schema);
  }

  lemma {:induction false} EventsTold(es: seq<Event>, fs: seq<Event>)
    requires Same(Arr(EventsJson(es)), Arr(EventsJson(fs)))
    ensures es == fs
  {
    SameItems(EventsJson(es), EventsJson(fs));
    forall i | 0 <= i < |es| ensures es[i] == fs[i] {
      assert Same(EventsJson(es)[i], EventsJson(fs)[i]);
      EventTold(es[i], fs[i]);
    }
  }

  lemma {:induction false} BrowserEventTold(b: BrowserEvent, c: BrowserEvent)
    requires Same(BrowserEventJson(b), BrowserEventJson(c))
    ensures b == c
  {
    BrowserEventGets(b);
    BrowserEventGets(c);
    SameBelow(BrowserEventJson(b), BrowserEventJson(c), "operationId");
    SameBelow(BrowserEventJson(b), BrowserEventJson(c), "transport");
    SameBelow(BrowserEventJson(b), BrowserEventJson(c), "events");
    EventsTold(b.events, c.events);
  }

  // ---------------------------------------------------------------- what is digested

  lemma {:induction false} OperationListTold(os: seq<Operation>, ps: seq<Operation>)
    requires Same(Arr(OperationsJson(os)), Arr(OperationsJson(ps)))
    ensures os == ps
  {
    SameItems(OperationsJson(os), OperationsJson(ps));
    forall i | 0 <= i < |os| ensures os[i] == ps[i] {
      assert Same(OperationsJson(os)[i], OperationsJson(ps)[i]);
      OperationTold(os[i], ps[i]);
    }
  }

  lemma {:induction false} DispositionListTold(ds: seq<Disposition>, es: seq<Disposition>)
    requires Same(Arr(DispositionsJson(ds)), Arr(DispositionsJson(es)))
    ensures ds == es
  {
    SameItems(DispositionsJson(ds), DispositionsJson(es));
    forall i | 0 <= i < |ds| ensures ds[i] == es[i] {
      assert Same(DispositionsJson(ds)[i], DispositionsJson(es)[i]);
      DispositionTold(ds[i], es[i]);
    }
  }

  /** The browser events are digested as they are listed. */
  lemma {:induction false} EventsValueTold(bs: seq<BrowserEvent>, cs: seq<BrowserEvent>)
    requires Same(EventsValue(bs), EventsValue(cs))
    ensures bs == cs
  {
    SameItems(BrowserEventsJson(bs), BrowserEventsJson(cs));
    forall i | 0 <= i < |bs| ensures bs[i] == cs[i] {
      assert Same(BrowserEventsJson(bs)[i], BrowserEventsJson(cs)[i]);
      BrowserEventTold(bs[i], cs[i]);
    }
  }

  lemma {:induction false} ListsWellFormed(ds: seq<Disposition>, os: seq<Operation>)
    ensures WellFormed(Arr(DispositionsJson(ds))) && WellFormed(Arr(OperationsJson(os)))
  {
    forall i | 0 <= i < |ds| ensures WellFormed(DispositionsJson(ds)[i]) {
      DispositionGets(ds[i]);
    }
    forall i | 0 <= i < |os| ensures WellFormed(OperationsJson(os)[i]) {
      OperationWellFormed(os[i]);
    }
  }

  lemma {:induction false} CoreGets(ds: seq<Disposition>, os: seq<Operation>)
    ensures var core := CoreJson(ds, os);
      && WellFormed(core) && Get(core, "operations") == Arr(OperationsJson(os))
      && WellFormed(Get(core, "scope")) && Get(Get(core, "scope"), "dispositions") == Arr(DispositionsJson(ds))
      && Get(Get(core, "scope"), "schemaVersion") == Str("public-operation-scope/v1")
      && Get(Get(core, "scope"), "mandatoryPrefixes") == Arr([Str("/api/"), Str("/v1/")])
  {
    ListsWellFormed(ds, os);
    var core := CoreJson(ds, os);
    var scope := core.fields[0].value;
    ScopeGets(scope.fields, Arr(DispositionsJson(ds)));
    FindEach(core.fields, ["scope", "operations"]);
    var keys := ["scope", "operations"];
    assert Find(core.fields, keys[0]) == Some(scope) && Find(core.fields, keys[1]) == Some(core.fields[1].value);
  }

  lemma {:induction false} ScopeGets(fs: seq<Field>, ds: Json)
    requires WellFormed(ds)
    requires fs == [Field("schemaVersion", Str("public-operation-scope/v1")), Field("mandatoryPrefixes", PREFIXES), Field("dispositions", ds)]
    ensures WellFormed(Obj(fs)) && Get(Obj(fs), "dispositions") == ds
    ensures Get(Obj(fs), "schemaVersion") == Str("public-operation-scope/v1")
    ensures Get(Obj(fs), "mandatoryPrefixes") == Arr([Str("/api/"), Str("/v1/")])
  {
    var keys := ["schemaVersion", "mandatoryPrefixes", "dispositions"];
    FindEach(fs, keys);
    assert Find(fs, keys[0]) == Some(fs[0].value) && Find(fs, keys[1]) == Some(fs[1].value) && Find(fs, keys[2]) == Some(fs[2].value);
  }

  /** The scope and the operations are digested together as they are listed. */
  lemma {:induction false} CoreTold(ds: seq<Disposition>, os: seq<Operation>, es: seq<Disposition>, ps: seq<Operation>)
    requires Same(CoreJson(ds, os), CoreJson(es, ps))
    ensures ds == es && os == ps
  {
    var v, w := CoreJson(ds, os), CoreJson(es, ps);
    CoreGets(ds, os);
    CoreGets(es, ps);
    SameBelow(v, w, "operations");
    SameBelow(v, w, "scope");
    SameBelow(Get(v, "scope"), Get(w, "scope"), "dispositions");
    OperationListTold(os, ps);
    DispositionListTold(ds, es);
  }

  // ---------------------------------------------------------------- digests

  lemma {:induction false} SameDigest(hash: string -> string, v: Json, w: Json)
    requires DigestMeaning.TellsApart(hash, {Dump(Canon(v)), Dump(Canon(w))})
    ensures OperationOrder.CanonicalDigest(hash)(v) == OperationOrder.CanonicalDigest(hash)(w) <==> Same(v, w)
  {
    var x, y := hash(Dump(Canon(v))), hash(Dump(Canon(w)));
    if "sha256:" + x == "sha256:" + y {
      assert ("sha256:" + x)[7..] == x && ("sha256:" + y)[7..] == y;
      DumpDecodes(Canon(v), Canon(w), "", "");
    }
  }

  /** Manifests whose digests were computed from their rows have equal digests exactly when they list the same rows, as far
      as the hash tells the digested texts apart. */
  lemma {:induction false} DigestsIdentifyRows(hash: string -> string, m: Manifest, n: Manifest)
    requires m.projectionDigest == OperationOrder.CanonicalDigest(hash)(CoreJson(m.dispositions, m.operations))
    requires n.projectionDigest == OperationOrder.CanonicalDigest(hash)(CoreJson(n.dispositions, n.operations))
    requires m.eventDigest == OperationOrder.CanonicalDigest(hash)(EventsValue(m.events))
    requires n.eventDigest == OperationOrder.CanonicalDigest(hash)(EventsValue(n.events))
    requires DigestMeaning.TellsApart(hash, {Dump(Canon(CoreJson(m.dispositions, m.operations))),
                                             Dump(Canon(CoreJson(n.dispositions, n.operations)))})
    requires DigestMeaning.TellsApart(hash, {Dump(Canon(EventsValue(m.events))), Dump(Canon(EventsValue(n.events)))})
    ensures m.projectionDigest == n.projectionDigest <==> m.dispositions == n.dispositions && m.operations == n.operations
    ensures m.eventDigest == n.eventDigest <==> m.events == n.events
  {
    SameDigest(hash, CoreJson(m.dispositions, m.operations), CoreJson(n.dispositions, n.operations));
    SameDigest(hash, EventsValue(m.events), EventsValue(n.events));
    if m.projectionDigest == n.projectionDigest {
      CoreTold(m.dispositions, m.operations, n.dispositions, n.operations);
    }
    if m.eventDigest == n.eventDigest {
      EventsValueTold(m.events, n.events);
    }
  }
}
