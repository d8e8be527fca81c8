/** Manifest rows can be read back from their flattened form. */
module RowFlattening {
  import opened Sorting
  import opened JsonValues
  import opened JsonPositions
  import opened Flattening
  import opened SurfaceRows

  /** Two values hold the same leaf, or none or null, at every plain position. */
  ghost predicate AlikeBelow(v: Json, w: Json) {
    forall path: Path :: PlainPath(path) ==> LeafOrNull(v, path) == LeafOrNull(w, path)
  }

  lemma {:induction false} LeafBelow(v: Json, s: Step, child: Json, path: Path)
    requires Child(v, s) == Some(child)
    ensures LeafOrNull(v, [s] + path) == LeafOrNull(child, path)
  {
    assert ([s] + path)[1..] == path;
  }

  lemma {:induction false} EnterRow(v: Json, w: Json, k: string, x: Json, y: Json)
    requires LeavesAlike(v, w) && PlainKey(k)
    requires Child(v, Key(k)) == Some(x) && Child(w, Key(k)) == Some(y)
    ensures AlikeBelow(x, y)
  {
    forall path: Path | PlainPath(path) ensures LeafOrNull(x, path) == LeafOrNull(y, path) {
      LeafBelow(v, Key(k), x, path);
      LeafBelow(w, Key(k), y, path);
      assert RootedPath([Key(k)] + path);
    }
  }

  lemma {:induction false} Enter(v: Json, w: Json, s: Step, x: Json, y: Json)
    requires AlikeBelow(v, w) && (s.Key? ==> PlainKey(s.key))
    requires Child(v, s) == Some(x) && Child(w, s) == Some(y)
    ensures AlikeBelow(x, y)
  {
    forall path: Path | PlainPath(path) ensures LeafOrNull(x, path) == LeafOrNull(y, path) {
      LeafBelow(v, s, x, path);
      LeafBelow(w, s, y, path);
      assert PlainPath([s] + path);
    }
  }

  lemma {:induction false} LeavesEqual(x: Json, y: Json)
    requires AlikeBelow(x, y) && IsLeaf(x) && IsLeaf(y)
    ensures x == y
  {
    assert LeafOrNull(x, []) == LeafOrNull(y, []);
  }

  lemma {:induction false} SchemasEqual(s: SchemaId, t: SchemaId)
    requires AlikeBelow(SchemaJson(s), SchemaJson(t))
    ensures s == t
  {
    SchemaGets(s);
    SchemaGets(t);
    var v, w := SchemaJson(s), SchemaJson(t);
    var x, y := Find(v.fields, "kind").value, Find(w.fields, "kind").value;
    Enter(v, w, Key("kind"), x, y);
    LeavesEqual(x, y);
    var a, b := Find(v.fields, "value").value, Find(w.fields, "value").value;
    Enter(v, w, Key("value"), a, b);
    LeavesEqual(a, b);
  }

  lemma {:induction false} MediaEqual(m: Media, n: Media)
    requires AlikeBelow(MediaJson(m), MediaJson(n))
    ensures m == n
  {
    MediaGets(m);
    MediaGets(n);
    var v, w := MediaJson(m), MediaJson(n);
    Enter(v, w, Key("mediaType"), OptText(m.mediaType), OptText(n.mediaType));
    LeavesEqual(OptText(m.mediaType), OptText(n.mediaType));
    Enter(v, w, Key("schemaIdentity"), SchemaJson(m.schema), SchemaJson(n.schema));
    SchemasEqual(m.schema, n.schema);
  }

  lemma {:induction false} ResponseEqual(r: Response, s: Response)
    requires AlikeBelow(ResponseJson(r), ResponseJson(s))
    ensures r == s
  {
    ResponseGets(r);
    ResponseGets(s);
    var v, w := ResponseJson(r), ResponseJson(s);
    Enter(v, w, Key("status"), Str(r.status), Str(s.status));
    LeavesEqual(Str(r.status), Str(s.status));
    Enter(v, w, Key("mediaType"), OptText(r.mediaType), OptText(s.mediaType));
    LeavesEqual(OptText(r.mediaType), OptText(s.mediaType));
    Enter(v, w, Key("schemaIdentity"), SchemaJson(r.schema), SchemaJson(s.schema));
    SchemasEqual(r.schema, s.schema);
  }

  lemma {:induction false} EventEqual(e: Event, f: Event)
    requires AlikeBelow(EventJson(e), EventJson(f))
    ensures e == f
  {
    EventGets(e);
    EventGets(f);
    var v, w := EventJson(e), EventJson(f);
    Enter(v, w, Key("direction"), Str(e.direction), Str(f.direction));
    LeavesEqual(Str(e.direction), Str(f.direction));
    Enter(v, w, Key("kind"), Str(e.kind), Str(f.kind));
    LeavesEqual(Str(e.kind), Str(f.kind));
    Enter(v, w, Key("schemaIdentity"), SchemaJson(e.schema), SchemaJson(f.schema));
    SchemasEqual(e.schema, f.schema);
  }

  ghost predicate TextUnder(xs: seq<Json>, k: string) {
    forall i :: 0 <= i < |xs| ==> xs[i].Obj? && Find(xs[i].fields, k).Some? && Find(xs[i].fields, k).value.Str?
  }

  /** The first item that a shorter list lacks. */
  lemma {:induction false} FirstExtraItem(xs: seq<Json>, ys: seq<Json>, k: string)
    requires |xs| < |ys| && TextUnder(ys, k)
    ensures LeafOrNull(Arr(xs), [Index(|xs|), Key(k)]) != LeafOrNull(Arr(ys), [Index(|xs|), Key(k)])
  {
    var n := |xs|;
    assert [Index(n), Key(k)] == [Index(n)] + [Key(k)] && [Key(k)] == [Key(k)] + [];
    LeafBelow(Arr(ys), Index(n), ys[n], [Key(k)]);
    LeafBelow(ys[n], Key(k), Find(ys[n].fields, k).value, []);
  }

  /** A list whose items all hold a string under `k` shows its length in its leaves. */
  lemma {:induction false} LengthsEqual(xs: seq<Json>, ys: seq<Json>, k: string)
    requires AlikeBelow(Arr(xs), Arr(ys)) && PlainKey(k)
    requires TextUnder(xs, k) && TextUnder(ys, k)
    ensures |xs| == |ys|
  {
    assert PlainPath([Index(|xs|), Key(k)]) && PlainPath([Index(|ys|), Key(k)]);
    if |xs| < |ys| {
      FirstExtraItem(xs, ys, k);
    } else if |ys| < |xs| {
      FirstExtraItem(ys, xs, k);
    }
  }

  lemma {:induction false} ResponsesEqual(rs: seq<Response>, ss: seq<Response>)
    requires AlikeBelow(Arr(ResponsesJson(rs)), Arr(ResponsesJson(ss)))
    ensures rs == ss
  {
    var xs, ys := ResponsesJson(rs), ResponsesJson(ss);
    forall r: Response { ResponseGets(r); }
    LengthsEqual(xs, ys, "status");
    forall i | 0 <= i < |rs| ensures rs[i] == ss[i] {
      Enter(Arr(xs), Arr(ys), Index(i), xs[i], ys[i]);
      ResponseEqual(rs[i], ss[i]);
    }
  }

  lemma {:induction false} EventsEqual(es: seq<Event>, fs: seq<Event>)
    requires AlikeBelow(Arr(EventsJson(es)), Arr(EventsJson(fs)))
    ensures es == fs
  {
    var xs, ys := EventsJson(es), EventsJson(fs);
    forall e: Event { EventGets(e); }
    LengthsEqual(xs, ys, "direction");
    forall i | 0 <= i < |es| ensures es[i] == fs[i] {
      Enter(Arr(xs), Arr(ys), Index(i), xs[i], ys[i]);
      EventEqual(es[i], fs[i]);
    }
  }

  lemma {:induction false} TextBelow(v: Json, w: Json, k: string, x: Json, y: Json)
    requires v.Obj? && w.Obj? && LeavesAlike(v, w) && PlainKey(k) && IsLeaf(x) && IsLeaf(y)
    requires Find(v.fields, k) == Some(x) && Find(w.fields, k) == Some(y)
    ensures x == y
  {
    EnterRow(v, w, k, x, y);
    LeavesEqual(x, y);
  }

  lemma {:induction false} OperationNamesEqual(o: Operation, p: Operation)
    requires LeavesAlike(OperationJson(o), OperationJson(p))
    ensures o.verb == p.verb && o.path == p.path && o.id == p.id
  {
    var v, w := OperationJson(o), OperationJson(p);
    OperationGets(o);
    OperationGets(p);
    TextBelow(v, w, "method", Str(o.verb), Str(p.verb));
    TextBelow(v, w, "normalizedPath", Str(o.path), Str(p.path));
    TextBelow(v, w, "operationId", Str(o.id), Str(p.id));
  }

  lemma {:induction false} OperationGuardsEqual(o: Operation, p: Operation)
    requires LeavesAlike(OperationJson(o), OperationJson(p))
    ensures o.security == p.security && o.csrf == p.csrf && o.capability == p.capability
  {
    var v, w := OperationJson(o), OperationJson(p);
    OperationGets(o);
    OperationGets(p);
    TextBelow(v, w, "security", Str(o.security), Str(p.security));
    TextBelow(v, w, "csrf", Bool(o.csrf), Bool(p.csrf));
    TextBelow(v, w, "capabilityId", Str(o.capability), Str(p.capability));
  }

  lemma {:induction false} OperationsEqual(o: Operation, p: Operation)
    requires LeavesAlike(OperationJson(o), OperationJson(p))
    ensures o == p
  {
    var v, w := OperationJson(o), OperationJson(p);
    OperationNamesEqual(o, p);
    OperationGuardsEqual(o, p);
    OperationGets(o);
    OperationGets(p);
    EnterRow(v, w, "request", MediaJson(o.request), MediaJson(p.request));
    MediaEqual(o.request, p.request);
    EnterRow(v, w, "successResponses", Arr(ResponsesJson(o.responses)), Arr(ResponsesJson(p.responses)));
    ResponsesEqual(o.responses, p.responses);
  }

  lemma {:induction false} BrowserEventsEqual(b: BrowserEvent, c: BrowserEvent)
    requires LeavesAlike(BrowserEventJson(b), BrowserEventJson(c))
    ensures b == c
  {
    var v, w := BrowserEventJson(b), BrowserEventJson(c);
    BrowserEventGets(b);
    BrowserEventGets(c);
    TextBelow(v, w, "operationId", Str(b.id), Str(c.id));
    TextBelow(v, w, "transport", Str(b.transport), Str(c.transport));
    EnterRow(v, w, "events", Arr(EventsJson(b.events)), Arr(EventsJson(c.events)));
    EventsEqual(b.events, c.events);
  }

  // ---------------------------------------------------------------- rows use plain keys

  lemma {:induction false} SchemaPlain(s: SchemaId)
    ensures Plain(SchemaJson(s))
  {
    assert PlainKey("kind") && PlainKey("value");
  }

  lemma {:induction false} MediaPlain(m: Media)
    ensures Plain(MediaJson(m))
  {
    SchemaPlain(m.schema);
    assert PlainKey("mediaType") && PlainKey("schemaIdentity");
  }

  lemma {:induction false} ResponsePlain(r: Response)
    ensures Plain(ResponseJson(r))
  {
    SchemaPlain(r.schema);
    assert PlainKey("status") && PlainKey("mediaType") && PlainKey("schemaIdentity");
  }

  lemma {:induction false} EventPlain(e: Event)
    ensures Plain(EventJson(e))
  {
    SchemaPlain(e.schema);
    assert PlainKey("direction") && PlainKey("kind") && PlainKey("schemaIdentity");
  }

  lemma {:induction false} OperationKeysPlain()
    ensures PlainKey("method") && PlainKey("normalizedPath") && PlainKey("operationId") && PlainKey("security")
    ensures PlainKey("csrf") && PlainKey("capabilityId") && PlainKey("request") && PlainKey("successResponses")
  {
  }

  lemma {:induction false} ResponsesPlain(rs: seq<Response>)
    ensures Plain(Arr(ResponsesJson(rs)))
  {
    forall i | 0 <= i < |rs| ensures Plain(ResponsesJson(rs)[i]) {
      ResponsePlain(rs[i]);
    }
  }

  lemma {:induction false} OperationPlain(o: Operation)
    ensures Plain(OperationJson(o))
  {
    MediaPlain(o.request);
    ResponsesPlain(o.responses);
    OperationKeysPlain();
  }

  lemma {:induction false} BrowserEventPlain(b: BrowserEvent)
    ensures Plain(BrowserEventJson(b))
  {
    forall e: Event { EventPlain(e); }
    assert Plain(Arr(EventsJson(b.events)));
    assert PlainKey("operationId") && PlainKey("transport") && PlainKey("events");
  }

  /** Flattening tells operation rows apart. */
  lemma {:induction false} OperationRowsTold(o: Operation, p: Operation)
    ensures FlatAlike(OperationJson(o), OperationJson(p)) <==> o == p
  {
    OperationPlain(o);
    OperationPlain(p);
    OperationWellFormed(o);
    OperationWellFormed(p);
    FlatAgreement(OperationJson(o), OperationJson(p));
    if LeavesAlike(OperationJson(o), OperationJson(p)) {
      OperationsEqual(o, p);
    }
  }

  /** Flattening tells browser event rows apart. */
  lemma {:induction false} BrowserEventRowsTold(b: BrowserEvent, c: BrowserEvent)
    ensures FlatAlike(BrowserEventJson(b), BrowserEventJson(c)) <==> b == c
  {
    BrowserEventPlain(b);
    BrowserEventPlain(c);
    BrowserEventGets(b);
    BrowserEventGets(c);
    FlatAgreement(BrowserEventJson(b), BrowserEventJson(c));
    if LeavesAlike(BrowserEventJson(b), BrowserEventJson(c)) {
      BrowserEventsEqual(b, c);
    }
  }

  // ---------------------------------------------------------------- Python's equality on leaves

  function AsNumber(v: Json): Option<int> {
    match v case Bool(b) => Some(if b then 1 else 0) case Num(n) => Some(n) case _ => None
  }

  /** Python's `==` on leaves, for which `True` is 1 and `False` is 0. */
  predicate PythonEqual(x: Json, y: Json) { x == y || (AsNumber(x).Some? && AsNumber(x) == AsNumber(y)) }

  /** No number anywhere in the value. */
  predicate NumberFree(v: Json)
    decreases v
  {
    match v
    case Arr(items) => forall i :: 0 <= i < |items| ==> NumberFree(items[i])
    case Obj(fs) => forall i :: 0 <= i < |fs| ==> NumberFree(fs[i].value)
    case _ => !v.Num?
  }

  lemma {:induction false} FlatNumberFree(v: Json, prefix: string)
    requires NumberFree(v)
    ensures forall n :: n in Flatten(v, prefix) ==> !Flatten(v, prefix)[n].Num?
    decreases Size(v), 0
  {
    match v
    case Obj(fs) =>
      FieldSizes(fs);
      forall f | f in Sort(fs, FieldLe) ensures NumberFree(f.value) {
        assert f in fs;
      }
      FieldsNumberFree(Sort(fs, FieldLe), prefix);
    case Arr(items) => ItemsNumberFree(items, 0, prefix);
    case _ =>
  }

  lemma {:induction false} FieldsNumberFree(fs: seq<Field>, prefix: string)
    requires forall f :: f in fs ==> NumberFree(f.value)
    ensures forall n :: n in FlattenFields(fs, prefix) ==> !FlattenFields(fs, prefix)[n].Num?
    decreases SizeOfFields(fs), 1
  {
    if fs == [] {
    } else {
      FlatNumberFree(fs[0].value, Extended(prefix, fs[0].key));
      FieldsNumberFree(fs[1..], prefix);
    }
  }

  lemma {:induction false} ItemsNumberFree(items: seq<Json>, from: nat, prefix: string)
    requires forall i :: 0 <= i < |items| ==> NumberFree(items[i])
    ensures forall n :: n in FlattenItems(items, from, prefix) ==> !FlattenItems(items, from, prefix)[n].Num?
    decreases SizeOfItems(items), 1
  {
    if items == [] {
    } else {
      FlatNumberFree(items[0], Indexed(prefix, from));
      ItemsNumberFree(items[1..], from + 1, prefix);
    }
  }

  lemma {:induction false} ComparedAsPython(v: Json, w: Json, name: string)
    requires NumberFree(v) && NumberFree(w)
    ensures PythonEqual(GetFlat(Flatten(v, ""), name), GetFlat(Flatten(w, ""), name))
       <==> GetFlat(Flatten(v, ""), name) == GetFlat(Flatten(w, ""), name)
  {
    FlatNumberFree(v, "");
    FlatNumberFree(w, "");
  }

  lemma {:induction false} ResponsesNumberFree(rs: seq<Response>)
    ensures NumberFree(Arr(ResponsesJson(rs)))
  {
    forall i | 0 <= i < |rs| ensures NumberFree(ResponsesJson(rs)[i]) {
      assert NumberFree(SchemaJson(rs[i].schema));
    }
  }

  lemma {:induction false} OperationNumberFree(o: Operation)
    ensures NumberFree(OperationJson(o))
  {
    ResponsesNumberFree(o.responses);
    assert NumberFree(SchemaJson(o.request.schema));
    assert NumberFree(MediaJson(o.request));
  }

  /** On manifest rows the coarser equality of Python makes no difference: no number meets a boolean. */
  lemma {:induction false} OperationsComparedAsPython(o: Operation, p: Operation, name: string)
    ensures var f, g := Flatten(OperationJson(o), ""), Flatten(OperationJson(p), "");
      PythonEqual(GetFlat(f, name), GetFlat(g, name)) <==> GetFlat(f, name) == GetFlat(g, name)
  {
    OperationNumberFree(o);
    OperationNumberFree(p);
    ComparedAsPython(OperationJson(o), OperationJson(p), name);
  }

  lemma {:induction false} EventsNumberFree(es: seq<Event>)
    ensures NumberFree(Arr(EventsJson(es)))
  {
    forall i | 0 <= i < |es| ensures NumberFree(EventsJson(es)[i]) {
      assert NumberFree(SchemaJson(es[i].schema));
    }
  }

  lemma {:induction false} BrowserEventsComparedAsPython(b: BrowserEvent, c: BrowserEvent, name: string)
    ensures var f, g := Flatten(BrowserEventJson(b), ""), Flatten(BrowserEventJson(c), "");
      PythonEqual(GetFlat(f, name), GetFlat(g, name)) <==> GetFlat(f, name) == GetFlat(g, name)
  {
    EventsNumberFree(b.events);
    EventsNumberFree(c.events);
    ComparedAsPython(BrowserEventJson(b), BrowserEventJson(c), name);
  }
}
