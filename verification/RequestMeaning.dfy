/** What the security, request and schema entries of a row say, told from the operation's JSON alone. */
module RequestMeaning {
  import opened Text
  import opened JsonValues
  import opened JsonPositions
  import opened SurfaceRows
  import opened OperationUnits
  import opened OperationRows

  // ---------------------------------------------------------------- security

  /** Some alternative of the security list names the scheme. */
  predicate NamesScheme(alternatives: seq<Json>, scheme: string) {
    exists i :: 0 <= i < |alternatives| && Has(alternatives[i], scheme)
  }

  lemma {:induction false} SchemeNamed(alternatives: seq<Json>, scheme: string)
    ensures scheme in SchemeNames(alternatives) <==> NamesScheme(alternatives, scheme)
  {
    if alternatives == [] {
    } else {
      var n := |alternatives| - 1;
      SchemeNamed(alternatives[..n], scheme);
      assert forall i :: 0 <= i < n ==> alternatives[..n][i] == alternatives[i];
      KeyPresent(alternatives[n], scheme);
    }
  }

  /** How a list of security alternatives is summed up. */
  predicate SumsUp(security: Json, kind: string, csrf: bool) {
    && security.Arr? && kind in {"public", "cookie+csrf", "bearer", "cookie"}
    && (csrf <==> NamesScheme(security.items, "cookieAuth") && NamesScheme(security.items, "csrfHeader"))
    && (kind == "public" <==> security.items == [])
    && (kind == "cookie+csrf" <==> csrf)
    && (kind == "bearer" <==> !csrf && NamesScheme(security.items, "bearerAuth"))
    && (kind == "cookie" <==> !csrf && !NamesScheme(security.items, "bearerAuth") && NamesScheme(security.items, "cookieAuth"))
  }

  lemma {:induction false} SecurityExactly(security: Json, kind: string, csrf: bool)
    ensures SecurityKind(security) == Some((kind, csrf)) <==> SumsUp(security, kind, csrf)
  {
    if security.Arr? {
      SchemeNamed(security.items, "cookieAuth");
      SchemeNamed(security.items, "csrfHeader");
      SchemeNamed(security.items, "bearerAuth");
    }
  }

  // ---------------------------------------------------------------- schemas

  /** The dict at a position has no reference, or one that resolves. */
  ghost predicate ResolvesAt(resolve: Resolver, v: Json, path: Path) {
    var x := At(v, path);
    x.Some? && x.value.Obj? && Has(x.value, "$ref") && !Get(x.value, "$ref").Null? ==>
      Get(x.value, "$ref").Str? && resolve(Get(x.value, "$ref").s).Some?
  }

  /** Every reference anywhere in the value resolves. */
  ghost predicate Resolves(resolve: Resolver, v: Json) {
    forall path :: ResolvesAt(resolve, v, path)
  }

  lemma {:induction false} ResolvesBelow(resolve: Resolver, v: Json, s: Step, path: Path)
    requires Child(v, s).Some?
    ensures ResolvesAt(resolve, v, [s] + path) <==> ResolvesAt(resolve, Child(v, s).value, path)
  {
    assert ([s] + path)[1..] == path;
  }

  lemma {:induction false} ChildResolves(resolve: Resolver, v: Json, s: Step)
    requires Resolves(resolve, v) && Child(v, s).Some?
    ensures Resolves(resolve, Child(v, s).value)
  {
    forall path ensures ResolvesAt(resolve, Child(v, s).value, path) {
      ResolvesBelow(resolve, v, s, path);
    }
  }

  lemma {:induction false} NestedAt(resolve: Resolver, v: Json, path: Path)
    requires NestedRefs(resolve, v)
    ensures ResolvesAt(resolve, v, path)
    decreases path
  {
    if path != [] && Child(v, path[0]).Some? {
      match v
      case Obj(fs) =>
        var i := FieldOf(fs, path[0].key);
        NestedAt(resolve, fs[i].value, path[1..]);
      case Arr(items) => NestedAt(resolve, items[path[0].index], path[1..]);
      case _ =>
    }
  }

  lemma {:induction false} FieldOf(fs: seq<Field>, key: string) returns (i: nat)
    requires Find(fs, key).Some?
    ensures i < |fs| && fs[i] == Field(key, Find(fs, key).value)
  {
    if fs[0].key == key {
      return 0;
    }
    var k := FieldOf(fs[1..], key);
    return k + 1;
  }

  lemma {:induction false} ResolvedNests(resolve: Resolver, v: Json)
    requires WellFormed(v) && Resolves(resolve, v)
    ensures NestedRefs(resolve, v)
    decreases v
  {
    match v
    case Obj(fs) =>
      assert ResolvesAt(resolve, v, []);
      forall i | 0 <= i < |fs| ensures NestedRefs(resolve, fs[i].value) {
        FindFirst(fs, i);
        ChildResolves(resolve, v, Key(fs[i].key));
        ResolvedNests(resolve, fs[i].value);
      }
    case Arr(items) =>
      forall i | 0 <= i < |items| ensures NestedRefs(resolve, items[i]) {
        ChildResolves(resolve, v, Index(i));
        ResolvedNests(resolve, items[i]);
      }
    case _ =>
  }

  /** Nested references are valid exactly when every reference anywhere in the value resolves. */
  lemma {:induction false} NestedExactly(resolve: Resolver, v: Json)
    requires WellFormed(v)
    ensures NestedRefs(resolve, v) <==> Resolves(resolve, v)
  {
    if NestedRefs(resolve, v) {
      forall path ensures ResolvesAt(resolve, v, path) {
        NestedAt(resolve, v, path);
      }
    } else if Resolves(resolve, v) {
      ResolvedNests(resolve, v);
    }
  }

  /** A lone reference is identified by its name, any other schema by its digest, and no schema as such. */
  ghost predicate Identifies(resolve: Resolver, digest: Json -> string, schema: Json, id: SchemaId) {
    if schema.Null? then id == NoSchema
    else
      && schema.Obj? && schema.fields != [] && Resolves(resolve, schema)
      && if Keys(schema.fields) == {"$ref"} then Get(schema, "$ref").Str? && id == RefSchema(Get(schema, "$ref").s)
         else id == InlineSchema(digest(schema))
  }

  lemma {:induction false} IdentityExactly(resolve: Resolver, digest: Json -> string, schema: Json, id: SchemaId)
    requires WellFormed(schema)
    ensures SchemaIdentity(resolve, digest, schema) == Some(id) <==> Identifies(resolve, digest, schema, id)
  {
    NestedExactly(resolve, schema);
  }

  // ---------------------------------------------------------------- components and media types

  /** The dict itself, or the dict that its reference leads to. */
  predicate LeadsTo(resolve: Resolver, v: Json, t: Json) {
    v.Obj? && t.Obj? && if Has(v, "$ref") then Get(v, "$ref").Str? && resolve(Get(v, "$ref").s) == Some(t) else t == v
  }

  lemma {:induction false} ComponentExactly(resolve: Resolver, v: Json, t: Json)
    ensures Component(resolve, v) == Some(t) <==> LeadsTo(resolve, v, t)
  {
  }

  /** The entries of the component's content table; a missing table is empty. */
  predicate Offers(component: Json, entries: seq<Field>) {
    if Has(component, "content") then Get(component, "content") == Obj(entries) else entries == []
  }

  lemma {:induction false} OffersExactly(component: Json, entries: seq<Field>)
    ensures ContentOf(component) == Obj(entries) <==> Offers(component, entries)
  {
  }

  /** A content entry as its lower-cased media type and the identity of its schema. */
  ghost predicate MediaFor(c: Conventions, resolve: Resolver, entry: Field, m: Media) {
    && !Blank(entry.key) && entry.value.Obj?
    && m.mediaType == Some(c.lower(entry.key)) && Identifies(resolve, c.digest, Get(entry.value, "schema"), m.schema)
  }

  lemma {:induction false} MediaExactly(c: Conventions, resolve: Resolver, entry: Field, m: Media)
    requires WellFormed(entry.value)
    ensures ProjectMedia(c, resolve, entry) == Some(m) <==> MediaFor(c, resolve, entry, m)
  {
    GetWellFormed(entry.value, "schema");
    IdentityExactly(resolve, c.digest, Get(entry.value, "schema"), m.schema);
  }

  /** References lead to values without repeated keys, as those of a well-formed document do. */
  ghost predicate TidyTargets(resolve: Resolver) {
    forall ref {:trigger resolve(ref)} :: resolve(ref).Some? ==> WellFormed(resolve(ref).value)
  }

  lemma {:induction false} OfferedWellFormed(resolve: Resolver, v: Json, t: Json, entries: seq<Field>)
    requires TidyTargets(resolve) && WellFormed(v) && LeadsTo(resolve, v, t) && Offers(t, entries)
    ensures WellFormed(Obj(entries))
  {
    GetWellFormed(t, "content");
  }

  /** The request row: none without a body or content, and otherwise the only content entry. */
  ghost predicate RequestFor(c: Conventions, resolve: Resolver, body: Json, m: Media) {
    if body.Null? then m == Media(None, NoSchema)
    else exists t, entries :: LeadsTo(resolve, body, t) && Offers(t, entries) && OnlyMedia(c, resolve, entries, m)
  }

  ghost predicate OnlyMedia(c: Conventions, resolve: Resolver, entries: seq<Field>, m: Media) {
    if entries == [] then m == Media(None, NoSchema) else |entries| == 1 && MediaFor(c, resolve, entries[0], m)
  }

  lemma {:induction false} RequestExactly(c: Conventions, resolve: Resolver, body: Json, m: Media)
    requires TidyTargets(resolve) && WellFormed(body)
    ensures ProjectRequest(c, resolve, body) == Some(m) <==> RequestFor(c, resolve, body, m)
  {
    if !body.Null? {
      var found := Component(resolve, body);
      if found.Some? && ContentOf(found.value).Obj? {
        var t, entries := found.value, ContentOf(found.value).fields;
        ComponentExactly(resolve, body, t);
        OffersExactly(t, entries);
        OfferedWellFormed(resolve, body, t, entries);
        if |entries| == 1 {
          MediaExactly(c, resolve, entries[0], m);
        }
      }
      if RequestFor(c, resolve, body, m) {
        var t, entries :| LeadsTo(resolve, body, t) && Offers(t, entries) && OnlyMedia(c, resolve, entries, m);
        ComponentExactly(resolve, body, t);
        OffersExactly(t, entries);
      }
    }
  }
}
