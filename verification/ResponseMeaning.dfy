/** What the response rows of an operation say, told from its JSON alone. */
module ResponseMeaning {
  import opened Sorting
  import opened Text
  import opened Orders
  import opened JsonValues
  import opened SurfaceRows
  import opened OperationUnits
  import opened OperationRows
  import opened RequestMeaning

  // ---------------------------------------------------------------- responses

  /** The text Python makes of a value that may be a terminal status. */
  predicate Spelled(v: Json, s: string) {
    || v == Str(s) || (v.Num? && s == IntText(v.n)) || (v == Bool(true) && s == "True") || (v == Bool(false) && s == "False")
  }

  lemma {:induction false} SpelledExactly(v: Json, s: string)
    ensures StatusText(v) == Some(s) <==> Spelled(v, s)
  {
  }

  /** A documented status is a success if it looks like one or is listed as terminal. */
  predicate Succeeds(c: Conventions, responses: Json, terminal: Json, s: string) {
    Has(responses, s) && terminal.Arr? && (c.success(s) || exists i :: 0 <= i < |terminal.items| && Spelled(terminal.items[i], s))
  }

  /** There are responses, every terminal status is a documented one, and some status is a success. */
  ghost predicate StatusesGiven(c: Conventions, responses: Json, terminal: Json) {
    && responses.Obj? && terminal.Arr?
    && (forall i :: 0 <= i < |terminal.items| ==> exists s :: Spelled(terminal.items[i], s) && Has(responses, s))
    && exists s :: Succeeds(c, responses, terminal, s)
  }

  lemma {:induction false} TerminalExactly(items: seq<Json>, statuses: set<string>, i: nat)
    requires i < |items|
    ensures TerminalOk(items[i], statuses) <==> exists s :: Spelled(items[i], s) && s in statuses
  {
    if StatusText(items[i]).Some? {
      SpelledExactly(items[i], StatusText(items[i]).value);
    }
    if s :| Spelled(items[i], s) && s in statuses {
      SpelledExactly(items[i], s);
    }
  }

  lemma {:induction false} TerminalMembers(items: seq<Json>, s: string)
    ensures s in Terminal(items) <==> exists i :: 0 <= i < |items| && Spelled(items[i], s)
  {
    forall i | 0 <= i < |items| ensures StatusText(items[i]) == Some(s) <==> Spelled(items[i], s) {
      SpelledExactly(items[i], s);
    }
  }

  lemma {:induction false} SuccessesExactly(c: Conventions, responses: Json, terminal: Json)
    ensures SuccessStatuses(c, responses, terminal).Some? <==> StatusesGiven(c, responses, terminal)
    ensures SuccessStatuses(c, responses, terminal).Some? ==>
      forall s :: s in SuccessStatuses(c, responses, terminal).value <==> Succeeds(c, responses, terminal, s)
  {
    if responses.Obj? && terminal.Arr? {
      var keys := Keys(responses.fields);
      forall s ensures Has(responses, s) <==> s in keys {
        KeyPresent(responses, s);
      }
      forall i | 0 <= i < |terminal.items|
        ensures TerminalOk(terminal.items[i], keys) <==> exists s :: Spelled(terminal.items[i], s) && Has(responses, s)
      {
        TerminalExactly(terminal.items, keys, i);
      }
      if forall i :: 0 <= i < |terminal.items| ==> TerminalOk(terminal.items[i], keys) {
        var all := (set k | k in keys && c.success(k)) + Terminal(terminal.items);
        forall s ensures s in all <==> Succeeds(c, responses, terminal, s) {
          TerminalMembers(terminal.items, s);
          if s in Terminal(terminal.items) {
            var i :| 0 <= i < |terminal.items| && Spelled(terminal.items[i], s);
            SpelledExactly(terminal.items[i], s);
          }
        }
        assert all == {} <==> forall s :: s !in all;
      }
    }
  }

  /** One row of a status: of one entry of its content table, or without media type if there is none. */
  ghost predicate RowFrom(c: Conventions, resolve: Resolver, entries: seq<Field>, r: Response) {
    if entries == [] then r.mediaType.None? && r.schema == NoSchema
    else exists e :: e in entries && MediaFor(c, resolve, e, Media(r.mediaType, r.schema))
  }

  ghost predicate RowUnder(c: Conventions, resolve: Resolver, response: Json, r: Response) {
    exists t, entries :: LeadsTo(resolve, response, t) && Offers(t, entries) && RowFrom(c, resolve, entries, r)
  }

  ghost predicate Listable(c: Conventions, resolve: Resolver, entries: seq<Field>) {
    forall e :: e in entries ==> exists m :: MediaFor(c, resolve, e, m)
  }

  /** Every entry of the status's content table has a media type and a schema with an identity. */
  ghost predicate ReadableUnder(c: Conventions, resolve: Resolver, response: Json) {
    exists t, entries :: LeadsTo(resolve, response, t) && Offers(t, entries) && Listable(c, resolve, entries)
  }

  lemma {:induction false} ListableExactly(c: Conventions, resolve: Resolver, status: string, entries: seq<Field>)
    requires WellFormed(Obj(entries))
    ensures Gather(Sort(entries, FieldLe), entry => OneRow(c, resolve, status, entry)).Some? <==> Listable(c, resolve, entries)
  {
    var f := (entry: Field) => OneRow(c, resolve, status, entry);
    var sorted := Sort(entries, FieldLe);
    GatherSome(sorted, f);
    forall e | e in entries ensures f(e).Some? <==> exists m :: MediaFor(c, resolve, e, m) {
      if f(e).Some? {
        MediaExactly(c, resolve, e, ProjectMedia(c, resolve, e).value);
      }
      if m :| MediaFor(c, resolve, e, m) {
        MediaExactly(c, resolve, e, m);
      }
    }
  }

  lemma {:induction false} ListedExactly(c: Conventions, resolve: Resolver, status: string, entries: seq<Field>, r: Response)
    requires WellFormed(Obj(entries)) && entries != []
    requires Gather(Sort(entries, FieldLe), entry => OneRow(c, resolve, status, entry)).Some?
    ensures r in Gather(Sort(entries, FieldLe), entry => OneRow(c, resolve, status, entry)).value <==>
      r.status == status && RowFrom(c, resolve, entries, r)
  {
    var f := (entry: Field) => OneRow(c, resolve, status, entry);
    GatherMembers(Sort(entries, FieldLe), f, r);
    forall e | e in entries
      ensures (f(e).Some? && r in f(e).value) <==> r.status == status && MediaFor(c, resolve, e, Media(r.mediaType, r.schema))
    {
      OneRowExactly(c, resolve, status, e, r);
    }
  }

  lemma {:induction false} OneRowExactly(c: Conventions, resolve: Resolver, status: string, e: Field, r: Response)
    requires WellFormed(e.value)
    ensures (OneRow(c, resolve, status, e).Some? && r in OneRow(c, resolve, status, e).value) <==>
      r.status == status && MediaFor(c, resolve, e, Media(r.mediaType, r.schema))
  {
    MediaExactly(c, resolve, e, Media(r.mediaType, r.schema));
  }

  /** The rows of one status. */
  lemma {:induction false} StatusExactly(c: Conventions, resolve: Resolver, status: string, response: Json)
    requires TidyTargets(resolve) && WellFormed(response)
    ensures StatusRows(c, resolve, status, response).Some? <==> ReadableUnder(c, resolve, response)
    ensures StatusRows(c, resolve, status, response).Some? ==>
      forall r :: r in StatusRows(c, resolve, status, response).value <==> r.status == status && RowUnder(c, resolve, response, r)
  {
    var found := Component(resolve, response);
    if found.Some? && ContentOf(found.value).Obj? {
      var t, entries := found.value, ContentOf(found.value).fields;
      ComponentExactly(resolve, response, t);
      OffersExactly(t, entries);
      OfferedWellFormed(resolve, response, t, entries);
      ListableExactly(c, resolve, status, entries);
      forall r ensures RowUnder(c, resolve, response, r) <==> RowFrom(c, resolve, entries, r) {
        OneOffer(c, resolve, response, t, entries);
      }
      assert ReadableUnder(c, resolve, response) <==> Listable(c, resolve, entries) by {
        OneOffer(c, resolve, response, t, entries);
      }
      if StatusRows(c, resolve, status, response).Some? && entries != [] {
        forall r ensures r in StatusRows(c, resolve, status, response).value <==> r.status == status && RowFrom(c, resolve, entries, r) {
          ListedExactly(c, resolve, status, entries, r);
        }
      }
    } else if t, entries :| LeadsTo(resolve, response, t) && Offers(t, entries) {
      ComponentExactly(resolve, response, t);
      OffersExactly(t, entries);
      assert false;
    }
  }

  /** A response has one component and one content table. */
  lemma {:induction false} OneOffer(c: Conventions, resolve: Resolver, response: Json, t: Json, entries: seq<Field>)
    requires LeadsTo(resolve, response, t) && Offers(t, entries)
    ensures forall u, es :: LeadsTo(resolve, response, u) && Offers(u, es) ==> u == t && es == entries
  {
  }

  /** Rows are listed by status, then media type, then the kind and name of the schema. */
  predicate Before(a: Response, b: Response) {
    var s, t := if a.mediaType.Some? then a.mediaType.value else "", if b.mediaType.Some? then b.mediaType.value else "";
    && StrLe(a.status, b.status)
    && (a.status == b.status ==> StrLe(s, t))
    && (a.status == b.status && s == t ==> SchemaBefore(a.schema, b.schema))
  }

  predicate SchemaBefore(x: SchemaId, y: SchemaId) {
    match x
    case InlineSchema(d) => y.InlineSchema? ==> StrLe(d, y.digest)
    case NoSchema => !y.InlineSchema?
    case RefSchema(r) => y.RefSchema? && StrLe(r, y.ref)
  }

  lemma {:induction false} KindNames()
    ensures StrLe("inline", "none") && StrLe("none", "ref") && StrLe("inline", "ref")
    ensures !StrLe("none", "inline") && !StrLe("ref", "none") && !StrLe("ref", "inline")
  {
  }

  lemma {:induction false} ListedBefore(a: Response, b: Response)
    requires ResponseLe(a, b)
    ensures Before(a, b)
  {
    KindNames();
    StrLeTotal(a.status, a.status);
    StrLeTotal(OrEmpty(a.mediaType), OrEmpty(a.mediaType));
  }

  /** The response rows are exactly those of the entries of the success statuses, in order. */
  ghost predicate ResponsesFor(c: Conventions, resolve: Resolver, responses: Json, terminal: Json, rs: seq<Response>) {
    && StatusesGiven(c, responses, terminal)
    && (forall s :: Succeeds(c, responses, terminal, s) ==> ReadableUnder(c, resolve, Get(responses, s)))
    && (forall r :: r in rs <==> Succeeds(c, responses, terminal, r.status) && RowUnder(c, resolve, Get(responses, r.status), r))
    && (forall i, j :: 0 <= i < j < |rs| ==> Before(rs[i], rs[j]))
  }

  // ---------------------------------------------------------------- the order of response rows

  function FirstKeys(r: Response): (string, string) { (r.status, OrEmpty(r.mediaType)) }

  function LastKeys(r: Response): (string, string) { (KindText(r.schema), ValueText(r.schema)) }

  predicate LexLe(a: (string, string), x: (string, string), b: (string, string), y: (string, string)) {
    if a == b then PairLe(x, y) else PairLe(a, b)
  }

  lemma {:induction false} LexTransitive(
      a: (string, string), x: (string, string), b: (string, string), y: (string, string), c: (string, string), z: (string, string))
    requires LinearOrder(PairLe) && LexLe(a, x, b, y) && LexLe(b, y, c, z)
    ensures LexLe(a, x, c, z)
  {
    if a != b && b != c {
      assert PairLe(a, b) && PairLe(b, c);
    }
  }

  lemma {:induction false} ResponseLex(a: Response, b: Response)
    ensures ResponseLe(a, b) <==> LexLe(FirstKeys(a), LastKeys(a), FirstKeys(b), LastKeys(b))
  {
  }

  lemma {:induction false} ResponsePreorder()
    ensures Preorder(ResponseLe)
  {
    PairOrder();
    forall a, b ensures ResponseLe(a, b) || ResponseLe(b, a) {
      ResponseLex(a, b);
      ResponseLex(b, a);
    }
    forall a, b, c | ResponseLe(a, b) && ResponseLe(b, c) ensures ResponseLe(a, c) {
      ResponseLex(a, b);
      ResponseLex(b, c);
      ResponseLex(a, c);
      LexTransitive(FirstKeys(a), LastKeys(a), FirstKeys(b), LastKeys(b), FirstKeys(c), LastKeys(c));
    }
  }

  lemma {:induction false} SuccessWellFormed(responses: Json, s: string)
    requires WellFormed(responses)
    ensures WellFormed(Get(responses, s))
  {
    GetWellFormed(responses, s);
  }

  lemma {:induction false} SortedBefore(rows: seq<Response>)
    ensures forall i, j :: 0 <= i < j < |rows| ==> Before(Sort(rows, ResponseLe)[i], Sort(rows, ResponseLe)[j])
  {
    ResponsePreorder();
    SortOrdered(rows, ResponseLe);
    var sorted := Sort(rows, ResponseLe);
    forall i, j | 0 <= i < j < |rows| ensures Before(sorted[i], sorted[j]) {
      ListedBefore(sorted[i], sorted[j]);
    }
  }

  /** The responses of an operation are projected exactly when its success statuses are given and readable, and then to
      exactly the rows of their entries. */
  lemma {:induction false} ResponsesExactly(c: Conventions, resolve: Resolver, responses: Json, terminal: Json)
    requires TidyTargets(resolve) && WellFormed(responses)
    ensures var rows := ProjectResponses(c, resolve, responses, terminal);
      && (rows.Some? <==>
            (StatusesGiven(c, responses, terminal)
             && forall s :: Succeeds(c, responses, terminal, s) ==> ReadableUnder(c, resolve, Get(responses, s))))
      && (rows.Some? ==> ResponsesFor(c, resolve, responses, terminal, rows.value))
  {
    SuccessesExactly(c, responses, terminal);
    var statuses := SuccessStatuses(c, responses, terminal);
    if statuses.Some? {
      var listing := Listing(statuses.value, StatusLe);
      var f := status => StatusRows(c, resolve, status, Get(responses, status));
      GatherSome(listing, f);
      forall s ensures f(s).Some? <==> ReadableUnder(c, resolve, Get(responses, s)) {
        SuccessWellFormed(responses, s);
        StatusExactly(c, resolve, s, Get(responses, s));
      }
      var rows := Gather(listing, f);
      if rows.Some? {
        SortedBefore(rows.value);
        forall r ensures r in rows.value <==> r.status in statuses.value && RowUnder(c, resolve, Get(responses, r.status), r) {
          RowsGathered(c, resolve, responses, listing, r);
        }
      }
    }
  }

  lemma {:induction false} RowsGathered(c: Conventions, resolve: Resolver, responses: Json, listing: seq<string>, r: Response)
    requires TidyTargets(resolve) && WellFormed(responses)
    requires Gather(listing, status => StatusRows(c, resolve, status, Get(responses, status))).Some?
    ensures r in Gather(listing, status => StatusRows(c, resolve, status, Get(responses, status))).value <==>
      r.status in listing && RowUnder(c, resolve, Get(responses, r.status), r)
  {
    var f := status => StatusRows(c, resolve, status, Get(responses, status));
    GatherMembers(listing, f, r);
    GatherSome(listing, f);
    forall s | s in listing ensures r in f(s).value <==> r.status == s && RowUnder(c, resolve, Get(responses, s), r) {
      SuccessWellFormed(responses, s);
      StatusExactly(c, resolve, s, Get(responses, s));
    }
  }
}
