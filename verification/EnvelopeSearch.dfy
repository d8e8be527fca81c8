/** The search for the Envelope schema through a document whose references may form cycles.
    List items share one set of visited references, dict values each get a copy of it. */
module EnvelopeSearch {
  import opened JsonValues
  import opened JsonPointer

  const ENVELOPE := "#/components/schemas/Envelope"

  /** Yes and No are the booleans returned; Crash is any exception. */
  datatype Verdict = Yes | No | Crash

  predicate Truthy(j: Json) {
    match j
    case Null => false
    case Bool(b) => b
    case Num(n) => n != 0
    case Str(s) => s != []
    case Arr(items) => items != []
    case Obj(fs) => fs != []
  }

  /** A dict whose "$ref" is truthy: the search follows it and ignores its other keys. */
  predicate IsRef(j: Json) { Truthy(Get(j, "$ref")) }

  // ---------------------------------------------------------------- references of a document

  /** Every string under a "$ref" key anywhere in the document: what can ever be marked as visited. */
  ghost function Refs(j: Json): set<string>
    decreases j, 0
  {
    match j
    case Arr(items) => RefsOfItems(items)
    case Obj(fs) => RefsOfFields(fs)
    case _ => {}
  }

  ghost function RefsOfItems(items: seq<Json>): set<string>
    decreases items, 1
  {
    if items == [] then {} else Refs(items[0]) + RefsOfItems(items[1..])
  }

  ghost function RefsOfFields(fs: seq<Field>): set<string>
    decreases fs, 1
  {
    if fs == [] then {}
    else (if fs[0].key == "$ref" && fs[0].value.Str? then {fs[0].value.s} else {})
         + Refs(fs[0].value) + RefsOfFields(fs[1..])
  }

  lemma {:induction false} RefsOfFound(fs: seq<Field>, key: string)
    requires Find(fs, key).Some?
    ensures Refs(Find(fs, key).value) <= RefsOfFields(fs)
    ensures key == "$ref" && Find(fs, key).value.Str? ==> Find(fs, key).value.s in RefsOfFields(fs)
  {
    if fs[0].key != key {
      RefsOfFound(fs[1..], key);
    }
  }

  lemma {:induction false} RefsOfItem(items: seq<Json>, i: nat)
    requires i < |items|
    ensures Refs(items[i]) <= RefsOfItems(items)
  {
    if i > 0 {
      RefsOfItem(items[1..], i - 1);
    }
  }

  lemma {:induction false} RefsOfField(fs: seq<Field>, i: nat)
    requires i < |fs|
    ensures Refs(fs[i].value) <= RefsOfFields(fs)
  {
    if i > 0 {
      RefsOfField(fs[1..], i - 1);
    }
  }

  lemma {:induction false} RefsOfWalk(j: Json, tokens: seq<string>)
    requires Walk(j, tokens).Some?
    ensures Refs(Walk(j, tokens).value) <= Refs(j)
    decreases tokens
  {
    if tokens == [] {
    } else {
      RefsOfFound(j.fields, Unescape(tokens[0]));
      RefsOfWalk(Get(j, Unescape(tokens[0])), tokens[1..]);
    }
  }

  lemma {:induction false} RefsOfTarget(spec: Json, ref: string)
    requires Resolve(spec, ref).Some?
    ensures Refs(Resolve(spec, ref).value) <= Refs(spec)
  {
    RefsOfWalk(spec, Text.Split(ref[2..], '/'));
  }

  /** The references a search in `spec` from a value with references `local` can still visit. */
  ghost function Unseen(spec: Json, local: set<string>, seen: set<string>): set<string> {
    (Refs(spec) + local) - seen
  }

  lemma {:induction false} UnseenShrinks(spec: Json, smaller: set<string>, larger: set<string>, before: set<string>, after: set<string>)
    requires smaller <= Refs(spec) + larger && before <= after
    ensures Unseen(spec, smaller, after) <= Unseen(spec, larger, before)
    ensures Unseen(spec, smaller, after) == Unseen(spec, larger, before)
         || Unseen(spec, smaller, after) < Unseen(spec, larger, before)
  {
  }

  lemma {:induction false} UnseenVisit(spec: Json, j: Json, ref: string, seen: set<string>)
    requires Get(j, "$ref") == Str(ref) && ref !in seen && Resolve(spec, ref).Some?
    ensures Unseen(spec, Refs(Resolve(spec, ref).value), seen + {ref}) < Unseen(spec, Refs(j), seen)
  {
    RefsOfFound(j.fields, "$ref");
    RefsOfTarget(spec, ref);
    assert ref in Unseen(spec, Refs(j), seen);
  }

  // ---------------------------------------------------------------- the search

  /** The verdict of `schema_refs_envelope` and the contents of `seen` when it returns. */
  ghost function Search(spec: Json, schema: Json, seen: set<string>): (r: (Verdict, set<string>))
    ensures seen <= r.1
    decreases Unseen(spec, Refs(schema), seen), schema, 0
  {
    if schema.Arr? then SearchItems(spec, schema.items, seen)
    else if !schema.Obj? then (No, seen)
    else if IsRef(schema) then
      var ref := Get(schema, "$ref");
      if !ref.Str? then (Crash, seen)
      else if ref.s == ENVELOPE then (Yes, seen)
      else if ref.s in seen then (No, seen)
      else
        var target := Resolve(spec, ref.s);
        if target.None? then (Crash, seen + {ref.s})
        else
          UnseenVisit(spec, schema, ref.s, seen);
          Search(spec, target.value, seen + {ref.s})
    else (SearchValues(spec, schema.fields, seen), seen)
  }

  /** `any(...)` over the items of a list, one shared `seen`. */
  ghost function SearchItems(spec: Json, items: seq<Json>, seen: set<string>): (r: (Verdict, set<string>))
    ensures seen <= r.1
    decreases Unseen(spec, RefsOfItems(items), seen), items, 1
  {
    if items == [] then (No, seen)
    else
      UnseenShrinks(spec, Refs(items[0]), RefsOfItems(items), seen, seen);
      var (verdict, after) := Search(spec, items[0], seen);
      if verdict != No then (verdict, after)
      else
        UnseenShrinks(spec, RefsOfItems(items[1..]), RefsOfItems(items), seen, after);
        SearchItems(spec, items[1..], after)
  }

  /** `any(...)` over the values of a dict, each with its own copy of `seen`. */
  ghost function SearchValues(spec: Json, fs: seq<Field>, seen: set<string>): Verdict
    decreases Unseen(spec, RefsOfFields(fs), seen), fs, 1
  {
    if fs == [] then No
    else
      UnseenShrinks(spec, Refs(fs[0].value), RefsOfFields(fs), seen, seen);
      var verdict := Search(spec, fs[0].value, seen).0;
      if verdict != No then verdict
      else
        UnseenShrinks(spec, RefsOfFields(fs[1..]), RefsOfFields(fs), seen, seen);
        SearchValues(spec, fs[1..], seen)
  }

  /** The mutable set Python passes by reference. */
  class SeenRefs {
    var refs: set<string>

    constructor (refs: set<string>)
      ensures this.refs == refs
    {
      this.refs := refs;
    }
  }

  method SchemaRefsEnvelope(spec: Json, schema: Json, seen: SeenRefs) returns (verdict: Verdict)
    modifies seen
    ensures (verdict, seen.refs) == Search(spec, schema, old(seen.refs))
    decreases Unseen(spec, Refs(schema), seen.refs), schema
  {
    if schema.Arr? {
      var i := 0;
      while i < |schema.items|
        invariant 0 <= i <= |schema.items|
        invariant old(seen.refs) <= seen.refs
        invariant Search(spec, schema, old(seen.refs)) == SearchItems(spec, schema.items[i..], seen.refs)
      {
        RefsOfItem(schema.items, i);
        UnseenShrinks(spec, Refs(schema.items[i]), Refs(schema), old(seen.refs), seen.refs);
        verdict := SchemaRefsEnvelope(spec, schema.items[i], seen);
        if verdict != No {
          return;
        }
        i := i + 1;
      }
      return No;
    }
    if !schema.Obj? {
      return No;
    }
    if IsRef(schema) {
      var ref := Get(schema, "$ref");
      if !ref.Str? {
        return Crash;
      }
      if ref.s == ENVELOPE {
        return Yes;
      }
      if ref.s in seen.refs {
        return No;
      }
      ghost var before := seen.refs;
      seen.refs := seen.refs + {ref.s};
      var target := ResolveRef(spec, ref.s);
      if target.None? {
        return Crash;
      }
      UnseenVisit(spec, schema, ref.s, before);
      verdict := SchemaRefsEnvelope(spec, target.value, seen);
      return;
    }
    var i := 0;
    while i < |schema.fields|
      invariant 0 <= i <= |schema.fields|
      invariant seen.refs == old(seen.refs)
      invariant Search(spec, schema, seen.refs) == (SearchValues(spec, schema.fields[i..], seen.refs), seen.refs)
    {
      RefsOfField(schema.fields, i);
      UnseenShrinks(spec, Refs(schema.fields[i].value), Refs(schema), seen.refs, seen.refs);
      var copy := new SeenRefs(seen.refs);
      verdict := SchemaRefsEnvelope(spec, schema.fields[i].value, copy);
      if verdict != No {
        return;
      }
      i := i + 1;
    }
    return No;
  }

  // ---------------------------------------------------------------- responses

  /** `dig(response, "content", "application/json")`; null where a level is missing. */
  function JsonContent(response: Json): Json {
    Get(Get(response, "content"), "application/json")
  }

  /** A response that is not a reference: without JSON content it passes. */
  ghost function ResponseBody(spec: Json, response: Json): Verdict {
    if !response.Obj? then No
    else if !JsonContent(response).Obj? then Yes
    else Search(spec, Get(JsonContent(response), "schema"), {}).0
  }

  /** The verdict of `response_refs_envelope`. */
  ghost function SearchResponse(spec: Json, response: Json, seen: set<string>): Verdict
    decreases Unseen(spec, Refs(response), seen)
  {
    if IsRef(response) then
      var ref := Get(response, "$ref");
      if !ref.Str? then Crash
      else if ref.s in seen then No
      else
        var target := Resolve(spec, ref.s);
        if target.None? then Crash
        else
          UnseenVisit(spec, response, ref.s, seen);
          SearchResponse(spec, target.value, seen + {ref.s})
    else ResponseBody(spec, response)
  }

  /** The marks that `response_refs_envelope` leaves: the references it followed; the schema has marks of its own. */
  ghost function ResponseMarks(spec: Json, response: Json, seen: set<string>): (marks: set<string>)
    ensures seen <= marks
    decreases Unseen(spec, Refs(response), seen)
  {
    var ref := Get(response, "$ref");
    if !IsRef(response) || !ref.Str? || ref.s in seen then seen
    else
      var target := Resolve(spec, ref.s);
      if target.None? then seen + {ref.s}
      else
        UnseenVisit(spec, response, ref.s, seen);
        ResponseMarks(spec, target.value, seen + {ref.s})
  }

  method ResponseRefsEnvelope(spec: Json, response: Json, seen: SeenRefs) returns (verdict: Verdict)
    modifies seen
    ensures verdict == SearchResponse(spec, response, old(seen.refs))
    ensures seen.refs == ResponseMarks(spec, response, old(seen.refs))
    decreases Unseen(spec, Refs(response), seen.refs)
  {
    if IsRef(response) {
      var ref := Get(response, "$ref");
      if !ref.Str? {
        return Crash;
      }
      if ref.s in seen.refs {
        return No;
      }
      ghost var before := seen.refs;
      seen.refs := seen.refs + {ref.s};
      var target := ResolveRef(spec, ref.s);
      if target.None? {
        return Crash;
      }
      UnseenVisit(spec, response, ref.s, before);
      verdict := ResponseRefsEnvelope(spec, target.value, seen);
      return;
    }
    if !response.Obj? {
      return No;
    }
    var content := JsonContent(response);
    if !content.Obj? {
      return Yes;
    }
    var visited := new SeenRefs({});
    verdict := SchemaRefsEnvelope(spec, Get(content, "schema"), visited);
  }
}
