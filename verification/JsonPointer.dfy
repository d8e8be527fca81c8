/** JSON Pointer fragments (RFC 6901, sections 3, 4 and 6) as both contract scripts resolve them. */
module JsonPointer {
  import opened Text
  import opened JsonValues

  /** `s.replace(ab, c)` for a two-character pattern: left to right, without overlap. */
  function ReplacePair(s: string, a: char, b: char, c: char): string {
    if s == [] then []
    else if |s| > 1 && s[0] == a && s[1] == b then [c] + ReplacePair(s[2..], a, b, c)
    else [s[0]] + ReplacePair(s[1..], a, b, c)
  }

  /** One reference token, decoded: first `~1`, then `~0`. */
  function Unescape(token: string): string {
    ReplacePair(ReplacePair(token, '~', '1', '/'), '~', '0', '~')
  }

  function Walk(j: Json, tokens: seq<string>): Option<Json>
    decreases tokens
  {
    if tokens == [] then Some(j)
    else if Has(j, Unescape(tokens[0])) then Walk(Get(j, Unescape(tokens[0])), tokens[1..])
    else None
  }

  /** What `resolve_ref` returns; None is its exception. */
  function Resolve(spec: Json, ref: string): Option<Json> {
    if "#/" <= ref then Walk(spec, Split(ref[2..], '/')) else None
  }

  method ResolveRef(spec: Json, ref: string) returns (r: Option<Json>)
    ensures r == Resolve(spec, ref)
  {
    if !("#/" <= ref) {
      return None;
    }
    var tokens := Split(ref[2..], '/');
    var current := spec;
    var i := 0;
    while i < |tokens|
      invariant 0 <= i <= |tokens|
      invariant Resolve(spec, ref) == Walk(current, tokens[i..])
    {
      var part := Unescape(tokens[i]);
      if !Has(current, part) {
        return None;
      }
      current := Get(current, part);
      i := i + 1;
    }
    return Some(current);
  }

  // ---------------------------------------------------------------- round trip

  /** RFC 6901 escaping of an object key. */
  function Escape(key: string): (s: string)
    ensures Free(s, '/')
  {
    if key == [] then []
    else (if key[0] == '~' then "~0" else if key[0] == '/' then "~1" else [key[0]]) + Escape(key[1..])
  }

  function EscapeAll(keys: seq<string>): (r: seq<string>)
    ensures |r| == |keys| && forall i :: 0 <= i < |r| ==> r[i] == Escape(keys[i])
  {
    if keys == [] then [] else [Escape(keys[0])] + EscapeAll(keys[1..])
  }

  function Pointer(keys: seq<string>): string {
    "#/" + Join(EscapeAll(keys), '/')
  }

  /** The subtree under a path of object keys. */
  function AtPath(j: Json, keys: seq<string>): Option<Json>
    decreases keys
  {
    if keys == [] then Some(j)
    else if Has(j, keys[0]) then AtPath(Get(j, keys[0]), keys[1..])
    else None
  }

  function EscapeTildes(key: string): string {
    if key == [] then [] else (if key[0] == '~' then "~0" else [key[0]]) + EscapeTildes(key[1..])
  }

  /** A character that starts no pair stays. */
  lemma {:induction false} Passes(c: char, s: string, a: char, b: char, to: char)
    requires c != a || s == "" || s[0] != b
    ensures ReplacePair([c] + s, a, b, to) == [c] + ReplacePair(s, a, b, to)
  {
    assert ([c] + s)[1..] == s;
  }

  lemma {:induction false} Replaces(s: string, a: char, b: char, to: char)
    ensures ReplacePair([a] + ([b] + s), a, b, to) == [to] + ReplacePair(s, a, b, to)
  {
    assert ([a] + ([b] + s))[2..] == s;
  }

  lemma {:induction false} FirstPassTilde(e: string)
    ensures ReplacePair("~0" + e, '~', '1', '/') == "~0" + ReplacePair(e, '~', '1', '/')
  {
    Passes('~', ['0'] + e, '~', '1', '/');
    Passes('0', e, '~', '1', '/');
    assert "~0" + e == ['~'] + (['0'] + e);
    assert "~0" + ReplacePair(e, '~', '1', '/') == ['~'] + (['0'] + ReplacePair(e, '~', '1', '/'));
  }

  lemma {:induction false} PassReplaces(e: string, b: char, to: char)
    ensures ReplacePair(['~', b] + e, '~', b, to) == [to] + ReplacePair(e, '~', b, to)
  {
    Replaces(e, '~', b, to);
    assert ['~', b] + e == ['~'] + ([b] + e);
  }

  lemma {:induction false} FirstPass(key: string)
    ensures ReplacePair(Escape(key), '~', '1', '/') == EscapeTildes(key)
  {
    if key == [] {
    } else {
      var e := Escape(key[1..]);
      FirstPass(key[1..]);
      if key[0] == '~' {
        FirstPassTilde(e);
      } else if key[0] == '/' {
        PassReplaces(e, '1', '/');
      } else {
        Passes(key[0], e, '~', '1', '/');
      }
    }
  }

  lemma {:induction false} SecondPass(key: string)
    ensures ReplacePair(EscapeTildes(key), '~', '0', '~') == key
  {
    if key == [] {
    } else {
      var e := EscapeTildes(key[1..]);
      SecondPass(key[1..]);
      if key[0] == '~' {
        PassReplaces(e, '0', '~');
      } else {
        Passes(key[0], e, '~', '0', '~');
      }
      assert key == [key[0]] + key[1..];
    }
  }

  lemma {:induction false} UnescapeEscape(key: string)
    ensures Unescape(Escape(key)) == key
  {
    FirstPass(key);
    SecondPass(key);
  }

  lemma {:induction false} WalkEscaped(j: Json, keys: seq<string>)
    ensures Walk(j, EscapeAll(keys)) == AtPath(j, keys)
    decreases keys
  {
    if keys == [] {
    } else {
      UnescapeEscape(keys[0]);
      assert EscapeAll(keys)[1..] == EscapeAll(keys[1..]);
      if Has(j, keys[0]) {
        WalkEscaped(Get(j, keys[0]), keys[1..]);
      }
    }
  }

  /** Escaping and joining a path of keys, whatever characters they hold, names exactly its subtree. */
  lemma {:induction false} PointerRoundTrip(spec: Json, keys: seq<string>)
    requires keys != []
    ensures Resolve(spec, Pointer(keys)) == AtPath(spec, keys)
  {
    SplitJoin(EscapeAll(keys), '/');
    assert Pointer(keys)[2..] == Join(EscapeAll(keys), '/');
    WalkEscaped(spec, keys);
  }

  /** Different key paths have different pointers. */
  lemma {:induction false} PointerInjective(a: seq<string>, b: seq<string>)
    requires a != [] && b != [] && Pointer(a) == Pointer(b)
    ensures a == b
  {
    var s, t := EscapeAll(a), EscapeAll(b);
    assert Pointer(a)[2..] == Join(s, '/') && Pointer(b)[2..] == Join(t, '/');
    SplitJoin(s, '/');
    SplitJoin(t, '/');
    forall i | 0 <= i < |a| ensures a[i] == b[i] {
      UnescapeEscape(a[i]);
      UnescapeEscape(b[i]);
      assert s[i] == t[i];
    }
  }

  /** A document changed by key order alone answers every pointer alike, up to key order. */
  lemma {:induction false} WalkCanon(j: Json, tokens: seq<string>)
    requires WellFormed(j)
    ensures Walk(Canon(j), tokens) == (var r := Walk(j, tokens); if r.Some? then Some(Canon(r.value)) else None)
    ensures Walk(j, tokens).Some? ==> WellFormed(Walk(j, tokens).value)
    decreases tokens
  {
    if tokens == [] {
    } else {
      var key := Unescape(tokens[0]);
      CanonGet(j, key);
      GetWellFormed(j, key);
      if Has(j, key) {
        WalkCanon(Get(j, key), tokens[1..]);
      }
    }
  }

  function UnescapeAll(tokens: seq<string>): (r: seq<string>)
    ensures |r| == |tokens| && forall i :: 0 <= i < |r| ==> r[i] == Unescape(tokens[i])
  {
    if tokens == [] then [] else [Unescape(tokens[0])] + UnescapeAll(tokens[1..])
  }

  lemma {:induction false} WalkIsPath(j: Json, tokens: seq<string>)
    ensures Walk(j, tokens) == AtPath(j, UnescapeAll(tokens))
    decreases tokens
  {
    if tokens != [] {
      assert UnescapeAll(tokens)[1..] == UnescapeAll(tokens[1..]);
      if Has(j, Unescape(tokens[0])) {
        WalkIsPath(Get(j, Unescape(tokens[0])), tokens[1..]);
      }
    }
  }

  /** A reference resolves exactly if it is a local pointer, `#/` and tokens joined by slashes, whose decoded tokens lead from
      dict to dict; it resolves to what they lead to. */
  lemma {:induction false} ResolveExactly(spec: Json, ref: string, v: Json)
    ensures Resolve(spec, ref) == Some(v) <==>
      exists tokens :: tokens != [] && (forall i :: 0 <= i < |tokens| ==> '/' !in tokens[i]) && ref == "#/" + Join(tokens, '/')
        && AtPath(spec, UnescapeAll(tokens)) == Some(v)
  {
    if Resolve(spec, ref) == Some(v) {
      var tokens := Split(ref[2..], '/');
      SplitParts(ref[2..], '/');
      JoinSplit(ref[2..], '/');
      WalkIsPath(spec, tokens);
      forall i | 0 <= i < |tokens| ensures '/' !in tokens[i] {
        assert Free(tokens[i], '/');
      }
      assert ref == "#/" + ref[2..];
    }
    if exists tokens :: tokens != [] && (forall i :: 0 <= i < |tokens| ==> '/' !in tokens[i]) && ref == "#/" + Join(tokens, '/')
        && AtPath(spec, UnescapeAll(tokens)) == Some(v) {
      var tokens :| tokens != [] && (forall i :: 0 <= i < |tokens| ==> '/' !in tokens[i]) && ref == "#/" + Join(tokens, '/')
        && AtPath(spec, UnescapeAll(tokens)) == Some(v);
      forall i | 0 <= i < |tokens| ensures Free(tokens[i], '/') {
      }
      assert ref[2..] == Join(tokens, '/');
      SplitJoin(tokens, '/');
      WalkIsPath(spec, tokens);
    }
  }

  /** A token without tildes stands for itself. */
  lemma {:induction false} PlainToken(token: string)
    requires '~' !in token
    ensures Unescape(token) == token
  {
    PlainPair(token, '1', '/');
    PlainPair(token, '0', '~');
  }

  lemma {:induction false} PlainPair(s: string, b: char, c: char)
    requires '~' !in s
    ensures ReplacePair(s, '~', b, c) == s
  {
    if s != "" {
      assert s[0] in s;
      forall d | d in s[1..] ensures d in s {
      }
      PlainPair(s[1..], b, c);
    }
  }
}
