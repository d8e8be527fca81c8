/** Which texts are read as which media types. */
module MediaMeaning {
  import opened Text
  import opened JsonValues
  import opened MediaTypes

  // ---------------------------------------------------------------- letters and quotes

  /** Upper-case letters are lowered, every other character stays. */
  lemma {:induction false} LowerExactly(c: char)
    ensures forall k :: 0 <= k < 26 && c == "ABCDEFGHIJKLMNOPQRSTUVWXYZ"[k] ==> Lower(c) == "abcdefghijklmnopqrstuvwxyz"[k]
    ensures c !in "ABCDEFGHIJKLMNOPQRSTUVWXYZ" ==> Lower(c) == c
  {
    var upper := "ABCDEFGHIJKLMNOPQRSTUVWXYZ";
    if 'A' <= c <= 'Z' {
      var k := c as int - 'A' as int;
      assert upper[k] == c;
    }
  }

  predicate Quotes(s: string) { forall i :: 0 <= i < |s| ==> s[i] == '"' }

  predicate Bare(s: string) { s == "" || (s[0] != '"' && s[|s| - 1] != '"') }

  lemma {:induction false} LeftCut(s: string)
    ensures Quotes(s[..|s| - |UnquoteLeft(s)|])
  {
    if s != "" && s[0] == '"' {
      LeftCut(s[1..]);
      var k := |s| - |UnquoteLeft(s)|;
      forall i | 0 <= i < k ensures s[i] == '"' {
        assert i > 0 ==> s[i] == s[1..][..k - 1][i - 1];
      }
    }
  }

  lemma {:induction false} RightCut(s: string)
    ensures Quotes(s[|UnquoteRight(s)|..])
  {
    if s != "" && s[|s| - 1] == '"' {
      var n := |s| - 1;
      RightCut(s[..n]);
      var k := |UnquoteRight(s)|;
      forall i | k <= i < |s| ensures s[i] == '"' {
        assert i < n ==> s[i] == s[..n][k..][i - k];
      }
    }
  }

  lemma {:induction false} LeftSkips(a: string, t: string)
    requires Quotes(a)
    ensures UnquoteLeft(a + t) == UnquoteLeft(t)
  {
    if a == "" {
      assert a + t == t;
    } else {
      assert (a + t)[1..] == a[1..] + t;
      assert Quotes(a[1..]);
      LeftSkips(a[1..], t);
    }
  }

  lemma {:induction false} RightSkips(t: string, b: string)
    requires Quotes(b)
    ensures UnquoteRight(t + b) == UnquoteRight(t)
  {
    if b == "" {
      assert t + b == t;
    } else {
      var c := b[..|b| - 1];
      assert (t + b)[..|t + b| - 1] == t + c;
      assert Quotes(c);
      RightSkips(t, c);
    }
  }

  lemma {:induction false} ThreeParts(s: string, l: string, t: string)
    requires |l| <= |s| && l == s[|s| - |l|..] && t <= l
    ensures s == s[..|s| - |l|] + t + l[|t|..]
  {
    var a := s[..|s| - |l|];
    assert s == a + l && l == t + l[|t|..];
    Regroup(a, t, l[|t|..]);
  }

  lemma {:induction false} LeftFacts(s: string, l: string)
    requires l == UnquoteLeft(s)
    ensures |l| <= |s| && l == s[|s| - |l|..] && Quotes(s[..|s| - |l|]) && (l != "" ==> l[0] != '"')
  {
    LeftCut(s);
  }

  lemma {:induction false} RightFacts(l: string, t: string)
    requires t == UnquoteRight(l)
    ensures t <= l && Quotes(l[|t|..]) && (t != "" ==> t[|t| - 1] != '"')
  {
    RightCut(l);
  }

  /** The text is `t` between quotes, and `t` neither starts nor ends with one. */
  ghost predicate Between(s: string, t: string) { Bare(t) && exists a, b :: Quotes(a) && Quotes(b) && s == a + t + b }

  lemma {:induction false} CutBetween(s: string, l: string, t: string)
    requires |l| <= |s| && l == s[|s| - |l|..] && Quotes(s[..|s| - |l|]) && (l != "" ==> l[0] != '"')
    requires t <= l && Quotes(l[|t|..]) && (t != "" ==> t[|t| - 1] != '"')
    ensures Between(s, t)
  {
    ThreeParts(s, l, t);
    assert t != "" ==> t[0] == l[0];
  }

  lemma {:induction false} UnquotedEnds(s: string)
    ensures Between(s, Unquote(s))
  {
    var l := UnquoteLeft(s);
    LeftFacts(s, l);
    RightFacts(l, UnquoteRight(l));
    CutBetween(s, l, UnquoteRight(l));
  }

  lemma {:induction false} EndsUnquoted(a: string, t: string, b: string)
    requires Bare(t) && Quotes(a) && Quotes(b)
    ensures Unquote(a + t + b) == t
  {
    assert a + t + b == a + (t + b);
    LeftSkips(a, t + b);
    if t == "" {
      assert t + b == b + "";
      LeftSkips(b, "");
    } else {
      assert UnquoteLeft(t + b) == t + b;
      RightSkips(t, b);
    }
  }

  /** Stripping quotes takes them off both ends and nothing else: this determines the result. */
  lemma {:induction false} UnquoteExactly(s: string, t: string)
    ensures Unquote(s) == t <==> Between(s, t)
  {
    UnquotedEnds(s);
    if Between(s, t) {
      var a, b :| Quotes(a) && Quotes(b) && s == a + t + b;
      EndsUnquoted(a, t, b);
    }
  }

  // ---------------------------------------------------------------- parameters

  /** The text before the first `=`, stripped and lowered, is the name; the text after it, stripped, lowered and without quotes
      at its ends, is the value; neither is empty. */
  ghost predicate IsParameter(part: string, p: Parameter) {
    exists n, v :: '=' !in n && Trim(part) == n + "=" + v
      && p.name == LowerText(Trim(n)) && p.name != "" && p.value == Unquote(LowerText(Trim(v))) && p.value != ""
  }

  lemma {:induction false} CutExactly(s: string, c: char, n: string, v: string)
    ensures CutAt(s, c) == Some((n, v)) <==> c !in n && s == n + [c] + v
  {
    if CutAt(s, c) == Some((n, v)) {
      CutWhole(s, c);
    }
    if c !in n && s == n + [c] + v {
      assert Free(n, c);
      CutAtSeparator(n, c, v);
    }
  }

  lemma {:induction false} CutWhole(s: string, c: char)
    requires CutAt(s, c).Some?
    ensures var (n, v) := CutAt(s, c).value; c !in n && s == n + [c] + v
  {
    if s[0] == c {
      assert s == [] + [c] + s[1..];
    } else {
      CutWhole(s[1..], c);
      var (n, v) := CutAt(s[1..], c).value;
      assert s == [s[0]] + s[1..] == ([s[0]] + n) + [c] + v;
    }
  }

  lemma {:induction false} ParameterExactly(part: string, p: Parameter)
    ensures ParseParameter(part) == Some(p) <==> IsParameter(part, p)
  {
    var cut := CutAt(Trim(part), '=');
    if cut.Some? {
      CutExactly(Trim(part), '=', cut.value.0, cut.value.1);
    }
    if IsParameter(part, p) {
      var n, v :| '=' !in n && Trim(part) == n + "=" + v
        && p.name == LowerText(Trim(n)) && p.name != "" && p.value == Unquote(LowerText(Trim(v))) && p.value != "";
      CutExactly(Trim(part), '=', n, v);
    }
  }

  // ---------------------------------------------------------------- the whole text

  lemma {:induction false} AllRead(parts: seq<string>, found: seq<Parameter>, read: string -> Option<Parameter>)
    requires DistinctNames(found) && ParseParameters(parts, found, read).Some?
    ensures var ps := ParseParameters(parts, found, read).value;
      && |ps| == |found| + |parts| && ps[..|found|] == found && DistinctNames(ps)
      && forall i :: 0 <= i < |parts| ==> read(parts[i]) == Some(ps[|found| + i])
  {
    if parts == [] {
      assert found[..|found|] == found;
    } else {
      var more := found + [read(parts[0]).value];
      assert DistinctNames(more);
      AllRead(parts[1..], more, read);
      var ps := ParseParameters(parts, found, read).value;
      assert ps[..|found|] == ps[..|more|][..|found|] == found;
      assert ps[|found|] == ps[..|more|][|found|];
      forall i | 0 <= i < |parts| ensures read(parts[i]) == Some(ps[|found| + i]) {
        assert i > 0 ==> parts[i] == parts[1..][i - 1];
      }
    }
  }

  /** The parts of a text, cut at its semicolons: a base with a slash, and parameters of different names. */
  ghost predicate Denotes(parts: seq<string>, m: Media) {
    && parts != [] && m.base == LowerText(Trim(parts[0])) && '/' in m.base
    && |parts| == |m.parameters| + 1 && DistinctNames(m.parameters)
    && forall i :: 0 <= i < |m.parameters| ==> IsParameter(parts[i + 1], m.parameters[i])
  }

  lemma {:induction false} EachRead(parts: seq<string>, read: string -> Option<Parameter>)
    requires ParseParameters(parts, [], read).Some?
    ensures var ps := ParseParameters(parts, [], read).value;
      |ps| == |parts| && DistinctNames(ps) && forall i :: 0 <= i < |parts| ==> read(parts[i]) == Some(ps[i])
  {
    AllRead(parts, [], read);
  }

  lemma {:induction false} ReadDenotes(parts: seq<string>)
    requires parts != [] && ParseParts(parts).Some?
    ensures Denotes(parts, ParseParts(parts).value)
  {
    var rest, m := parts[1..], ParseParts(parts).value;
    EachRead(rest, ParseParameter);
    forall i | 0 <= i < |m.parameters| ensures IsParameter(parts[i + 1], m.parameters[i]) {
      assert rest[i] == parts[i + 1];
      ParameterExactly(rest[i], m.parameters[i]);
    }
  }

  lemma {:induction false} DenotedParameters(parts: seq<string>, m: Media)
    requires Denotes(parts, m)
    ensures forall i :: 0 <= i < |parts[1..]| ==> ParseParameter(parts[1..][i]) == Some(m.parameters[i])
  {
    forall i | 0 <= i < |parts[1..]| ensures ParseParameter(parts[1..][i]) == Some(m.parameters[i]) {
      assert parts[1..][i] == parts[i + 1];
      ParameterExactly(parts[i + 1], m.parameters[i]);
    }
  }

  lemma {:induction false} ReadInTurn(parts: seq<string>, ps: seq<Parameter>, read: string -> Option<Parameter>)
    requires |parts| == |ps| && (forall i :: 0 <= i < |parts| ==> read(parts[i]) == Some(ps[i])) && DistinctNames(ps)
    ensures ParseParameters(parts, [], read) == Some(ps)
  {
    ParametersRoundTrip(parts, ps, 0, read);
    assert parts[0..] == parts && ps[..0] == [];
  }

  lemma {:induction false} DenotedRead(parts: seq<string>, m: Media)
    requires Denotes(parts, m)
    ensures ParseParts(parts) == Some(m)
  {
    DenotedParameters(parts, m);
    ReadInTurn(parts[1..], m.parameters, ParseParameter);
  }

  lemma {:induction false} PartsExactly(parts: seq<string>, m: Media)
    requires parts != []
    ensures ParseParts(parts) == Some(m) <==> Denotes(parts, m)
  {
    if ParseParts(parts) == Some(m) {
      ReadDenotes(parts);
    }
    if Denotes(parts, m) {
      DenotedRead(parts, m);
    }
  }

  /** A text is read as a media type exactly if it is made of parts, joined by semicolons, that denote it. */
  lemma {:induction false} ParseExactly(text: string, m: Media)
    ensures Parse(text) == Some(m) <==>
      exists parts :: (forall i :: 0 <= i < |parts| ==> ';' !in parts[i]) && text == Join(parts, ';') && Denotes(parts, m)
  {
    if Parse(text) == Some(m) {
      var parts := Split(text, ';');
      JoinSplit(text, ';');
      SplitParts(text, ';');
      PartsExactly(parts, m);
      forall i | 0 <= i < |parts| ensures ';' !in parts[i] {
        assert Free(parts[i], ';');
      }
    }
    if exists parts :: (forall i :: 0 <= i < |parts| ==> ';' !in parts[i]) && text == Join(parts, ';') && Denotes(parts, m) {
      var parts :| (forall i :: 0 <= i < |parts| ==> ';' !in parts[i]) && text == Join(parts, ';') && Denotes(parts, m);
      forall i | 0 <= i < |parts| ensures Free(parts[i], ';') {
      }
      SplitJoin(parts, ';');
      PartsExactly(parts, m);
      NotBlank(text);
    }
  }

  /** A JSON media type is one with the base `application/json` or a base that ends in `+json`. */
  lemma {:induction false} JsonExactly(text: string)
    ensures JsonMedia(text) <==>
      exists m :: Parse(text) == Some(m) && (m.base == "application/json" || exists stem :: m.base == stem + "+json")
  {
    if Parse(text).Some? {
      var base := Parse(text).value.base;
      if EndsWith(base, "+json") {
        assert base == base[..|base| - 5] + "+json";
      }
    }
  }
}
