/** Media types as the frontend verifier reads them: a base and parameters, compared without regard to case. */
module MediaTypes {
  import opened Text
  import opened JsonValues

  datatype Parameter = Parameter(name: string, value: string)

  datatype Media = Media(base: string, parameters: seq<Parameter>)

  function Lower(c: char): char { if 'A' <= c <= 'Z' then (c as int + 32) as char else c }

  /** `s.lower()`, on ASCII letters. */
  function LowerText(s: string): (r: string)
    ensures |r| == |s| && forall i :: 0 <= i < |s| ==> r[i] == Lower(s[i])
  {
    seq(|s|, i requires 0 <= i < |s| => Lower(s[i]))
  }

  /** `s.split(c, 1)`: the text before and after the first `c`, if there is one. */
  function CutAt(s: string, c: char): Option<(string, string)> {
    if s == [] then None
    else if s[0] == c then Some(([], s[1..]))
    else
      var rest := CutAt(s[1..], c);
      if rest.None? then None else Some(([s[0]] + rest.value.0, rest.value.1))
  }

  function UnquoteLeft(s: string): (r: string)
    ensures r == [] || r[0] != '"'
    ensures |r| <= |s| && r == s[|s| - |r|..]
  {
    if s != [] && s[0] == '"' then UnquoteLeft(s[1..]) else s
  }

  function UnquoteRight(s: string): (r: string)
    ensures r == [] || r[|r| - 1] != '"'
    ensures r <= s
  {
    if s != [] && s[|s| - 1] == '"' then UnquoteRight(s[..|s| - 1]) else s
  }

  /** `s.strip('"')`. */
  function Unquote(s: string): string { UnquoteRight(UnquoteLeft(s)) }

  function ReadCut(cut: (string, string)): Option<Parameter> {
    var name, value := LowerText(Trim(cut.0)), Unquote(LowerText(Trim(cut.1)));
    if name == "" || value == "" then None else Some(Parameter(name, value))
  }

  function ParseParameter(part: string): Option<Parameter> {
    var cut := CutAt(Trim(part), '=');
    if cut.None? then None else ReadCut(cut.value)
  }

  predicate NameIn(name: string, ps: seq<Parameter>) { exists i :: 0 <= i < |ps| && ps[i].name == name }

  /** The remaining parts, each read by `read`, after the parameters found so far. */
  function ParseParameters(parts: seq<string>, found: seq<Parameter>, read: string -> Option<Parameter>): Option<seq<Parameter>> {
    if parts == [] then Some(found)
    else
      var p := read(parts[0]);
      if p.None? || NameIn(p.value.name, found) then None else ParseParameters(parts[1..], found + [p.value], read)
  }

  function Base(parts: seq<string>): string
    requires parts != []
  {
    LowerText(Trim(parts[0]))
  }

  function ParseParts(parts: seq<string>): Option<Media>
    requires parts != []
  {
    if '/' !in Base(parts) then None
    else
      var parameters := ParseParameters(parts[1..], [], ParseParameter);
      if parameters.None? then None else Some(Media(Base(parts), parameters.value))
  }

  /** The media type a text denotes, or None if it is rejected. */
  function Parse(text: string): Option<Media> { if Blank(text) then None else ParseParts(Split(text, ';')) }

  method CollectParameters(parts: seq<string>, read: string -> Option<Parameter>) returns (r: Option<seq<Parameter>>)
    ensures r == ParseParameters(parts, [], read)
  {
    var found: seq<Parameter> := [];
    for i := 0 to |parts|
      invariant ParseParameters(parts, [], read) == ParseParameters(parts[i..], found, read)
    {
      assert parts[i..][1..] == parts[i + 1..];
      var p := read(parts[i]);
      if p.None? || NameIn(p.value.name, found) {
        return None;
      }
      found := found + [p.value];
    }
    return Some(found);
  }

  /** `media_base`. */
  method MediaBase(text: string) returns (r: Option<Media>)
    ensures r == Parse(text)
  {
    if Blank(text) {
      return None;
    }
    var parts := Split(text, ';');
    var base := Base(parts);
    if '/' !in base {
      return None;
    }
    var parameters := CollectParameters(parts[1..], ParseParameter);
    return if parameters.None? then None else Some(Media(base, parameters.value));
  }

  /** `json_media`. */
  predicate JsonMedia(text: string) {
    var m := Parse(text);
    m.Some? && (m.value.base == "application/json" || EndsWith(m.value.base, "+json"))
  }

  // ---------------------------------------------------------------- printing

  function PrintParameter(p: Parameter): string { p.name + "=\"" + p.value + "\"" }

  function PrintParts(ps: seq<Parameter>): (r: seq<string>)
    ensures |r| == |ps| && forall i :: 0 <= i < |ps| ==> r[i] == " " + PrintParameter(ps[i])
  {
    if ps == [] then [] else [" " + PrintParameter(ps[0])] + PrintParts(ps[1..])
  }

  /** The canonical text: parameters quoted and separated by `; `. */
  function Print(m: Media): string { Join([m.base] + PrintParts(m.parameters), ';') }

  // ---------------------------------------------------------------- what parsing yields

  predicate Lowered(s: string) { forall i :: 0 <= i < |s| ==> Lower(s[i]) == s[i] }

  predicate Unquoted(s: string) { s != [] && s[0] != '"' && s[|s| - 1] != '"' }

  ghost predicate CanonicalParameter(p: Parameter) {
    p.name != "" && Trimmed(p.name) && Lowered(p.name) && Free(p.name, ';') && Free(p.name, '=')
    && Lowered(p.value) && Free(p.value, ';') && Unquoted(p.value)
  }

  ghost predicate DistinctNames(ps: seq<Parameter>) {
    forall i, j :: 0 <= i < j < |ps| ==> ps[i].name != ps[j].name
  }

  ghost predicate AllOf(ps: seq<Parameter>, good: Parameter -> bool) {
    forall i :: 0 <= i < |ps| ==> good(ps[i])
  }

  ghost predicate CanonicalParameters(ps: seq<Parameter>) {
    (forall i :: 0 <= i < |ps| ==> CanonicalParameter(ps[i])) && DistinctNames(ps)
  }

  ghost predicate Canonical(m: Media) {
    Trimmed(m.base) && Lowered(m.base) && Free(m.base, ';') && '/' in m.base && CanonicalParameters(m.parameters)
  }

  lemma {:induction false} CutParts(s: string, c: char)
    requires CutAt(s, c).Some?
    ensures Free(CutAt(s, c).value.0, c)
    ensures forall d :: Free(s, d) ==> Free(CutAt(s, c).value.0, d) && Free(CutAt(s, c).value.1, d)
  {
    if s[0] != c {
      CutParts(s[1..], c);
      var p := CutAt(s[1..], c).value.0;
      assert forall i :: 1 <= i <= |p| ==> ([s[0]] + p)[i] == p[i - 1];
      forall d | Free(s, d) ensures Free([s[0]] + p, d) {
        assert Free(s[1..], d);
        forall i | 0 <= i < |p| + 1 ensures ([s[0]] + p)[i] != d {
          assert i > 0 ==> ([s[0]] + p)[i] == p[i - 1];
        }
      }
    }
  }

  lemma {:induction false} TrimLeftKeepsFree(s: string, c: char)
    requires Free(s, c)
    ensures Free(TrimLeft(s), c)
  {
    if s == [] {
    } else {
      assert Free(s[1..], c);
      TrimLeftKeepsFree(s[1..], c);
    }
  }

  lemma {:induction false} TrimRightKeepsFree(s: string, c: char)
    requires Free(s, c)
    ensures Free(TrimRight(s), c)
  {
    if s == [] {
    } else {
      assert Free(s[..|s| - 1], c);
      TrimRightKeepsFree(s[..|s| - 1], c);
    }
  }

  lemma {:induction false} TrimKeepsFree(s: string, c: char)
    requires Free(s, c)
    ensures Free(Trim(s), c)
  {
    TrimLeftKeepsFree(s, c);
    TrimRightKeepsFree(TrimLeft(s), c);
  }

  lemma {:induction false} LowerKeepsFree(s: string, c: char)
    requires Free(s, c) && (c == ';' || c == '=')
    ensures Free(LowerText(s), c)
  {
  }

  lemma {:induction false} LowerCanonical(s: string)
    ensures Lowered(LowerText(s))
    ensures Trimmed(s) ==> Trimmed(LowerText(s))
  {
  }

  lemma {:induction false} SliceKeeps(s: string, from: nat, to: nat)
    requires from <= to <= |s| && Lowered(s) && Free(s, ';')
    ensures Lowered(s[from..to]) && Free(s[from..to], ';')
  {
    assert forall i :: 0 <= i < to - from ==> s[from..to][i] == s[from + i];
  }

  lemma {:induction false} UnquoteLeftKeeps(s: string)
    requires Lowered(s) && Free(s, ';')
    ensures Lowered(UnquoteLeft(s)) && Free(UnquoteLeft(s), ';')
  {
    var l := UnquoteLeft(s);
    SliceKeeps(s, |s| - |l|, |s|);
    assert s[|s| - |l|..|s|] == l;
  }

  lemma {:induction false} UnquoteRightKeeps(s: string)
    requires Lowered(s) && Free(s, ';') && (s == "" || s[0] != '"')
    ensures Lowered(UnquoteRight(s)) && Free(UnquoteRight(s), ';')
    ensures UnquoteRight(s) != "" ==> Unquoted(UnquoteRight(s))
  {
    var r := UnquoteRight(s);
    SliceKeeps(s, 0, |r|);
    assert s[0..|r|] == r;
  }

  lemma {:induction false} UnquoteKeeps(s: string)
    requires Lowered(s) && Free(s, ';') && Unquote(s) != ""
    ensures Lowered(Unquote(s)) && Free(Unquote(s), ';') && Unquoted(Unquote(s))
  {
    UnquoteLeftKeeps(s);
    UnquoteRightKeeps(UnquoteLeft(s));
  }

  lemma {:induction false} NameRead(s: string)
    requires Free(s, ';') && Free(s, '=')
    ensures var r := LowerText(Trim(s)); Trimmed(r) && Lowered(r) && Free(r, ';') && Free(r, '=')
  {
    TrimKeepsFree(s, ';');
    TrimKeepsFree(s, '=');
    LowerCanonical(Trim(s));
    LowerKeepsFree(Trim(s), ';');
    LowerKeepsFree(Trim(s), '=');
  }

  lemma {:induction false} ValueRead(s: string)
    requires Free(s, ';')
    ensures Lowered(LowerText(Trim(s))) && Free(LowerText(Trim(s)), ';')
  {
    TrimKeepsFree(s, ';');
    LowerCanonical(Trim(s));
    LowerKeepsFree(Trim(s), ';');
  }

  lemma {:induction false} CutRead(cut: (string, string))
    requires Free(cut.0, ';') && Free(cut.0, '=') && Free(cut.1, ';') && ReadCut(cut).Some?
    ensures CanonicalParameter(ReadCut(cut).value)
  {
    NameRead(cut.0);
    ValueRead(cut.1);
    UnquoteKeeps(LowerText(Trim(cut.1)));
  }

  lemma {:induction false} ParsedParameter(part: string)
    requires Free(part, ';') && ParseParameter(part).Some?
    ensures CanonicalParameter(ParseParameter(part).value)
  {
    TrimKeepsFree(part, ';');
    CutParts(Trim(part), '=');
    CutRead(CutAt(Trim(part), '=').value);
  }

  lemma {:induction false} ParsedParameters(
      parts: seq<string>, found: seq<Parameter>, read: string -> Option<Parameter>, good: Parameter -> bool)
    requires forall i :: 0 <= i < |parts| ==> read(parts[i]).Some? ==> good(read(parts[i]).value)
    requires AllOf(found, good) && DistinctNames(found) && ParseParameters(parts, found, read).Some?
    ensures AllOf(ParseParameters(parts, found, read).value, good) && DistinctNames(ParseParameters(parts, found, read).value)
  {
    if parts == [] {
    } else {
      var p := read(parts[0]).value;
      assert forall i :: 0 <= i < |found| ==> found[i].name != p.name;
      ParsedParameters(parts[1..], found + [p], read, good);
    }
  }

  lemma {:induction false} PartsCanonical(parts: seq<string>)
    requires parts != [] && (forall i :: 0 <= i < |parts| ==> Free(parts[i], ';')) && ParseParts(parts).Some?
    ensures Canonical(ParseParts(parts).value)
  {
    TrimKeepsFree(parts[0], ';');
    LowerCanonical(Trim(parts[0]));
    LowerKeepsFree(Trim(parts[0]), ';');
    var good := p => CanonicalParameter(p);
    forall i | 1 <= i < |parts| && ParseParameter(parts[i]).Some? ensures good(ParseParameter(parts[i]).value) {
      ParsedParameter(parts[i]);
    }
    ParsedParameters(parts[1..], [], ParseParameter, good);
    var ps := ParseParameters(parts[1..], [], ParseParameter).value;
    assert forall i :: 0 <= i < |ps| ==> good(ps[i]);
  }

  /** Whatever is accepted is in canonical form: no name occurs twice, and nothing needs quoting or folding again. */
  lemma {:induction false} ParsedIsCanonical(text: string)
    requires Parse(text).Some?
    ensures Canonical(Parse(text).value)
  {
    SplitParts(text, ';');
    PartsCanonical(Split(text, ';'));
  }

  // ---------------------------------------------------------------- round trip

  lemma {:induction false} CutAtSeparator(p: string, c: char, rest: string)
    requires Free(p, c)
    ensures CutAt(p + [c] + rest, c) == Some((p, rest))
  {
    var w := p + [c] + rest;
    if p == [] {
      assert w[1..] == rest;
    } else {
      assert Free(p[1..], c);
      CutAtSeparator(p[1..], c, rest);
      assert w[1..] == p[1..] + [c] + rest;
      assert p == [p[0]] + p[1..];
    }
  }

  lemma {:induction false} LowerFixed(s: string)
    requires Lowered(s)
    ensures LowerText(s) == s
  {
  }

  lemma {:induction false} UnquoteQuoted(v: string)
    requires Unquoted(v)
    ensures Unquote("\"" + v + "\"") == v
  {
    var s := "\"" + v + "\"";
    assert s[1..] == v + "\"" && UnquoteLeft(s[1..]) == s[1..];
    assert s[1..][..|v|] == v && UnquoteRight(v) == v;
  }

  lemma {:induction false} TrimOneSpace(s: string)
    requires s != "" && Trimmed(s)
    ensures Trim(" " + s) == s
  {
    assert (" " + s)[1..] == s && TrimLeft(s) == s;
    TrimOfTrimmed(s);
  }

  lemma {:induction false} QuotedTrimmed(p: Parameter)
    requires CanonicalParameter(p)
    ensures Trimmed(PrintParameter(p)) && PrintParameter(p) != "" && Free(PrintParameter(p), ';')
    ensures Trimmed("\"" + p.value + "\"") && Lowered("\"" + p.value + "\"")
  {
    var s := PrintParameter(p);
    assert s[0] == p.name[0] && s[|s| - 1] == '"';
  }

  lemma {:induction false} PrintedCut(p: Parameter)
    requires CanonicalParameter(p)
    ensures ReadCut((p.name, "\"" + p.value + "\"")) == Some(p)
  {
    var rest := "\"" + p.value + "\"";
    QuotedTrimmed(p);
    TrimOfTrimmed(p.name);
    TrimOfTrimmed(rest);
    LowerFixed(p.name);
    LowerFixed(rest);
    UnquoteQuoted(p.value);
  }

  lemma {:induction false} PrintedName(p: Parameter)
    requires Free(p.name, '=')
    ensures CutAt(PrintParameter(p), '=') == Some((p.name, "\"" + p.value + "\""))
  {
    var rest := "\"" + p.value + "\"";
    assert PrintParameter(p) == p.name + ['='] + rest;
    CutAtSeparator(p.name, '=', rest);
  }

  lemma {:induction false} ParseSpaced(text: string, cut: (string, string))
    requires text != "" && Trimmed(text) && CutAt(text, '=') == Some(cut)
    ensures ParseParameter(" " + text) == ReadCut(cut)
  {
    TrimOneSpace(text);
  }

  lemma {:induction false} ParameterRoundTrip(p: Parameter)
    requires CanonicalParameter(p)
    ensures ParseParameter(" " + PrintParameter(p)) == Some(p)
  {
    QuotedTrimmed(p);
    PrintedName(p);
    PrintedCut(p);
    ParseSpaced(PrintParameter(p), (p.name, "\"" + p.value + "\""));
  }

  lemma {:induction false} ParametersRoundTrip(parts: seq<string>, ps: seq<Parameter>, i: nat, read: string -> Option<Parameter>)
    requires |parts| == |ps| && (forall j :: 0 <= j < |ps| ==> read(parts[j]) == Some(ps[j])) && DistinctNames(ps) && i <= |ps|
    ensures ParseParameters(parts[i..], ps[..i], read) == Some(ps)
    decreases |ps| - i
  {
    if i == |ps| {
      assert ps[..i] == ps;
    } else {
      assert !NameIn(ps[i].name, ps[..i]);
      ParametersRoundTrip(parts, ps, i + 1, read);
      assert parts[i..][1..] == parts[i + 1..];
      assert ps[..i] + [ps[i]] == ps[..i + 1];
    }
  }

  lemma {:induction false} PrintedParts(m: Media)
    requires Canonical(m)
    ensures Split(Print(m), ';') == [m.base] + PrintParts(m.parameters)
  {
    var parts := [m.base] + PrintParts(m.parameters);
    forall i | 0 <= i < |parts| ensures Free(parts[i], ';') {
      if i > 0 {
        QuotedTrimmed(m.parameters[i - 1]);
        assert parts[i] == " " + PrintParameter(m.parameters[i - 1]);
      }
    }
    SplitJoin(parts, ';');
  }

  lemma {:induction false} NotBlank(text: string)
    requires '/' in Base(Split(text, ';'))
    ensures !Blank(text)
  {
    if Blank(text) {
      BlankSplit(text);
      BlankTrim(Split(text, ';')[0]);
    }
  }

  lemma {:induction false} BlankSplit(s: string)
    requires Blank(s)
    ensures Blank(Split(s, ';')[0])
  {
    if s == [] {
    } else {
      assert Blank(s[1..]);
      BlankSplit(s[1..]);
      assert IsSpace(s[0]);
    }
  }

  lemma {:induction false} BlankTrim(s: string)
    requires Blank(s)
    ensures Trim(s) == ""
  {
    if s == "" {
    } else {
      assert IsSpace(s[0]) && Blank(s[1..]);
      BlankTrim(s[1..]);
    }
  }

  lemma {:induction false} PrintedParameters(ps: seq<Parameter>)
    requires CanonicalParameters(ps)
    ensures ParseParameters(PrintParts(ps), [], ParseParameter) == Some(ps)
  {
    var parts := PrintParts(ps);
    forall j | 0 <= j < |ps| ensures ParseParameter(parts[j]) == Some(ps[j]) {
      ParameterRoundTrip(ps[j]);
    }
    ParametersRoundTrip(parts, ps, 0, ParseParameter);
    assert parts == parts[0..] && ps[..0] == [];
  }

  lemma {:induction false} PrintedBase(base: string, rest: seq<string>)
    requires Trimmed(base) && Lowered(base)
    ensures Base([base] + rest) == base
  {
    TrimOfTrimmed(base);
    LowerFixed(base);
  }

  lemma {:induction false} PartsRoundTrip(m: Media)
    requires Canonical(m)
    ensures ParseParts([m.base] + PrintParts(m.parameters)) == Some(m)
  {
    PrintedBase(m.base, PrintParts(m.parameters));
    PrintedParameters(m.parameters);
    assert ([m.base] + PrintParts(m.parameters))[1..] == PrintParts(m.parameters);
  }

  /** Printing a canonical media type and parsing the text gives it back. */
  lemma {:induction false} PrintThenParse(m: Media)
    requires Canonical(m)
    ensures Parse(Print(m)) == Some(m)
  {
    PrintedParts(m);
    PartsRoundTrip(m);
    NotBlank(Print(m));
  }

  /** For every accepted text, printing what it denotes and parsing again gives the same base and parameters, without
      repeated names; so being a JSON media type does not depend on how the text is written either. */
  lemma {:induction false} RoundTrip(text: string)
    requires Parse(text).Some?
    ensures Parse(Print(Parse(text).value)) == Parse(text)
    ensures JsonMedia(Print(Parse(text).value)) <==> JsonMedia(text)
    ensures forall i, j :: 0 <= i < j < |Parse(text).value.parameters| ==>
      Parse(text).value.parameters[i].name != Parse(text).value.parameters[j].name
  {
    ParsedIsCanonical(text);
    PrintThenParse(Parse(text).value);
  }
}
