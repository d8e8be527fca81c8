/** What normalising does to a path template written piece by piece. */
module PathTemplates {
  import opened Text
  import opened JsonValues
  import opened PathNames

  /** Text free of braces, or the inside of a parameter, also free of braces and not empty. */
  datatype Piece = Plain(text: string) | Parameter(inside: string)

  predicate BraceFree(s: string) { '{' !in s && '}' !in s }

  predicate WellWritten(ps: seq<Piece>) {
    forall i :: 0 <= i < |ps| ==> match ps[i] case Plain(t) => BraceFree(t) case Parameter(s) => BraceFree(s) && s != ""
  }

  function Written(ps: seq<Piece>): string {
    if ps == [] then ""
    else (match ps[0] case Plain(t) => t case Parameter(s) => "{" + s + "}") + Written(ps[1..])
  }

  /** A letter or underscore, then letters, digits and underscores. */
  predicate NamesParameter(s: string) {
    s != "" && !IsDigit(s[0])
    && forall i :: 0 <= i < |s| ==> 'a' <= s[i] <= 'z' || 'A' <= s[i] <= 'Z' || s[i] == '_' || IsDigit(s[i])
  }

  predicate AllNamed(ps: seq<Piece>) {
    forall i :: 0 <= i < |ps| ==> match ps[i] case Plain(_) => true case Parameter(s) => NamesParameter(Trim(s))
  }

  /** The template with the spaces around parameter names taken away. */
  function Tidied(ps: seq<Piece>): seq<Piece> {
    if ps == [] then []
    else [match ps[0] case Plain(t) => Plain(t) case Parameter(s) => Parameter(Trim(s))] + Tidied(ps[1..])
  }

  lemma {:induction false} NameExactly(s: string)
    ensures IsName(s) <==> NamesParameter(s)
  {
  }

  lemma {:induction false} PlainStripped(t: string, rest: string)
    requires BraceFree(t)
    ensures StripParameters(t + rest) == (var r := StripParameters(rest); if r.None? then None else Some(t + r.value))
  {
    var r := StripParameters(rest);
    if t == "" {
      assert t + rest == rest;
      assert r.Some? ==> t + r.value == r.value;
    } else {
      var s := t + rest;
      assert s[1..] == t[1..] + rest && s[0] == t[0] && t[0] in t;
      forall c | c in t[1..] ensures c in t {
      }
      PlainStripped(t[1..], rest);
      assert r.Some? ==> t + r.value == [t[0]] + (t[1..] + r.value);
    }
  }

  lemma {:induction false} InsideRun(inside: string, rest: string)
    requires BraceFree(inside)
    ensures Run(inside + "}" + rest) == |inside|
  {
    if inside == "" {
      assert inside + "}" + rest == "}" + rest;
    } else {
      var s := inside + "}" + rest;
      assert s[1..] == inside[1..] + "}" + rest && s[0] == inside[0] && inside[0] in inside;
      forall c | c in inside[1..] ensures c in inside {
      }
      InsideRun(inside[1..], rest);
    }
  }

  lemma {:induction false} ParameterStripped(inside: string, rest: string)
    requires BraceFree(inside) && inside != ""
    ensures StripParameters("{" + inside + "}" + rest) ==
      (var r := StripParameters(rest);
       if !NamesParameter(Trim(inside)) || r.None? then None else Some("{" + Trim(inside) + "}" + r.value))
  {
    var s, n := "{" + inside + "}" + rest, |inside|;
    var r := StripParameters(rest);
    InsideRun(inside, rest);
    NameExactly(Trim(inside));
    assert s[1..] == inside + "}" + rest;
    assert s[1..n + 1] == inside && s[n + 2..] == rest && s[n + 1] == '}';
    if r.Some? {
      assert "{" + (Trim(inside) + ("}" + r.value)) == "{" + Trim(inside) + "}" + r.value;
    }
  }

  /** The parameters of a template are stripped exactly if they all have names. */
  lemma {:induction false} TemplateStripped(ps: seq<Piece>)
    requires WellWritten(ps)
    ensures StripParameters(Written(ps)) == if AllNamed(ps) then Some(Written(Tidied(ps))) else None
  {
    if ps == [] {
    } else {
      var rest := ps[1..];
      forall i | 0 <= i < |rest| ensures rest[i] == ps[i + 1] {
      }
      TemplateStripped(rest);
      assert AllNamed(ps) <==> AllNamed([ps[0]]) && AllNamed(rest) by {
        if AllNamed([ps[0]]) && AllNamed(rest) {
          forall i | 0 <= i < |ps| ensures match ps[i] case Plain(_) => true case Parameter(s) => NamesParameter(Trim(s)) {
            assert if i == 0 then ps[i] == [ps[0]][0] else ps[i] == rest[i - 1];
          }
        }
        if AllNamed(ps) {
          assert [ps[0]][0] == ps[0];
        }
      }
      match ps[0]
      case Plain(t) => PlainStripped(t, Written(rest));
      case Parameter(s) =>
        assert "{" + s + "}" + Written(rest) == Written(ps);
        ParameterStripped(s, Written(rest));
    }
  }

  // ---------------------------------------------------------------- braces stay balanced

  lemma {:induction false} CountSum(a: string, b: string, c: char)
    ensures Count(a + b, c) == Count(a, c) + Count(b, c)
  {
    if a == "" {
      assert a + b == b;
    } else {
      assert (a + b)[1..] == a[1..] + b && (a + b)[0] == a[0];
      CountSum(a[1..], b, c);
    }
  }

  lemma {:induction false} CountAbsent(s: string, c: char)
    requires c !in s
    ensures Count(s, c) == 0
  {
    if s != "" {
      assert s[0] in s;
      forall d | d in s[1..] ensures d in s {
      }
      CountAbsent(s[1..], c);
    }
  }

  lemma {:induction false} BracesMatch(ps: seq<Piece>)
    requires WellWritten(ps)
    ensures Count(Written(ps), '{') == Count(Written(ps), '}')
  {
    if ps != [] {
      var rest := Written(ps[1..]);
      forall i | 0 <= i < |ps[1..]| ensures ps[1..][i] == ps[i + 1] {
      }
      BracesMatch(ps[1..]);
      match ps[0]
      case Plain(t) => PlainMatches(t, rest);
      case Parameter(s) =>
        PlainMatches(s, "");
        assert s + "" == s;
        ParameterMatches(s, rest);
    }
  }

  lemma {:induction false} PlainMatches(t: string, rest: string)
    requires BraceFree(t) && Count(rest, '{') == Count(rest, '}')
    ensures Count(t + rest, '{') == Count(t + rest, '}')
  {
    CountSum(t, rest, '{');
    CountSum(t, rest, '}');
    CountAbsent(t, '{');
    CountAbsent(t, '}');
  }

  lemma {:induction false} ParameterMatches(s: string, rest: string)
    requires Count(s, '{') == Count(s, '}') && Count(rest, '{') == Count(rest, '}')
    ensures Count("{" + s + "}" + rest, '{') == Count("{" + s + "}" + rest, '}')
  {
    CountSum("{" + s + "}", rest, '{');
    CountSum("{" + s + "}", rest, '}');
    CountSum("{" + s, "}", '{');
    CountSum("{" + s, "}", '}');
    CountSum("{", s, '{');
    CountSum("{", s, '}');
    CountOne('{', '{');
    CountOne('{', '}');
    CountOne('}', '{');
    CountOne('}', '}');
  }

  lemma {:induction false} CountOne(d: char, c: char)
    ensures Count([d], c) == if d == c then 1 else 0
  {
    assert [d][1..] == "" && Count("", c) == 0;
  }

  lemma {:induction false} NamesAreFree(s: string)
    requires NamesParameter(s)
    ensures BraceFree(s) && s != ""
  {
  }

  lemma {:induction false} TidiedWell(ps: seq<Piece>)
    requires WellWritten(ps) && AllNamed(ps)
    ensures WellWritten(Tidied(ps))
  {
    if ps != [] {
      forall i | 0 <= i < |ps[1..]| ensures ps[1..][i] == ps[i + 1] {
      }
      TidiedWell(ps[1..]);
      if ps[0].Parameter? {
        NamesAreFree(Trim(ps[0].inside));
      }
      var out := Tidied(ps);
      forall i | 0 <= i < |out| ensures match out[i] case Plain(t) => BraceFree(t) case Parameter(s) => BraceFree(s) && s != "" {
        assert i > 0 ==> out[i] == Tidied(ps[1..])[i - 1];
      }
    }
  }

  /** The path without the slash at its end, unless it is nothing but a slash. */
  function Unslashed(s: string): string { if s != "/" && s != "" && s[|s| - 1] == '/' then s[..|s| - 1] else s }

  lemma {:induction false} UnslashedBalanced(s: string)
    requires s != "" && s[0] == '/' && Count(s, '{') == Count(s, '}')
    ensures DropSlash(s) == Unslashed(s) && Balanced(DropSlash(s))
  {
    var q := DropSlash(s);
    if q != s {
      assert s == q + "/";
      CountSum(q, "/", '{');
      CountSum(q, "/", '}');
      CountOne('/', '{');
      CountOne('/', '}');
    } else if |s| == 1 {
      assert s == "/";
    }
  }

  lemma {:induction false} TidiedHead(ps: seq<Piece>)
    requires WellWritten(ps) && Written(ps) != "" && Written(ps)[0] == '/'
    ensures Written(Tidied(ps)) != "" && Written(Tidied(ps))[0] == '/'
  {
    if ps[0] == Plain("") {
      forall i | 0 <= i < |ps[1..]| ensures ps[1..][i] == ps[i + 1] {
      }
      assert Written(ps) == "" + Written(ps[1..]) == Written(ps[1..]);
      TidiedHead(ps[1..]);
      assert Tidied(ps)[1..] == Tidied(ps[1..]);
    } else {
      assert ps[0].Plain? ==> Tidied(ps)[0] == ps[0] && ps[0].text[0] == '/';
    }
  }

  /** A template is normalised exactly if it starts with a slash, has no double slash and all its parameters have names; the
      spaces around the names and a slash at the end are dropped. */
  lemma {:induction false} TemplateNormalized(ps: seq<Piece>)
    requires WellWritten(ps)
    ensures Normalize(Written(ps)) ==
      if "/" <= Written(ps) && !DoubleSlash(Written(ps)) && AllNamed(ps) then Some(Unslashed(Written(Tidied(ps)))) else None
  {
    TemplateStripped(ps);
    if "/" <= Written(ps) && AllNamed(ps) {
      TidiedWell(ps);
      BracesMatch(Tidied(ps));
      TidiedHead(ps);
      UnslashedBalanced(Written(Tidied(ps)));
    }
  }

  // ---------------------------------------------------------------- stray braces

  lemma {:induction false} CountIsMultiplicity(s: string, c: char)
    ensures Count(s, c) == multiset(s)[c]
  {
    if s != "" {
      assert s == [s[0]] + s[1..];
      CountIsMultiplicity(s[1..], c);
    }
  }

  /** A brace is opened there, and not for a parameter named `x`. */
  predicate OpensOther(s: string, i: int) { 0 <= i < |s| && s[i] == '{' && !("{x}" <= s[i..]) }

  lemma {:induction false} OpensBelow(s: string, n: nat, i: int)
    requires n <= |s| && n <= i
    ensures OpensOther(s, i) <==> OpensOther(s[n..], i - n)
  {
    if i < |s| {
      assert s[n..][i - n..] == s[i..];
    }
  }

  lemma {:induction false} OnlyX(s: string)
    ensures '{' in WithoutX(s) <==> exists i :: OpensOther(s, i)
  {
    if s != "" {
      var n := if "{x}" <= s then 3 else 1;
      OnlyX(s[n..]);
      assert s[0..] == s;
      forall i | n <= i ensures OpensOther(s, i) <==> OpensOther(s[n..], i - n) {
        OpensBelow(s, n, i);
      }
      if i :| OpensOther(s[n..], i) {
        assert OpensOther(s, n + i);
      }
      if i :| OpensOther(s, i) && i >= n {
        assert OpensOther(s[n..], i - n);
      }
      FirstOpens(s);
    }
  }

  lemma {:induction false} FirstOpens(s: string)
    requires s != ""
    ensures !("{x}" <= s) && s[0] == '{' ==> OpensOther(s, 0)
    ensures OpensOther(s, 0) ==> '{' in WithoutX(s)
    ensures "{x}" <= s ==> WithoutX(s) == WithoutX(s[3..]) && !OpensOther(s, 0) && !OpensOther(s, 1) && !OpensOther(s, 2)
    ensures !("{x}" <= s) ==> WithoutX(s) == [s[0]] + WithoutX(s[1..])
  {
    assert s[0..] == s;
  }

  /** Braces are taken for balanced exactly if as many are opened as closed, or none is opened but for parameters named `x`. */
  lemma {:induction false} BracesExactly(s: string)
    ensures Balanced(s) <==>
      multiset(s)['{'] == multiset(s)['}'] || !exists i :: OpensOther(s, i)
  {
    OnlyX(s);
    CountIsMultiplicity(s, '{');
    CountIsMultiplicity(s, '}');
  }
}
