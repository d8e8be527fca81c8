/** Normalising path templates, and what a normalised path looks like. */
module PathNames {
  import opened Text
  import opened JsonValues

  predicate IsBrace(c: char) { c == '{' || c == '}' }

  /** The length of the longest prefix without braces. */
  function Run(s: string): (n: nat)
    ensures n <= |s|
  {
    if s == "" || IsBrace(s[0]) then 0 else 1 + Run(s[1..])
  }

  /** A parameter `{...}` with a non-empty name free of braces stands at the start. */
  predicate ParameterFirst(s: string) {
    s != "" && s[0] == '{' && var n := Run(s[1..]); 0 < n && n + 1 < |s| && s[n + 1] == '}'
  }

  predicate IsNameStart(c: char) { 'a' <= c <= 'z' || 'A' <= c <= 'Z' || c == '_' }

  predicate IsName(s: string) {
    s != "" && IsNameStart(s[0]) && forall i :: 0 <= i < |s| ==> IsNameStart(s[i]) || IsDigit(s[i])
  }

  /** Every parameter with its name stripped; None if one has no valid name. */
  function StripParameters(s: string): Option<string>
    decreases |s|
  {
    if s == "" then Some("")
    else if ParameterFirst(s) then
      var n := Run(s[1..]);
      var name, rest := Trim(s[1..n + 1]), StripParameters(s[n + 2..]);
      if !IsName(name) || rest.None? then None else Some("{" + (name + ("}" + rest.value)))
    else
      var rest := StripParameters(s[1..]);
      if rest.None? then None else Some([s[0]] + rest.value)
  }

  function DropSlash(s: string): string {
    if |s| > 1 && s[|s| - 1] == '/' then s[..|s| - 1] else s
  }

  /** `s.replace("{x}", "")`. */
  function WithoutX(s: string): string {
    if s == "" then ""
    else if |s| >= 3 && s[0] == '{' && s[1] == 'x' && s[2] == '}' then WithoutX(s[3..])
    else [s[0]] + WithoutX(s[1..])
  }

  function Count(s: string, c: char): nat { if s == "" then 0 else (if s[0] == c then 1 else 0) + Count(s[1..], c) }

  predicate Balanced(s: string) { '{' in WithoutX(s) ==> Count(s, '{') == Count(s, '}') }

  predicate DoubleSlash(s: string) { exists i :: 0 <= i < |s| - 1 && s[i] == '/' && s[i + 1] == '/' }

  /** `normalize_path`. */
  function Normalize(path: string): Option<string> {
    if path == "" || path[0] != '/' || DoubleSlash(path) then None
    else
      var stripped := StripParameters(path);
      if stripped.None? || !Balanced(DropSlash(stripped.value)) then None else Some(DropSlash(stripped.value))
  }

  // ---------------------------------------------------------------- runs

  lemma {:induction false} RunMeaning(s: string)
    ensures forall i :: 0 <= i < Run(s) ==> !IsBrace(s[i])
    ensures Run(s) < |s| ==> IsBrace(s[Run(s)])
  {
    if s != "" && !IsBrace(s[0]) {
      RunMeaning(s[1..]);
    }
  }

  lemma {:induction false} RunIs(s: string, n: nat)
    requires n <= |s| && (forall i :: 0 <= i < n ==> !IsBrace(s[i])) && (n < |s| ==> IsBrace(s[n]))
    ensures Run(s) == n
  {
    if n > 0 {
      RunIs(s[1..], n - 1);
    }
  }

  /** Stripping keeps the text up to and including the first brace. */
  lemma {:induction false} StripKeepsRun(s: string)
    requires StripParameters(s).Some?
    ensures var o := StripParameters(s).value;
      Run(o) == Run(s) && (Run(o) < |o| <==> Run(s) < |s|) && (Run(s) < |s| ==> o[Run(s)] == s[Run(s)])
    decreases |s|
  {
    if s != "" && !IsBrace(s[0]) {
      StripKeepsRun(s[1..]);
      var r := StripParameters(s[1..]).value;
      assert ([s[0]] + r)[1..] == r;
    }
  }

  lemma {:induction false} NamePlain(name: string)
    requires IsName(name)
    ensures Trim(name) == name && forall i :: 0 <= i < |name| ==> !IsBrace(name[i]) && name[i] != '/'
  {
    TrimOfTrimmed(name);
  }

  lemma {:induction false} NamedRun(name: string, rest: string)
    requires IsName(name)
    ensures Run(name + ("}" + rest)) == |name|
  {
    NamePlain(name);
    RunIs(name + ("}" + rest), |name|);
  }

  /** A stripped parameter is read as the same parameter again. */
  lemma {:induction false} ParameterAgain(name: string, rest: string)
    requires IsName(name)
    ensures var o := "{" + (name + ("}" + rest));
      ParameterFirst(o) && Run(o[1..]) == |name| && o[1..|name| + 1] == name && o[|name| + 2..] == rest
  {
    var o := "{" + (name + ("}" + rest));
    NamedRun(name, rest);
    assert o[1..] == name + ("}" + rest);
    assert o[1..|name| + 1] == name && o[|name| + 2..] == rest;
  }

  // ---------------------------------------------------------------- stripping twice

  lemma {:induction false} PartsFixed(q: string)
    requires q != ""
    requires ParameterFirst(q) ==> (var n := Run(q[1..]);
      && IsName(q[1..n + 1]) && Trim(q[1..n + 1]) == q[1..n + 1] && StripParameters(q[n + 2..]) == Some(q[n + 2..])
      && q == "{" + (q[1..n + 1] + ("}" + q[n + 2..])))
    requires !ParameterFirst(q) ==> StripParameters(q[1..]) == Some(q[1..])
    ensures StripParameters(q) == Some(q)
  {
    assert q == [q[0]] + q[1..];
  }

  lemma {:induction false} ParameterFixed(name: string, rest: string)
    requires IsName(name) && StripParameters(rest) == Some(rest)
    ensures StripParameters("{" + (name + ("}" + rest))) == Some("{" + (name + ("}" + rest)))
  {
    ParameterAgain(name, rest);
    NamePlain(name);
    PartsFixed("{" + (name + ("}" + rest)));
  }

  lemma {:induction false} CharFixed(s: string, r: string)
    requires s != "" && !ParameterFirst(s) && StripParameters(s[1..]) == Some(r) && StripParameters(r) == Some(r)
    ensures StripParameters([s[0]] + r) == Some([s[0]] + r)
  {
    StripKeepsRun(s[1..]);
    var o := [s[0]] + r;
    assert o[1..] == r;
    PartsFixed(o);
  }

  /** Stripping the parameters twice changes nothing more. */
  lemma {:induction false} StripTwice(s: string)
    requires StripParameters(s).Some?
    ensures StripParameters(StripParameters(s).value) == StripParameters(s)
    decreases |s|
  {
    if s == "" {
    } else {
      if ParameterFirst(s) {
        var n := Run(s[1..]);
        StripTwice(s[n + 2..]);
        ParameterFixed(Trim(s[1..n + 1]), StripParameters(s[n + 2..]).value);
      } else {
        StripTwice(s[1..]);
        CharFixed(s, StripParameters(s[1..]).value);
      }
    }
  }

  lemma {:induction false} FixedParameter(p: string, n: nat, name: string, rest: string)
    requires ParameterFirst(p) && n == Run(p[1..]) && IsName(name) && p == "{" + (name + ("}" + rest))
    ensures name == p[1..n + 1] && rest == p[n + 2..]
  {
    ParameterAgain(name, rest);
  }

  lemma {:induction false} StripAtParameter(p: string)
    requires ParameterFirst(p) && StripParameters(p).Some?
    ensures var n := Run(p[1..]);
      var name, rest := Trim(p[1..n + 1]), StripParameters(p[n + 2..]);
      IsName(name) && rest.Some? && StripParameters(p).value == "{" + (name + ("}" + rest.value))
  {
  }

  /** In a text that stripping leaves alone, the parts around a parameter are left alone too. */
  lemma {:induction false} FixedParts(p: string)
    requires p != "" && StripParameters(p) == Some(p)
    ensures ParameterFirst(p) ==> (var n := Run(p[1..]);
      IsName(p[1..n + 1]) && Trim(p[1..n + 1]) == p[1..n + 1] && StripParameters(p[n + 2..]) == Some(p[n + 2..]))
    ensures !ParameterFirst(p) ==> StripParameters(p[1..]) == Some(p[1..])
  {
    if ParameterFirst(p) {
      var n := Run(p[1..]);
      StripAtParameter(p);
      FixedParameter(p, n, Trim(p[1..n + 1]), StripParameters(p[n + 2..]).value);
    } else {
      var r := StripParameters(p[1..]).value;
      assert ([p[0]] + r)[1..] == r;
    }
  }

  lemma {:induction false} DropParameterFirst(p: string)
    requires |p| > 1 && p[|p| - 1] == '/' && ParameterFirst(p)
    ensures var q, n := p[..|p| - 1], Run(p[1..]);
      && n + 2 < |p| && ParameterFirst(q) && Run(q[1..]) == n && q[1..n + 1] == p[1..n + 1]
      && q[n + 2..] == p[n + 2..][..|p| - n - 3] && q == "{" + (p[1..n + 1] + ("}" + q[n + 2..]))
  {
    var q, n := p[..|p| - 1], Run(p[1..]);
    RunMeaning(p[1..]);
    RunIs(q[1..], n);
  }

  lemma {:induction false} DropNotFirst(p: string)
    requires |p| > 1 && p[|p| - 1] == '/' && !ParameterFirst(p)
    ensures !ParameterFirst(p[..|p| - 1])
  {
    var q, n := p[..|p| - 1], Run(p[1..]);
    RunMeaning(p[1..]);
    if q[0] == '{' {
      RunIs(q[1..], if n < |q| - 1 then n else |q| - 1);
    }
  }

  lemma {:induction false} DropTail(p: string, k: nat)
    requires k < |p|
    ensures p[k..][..|p| - k - 1] == p[..|p| - 1][k..]
  {
  }

  lemma {:induction false} DropAfterParameter(p: string, k: nat)
    requires |p| > 1 && StripParameters(p) == Some(p) && p[|p| - 1] == '/' && ParameterFirst(p) && k == Run(p[1..]) + 2
    requires k < |p| && StripParameters(p[k..][..|p| - k - 1]) == Some(p[k..][..|p| - k - 1])
    ensures StripParameters(p[..|p| - 1]) == Some(p[..|p| - 1])
  {
    var q := p[..|p| - 1];
    var name := p[1..k - 1];
    FixedParts(p);
    DropParameterFirst(p);
    DropTail(p, k);
    ParameterFixed(name, q[k..]);
  }

  lemma {:induction false} DropAfterChar(p: string)
    requires |p| > 1 && p[|p| - 1] == '/' && !ParameterFirst(p)
    requires StripParameters(p[1..][..|p| - 2]) == Some(p[1..][..|p| - 2])
    ensures StripParameters(p[..|p| - 1]) == Some(p[..|p| - 1])
  {
    DropNotFirst(p);
    DropTail(p, 1);
    PartsFixed(p[..|p| - 1]);
  }

  /** Dropping a final slash leaves such a text alone. */
  lemma {:induction false} DropKeepsFixed(p: string)
    requires p != "" && StripParameters(p) == Some(p) && p[|p| - 1] == '/'
    ensures StripParameters(p[..|p| - 1]) == Some(p[..|p| - 1])
    decreases |p|
  {
    if |p| > 1 {
      FixedParts(p);
      if ParameterFirst(p) {
        DropParameterFirst(p);
        var k := Run(p[1..]) + 2;
        DropKeepsFixed(p[k..]);
        DropAfterParameter(p, k);
      } else {
        DropKeepsFixed(p[1..]);
        DropAfterChar(p);
      }
    }
  }

  // ---------------------------------------------------------------- slashes

  lemma {:induction false} ConsSingle(c: char, r: string)
    requires !DoubleSlash(r) && (c == '/' && r != "" ==> r[0] != '/')
    ensures !DoubleSlash([c] + r)
  {
    var o := [c] + r;
    forall i | 0 <= i < |o| - 1 ensures !(o[i] == '/' && o[i + 1] == '/') {
      assert o[i + 1] == r[i];
      if i > 0 {
        assert o[i] == r[i - 1];
        assert !(r[i - 1] == '/' && r[(i - 1) + 1] == '/');
      }
    }
  }

  lemma {:induction false} NameSingle(name: string, r: string)
    requires !DoubleSlash(r) && forall i :: 0 <= i < |name| ==> name[i] != '/'
    ensures !DoubleSlash(name + r)
  {
    if name == "" {
      assert name + r == r;
    } else {
      NameSingle(name[1..], r);
      ConsSingle(name[0], name[1..] + r);
      assert name + r == [name[0]] + (name[1..] + r);
    }
  }

  lemma {:induction false} StripKeepsSlashes(s: string)
    requires StripParameters(s).Some? && !DoubleSlash(s)
    ensures var o := StripParameters(s).value;
      !DoubleSlash(o) && (o == "" <==> s == "") && (s != "" ==> (o[0] == '/' <==> s[0] == '/'))
    decreases |s|
  {
    if s == "" {
    } else {
      if ParameterFirst(s) {
        var n := Run(s[1..]);
        var name, rest := Trim(s[1..n + 1]), StripParameters(s[n + 2..]).value;
        TailSingle(s, n + 2);
        StripKeepsSlashes(s[n + 2..]);
        NamePlain(name);
        ConsSingle('}', rest);
        NameSingle(name, "}" + rest);
        ConsSingle('{', name + ("}" + rest));
      } else {
        TailSingle(s, 1);
        StripKeepsSlashes(s[1..]);
        FirstTwo(s);
        ConsSingle(s[0], StripParameters(s[1..]).value);
      }
    }
  }

  lemma {:induction false} FirstTwo(s: string)
    requires !DoubleSlash(s)
    ensures |s| > 1 && s[0] == '/' ==> s[1..][0] != '/'
  {
    if |s| > 1 {
      var i := 0;
      assert s[i + 1] == s[1..][0];
    }
  }

  lemma {:induction false} TailSingle(s: string, k: nat)
    requires k <= |s| && !DoubleSlash(s)
    ensures !DoubleSlash(s[k..])
  {
    forall i | 0 <= i < |s| - k - 1 ensures !(s[k..][i] == '/' && s[k..][i + 1] == '/') {
      assert s[k..][i] == s[i + k] && s[k..][i + 1] == s[i + k + 1];
    }
  }

  lemma {:induction false} NoSlashBefore(s: string, i: nat)
    requires !DoubleSlash(s) && i + 1 < |s| && s[i + 1] == '/'
    ensures s[i] != '/'
  {
  }

  /** A normalised path starts with a slash, has no double slash, and ends with one only if it is the root. */
  lemma {:induction false} NormalizedShape(path: string)
    requires Normalize(path).Some?
    ensures var q := Normalize(path).value;
      q != "" && q[0] == '/' && !DoubleSlash(q) && (q[|q| - 1] == '/' ==> q == "/")
  {
    StripKeepsSlashes(path);
    var p := StripParameters(path).value;
    var q := DropSlash(p);
    assert forall i :: 0 <= i < |q| ==> q[i] == p[i];
    if |p| > 1 && p[|p| - 1] == '/' {
      NoSlashBefore(p, |p| - 2);
    }
    if q[|q| - 1] == '/' {
      assert |q| == 1;
      assert q == "/";
    }
  }

  /** Normalising is idempotent: a normalised path is its own normal form. */
  lemma {:induction false} NormalizeTwice(path: string)
    requires Normalize(path).Some?
    ensures Normalize(Normalize(path).value) == Normalize(path)
  {
    NormalizedShape(path);
    StripTwice(path);
    var p := StripParameters(path).value;
    if |p| > 1 && p[|p| - 1] == '/' {
      DropKeepsFixed(p);
    }
    var q := Normalize(path).value;
    assert StripParameters(q) == Some(q) && DropSlash(q) == q;
  }
}
