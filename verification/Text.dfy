/** Python strings as sequences of characters: order, splitting, trimming, decimal numerals. */
module Text {

  /** Code point order, the order `sorted` uses on strings. */
  predicate StrLe(a: string, b: string) {
    a == [] || (b != [] && (a[0] < b[0] || (a[0] == b[0] && StrLe(a[1..], b[1..]))))
  }

  lemma {:induction false} StrLeTotal(a: string, b: string)
    ensures StrLe(a, b) || StrLe(b, a)
  {
    if a != [] && b != [] && a[0] == b[0] {
      StrLeTotal(a[1..], b[1..]);
    }
  }

  lemma {:induction false} StrLeTransitive(a: string, b: string, c: string)
    requires StrLe(a, b) && StrLe(b, c)
    ensures StrLe(a, c)
  {
    if a != [] && a[0] == b[0] == c[0] {
      StrLeTransitive(a[1..], b[1..], c[1..]);
    }
  }

  lemma {:induction false} StrLeAntisymmetric(a: string, b: string)
    requires StrLe(a, b) && StrLe(b, a)
    ensures a == b
  {
    if a != [] && b != [] {
      StrLeAntisymmetric(a[1..], b[1..]);
      assert a == [a[0]] + a[1..] && b == [b[0]] + b[1..];
    }
  }

  /** `s.startswith(p)` is Dafny's prefix test; `s.endswith(p)` is this. */
  predicate EndsWith(s: string, p: string) {
    |p| <= |s| && s[|s| - |p|..] == p
  }

  /** `p in s` on strings. */
  predicate Contains(s: string, p: string) {
    p <= s || (s != [] && Contains(s[1..], p))
  }

  lemma {:induction false} Regroup<T>(x: seq<T>, y: seq<T>, z: seq<T>)
    ensures x + (y + z) == x + y + z
  {
  }

  /** `s.split(sep)` for a one-character separator: never empty. */
  function Split(s: string, sep: char): (parts: seq<string>)
    ensures |parts| > 0
  {
    if s == [] then [[]]
    else
      var rest := Split(s[1..], sep);
      if s[0] == sep then [[]] + rest else [[s[0]] + rest[0]] + rest[1..]
  }

  /** `sep.join(parts)`. */
  function Join(parts: seq<string>, sep: char): string
  {
    if parts == [] then [] else if |parts| == 1 then parts[0] else parts[0] + [sep] + Join(parts[1..], sep)
  }

  ghost predicate Free(s: string, sep: char) {
    forall j :: 0 <= j < |s| ==> s[j] != sep
  }

  lemma {:induction false} SplitParts(s: string, sep: char)
    ensures forall i :: 0 <= i < |Split(s, sep)| ==> Free(Split(s, sep)[i], sep)
  {
    if s == [] {
    } else {
      SplitParts(s[1..], sep);
      var rest, parts := Split(s[1..], sep), Split(s, sep);
      forall i | 0 <= i < |parts| ensures Free(parts[i], sep) {
        if s[0] == sep {
          assert i > 0 ==> parts[i] == rest[i - 1];
        } else {
          assert i > 0 ==> parts[i] == rest[i];
          assert Free(rest[0], sep);
        }
      }
    }
  }

  lemma {:induction false} SplitJoin(parts: seq<string>, sep: char)
    requires parts != [] && forall i :: 0 <= i < |parts| ==> Free(parts[i], sep)
    ensures Split(Join(parts, sep), sep) == parts
  {
    if |parts| == 1 {
      SplitFree(parts[0], sep);
    } else {
      SplitJoin(parts[1..], sep);
      SplitPrefix(parts[0], Join(parts[1..], sep), sep);
      assert Join(parts, sep) == parts[0] + [sep] + Join(parts[1..], sep);
    }
  }

  lemma {:induction false} SplitFree(s: string, sep: char)
    requires Free(s, sep)
    ensures Split(s, sep) == [s]
  {
    if s == [] {
    } else {
      assert Free(s[1..], sep);
      SplitFree(s[1..], sep);
      assert s == [s[0]] + s[1..];
    }
  }

  lemma {:induction false} SplitPrefix(p: string, s: string, sep: char)
    requires Free(p, sep)
    ensures Split(p + [sep] + s, sep) == [p] + Split(s, sep)
  {
    var w := p + [sep] + s;
    if p == [] {
      assert w[1..] == s;
    } else {
      assert Free(p[1..], sep);
      SplitPrefix(p[1..], s, sep);
      assert w[1..] == p[1..] + [sep] + s;
      assert p == [p[0]] + p[1..];
    }
  }

  lemma {:induction false} JoinSplit(s: string, sep: char)
    ensures Join(Split(s, sep), sep) == s
  {
    if s == [] {
    } else {
      JoinSplit(s[1..], sep);
      var rest := Split(s[1..], sep);
      if s[0] == sep {
        assert ([[]] + rest)[1..] == rest;
        assert s == [] + [sep] + s[1..];
      } else {
        var parts := [[s[0]] + rest[0]] + rest[1..];
        assert parts[1..] == rest[1..];
        assert s == [s[0]] + s[1..];
      }
    }
  }

  /** ASCII white space, as `str.strip()` removes it. */
  predicate IsSpace(c: char) {
    c == ' ' || '\t' <= c <= '\r' || 0x1c <= c as int <= 0x1f
  }

  function TrimLeft(s: string): (r: string)
    ensures r == [] || !IsSpace(r[0])
  {
    if s != [] && IsSpace(s[0]) then TrimLeft(s[1..]) else s
  }

  function TrimRight(s: string): (r: string)
    ensures r == [] || (!IsSpace(r[|r| - 1]) && s != [] && r[0] == s[0])
  {
    if s != [] && IsSpace(s[|s| - 1]) then TrimRight(s[..|s| - 1]) else s
  }

  /** `s.strip()`. */
  function Trim(s: string): (r: string)
    ensures Trimmed(r)
  {
    TrimRight(TrimLeft(s))
  }

  /** `not s.strip()`. */
  predicate Blank(s: string) {
    forall i :: 0 <= i < |s| ==> IsSpace(s[i])
  }

  predicate Trimmed(s: string) {
    s == [] || (!IsSpace(s[0]) && !IsSpace(s[|s| - 1]))
  }

  lemma {:induction false} TrimOfTrimmed(s: string)
    requires Trimmed(s)
    ensures Trim(s) == s
  {
  }

  lemma {:induction false} TrimLeftCuts(s: string) returns (a: string)
    ensures Blank(a) && s == a + TrimLeft(s)
  {
    if s != [] && IsSpace(s[0]) {
      var b := TrimLeftCuts(s[1..]);
      a := [s[0]] + b;
      assert s == [s[0]] + s[1..];
    } else {
      a := [];
    }
  }

  lemma {:induction false} TrimRightCuts(s: string) returns (b: string)
    ensures Blank(b) && s == TrimRight(s) + b
  {
    if s != [] && IsSpace(s[|s| - 1]) {
      var a := TrimRightCuts(s[..|s| - 1]);
      b := a + [s[|s| - 1]];
      assert s == s[..|s| - 1] + [s[|s| - 1]];
    } else {
      b := [];
    }
  }

  lemma {:induction false} TrimLeftSkips(a: string, t: string)
    requires Blank(a)
    ensures TrimLeft(a + t) == TrimLeft(t)
  {
    if a == [] {
      assert a + t == t;
    } else {
      assert (a + t)[1..] == a[1..] + t;
      assert Blank(a[1..]);
      TrimLeftSkips(a[1..], t);
    }
  }

  lemma {:induction false} TrimRightSkips(t: string, b: string)
    requires Blank(b)
    ensures TrimRight(t + b) == TrimRight(t)
  {
    if b == [] {
      assert t + b == t;
    } else {
      var c := b[..|b| - 1];
      assert (t + b)[..|t + b| - 1] == t + c;
      assert Blank(c);
      TrimRightSkips(t, c);
    }
  }

  /** Stripping takes white space off both ends and nothing else: this determines the result. */
  lemma {:induction false} TrimExactly(s: string, t: string)
    ensures Trim(s) == t <==> Trimmed(t) && exists a, b :: Blank(a) && Blank(b) && s == a + t + b
  {
    if Trim(s) == t {
      var a := TrimLeftCuts(s);
      var b := TrimRightCuts(TrimLeft(s));
      assert s == a + t + b;
    }
    if Trimmed(t) && exists a, b :: Blank(a) && Blank(b) && s == a + t + b {
      var a, b :| Blank(a) && Blank(b) && s == a + t + b;
      assert s == a + (t + b);
      TrimLeftSkips(a, t + b);
      if t == [] {
        assert t + b == b + [];
        TrimLeftSkips(b, []);
      } else {
        assert TrimLeft(t + b) == t + b;
        TrimRightSkips(t, b);
      }
    }
  }

  predicate IsDigit(c: char) { '0' <= c <= '9' }

  function Digit(d: nat): (c: char)
    requires d < 10
    ensures IsDigit(c) && c as int == '0' as int + d
  {
    ('0' as int + d) as char
  }

  /** `str(n)` for a natural number. */
  function NatText(n: nat): (s: string)
    ensures s != [] && forall i :: 0 <= i < |s| ==> IsDigit(s[i])
  {
    if n < 10 then [Digit(n)] else NatText(n / 10) + [Digit(n % 10)]
  }

  /** `str(n)` for any integer. */
  function IntText(n: int): (s: string)
    ensures s != [] && (s[0] == '-' || IsDigit(s[0]))
    ensures n >= 0 ==> IsDigit(s[0])
  {
    if n < 0 then "-" + NatText(-n) else NatText(n)
  }

  lemma {:induction false} NatTextInjective(m: nat, n: nat)
    requires NatText(m) == NatText(n)
    ensures m == n
  {
    var s, t := NatText(m), NatText(n);
    if m < 10 || n < 10 {
      assert |s| == |t|;
      assert s[|s| - 1] == t[|t| - 1];
    } else {
      assert s[..|s| - 1] == NatText(m / 10) && t[..|t| - 1] == NatText(n / 10);
      NatTextInjective(m / 10, n / 10);
      assert s[|s| - 1] == t[|t| - 1];
    }
  }

  /** The number a digit string denotes. */
  ghost function Value(s: string): nat
    requires forall i :: 0 <= i < |s| ==> IsDigit(s[i])
  {
    if s == "" then 0
    else
      assert IsDigit(s[|s| - 1]);
      Value(s[..|s| - 1]) * 10 + (s[|s| - 1] as int - '0' as int)
  }

  lemma {:induction false} ValueOfText(n: nat)
    ensures Value(NatText(n)) == n
  {
    var s := NatText(n);
    if n < 10 {
      assert s[..0] == "";
    } else {
      ValueOfText(n / 10);
      assert s[..|s| - 1] == NatText(n / 10);
    }
  }

  lemma {:induction false} NoLeadingZero(n: nat)
    ensures n > 0 ==> NatText(n)[0] != '0'
  {
    if n >= 10 {
      NoLeadingZero(n / 10);
      assert NatText(n)[0] == NatText(n / 10)[0];
    }
  }

  /** The remainder of a text after a number must not extend its digits. */
  ghost predicate EndsNumber(r: string) { r == [] || !IsDigit(r[0]) }

  /** A digit run is the longest digit prefix, so it can be read back unambiguously. */
  lemma {:induction false} DigitRunUnique(a: string, b: string, r: string, s: string)
    requires forall i :: 0 <= i < |a| ==> IsDigit(a[i])
    requires forall i :: 0 <= i < |b| ==> IsDigit(b[i])
    requires EndsNumber(r) && EndsNumber(s) && a + r == b + s
    ensures a == b && r == s
  {
    if a == [] || b == [] {
      assert a == [] ==> a + r == r;
      assert b == [] ==> b + s == s;
    } else {
      assert (a + r)[1..] == a[1..] + r && (b + s)[1..] == b[1..] + s;
      assert a[0] == (a + r)[0] == (b + s)[0] == b[0];
      DigitRunUnique(a[1..], b[1..], r, s);
      assert a == [a[0]] + a[1..] && b == [b[0]] + b[1..];
    }
  }

  lemma {:induction false} IntTextDecodes(m: int, n: int, r: string, s: string)
    requires EndsNumber(r) && EndsNumber(s) && IntText(m) + r == IntText(n) + s
    ensures m == n && r == s
  {
    var x, y := IntText(m), IntText(n);
    assert x[0] == (x + r)[0] == (y + s)[0] == y[0];
    if m < 0 {
      MinusText(m, r);
      MinusText(n, s);
      DigitRunUnique(NatText(-m), NatText(-n), r, s);
      NatTextInjective(-m, -n);
    } else {
      DigitRunUnique(NatText(m), NatText(n), r, s);
      NatTextInjective(m, n);
    }
  }

  lemma {:induction false} MinusText(n: int, r: string)
    ensures IntText(n)[0] == '-' ==> n < 0
    ensures n < 0 ==> (IntText(n) + r)[1..] == NatText(-n) + r
  {
  }
}
