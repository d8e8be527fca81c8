/** Compact JSON printing with sorted keys, and the proof that it loses nothing but key order. */
module CanonicalJson {
  import opened Text
  import opened JsonValues

  function Hex(d: nat): char
    requires d < 16
  {
    if d < 10 then ('0' as int + d) as char else ('a' as int + d - 10) as char
  }

  /** `json.dumps(..., ensure_ascii=False)` escapes quotes, backslashes and control characters only. */
  function EscapeChar(c: char): (s: string)
    ensures s != [] && s[0] != '"'
  {
    if c == '"' then "\\\""
    else if c == '\\' then "\\\\"
    else if c == '\n' then "\\n"
    else if c == '\r' then "\\r"
    else if c == '\t' then "\\t"
    else if c as int == 8 then "\\b"
    else if c as int == 12 then "\\f"
    else if c as int < 32 then "\\u00" + [Hex(c as int / 16), Hex(c as int % 16)]
    else [c]
  }

  function QuoteBody(s: string): string {
    if s == [] then "\"" else EscapeChar(s[0]) + QuoteBody(s[1..])
  }

  /** Compact printing in the order the document holds its keys. */
  function Dump(j: Json): string
    decreases j, 0
  {
    match j
    case Null => "null"
    case Bool(b) => if b then "true" else "false"
    case Num(n) => IntText(n)
    case Str(s) => "\"" + QuoteBody(s)
    case Arr(items) => "[" + DumpItems(items)
    case Obj(fs) => "{" + DumpFields(fs)
  }

  function DumpItems(items: seq<Json>): string
    decreases items, 1
  {
    if items == [] then "]"
    else Dump(items[0]) + (if |items| == 1 then "]" else "," + DumpItems(items[1..]))
  }

  function DumpFields(fs: seq<Field>): string
    decreases fs, 1
  {
    if fs == [] then "}"
    else DumpField(fs[0]) + (if |fs| == 1 then "}" else "," + DumpFields(fs[1..]))
  }

  function DumpField(f: Field): string
    decreases f, 1
  {
    "\"" + QuoteBody(f.key) + ":" + Dump(f.value)
  }

  /** `canonical_json_bytes`, up to the final UTF-8 encoding. */
  function Canonical(j: Json): string { Dump(Canon(j)) + "\n" }

  lemma {:induction false} EscapeDecodes(c: char, d: char, x: string, y: string)
    requires EscapeChar(c) + x == EscapeChar(d) + y
    ensures c == d && x == y
  {
    var p, q := EscapeChar(c), EscapeChar(d);
    assert p[0] == (p + x)[0] == (q + y)[0] == q[0];
    if |p| > 1 && |q| > 1 {
      assert p[1] == (p + x)[1] == (q + y)[1] == q[1];
      if |p| == 6 && |q| == 6 {
        assert p[4] == (p + x)[4] == (q + y)[4] == q[4];
        assert p[5] == (p + x)[5] == (q + y)[5] == q[5];
      }
    }
    assert x == (p + x)[|p|..] && y == (q + y)[|q|..];
  }

  lemma {:induction false} QuoteDecodes(a: string, b: string, r: string, s: string)
    requires QuoteBody(a) + r == QuoteBody(b) + s
    ensures a == b && r == s
  {
    QuoteHead(a, r);
    QuoteHead(b, s);
    if a != [] && b != [] {
      EscapeDecodes(a[0], b[0], QuoteBody(a[1..]) + r, QuoteBody(b[1..]) + s);
      QuoteDecodes(a[1..], b[1..], r, s);
      assert a == [a[0]] + a[1..] && b == [b[0]] + b[1..];
    }
  }

  lemma {:induction false} QuoteHead(a: string, r: string)
    ensures (QuoteBody(a) + r)[0] == '"' <==> a == []
    ensures a == [] ==> (QuoteBody(a) + r)[1..] == r
    ensures a != [] ==> QuoteBody(a) + r == EscapeChar(a[0]) + (QuoteBody(a[1..]) + r)
  {
    if a != [] {
      Regroup(EscapeChar(a[0]), QuoteBody(a[1..]), r);
      assert (QuoteBody(a) + r)[0] == EscapeChar(a[0])[0];
    }
  }

  /** The first character of a printed value tells its kind. */
  predicate Opens(j: Json, c: char) {
    match j
    case Null => c == 'n'
    case Bool(b) => c == if b then 't' else 'f'
    case Num(_) => c == '-' || IsDigit(c)
    case Str(_) => c == '"'
    case Arr(_) => c == '['
    case Obj(_) => c == '{'
  }

  lemma {:induction false} DumpOpens(j: Json, r: string)
    ensures Dump(j) != [] && (Dump(j) + r)[0] == Dump(j)[0] && Opens(j, Dump(j)[0])
  {
  }

  /** The rest of a text after its first `k` characters. */
  lemma {:induction false} AfterPrefix(p: string, q: string, r: string, k: nat)
    requires |p| == k
    ensures (p + q + r)[k..] == q + r
    ensures (p + r)[k..] == r
  {
  }

  lemma {:induction false} Head(p: string, r: string)
    requires p != []
    ensures (p + r)[0] == p[0] && (p + r)[1..] == p[1..] + r
  {
  }

  /** Printing is prefix free: a printed value can be read off the front of any text in one way only. */
  lemma {:induction false} DumpDecodes(a: Json, b: Json, r: string, s: string)
    requires EndsNumber(r) && EndsNumber(s) && Dump(a) + r == Dump(b) + s
    ensures a == b && r == s
    decreases a, 0
  {
    DumpOpens(a, r);
    DumpOpens(b, s);
    match a
    case Num(m) => IntTextDecodes(m, b.n, r, s);
    case Str(x) =>
      AfterPrefix("\"", QuoteBody(x), r, 1);
      AfterPrefix("\"", QuoteBody(b.s), s, 1);
      QuoteDecodes(x, b.s, r, s);
    case Arr(items) =>
      AfterPrefix("[", DumpItems(items), r, 1);
      AfterPrefix("[", DumpItems(b.items), s, 1);
      ItemsDecode(items, b.items, r, s);
    case Obj(fs) =>
      AfterPrefix("{", DumpFields(fs), r, 1);
      AfterPrefix("{", DumpFields(b.fields), s, 1);
      FieldsDecode(fs, b.fields, r, s);
    case _ =>
      AfterPrefix(Dump(a), [], r, |Dump(a)|);
      AfterPrefix(Dump(b), [], s, |Dump(b)|);
  }

  function ItemsRest(xs: seq<Json>): (s: string)
    requires xs != []
    ensures EndsNumber(s) && s != []
    ensures s[0] == if |xs| == 1 then ']' else ','
  {
    if |xs| == 1 then "]" else "," + DumpItems(xs[1..])
  }

  lemma {:induction false} ItemsStep(xs: seq<Json>)
    requires xs != []
    ensures DumpItems(xs) == Dump(xs[0]) + ItemsRest(xs)
    ensures ItemsRest(xs)[1..] == if |xs| == 1 then [] else DumpItems(xs[1..])
  {
  }

  lemma {:induction false} ItemsSplit(xs: seq<Json>, r: string)
    requires xs != []
    ensures DumpItems(xs) + r == Dump(xs[0]) + (ItemsRest(xs) + r)
    ensures (ItemsRest(xs) + r)[0] == ItemsRest(xs)[0] && EndsNumber(ItemsRest(xs) + r)
    ensures (ItemsRest(xs) + r)[1..] == (if |xs| == 1 then [] else DumpItems(xs[1..])) + r
  {
    ItemsStep(xs);
    Regroup(Dump(xs[0]), ItemsRest(xs), r);
    Head(ItemsRest(xs), r);
  }

  lemma {:induction false} ItemsDecode(xs: seq<Json>, ys: seq<Json>, r: string, s: string)
    requires DumpItems(xs) + r == DumpItems(ys) + s
    ensures xs == ys && r == s
    decreases xs, 1
  {
    if xs == [] || ys == [] {
      ItemsHead(xs, r);
      ItemsHead(ys, s);
      assert r == (DumpItems(xs) + r)[1..] && s == (DumpItems(ys) + s)[1..];
    } else {
      ItemsSplit(xs, r);
      ItemsSplit(ys, s);
      DumpDecodes(xs[0], ys[0], ItemsRest(xs) + r, ItemsRest(ys) + s);
      assert |xs| == 1 <==> |ys| == 1;
      if |xs| > 1 {
        ItemsDecode(xs[1..], ys[1..], r, s);
      }
      assert xs == [xs[0]] + xs[1..] && ys == [ys[0]] + ys[1..];
    }
  }

  lemma {:induction false} ItemsHead(xs: seq<Json>, r: string)
    ensures DumpItems(xs) != [] && (DumpItems(xs)[0] == ']' <==> xs == [])
    ensures (DumpItems(xs) + r)[0] == DumpItems(xs)[0]
  {
    if xs != [] {
      DumpOpens(xs[0], ItemsRest(xs));
      assert DumpItems(xs) == Dump(xs[0]) + ItemsRest(xs);
    }
  }

  function FieldsRest(fs: seq<Field>): (s: string)
    requires fs != []
    ensures EndsNumber(s) && s != []
    ensures s[0] == if |fs| == 1 then '}' else ','
  {
    if |fs| == 1 then "}" else "," + DumpFields(fs[1..])
  }

  lemma {:induction false} FieldsStep(fs: seq<Field>)
    requires fs != []
    ensures DumpFields(fs) == DumpField(fs[0]) + FieldsRest(fs)
    ensures FieldsRest(fs)[1..] == if |fs| == 1 then [] else DumpFields(fs[1..])
  {
  }

  lemma {:induction false} FieldsSplit(fs: seq<Field>, r: string)
    requires fs != []
    ensures DumpFields(fs) + r == DumpField(fs[0]) + (FieldsRest(fs) + r)
    ensures (FieldsRest(fs) + r)[0] == FieldsRest(fs)[0] && EndsNumber(FieldsRest(fs) + r)
    ensures (FieldsRest(fs) + r)[1..] == (if |fs| == 1 then [] else DumpFields(fs[1..])) + r
  {
    FieldsStep(fs);
    Regroup(DumpField(fs[0]), FieldsRest(fs), r);
    Head(FieldsRest(fs), r);
  }

  lemma {:induction false} FieldsDecode(fs: seq<Field>, gs: seq<Field>, r: string, s: string)
    requires DumpFields(fs) + r == DumpFields(gs) + s
    ensures fs == gs && r == s
    decreases fs, 1
  {
    if fs == [] || gs == [] {
      FieldsHead(fs, r);
      FieldsHead(gs, s);
      assert r == (DumpFields(fs) + r)[1..] && s == (DumpFields(gs) + s)[1..];
    } else {
      FieldsSplit(fs, r);
      FieldsSplit(gs, s);
      FieldDecodes(fs[0], gs[0], FieldsRest(fs) + r, FieldsRest(gs) + s);
      assert |fs| == 1 <==> |gs| == 1;
      if |fs| > 1 {
        FieldsDecode(fs[1..], gs[1..], r, s);
      }
      assert fs == [fs[0]] + fs[1..] && gs == [gs[0]] + gs[1..];
    }
  }

  lemma {:induction false} FieldsHead(fs: seq<Field>, r: string)
    ensures DumpFields(fs) != [] && (DumpFields(fs)[0] == '}' <==> fs == [])
    ensures (DumpFields(fs) + r)[0] == DumpFields(fs)[0]
  {
    if fs != [] {
      assert DumpFields(fs) == DumpField(fs[0]) + FieldsRest(fs);
      assert DumpField(fs[0])[0] == '"';
    }
  }

  lemma {:induction false} FieldDecodes(f: Field, g: Field, r: string, s: string)
    requires EndsNumber(r) && EndsNumber(s) && DumpField(f) + r == DumpField(g) + s
    ensures f == g && r == s
    decreases f, 1
  {
    FieldSplit(f, r);
    FieldSplit(g, s);
    QuoteDecodes(f.key, g.key, ":" + (Dump(f.value) + r), ":" + (Dump(g.value) + s));
    AfterPrefix(":", [], Dump(f.value) + r, 1);
    AfterPrefix(":", [], Dump(g.value) + s, 1);
    DumpDecodes(f.value, g.value, r, s);
  }

  lemma {:induction false} FieldSplit(f: Field, r: string)
    ensures (DumpField(f) + r)[1..] == QuoteBody(f.key) + (":" + (Dump(f.value) + r))
  {
    var q, d := QuoteBody(f.key), Dump(f.value);
    FieldShape(q, d, r);
  }

  lemma {:induction false} FieldShape(q: string, d: string, r: string)
    ensures ("\"" + q + ":" + d + r)[1..] == q + (":" + (d + r))
  {
    var t := "\"" + q + ":" + d + r;
    assert t == "\"" + (q + (":" + (d + r)));
  }

  /** Canonical text identifies a value: two documents print alike exactly when they are equal up to key
      order. Python's own equality is coarser: it takes `True` for 1, which print differently. */
  lemma {:induction false} CanonicalInjective(a: Json, b: Json)
    ensures Canonical(a) == Canonical(b) <==> Same(a, b)
  {
    if Canonical(a) == Canonical(b) {
      DumpDecodes(Canon(a), Canon(b), "\n", "\n");
    }
  }
}
