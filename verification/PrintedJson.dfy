/** What canonical JSON looks like. */
module PrintedJson {
  import opened Sorting
  import opened Text
  import opened JsonValues
  import opened CanonicalJson

  lemma {:induction false} Closed(a: string, rest: string, end: string)
    ensures a + ("," + (rest + end)) == (a + [','] + rest) + end
  {
  }

  lemma {:induction false} TailMapped<S>(xs: seq<S>, f: S -> string)
    requires |xs| > 1
    ensures Map(xs, f)[1..] == Map(xs[1..], f) && Map(xs, f)[0] == f(xs[0])
    ensures Join(Map(xs, f), ',') == f(xs[0]) + [','] + Join(Map(xs[1..], f), ',')
  {
    var parts := Map(xs, f);
    assert parts[1..] == Map(xs[1..], f);
  }

  lemma {:induction false} OneMapped<S>(x: S, f: S -> string)
    ensures Join(Map([x], f), ',') == f(x)
  {
    assert Map([x], f) == [f(x)];
  }

  lemma {:induction false} ItemsText(items: seq<Json>)
    ensures DumpItems(items) == Join(Map(items, Dump), ',') + "]"
  {
    if |items| == 1 {
      assert items == [items[0]];
      OneMapped(items[0], Dump);
    } else if items != [] {
      ItemsText(items[1..]);
      TailMapped(items, Dump);
      Closed(Dump(items[0]), Join(Map(items[1..], Dump), ','), "]");
    }
  }

  /** A list is its printed items, separated by commas, in brackets. */
  lemma {:induction false} ListText(items: seq<Json>)
    ensures Dump(Arr(items)) == "[" + (Join(Map(items, Dump), ',') + "]")
  {
    ItemsText(items);
  }

  function FieldText(f: Field): string { Dump(Str(f.key)) + ":" + Dump(f.value) }

  lemma {:induction false} FieldsText(fs: seq<Field>)
    ensures DumpFields(fs) == Join(Map(fs, FieldText), ',') + "}"
  {
    if |fs| == 1 {
      assert fs == [fs[0]];
      OneMapped(fs[0], FieldText);
      OneField(fs[0]);
    } else if fs != [] {
      FieldsText(fs[1..]);
      TailMapped(fs, FieldText);
      OneField(fs[0]);
      Closed(FieldText(fs[0]), Join(Map(fs[1..], FieldText), ','), "}");
    }
  }

  lemma {:induction false} OneField(f: Field)
    ensures DumpField(f) == FieldText(f)
  {
  }

  /** A dict is its printed fields, each with a colon between key and value, separated by commas, in braces. */
  lemma {:induction false} DictText(fs: seq<Field>)
    ensures Dump(Obj(fs)) == "{" + (Join(Map(fs, FieldText), ',') + "}")
  {
    FieldsText(fs);
  }

  function Escaped(s: string): string { if s == "" then "" else EscapeChar(s[0]) + Escaped(s[1..]) }

  /** A string is its escaped characters between quotes. */
  lemma {:induction false} StringText(s: string)
    ensures Dump(Str(s)) == "\"" + Escaped(s) + "\""
  {
    if s != "" {
      StringText(s[1..]);
      assert Dump(Str(s[1..]))[1..] == QuoteBody(s[1..]);
      assert ("\"" + Escaped(s[1..]) + "\"")[1..] == Escaped(s[1..]) + "\"";
    }
  }

  /** Quotes, backslashes and control characters are escaped, and nothing else. */
  lemma {:induction false} EscapedExactly(c: char)
    ensures EscapeChar(c) == [c] <==> c != '"' && c != '\\' && c as int >= 32
    ensures c == '"' || c == '\\' ==> EscapeChar(c) == "\\" + [c]
    ensures c as int < 32 ==>
      EscapeChar(c) == match c as int
        case 8 => "\\b" case 9 => "\\t" case 10 => "\\n" case 12 => "\\f" case 13 => "\\r"
        case code => "\\u00" + ["0123456789abcdef"[code / 16], "0123456789abcdef"[code % 16]]
  {
    var digits := "0123456789abcdef";
    if c as int < 32 {
      assert Hex(c as int / 16) == digits[c as int / 16];
      assert Hex(c as int % 16) == digits[c as int % 16];
    }
  }

  /** The keys of a canonical dict are sorted, at the top as everywhere below. */
  lemma {:induction false} KeysSorted(fs: seq<Field>)
    ensures var keys := Canon(Obj(fs)).fields; forall i, j :: 0 <= i < j < |keys| ==> StrLe(keys[i].key, keys[j].key)
  {
    FieldPreorder();
    SortOrdered(CanonFields(fs), FieldLe);
  }

  /** A decimal numeral without leading zeros. */
  ghost predicate Numeral(s: string, n: nat) {
    && s != "" && (forall i :: 0 <= i < |s| ==> IsDigit(s[i])) && Value(s) == n && (n > 0 ==> s[0] != '0') && (n == 0 ==> s == "0")
  }

  /** A number is its decimal numeral, after a minus sign if it is negative; the other scalars have their names. */
  lemma {:induction false} ScalarText(v: Json)
    requires v.Null? || v.Bool? || v.Num?
    ensures v.Null? ==> Dump(v) == "null"
    ensures v.Bool? ==> Dump(v) == if v.b then "true" else "false"
    ensures v.Num? && v.n >= 0 ==> Numeral(Dump(v), v.n)
    ensures v.Num? && v.n < 0 ==> exists digits :: Dump(v) == "-" + digits && Numeral(digits, -v.n)
  {
    if v.Num? {
      var m := if v.n < 0 then -v.n else v.n;
      ValueOfText(m);
      NoLeadingZero(m);
      assert Numeral(NatText(m), m);
      assert v.n < 0 ==> Dump(v) == "-" + NatText(m);
    }
  }
}
