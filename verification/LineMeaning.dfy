/** How single lines of Markdown tables are read. */
module LineMeaning {
  import opened Text
  import opened JsonValues
  import opened MarkdownTables
  import opened MarkdownRendering

  /** A section starts with two hashes and a space. */
  lemma {:induction false} SectionExactly(line: string)
    ensures StartsSection(line) <==> "## " <= line
  {
  }

  /** The cells of a line between bars, as the text between the outer bars is cut at the inner ones. */
  ghost predicate Cells(inner: string, unescape: string -> string, row: Row) {
    exists cells :: cells != [] && (forall i :: 0 <= i < |cells| ==> '|' !in cells[i]) && inner == Join(cells, '|')
      && |row| == |cells| && forall i :: 0 <= i < |cells| ==> row[i] == unescape(Trim(cells[i]))
  }

  lemma {:induction false} ReadEach(cells: seq<string>, unescape: string -> string)
    ensures |ReadCells(cells, unescape)| == |cells|
    ensures forall i :: 0 <= i < |cells| ==> ReadCells(cells, unescape)[i] == unescape(Trim(cells[i]))
  {
    if cells != [] {
      ReadEach(cells[1..], unescape);
      forall i | 0 < i < |cells| ensures cells[i] == cells[1..][i - 1] {
      }
    }
  }

  lemma {:induction false} CellsExactly(inner: string, unescape: string -> string, row: Row)
    ensures ReadCells(Split(inner, '|'), unescape) == row <==> Cells(inner, unescape, row)
  {
    var cells := Split(inner, '|');
    ReadEach(cells, unescape);
    if ReadCells(cells, unescape) == row {
      SplitParts(inner, '|');
      JoinSplit(inner, '|');
      forall i | 0 <= i < |cells| ensures '|' !in cells[i] {
        assert Free(cells[i], '|');
      }
    }
    if Cells(inner, unescape, row) {
      var given :| given != [] && (forall i :: 0 <= i < |given| ==> '|' !in given[i]) && inner == Join(given, '|')
        && |row| == |given| && forall i :: 0 <= i < |given| ==> row[i] == unescape(Trim(given[i]));
      forall i | 0 <= i < |given| ensures Free(given[i], '|') {
      }
      SplitJoin(given, '|');
    }
  }

  /** `s` is `inner` between two bars, or a lone bar. */
  predicate Barred(s: string, inner: string) { s == "|" + inner + "|" || (s == "|" && inner == "") }

  lemma {:induction false} BarredInner(s: string, inner: string)
    requires Barred(s, inner)
    ensures StartsWithBar(s) && EndsWithBar(s) && Inner(s) == inner
  {
  }

  lemma {:induction false} InnerBarred(s: string)
    requires StartsWithBar(s) && EndsWithBar(s)
    ensures Barred(s, Inner(s))
  {
    if |s| >= 2 {
      assert s == [s[0]] + s[1..|s| - 1] + [s[|s| - 1]];
    } else {
      assert s == [s[0]];
    }
  }

  /** A line is a row exactly if, stripped, it is a lone bar or stands between two bars; its cells are stripped and their
      character references resolved. */
  lemma {:induction false} RowExactly(line: string, unescape: string -> string, row: Row)
    ensures SplitRow(line, unescape) == Some(row) <==>
      exists inner :: Barred(Trim(line), inner) && Cells(inner, unescape, row)
  {
    var s := Trim(line);
    CellsExactly(Inner(s), unescape, row);
    if StartsWithBar(s) && EndsWithBar(s) {
      InnerBarred(s);
    }
    if inner :| Barred(s, inner) && Cells(inner, unescape, row) {
      BarredInner(s, inner);
    }
  }

  /** Dashes, at least three, between the ends. */
  ghost predicate Dashed(s: string, a: string, d: string, b: string) {
    && (a == "" || a == ":") && (b == "" || b == ":") && s == a + d + b
    && |d| >= 3 && forall i :: 0 <= i < |d| ==> d[i] == '-'
  }

  lemma {:induction false} LeftDashed(s: string, left: string)
    requires left == if ":" <= s then s[1..] else s
    ensures s == (if ":" <= s then ":" else "") + left
  {
  }

  lemma {:induction false} RightDashed(left: string, d: string)
    requires d == if EndsWith(left, ":") then left[..|left| - 1] else left
    ensures left == d + if EndsWith(left, ":") then ":" else ""
  {
    if EndsWith(left, ":") {
      assert left == left[..|left| - 1] + left[|left| - 1..];
    }
  }

  lemma {:induction false} CellDashed(s: string)
    requires SeparatorCell(s)
    ensures exists a, d, b :: Dashed(s, a, d, b)
  {
    var left := if ":" <= s then s[1..] else s;
    var d := if EndsWith(left, ":") then left[..|left| - 1] else left;
    LeftDashed(s, left);
    RightDashed(left, d);
    DashedInThree(s, if ":" <= s then ":" else "", left, d, if EndsWith(left, ":") then ":" else "");
  }

  lemma {:induction false} DashedInThree(s: string, a: string, left: string, d: string, b: string)
    requires s == a + left && left == d + b && (a == "" || a == ":") && (b == "" || b == ":") && Dashes(d)
    ensures Dashed(s, a, d, b)
  {
    Regroup(a, d, b);
  }

  lemma {:induction false} DashedRight(d: string, b: string)
    requires |d| >= 3 && (forall i :: 0 <= i < |d| ==> d[i] == '-') && (b == "" || b == ":")
    ensures EndsWith(d + b, ":") <==> b == ":"
    ensures b == ":" ==> (d + b)[..|d + b| - 1] == d
    ensures b == "" ==> d + b == d
  {
    var left := d + b;
    if b == "" {
      assert left == d && left[|left| - 1..] == [d[|d| - 1]];
    } else {
      assert left[|left| - 1..] == ":";
    }
  }

  lemma {:induction false} DashedLeft(a: string, left: string)
    requires (a == "" || a == ":") && left != "" && left[0] == '-'
    ensures left == if ":" <= a + left then (a + left)[1..] else a + left
  {
    if a == "" {
      assert a + left == left;
    } else {
      assert (a + left)[..1] == ":";
    }
  }

  lemma {:induction false} CellFrom(s: string, left: string)
    requires left == if ":" <= s then s[1..] else s
    requires Dashes(if EndsWith(left, ":") then left[..|left| - 1] else left)
    ensures SeparatorCell(s)
  {
  }

  lemma {:induction false} DashedCell(s: string, a: string, d: string, b: string)
    requires Dashed(s, a, d, b)
    ensures SeparatorCell(s)
  {
    assert s == a + (d + b);
    DashedRight(d, b);
    DashedLeft(a, d + b);
    CellFrom(s, d + b);
  }

  /** A separator cell is three or more dashes, with a colon before, after, on both sides or on neither. */
  lemma {:induction false} SeparatorExactly(s: string)
    ensures SeparatorCell(s) <==> exists a, d, b :: Dashed(s, a, d, b)
  {
    if SeparatorCell(s) {
      CellDashed(s);
    }
    if a, d, b :| Dashed(s, a, d, b) {
      DashedCell(s, a, d, b);
    }
  }

  // ---------------------------------------------------------------- the table of a section

  predicate TableLine(line: string) { Trim(line) != "" && Trim(line)[0] == '|' }

  /** The section under the heading: its only heading, and the line where the next section starts or the text ends. */
  ghost predicate SectionBetween(lines: seq<string>, title: string, h: nat, e: nat) {
    && h < e <= |lines| && Trim(lines[h]) == title && (forall i :: 0 <= i < |lines| && Trim(lines[i]) == title ==> i == h)
    && (forall i :: h < i < e ==> !("## " <= lines[i])) && (e < |lines| ==> "## " <= lines[e])
  }

  /** The header stands on one line of the section only, and every table line of the section is a row of cells. */
  ghost predicate HeaderOnly(lines: seq<string>, unescape: string -> string, header: Row, h: nat, e: nat, p: nat) {
    && h < p < e <= |lines| && TableLine(lines[p]) && SplitRow(lines[p], unescape) == Some(header)
    && (forall i :: h < i < e && TableLine(lines[i]) ==> SplitRow(lines[i], unescape).Some?)
    && forall i :: h < i < e && TableLine(lines[i]) && SplitRow(lines[i], unescape) == Some(header) ==> i == p
  }

  /** The rows stand on the lines from `from` on, each as wide as the header. */
  ghost predicate RowsGiven(lines: seq<string>, unescape: string -> string, width: nat, from: nat, rows: seq<Row>) {
    && from + |rows| <= |lines|
    && forall i :: from <= i < from + |rows| ==>
         TableLine(lines[i]) && SplitRow(lines[i], unescape) == Some(rows[i - from]) && |rows[i - from]| == width
  }

  /** The table between two lines: header, separators and at least one row; no other line of the section is a table line. */
  ghost predicate TableBetween(lines: seq<string>, unescape: string -> string, header: Row, h: nat, e: nat, t: Table) {
    && HeaderOnly(lines, unescape, header, h, e, t.start)
    && t.rows != [] && t.end == t.start + 2 + |t.rows| <= e
    && SplitRow(lines[t.start + 1], unescape).Some? && IsSeparator(SplitRow(lines[t.start + 1], unescape).value)
    && RowsGiven(lines, unescape, |header|, t.start + 2, t.rows)
    && forall i :: h < i < e && TableLine(lines[i]) ==> t.start <= i < t.end
  }

  /** How the reader sees headings and sections. */
  ghost predicate SeesSections(lines: seq<string>, r: Reader, title: string) {
    forall i :: 0 <= i < |lines| ==>
      (r.heading(lines[i]) <==> Trim(lines[i]) == title) && (r.opensSection(lines[i]) <==> "## " <= lines[i])
  }

  lemma {:induction false} SectionsExactly(lines: seq<string>, r: Reader, title: string, h: nat, e: nat)
    requires SeesSections(lines, r, title)
    ensures Section(lines, r, h, e) <==> SectionBetween(lines, title, h, e)
  {
  }

  lemma {:induction false} HeadingsSeen(lines: seq<string>, title: string, unescape: string -> string)
    ensures SeesSections(lines, ReaderFor(title, unescape), title)
  {
    forall i | 0 <= i < |lines| ensures StartsSection(lines[i]) <==> "## " <= lines[i] {
      SectionExactly(lines[i]);
    }
  }

  /** How the reader sees the lines of the document. */
  ghost predicate Sees(lines: seq<string>, r: Reader, unescape: string -> string) {
    forall i :: 0 <= i < |lines| ==>
      (r.tableLine(lines[i]) <==> TableLine(lines[i])) && r.split(lines[i]) == SplitRow(lines[i], unescape)
  }

  lemma {:induction false} HeaderExactly(
      lines: seq<string>, r: Reader, unescape: string -> string, header: Row, h: nat, e: nat, p: nat)
    requires Sees(lines, r, unescape)
    ensures HeaderAt(lines, r, header, h + 1, e, p) <==> HeaderOnly(lines, unescape, header, h, e, p)
  {
  }

  lemma {:induction false} RowsExactly(
      lines: seq<string>, r: Reader, unescape: string -> string, width: nat, from: nat, rows: seq<Row>)
    requires Sees(lines, r, unescape)
    ensures RowsAt(lines, r, width, from, rows) <==> RowsGiven(lines, unescape, width, from, rows)
  {
    if RowsGiven(lines, unescape, width, from, rows) {
      forall i | from <= i < from + |rows|
        ensures r.tableLine(lines[i]) && r.split(lines[i]) == Some(rows[i - from]) && |rows[i - from]| == width
      {
        assert TableLine(lines[i]) && SplitRow(lines[i], unescape) == Some(rows[i - from]);
      }
    }
    if RowsAt(lines, r, width, from, rows) {
      forall i | from <= i < from + |rows|
        ensures TableLine(lines[i]) && SplitRow(lines[i], unescape) == Some(rows[i - from]) && |rows[i - from]| == width
      {
        assert r.tableLine(lines[i]) && r.split(lines[i]) == Some(rows[i - from]);
      }
    }
  }

  lemma {:induction false} OnlyExactly(lines: seq<string>, r: Reader, unescape: string -> string, h: nat, e: nat, t: Table)
    requires Sees(lines, r, unescape) && e <= |lines|
    ensures OnlyTable(lines, r, h + 1, e, t.start, t.end) <==> forall i :: h < i < e && TableLine(lines[i]) ==> t.start <= i < t.end
  {
  }

  lemma {:induction false} ReaderSees(lines: seq<string>, title: string, unescape: string -> string)
    ensures Sees(lines, ReaderFor(title, unescape), unescape)
  {
  }

  lemma {:induction false} SeparatorSeen(lines: seq<string>, r: Reader, unescape: string -> string, i: nat)
    requires Sees(lines, r, unescape) && r.separator == IsSeparator && i < |lines|
    ensures (r.split(lines[i]).Some? && r.separator(r.split(lines[i]).value)) <==>
      (SplitRow(lines[i], unescape).Some? && IsSeparator(SplitRow(lines[i], unescape).value))
  {
  }

  lemma {:induction false} HeaderSeen(
      lines: seq<string>, r: Reader, unescape: string -> string, header: Row, h: nat, e: nat, t: Table)
    requires Sees(lines, r, unescape) && TableIn(lines, r, header, h + 1, e, t)
    ensures HeaderOnly(lines, unescape, header, h, e, t.start)
  {
    HeaderExactly(lines, r, unescape, header, h, e, t.start);
  }

  lemma {:induction false} RowsSeen(
      lines: seq<string>, r: Reader, unescape: string -> string, header: Row, h: nat, e: nat, t: Table)
    requires Sees(lines, r, unescape) && TableIn(lines, r, header, h + 1, e, t)
    ensures RowsGiven(lines, unescape, |header|, t.start + 2, t.rows)
  {
    RowsExactly(lines, r, unescape, |header|, t.start + 2, t.rows);
  }

  lemma {:induction false} OthersSeen(
      lines: seq<string>, r: Reader, unescape: string -> string, header: Row, h: nat, e: nat, t: Table)
    requires Sees(lines, r, unescape) && TableIn(lines, r, header, h + 1, e, t)
    ensures forall i :: h < i < e && TableLine(lines[i]) ==> t.start <= i < t.end
  {
    OnlyExactly(lines, r, unescape, h, e, t);
  }

  lemma {:induction false} TablesSeen(
      lines: seq<string>, r: Reader, unescape: string -> string, header: Row, h: nat, e: nat, t: Table)
    requires Sees(lines, r, unescape) && r.separator == IsSeparator
    requires TableIn(lines, r, header, h + 1, e, t)
    ensures TableBetween(lines, unescape, header, h, e, t)
  {
    HeaderSeen(lines, r, unescape, header, h, e, t);
    RowsSeen(lines, r, unescape, header, h, e, t);
    OthersSeen(lines, r, unescape, header, h, e, t);
    SeparatorSeen(lines, r, unescape, t.start + 1);
  }

  lemma {:induction false} SeenTables(
      lines: seq<string>, r: Reader, unescape: string -> string, header: Row, h: nat, e: nat, t: Table)
    requires Sees(lines, r, unescape) && r.separator == IsSeparator
    requires TableBetween(lines, unescape, header, h, e, t)
    ensures TableIn(lines, r, header, h + 1, e, t)
  {
    HeaderExactly(lines, r, unescape, header, h, e, t.start);
    RowsExactly(lines, r, unescape, |header|, t.start + 2, t.rows);
    OnlyExactly(lines, r, unescape, h, e, t);
    SeparatorSeen(lines, r, unescape, t.start + 1);
  }

  lemma {:induction false} FoundTable(lines: seq<string>, r: Reader, title: string, unescape: string -> string, header: Row, t: Table)
    requires Sees(lines, r, unescape) && SeesSections(lines, r, title) && r.separator == IsSeparator
    requires IsTable(lines, r, header, t)
    ensures exists h: nat, e: nat :: SectionBetween(lines, title, h, e) && TableBetween(lines, unescape, header, h, e, t)
  {
    var h: nat, e: nat :| Section(lines, r, h, e) && TableIn(lines, r, header, h + 1, e, t);
    SectionsExactly(lines, r, title, h, e);
    TablesSeen(lines, r, unescape, header, h, e, t);
  }

  lemma {:induction false} TableFound(
      lines: seq<string>, r: Reader, title: string, unescape: string -> string, header: Row, t: Table, h: nat, e: nat)
    requires Sees(lines, r, unescape) && SeesSections(lines, r, title) && r.separator == IsSeparator
    requires SectionBetween(lines, title, h, e) && TableBetween(lines, unescape, header, h, e, t)
    ensures IsTable(lines, r, header, t)
  {
    SectionsExactly(lines, r, title, h, e);
    SeenTables(lines, r, unescape, header, h, e, t);
  }

  /** The table that the parser returns for a heading. */
  lemma {:induction false} TableExactly(lines: seq<string>, title: string, unescape: string -> string, header: Row, t: Table)
    ensures IsTable(lines, ReaderFor(title, unescape), header, t) <==>
      exists h: nat, e: nat :: SectionBetween(lines, title, h, e) && TableBetween(lines, unescape, header, h, e, t)
  {
    var r := ReaderFor(title, unescape);
    ReaderSees(lines, title, unescape);
    HeadingsSeen(lines, title, unescape);
    if IsTable(lines, r, header, t) {
      FoundTable(lines, r, title, unescape, header, t);
    }
    if h: nat, e: nat :| SectionBetween(lines, title, h, e) && TableBetween(lines, unescape, header, h, e, t) {
      TableFound(lines, r, title, unescape, header, t, h, e);
    }
  }
}
