/** Reading the lines of Markdown tables, and rendering rows so that they are read back. */
module MarkdownRendering {
  import opened Sorting
  import opened Text
  import opened JsonValues
  import opened MarkdownTables

  // ---------------------------------------------------------------- single lines

  predicate StartsWithBar(s: string) { s != "" && s[0] == '|' }

  predicate EndsWithBar(s: string) { s != "" && s[|s| - 1] == '|' }

  predicate StartsSection(s: string) { |s| >= 3 && s[0] == '#' && s[1] == '#' && s[2] == ' ' }

  function Inner(s: string): string { if |s| < 2 then "" else s[1..|s| - 1] }

  function ReadCells(cells: seq<string>, unescape: string -> string): Row {
    if cells == [] then [] else [unescape(Trim(cells[0]))] + ReadCells(cells[1..], unescape)
  }

  function SplitTrimmed(s: string, unescape: string -> string): Option<Row> {
    if StartsWithBar(s) && EndsWithBar(s) then Some(ReadCells(Split(Inner(s), '|'), unescape)) else None
  }

  /** `split_markdown_row`; `unescape` resolves character references. */
  function SplitRow(line: string, unescape: string -> string): Option<Row> { SplitTrimmed(Trim(line), unescape) }

  predicate Dashes(s: string) { |s| >= 3 && forall i :: 0 <= i < |s| ==> s[i] == '-' }

  /** Three or more dashes with an optional colon on either side. */
  predicate SeparatorCell(s: string) {
    var left := if ":" <= s then s[1..] else s;
    Dashes(if EndsWith(left, ":") then left[..|left| - 1] else left)
  }

  /** `is_separator`. */
  predicate IsSeparator(row: Row) { row != [] && forall i :: 0 <= i < |row| ==> SeparatorCell(row[i]) }

  /** The reader for the section under a heading. */
  function ReaderFor(title: string, unescape: string -> string): Reader {
    Reader(line => Trim(line) == title, StartsSection, line => StartsWithBar(Trim(line)),
           line => SplitRow(line, unescape), IsSeparator)
  }

  // ---------------------------------------------------------------- rendering

  function Spaced(row: Row): (r: Row)
    ensures |r| == |row| && forall i :: 0 <= i < |row| ==> r[i] == " " + row[i] + " "
  {
    if row == [] then [] else [" " + row[0] + " "] + Spaced(row[1..])
  }

  function RenderRow(row: Row): string { "|" + Join(Spaced(row), '|') + "|" }

  function Rule(width: nat): Row { seq(width, _ => "---") }

  ghost predicate PlainCell(s: string) { Trimmed(s) && Free(s, '|') && Free(s, '&') }

  ghost predicate PlainRow(row: Row) { row != [] && forall i :: 0 <= i < |row| ==> PlainCell(row[i]) }

  /** Text without `&` has no character references. */
  ghost predicate Unescapes(unescape: string -> string) {
    forall s {:trigger unescape(s)} :: Free(s, '&') ==> unescape(s) == s
  }

  lemma {:induction false} TrimSpaced(s: string)
    requires Trimmed(s)
    ensures Trim(" " + s + " ") == s
  {
    var w := " " + s + " ";
    assert w[1..] == s + " ";
    if s == "" {
      assert w[1..] == " ";
      assert TrimLeft(" ") == "" by {
        assert " "[1..] == "";
      }
    } else {
      assert TrimLeft(w) == s + " ";
      assert (s + " ")[..|s|] == s;
      assert TrimRight(s) == s;
    }
  }

  lemma {:induction false} CellRead(cell: string, unescape: string -> string)
    requires Unescapes(unescape) && PlainCell(cell)
    ensures unescape(Trim(" " + cell + " ")) == cell
  {
    TrimSpaced(cell);
  }

  lemma {:induction false} CellsRead(row: Row, unescape: string -> string)
    requires Unescapes(unescape) && forall i :: 0 <= i < |row| ==> PlainCell(row[i])
    ensures ReadCells(Spaced(row), unescape) == row
  {
    if row == [] {
    } else {
      CellsRead(row[1..], unescape);
      CellRead(row[0], unescape);
      assert Spaced(row)[1..] == Spaced(row[1..]);
    }
  }

  lemma {:induction false} BarredEnds(s: string)
    ensures var w := "|" + s + "|"; w != "" && w[0] == '|' && w[|w| - 1] == '|'
  {
  }

  lemma {:induction false} EndsTrimmed(w: string)
    requires w != "" && w[0] == '|' && w[|w| - 1] == '|'
    ensures Trim(w) == w && StartsWithBar(w) && !StartsSection(w)
  {
    TrimOfTrimmed(w);
  }

  lemma {:induction false} BarredTrim(s: string)
    ensures Trim("|" + s + "|") == "|" + s + "|"
    ensures StartsWithBar("|" + s + "|") && !StartsSection("|" + s + "|")
  {
    BarredEnds(s);
    EndsTrimmed("|" + s + "|");
  }

  lemma {:induction false} SpacedSplit(row: Row)
    requires PlainRow(row)
    ensures Split(Join(Spaced(row), '|'), '|') == Spaced(row)
  {
    forall i | 0 <= i < |row| ensures Free(Spaced(row)[i], '|') {
      var s := " " + row[i] + " ";
      assert forall j :: 0 <= j < |s| ==> s[j] == ' ' || s[j] in row[i];
    }
    SplitJoin(Spaced(row), '|');
  }

  lemma {:induction false} InnerBarred(inner: string)
    ensures Inner("|" + inner + "|") == inner
  {
  }

  lemma {:induction false} SplitBars(s: string, inner: string, unescape: string -> string)
    requires StartsWithBar(s) && EndsWithBar(s) && Inner(s) == inner
    ensures SplitTrimmed(s, unescape) == Some(ReadCells(Split(inner, '|'), unescape))
  {
  }

  lemma {:induction false} SplitBarred(inner: string, unescape: string -> string)
    ensures SplitTrimmed("|" + inner + "|", unescape) == Some(ReadCells(Split(inner, '|'), unescape))
  {
    InnerBarred(inner);
    SplitBars("|" + inner + "|", inner, unescape);
  }

  lemma {:induction false} BarredRow(inner: string, row: Row, unescape: string -> string)
    requires ReadCells(Split(inner, '|'), unescape) == row
    ensures SplitRow("|" + inner + "|", unescape) == Some(row)
  {
    BarredTrim(inner);
    SplitBarred(inner, unescape);
  }

  lemma {:induction false} BarredLine(inner: string, title: string)
    requires !StartsWithBar(title)
    ensures Trim("|" + inner + "|") != title && !StartsSection("|" + inner + "|")
  {
    BarredTrim(inner);
    NotTitle("|" + inner + "|", title);
  }

  lemma {:induction false} NotTitle(w: string, title: string)
    requires Trim(w) == w && StartsWithBar(w) && !StartsWithBar(title)
    ensures Trim(w) != title
  {
  }

  lemma {:induction false} BarredTable(inner: string)
    ensures StartsWithBar(Trim("|" + inner + "|"))
  {
    BarredTrim(inner);
  }

  /** A rendered row is read back. */
  lemma {:induction false} RowRoundTrip(row: Row, unescape: string -> string)
    requires PlainRow(row) && Unescapes(unescape)
    ensures SplitRow(RenderRow(row), unescape) == Some(row)
    ensures StartsWithBar(Trim(RenderRow(row)))
  {
    var inner := Join(Spaced(row), '|');
    assert ReadCells(Split(inner, '|'), unescape) == row by {
      SpacedSplit(row);
      CellsRead(row, unescape);
    }
    BarredRow(inner, row, unescape);
    BarredTable(inner);
  }

  lemma {:induction false} RulePlain(width: nat)
    requires width > 0
    ensures PlainRow(Rule(width)) && IsSeparator(Rule(width))
  {
    assert SeparatorCell("---");
  }

  // ---------------------------------------------------------------- a section with one table

  /** A document whose table stands in the lines `table`, between `mid` and `post` in the section under `title`. */
  datatype Layout = Layout(pre: seq<string>, title: string, mid: seq<string>, table: seq<string>, post: seq<string>, rest: seq<string>)

  function Document(d: Layout): seq<string> { d.pre + [d.title] + d.mid + d.table + d.post + d.rest }

  ghost predicate Quiet(lines: seq<string>, r: Reader) {
    forall i :: 0 <= i < |lines| ==> !r.tableLine(lines[i]) && !r.opensSection(lines[i])
  }

  ghost predicate NoHeading(lines: seq<string>, r: Reader) { forall i :: 0 <= i < |lines| ==> !r.heading(lines[i]) }

  ghost predicate NoSection(lines: seq<string>, r: Reader) { forall i :: 0 <= i < |lines| ==> !r.opensSection(lines[i]) }

  ghost predicate WellLaid(d: Layout, r: Reader) {
    && r.heading(d.title) && NoHeading(d.pre, r) && NoHeading(d.mid, r) && NoHeading(d.table, r)
    && NoHeading(d.post, r) && NoHeading(d.rest, r)
    && Quiet(d.mid, r) && Quiet(d.post, r) && NoSection(d.table, r)
    && (d.rest != [] ==> r.opensSection(d.rest[0]))
  }

  /** The lines of a table with this header and these rows. */
  ghost predicate Tabulated(table: seq<string>, r: Reader, header: Row, rows: seq<Row>) {
    && |table| == |rows| + 2 && rows != []
    && (forall i :: 0 <= i < |table| ==> r.tableLine(table[i]) && r.split(table[i]).Some?)
    && r.split(table[0]).value == header && r.separator(r.split(table[1]).value)
    && (forall i :: 1 <= i < |table| ==> r.split(table[i]).value != header)
    && (forall i :: 2 <= i < |table| ==> r.split(table[i]).value == rows[i - 2] && |rows[i - 2]| == |header|)
  }

  lemma {:induction false} DocumentLines(d: Layout, i: nat)
    requires i < |Document(d)|
    ensures var h := |d.pre|; var b := h + 1; var s := b + |d.mid|; var p := s + |d.table|; var e := p + |d.post|;
      Document(d)[i] ==
        if i < h then d.pre[i] else if i == h then d.title else if i < s then d.mid[i - b]
        else if i < p then d.table[i - s] else if i < e then d.post[i - p] else d.rest[i - e]
  {
  }

  lemma {:induction false} LaidSection(d: Layout, r: Reader)
    requires WellLaid(d, r)
    ensures Section(Document(d), r, |d.pre|, |d.pre| + 1 + |d.mid| + |d.table| + |d.post|)
  {
    var lines, h, e := Document(d), |d.pre|, |d.pre| + 1 + |d.mid| + |d.table| + |d.post|;
    DocumentLines(d, h);
    forall i | 0 <= i < |lines| && r.heading(lines[i]) ensures i == h {
      DocumentLines(d, i);
    }
    forall i | h < i < e ensures !r.opensSection(lines[i]) {
      DocumentLines(d, i);
    }
    if e < |lines| {
      DocumentLines(d, e);
    }
  }

  lemma {:induction false} LaidTable(d: Layout, r: Reader, header: Row, rows: seq<Row>)
    requires WellLaid(d, r) && Tabulated(d.table, r, header, rows)
    ensures var b := |d.pre| + 1; var s := b + |d.mid|; var p := s + |d.table|;
      TableIn(Document(d), r, header, b, p + |d.post|, Table(rows, s, p))
  {
    var lines, b := Document(d), |d.pre| + 1;
    var s := b + |d.mid|;
    var p := s + |d.table|;
    var e := p + |d.post|;
    forall i | b <= i < e ensures r.tableLine(lines[i]) ==> s <= i < p {
      DocumentLines(d, i);
    }
    forall i | s <= i < p ensures lines[i] == d.table[i - s] {
      DocumentLines(d, i);
    }
    assert lines[s] == d.table[0] && lines[s + 1] == d.table[1];
  }

  /** The table of a layout. */
  function LaidOut(d: Layout, rows: seq<Row>): Table {
    Table(rows, |d.pre| + 1 + |d.mid|, |d.pre| + 1 + |d.mid| + |d.table|)
  }

  lemma {:induction false} StripLaid(d: Layout, rows: seq<Row>)
    ensures Strip(Document(d), LaidOut(d, rows)) == d.pre + [d.title] + d.mid + d.post + d.rest
  {
    var front, back := d.pre + [d.title] + d.mid, d.post + d.rest;
    assert Document(d) == front + d.table + back;
    assert d.pre + [d.title] + d.mid + d.post + d.rest == front + back;
  }

  lemma {:induction false} LaidTableIsRead(d: Layout, r: Reader, header: Row, rows: seq<Row>)
    requires WellLaid(d, r) && Tabulated(d.table, r, header, rows)
    ensures IsTable(Document(d), r, header, LaidOut(d, rows))
  {
    LaidSection(d, r);
    LaidTable(d, r, header, rows);
  }

  function Render(header: Row, rows: seq<Row>): (lines: seq<string>)
    ensures |lines| == |rows| + 2
  {
    [RenderRow(header), RenderRow(Rule(|header|))] + Map(rows, RenderRow)
  }

  ghost predicate Renderable(header: Row, rows: seq<Row>) {
    && PlainRow(header) && header != Rule(|header|) && rows != []
    && forall i :: 0 <= i < |rows| ==> PlainRow(rows[i]) && |rows[i]| == |header| && rows[i] != header
  }

  /** The reader gets rendered rows back. */
  ghost predicate ReadsRendered(r: Reader) {
    forall row {:trigger RenderRow(row)} :: PlainRow(row) ==> r.tableLine(RenderRow(row)) && r.split(RenderRow(row)) == Some(row)
  }

  lemma {:induction false} ReaderReads(title: string, unescape: string -> string)
    requires Unescapes(unescape)
    ensures ReadsRendered(ReaderFor(title, unescape))
  {
    forall row | PlainRow(row)
      ensures ReaderFor(title, unescape).tableLine(RenderRow(row)) && ReaderFor(title, unescape).split(RenderRow(row)) == Some(row)
    {
      RowRoundTrip(row, unescape);
    }
  }

  /** The row on a line of the rendered table. */
  function RowOn(header: Row, rows: seq<Row>, i: nat): Row
    requires i < |rows| + 2
  {
    if i == 0 then header else if i == 1 then Rule(|header|) else rows[i - 2]
  }

  lemma {:induction false} RenderedLine(header: Row, rows: seq<Row>, i: nat)
    requires i < |rows| + 2
    ensures Render(header, rows)[i] == RenderRow(RowOn(header, rows, i))
  {
  }

  lemma {:induction false} RenderedIsTabulated(header: Row, rows: seq<Row>, r: Reader)
    requires Renderable(header, rows) && ReadsRendered(r) && PlainRow(Rule(|header|)) && r.separator(Rule(|header|))
    ensures Tabulated(Render(header, rows), r, header, rows)
  {
    var table := Render(header, rows);
    forall i | 0 <= i < |table| ensures r.tableLine(table[i]) && r.split(table[i]) == Some(RowOn(header, rows, i)) {
      RenderedLine(header, rows, i);
      assert PlainRow(RowOn(header, rows, i));
    }
  }

  /** Rendered rows are neither the heading nor the start of another section. */
  ghost predicate IgnoresRendered(r: Reader) {
    forall row {:trigger RenderRow(row)} :: !r.heading(RenderRow(row)) && !r.opensSection(RenderRow(row))
  }

  lemma {:induction false} ReaderIgnores(title: string, unescape: string -> string)
    requires !StartsWithBar(title)
    ensures IgnoresRendered(ReaderFor(title, unescape))
  {
    forall row: Row
      ensures !ReaderFor(title, unescape).heading(RenderRow(row)) && !ReaderFor(title, unescape).opensSection(RenderRow(row))
    {
      BarredLine(Join(Spaced(row), '|'), title);
    }
  }

  lemma {:induction false} RenderedLines(header: Row, rows: seq<Row>, r: Reader)
    requires IgnoresRendered(r)
    ensures NoHeading(Render(header, rows), r) && NoSection(Render(header, rows), r)
  {
    forall i | 0 <= i < |rows| + 2 ensures !r.heading(Render(header, rows)[i]) && !r.opensSection(Render(header, rows)[i]) {
      RenderedLine(header, rows, i);
    }
  }

  /** The lines around the table are no headings and no table lines, and the section ends where the layout says. */
  ghost predicate Framed(d: Layout, r: Reader) {
    && NoHeading(d.pre, r) && NoHeading(d.mid, r) && NoHeading(d.post, r) && NoHeading(d.rest, r)
    && Quiet(d.mid, r) && Quiet(d.post, r) && (d.rest != [] ==> r.opensSection(d.rest[0]))
  }

  lemma {:induction false} FramedTable(d: Layout, header: Row, rows: seq<Row>, r: Reader)
    requires Renderable(header, rows) && d.table == Render(header, rows) && r.heading(d.title) && Framed(d, r)
    requires ReadsRendered(r) && IgnoresRendered(r) && PlainRow(Rule(|header|)) && r.separator(Rule(|header|))
    ensures IsTable(Document(d), r, header, LaidOut(d, rows))
  {
    RenderedIsTabulated(header, rows, r);
    RenderedLines(header, rows, r);
    LaidTableIsRead(d, r, header, rows);
  }

  /** What a section's reader must do for rendered tables of some width to be read back. */
  ghost predicate Reads(r: Reader, title: string, width: nat) {
    ReadsRendered(r) && IgnoresRendered(r) && r.heading(title) && PlainRow(Rule(width)) && r.separator(Rule(width))
  }

  lemma {:induction false} ReaderForReads(title: string, unescape: string -> string, width: nat)
    requires Unescapes(unescape) && Trim(title) == title && !StartsWithBar(title) && width > 0
    ensures Reads(ReaderFor(title, unescape), title, width)
  {
    RulePlain(width);
    ReaderReads(title, unescape);
    ReaderIgnores(title, unescape);
  }

  lemma {:induction false} SectionReaderReads(r: Reader, title: string, unescape: string -> string, width: nat)
    requires r == ReaderFor(title, unescape)
    requires Unescapes(unescape) && Trim(title) == title && !StartsWithBar(title) && width > 0
    ensures Reads(r, title, width)
  {
    ReaderForReads(title, unescape, width);
  }

  lemma {:induction false} FramedTableIsCut(d: Layout, header: Row, rows: seq<Row>, r: Reader)
    requires Renderable(header, rows) && d.table == Render(header, rows) && Framed(d, r) && Reads(r, d.title, |header|)
    ensures IsTable(Document(d), r, header, LaidOut(d, rows))
    ensures Strip(Document(d), LaidOut(d, rows)) == d.pre + [d.title] + d.mid + d.post + d.rest
  {
    FramedTable(d, header, rows, r);
    StripLaid(d, rows);
  }

  /** Round trip: any rows of trimmed cells free of `|` and `&`, none of them the header, are the table of their rendering
      under a unique heading, and the bounds cut out exactly the table's lines. */
  lemma {:induction false} RenderedTable(d: Layout, header: Row, rows: seq<Row>, unescape: string -> string, r: Reader)
    requires Renderable(header, rows) && d.table == Render(header, rows) && Framed(d, r)
    requires Unescapes(unescape) && Trim(d.title) == d.title && !StartsWithBar(d.title)
    requires r == ReaderFor(d.title, unescape)
    ensures IsTable(Document(d), r, header, LaidOut(d, rows))
    ensures Strip(Document(d), LaidOut(d, rows)) == d.pre + [d.title] + d.mid + d.post + d.rest
  {
    SectionReaderReads(r, d.title, unescape, |header|);
    FramedTableIsCut(d, header, rows, r);
  }

  /** The parser returns the document's table, whichever it is. */
  method ParseTable(lines: seq<string>, r: Reader, header: Row, ghost expected: Table) returns (found: bool, t: Table)
    requires IsTable(lines, r, header, expected)
    ensures found && t == expected
  {
    found, t := ParseSectionTable(lines, r, header);
    if found {
      TableUnique(lines, r, header, t, expected);
    }
  }
}
