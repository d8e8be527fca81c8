/** The one table of a Markdown section: finding it, reading it, and cutting it out. */
module MarkdownTables {
  import opened JsonValues

  type Row = seq<string>

  /** How single lines are read. */
  datatype Reader = Reader(
    heading: string -> bool, opensSection: string -> bool, tableLine: string -> bool,
    split: string -> Option<Row>, separator: Row -> bool)

  /** The rows of a table, and the lines it takes up: header, separator and rows. */
  datatype Table = Table(rows: seq<Row>, start: nat, end: nat)

  // ---------------------------------------------------------------- what a table is

  /** The only line with the heading is `h`, and its section ends before line `e`. */
  ghost predicate Section(lines: seq<string>, r: Reader, h: nat, e: nat) {
    && h < e <= |lines| && r.heading(lines[h])
    && (forall i :: 0 <= i < |lines| && r.heading(lines[i]) ==> i == h)
    && (forall i :: h < i < e ==> !r.opensSection(lines[i]))
    && (e < |lines| ==> r.opensSection(lines[e]))
  }

  /** Every table line of the section can be split, and the header stands on line `p` only. */
  ghost predicate HeaderAt(lines: seq<string>, r: Reader, header: Row, b: nat, e: nat, p: nat) {
    && b <= p < e <= |lines| && r.tableLine(lines[p]) && r.split(lines[p]) == Some(header)
    && (forall i :: b <= i < e && r.tableLine(lines[i]) ==> r.split(lines[i]).Some?)
    && (forall i :: b <= i < e && r.tableLine(lines[i]) && r.split(lines[i]) == Some(header) ==> i == p)
  }

  /** The rows read from the lines after the separator, each as wide as the header. */
  ghost predicate RowsAt(lines: seq<string>, r: Reader, width: nat, from: nat, rows: seq<Row>) {
    && from + |rows| <= |lines|
    && forall i :: from <= i < from + |rows| ==>
         r.tableLine(lines[i]) && r.split(lines[i]) == Some(rows[i - from]) && |rows[i - from]| == width
  }

  /** The section's table lines are exactly those of the table. */
  ghost predicate OnlyTable(lines: seq<string>, r: Reader, b: nat, e: nat, start: nat, end: nat) {
    e <= |lines| && forall i :: b <= i < e && r.tableLine(lines[i]) ==> start <= i < end
  }

  ghost predicate TableIn(lines: seq<string>, r: Reader, header: Row, b: nat, e: nat, t: Table) {
    && HeaderAt(lines, r, header, b, e, t.start)
    && t.start + 2 < t.end <= e
    && r.split(lines[t.start + 1]).Some? && r.separator(r.split(lines[t.start + 1]).value)
    && t.end == t.start + 2 + |t.rows| && RowsAt(lines, r, |header|, t.start + 2, t.rows)
    && OnlyTable(lines, r, b, e, t.start, t.end)
  }

  /** `t` is the table of the section under the heading. */
  ghost predicate IsTable(lines: seq<string>, r: Reader, header: Row, t: Table) {
    exists h: nat, e: nat :: Section(lines, r, h, e) && TableIn(lines, r, header, h + 1, e, t)
  }

  // ---------------------------------------------------------------- finding the section

  lemma {:induction false} SectionUnique(lines: seq<string>, r: Reader, h: nat, e: nat, h': nat, e': nat)
    requires Section(lines, r, h, e) && Section(lines, r, h', e')
    ensures h == h' && e == e'
  {
    assert r.heading(lines[h']);
  }

  method Headings(lines: seq<string>, r: Reader) returns (matches: seq<nat>)
    ensures forall i :: 0 <= i < |lines| ==> (i in matches <==> r.heading(lines[i]))
    ensures forall i :: i in matches ==> i < |lines|
    ensures forall j, k :: 0 <= j < k < |matches| ==> matches[j] < matches[k]
  {
    matches := [];
    for n := 0 to |lines|
      invariant forall i :: 0 <= i < n ==> (i in matches <==> r.heading(lines[i]))
      invariant forall i :: i in matches ==> i < n
      invariant forall j, k :: 0 <= j < k < |matches| ==> matches[j] < matches[k]
    {
      if r.heading(lines[n]) {
        assert forall j :: 0 <= j < |matches| ==> matches[j] in matches;
        matches := matches + [n];
      }
    }
  }

  /** `section_lines`. */
  method FindSection(lines: seq<string>, r: Reader) returns (found: bool, h: nat, e: nat)
    ensures found ==> Section(lines, r, h, e)
    ensures !found ==> forall h: nat, e: nat :: !Section(lines, r, h, e)
  {
    var matches := Headings(lines, r);
    h, e := 0, 0;
    if |matches| != 1 {
      forall h: nat, e: nat ensures !Section(lines, r, h, e) {
        if Section(lines, r, h, e) {
          NotOneHeading(lines, r, matches, h);
        }
      }
      return false, h, e;
    }
    found, h := true, matches[0];
    assert h in matches;
    e := h + 1;
    while e < |lines| && !r.opensSection(lines[e])
      invariant h < e <= |lines|
      invariant forall i :: h < i < e ==> !r.opensSection(lines[i])
    {
      e := e + 1;
    }
    forall i | 0 <= i < |lines| && r.heading(lines[i]) ensures i == h {
      assert i in matches;
    }
  }

  lemma {:induction false} NotOneHeading(lines: seq<string>, r: Reader, matches: seq<nat>, h: nat)
    requires h < |lines| && r.heading(lines[h]) && forall i :: 0 <= i < |lines| && r.heading(lines[i]) ==> i == h
    requires forall i :: 0 <= i < |lines| ==> (i in matches <==> r.heading(lines[i]))
    requires forall i :: i in matches ==> i < |lines|
    requires forall j, k :: 0 <= j < k < |matches| ==> matches[j] < matches[k]
    ensures |matches| == 1
  {
    assert h in matches;
    assert |matches| < 2 || matches[0] < matches[1];
    forall j | 0 <= j < |matches| ensures matches[j] == h {
      assert matches[j] in matches;
    }
  }

  // ---------------------------------------------------------------- reading the table

  /** The line of the header, if every table line of the section splits and exactly one is the header. */
  method FindHeader(lines: seq<string>, r: Reader, header: Row, b: nat, e: nat) returns (found: bool, p: nat)
    requires b <= e <= |lines|
    ensures found ==> HeaderAt(lines, r, header, b, e, p)
    ensures !found ==> forall p: nat :: !HeaderAt(lines, r, header, b, e, p)
  {
    found, p := false, b;
    for i := b to e
      invariant forall k :: b <= k < i && r.tableLine(lines[k]) ==> r.split(lines[k]).Some?
      invariant found ==> b <= p < i && r.tableLine(lines[p]) && r.split(lines[p]) == Some(header)
      invariant forall k :: b <= k < i && r.tableLine(lines[k]) && r.split(lines[k]) == Some(header) ==> found && k == p
    {
      if r.tableLine(lines[i]) {
        var row := r.split(lines[i]);
        if row.None? {
          return false, p;
        }
        if row.value == header {
          if found {
            return false, p;
          }
          found, p := true, i;
        }
      }
    }
  }

  /** The rows from a line on, up to the first line that is no table line. */
  method ReadRows(lines: seq<string>, r: Reader, width: nat, from: nat, e: nat) returns (ok: bool, rows: seq<Row>)
    requires from <= e <= |lines|
    ensures ok ==> from + |rows| <= e && RowsAt(lines, r, width, from, rows)
    ensures ok ==> (from + |rows| < e ==> !r.tableLine(lines[from + |rows|]))
    ensures !ok ==> from + |rows| < e && (forall i :: from <= i <= from + |rows| ==> r.tableLine(lines[i]))
                    && (r.split(lines[from + |rows|]).Some? ==> |r.split(lines[from + |rows|]).value| != width)
  {
    rows := [];
    while from + |rows| < e && r.tableLine(lines[from + |rows|])
      invariant from + |rows| <= e && RowsAt(lines, r, width, from, rows)
      decreases e - |rows|
    {
      var row := r.split(lines[from + |rows|]);
      if row.None? || |row.value| != width {
        return false, rows;
      }
      rows := rows + [row.value];
    }
    ok := true;
  }

  lemma {:induction false} TableEnds(lines: seq<string>, r: Reader, header: Row, b: nat, e: nat, t: Table, u: Table)
    requires TableIn(lines, r, header, b, e, t) && TableIn(lines, r, header, b, e, u)
    ensures u.end <= t.end
  {
    assert t.start == u.start;
    var i := u.end - 1;
    assert r.tableLine(lines[i]);
  }

  /** Two tables of one section are the same. */
  lemma {:induction false} TableInUnique(lines: seq<string>, r: Reader, header: Row, b: nat, e: nat, t: Table, u: Table)
    requires TableIn(lines, r, header, b, e, t) && TableIn(lines, r, header, b, e, u)
    ensures t == u
  {
    assert t.start == u.start;
    TableEnds(lines, r, header, b, e, t, u);
    TableEnds(lines, r, header, b, e, u, t);
    forall k | 0 <= k < |t.rows| ensures t.rows[k] == u.rows[k] {
      var i := t.start + 2 + k;
      assert r.split(lines[i]) == Some(t.rows[i - (t.start + 2)]);
    }
    assert t.rows == u.rows;
  }

  lemma {:induction false} TablesOfSections(
      lines: seq<string>, r: Reader, header: Row, h: nat, e: nat, t: Table, h': nat, e': nat, u: Table)
    requires Section(lines, r, h, e) && TableIn(lines, r, header, h + 1, e, t)
    requires Section(lines, r, h', e') && TableIn(lines, r, header, h' + 1, e', u)
    ensures t == u
  {
    SectionUnique(lines, r, h, e, h', e');
    TableInUnique(lines, r, header, h + 1, e, t, u);
  }

  lemma {:induction false} TableUnique(lines: seq<string>, r: Reader, header: Row, t: Table, u: Table)
    requires IsTable(lines, r, header, t) && IsTable(lines, r, header, u)
    ensures t == u
  {
    var h: nat, e: nat :| Section(lines, r, h, e) && TableIn(lines, r, header, h + 1, e, t);
    var h': nat, e': nat :| Section(lines, r, h', e') && TableIn(lines, r, header, h' + 1, e', u);
    TablesOfSections(lines, r, header, h, e, t, h', e', u);
  }

  /** A table line of the section outside the table. */
  method HasOtherTableLine(lines: seq<string>, r: Reader, b: nat, e: nat, start: nat, end: nat) returns (other: bool)
    requires b <= e <= |lines|
    ensures other <==> !OnlyTable(lines, r, b, e, start, end)
  {
    for i := b to e
      invariant forall k :: b <= k < i && r.tableLine(lines[k]) ==> start <= k < end
    {
      if r.tableLine(lines[i]) && !(start <= i < end) {
        return true;
      }
    }
    return false;
  }

  /** The table of a found section. */
  method ReadTable(lines: seq<string>, r: Reader, header: Row, b: nat, e: nat) returns (found: bool, t: Table)
    requires b <= e <= |lines|
    ensures found ==> TableIn(lines, r, header, b, e, t)
    ensures !found ==> forall t :: !TableIn(lines, r, header, b, e, t)
  {
    t := Table([], 0, 0);
    var p, rows;
    found, p := FindHeader(lines, r, header, b, e);
    if !found {
      return;
    }
    if p + 1 >= e || r.split(lines[p + 1]).None? || !r.separator(r.split(lines[p + 1]).value) {
      return false, t;
    }
    found, rows := ReadRows(lines, r, |header|, p + 2, e);
    if !found {
      assert forall t :: !TableIn(lines, r, header, b, e, t);
      return;
    }
    t := Table(rows, p, p + 2 + |rows|);
    var other := HasOtherTableLine(lines, r, b, e, t.start, t.end);
    if rows == [] || other {
      forall u ensures !TableIn(lines, r, header, b, e, u) {
        ReadingEndsTable(lines, r, header, b, e, p, u, |rows|);
      }
      return false, t;
    }
  }

  /** Where the reading of rows stops, the table ends. */
  lemma {:induction false} ReadingEndsTable(lines: seq<string>, r: Reader, header: Row, b: nat, e: nat, p: nat, u: Table, n: nat)
    requires HeaderAt(lines, r, header, b, e, p) && p + 2 + n <= e
    requires forall i :: p + 2 <= i < p + 2 + n ==> r.tableLine(lines[i])
    requires p + 2 + n < e ==> !r.tableLine(lines[p + 2 + n])
    ensures TableIn(lines, r, header, b, e, u) ==> u.start == p && u.end == p + 2 + n
  {
    if TableIn(lines, r, header, b, e, u) {
      assert u.start == p;
      assert forall i :: p + 2 <= i < u.end ==> r.tableLine(lines[i]);
      if n > 0 {
        assert r.tableLine(lines[p + 2 + n - 1]);
      }
    }
  }

  /** `parse_section_table`: it finds the section's table whenever there is one, and never anything else. */
  method ParseSectionTable(lines: seq<string>, r: Reader, header: Row) returns (found: bool, t: Table)
    ensures found ==> IsTable(lines, r, header, t)
    ensures !found ==> forall t :: !IsTable(lines, r, header, t)
  {
    t := Table([], 0, 0);
    var h, e;
    found, h, e := FindSection(lines, r);
    if !found {
      return;
    }
    found, t := ReadTable(lines, r, header, h + 1, e);
    if !found {
      forall u ensures !IsTable(lines, r, header, u) {
        if IsTable(lines, r, header, u) {
          var h': nat, e': nat :| Section(lines, r, h', e') && TableIn(lines, r, header, h' + 1, e', u);
          SectionUnique(lines, r, h, e, h', e');
        }
      }
    }
  }

  // ---------------------------------------------------------------- cutting the table out

  /** `strip_table_lines`. */
  function Strip(lines: seq<string>, t: Table): seq<string> {
    (if t.start <= |lines| then lines[..t.start] else lines) + if t.end <= |lines| then lines[t.end..] else []
  }

  /** Cutting the table out keeps every other line in order, and leaves no table line in the section. */
  lemma {:induction false} StripLeavesNoTableLine(lines: seq<string>, r: Reader, header: Row, t: Table, h: nat, e: nat)
    requires Section(lines, r, h, e) && TableIn(lines, r, header, h + 1, e, t)
    ensures var rest := Strip(lines, t);
      && |rest| == |lines| - (t.end - t.start)
      && (forall i :: 0 <= i < t.start ==> rest[i] == lines[i])
      && (forall i :: t.start <= i < |rest| ==> rest[i] == lines[i + (t.end - t.start)])
      && (forall i :: h < i < e - (t.end - t.start) ==> !r.tableLine(rest[i]))
  {
  }
}
