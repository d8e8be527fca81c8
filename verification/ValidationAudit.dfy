/** The validation map of the gap tasks: what the plans expect, and what an accepted document says. */
module ValidationAudit {
  import opened Text
  import opened JsonValues
  import opened Distinctness
  import opened MarkdownTables

  datatype Task = Task(id: string, plan: nat, ordinal: nat, evidence: seq<string>)

  // ---------------------------------------------------------------- task ids

  /** `f"{n:02d}"`. */
  function TwoDigits(n: nat): string { if n < 10 then "0" + NatText(n) else NatText(n) }

  function TaskId(plan: nat, ordinal: nat): string { "31.1-" + (TwoDigits(plan) + ("-" + TwoDigits(ordinal))) }

  lemma {:induction false} TwoDigitsValue(n: nat)
    ensures forall i :: 0 <= i < |TwoDigits(n)| ==> IsDigit(TwoDigits(n)[i])
    ensures Value(TwoDigits(n)) == n
  {
    ValueOfText(n);
    if n < 10 {
      var s := TwoDigits(n);
      assert s[..1] == "0" && "0"[..0] == "";
      assert NatText(n)[..0] == "";
      assert s[1] == NatText(n)[0];
    }
  }

  /** Task ids name plan and ordinal unambiguously. */
  lemma {:induction false} TaskIdInjective(p: nat, o: nat, p': nat, o': nat)
    requires TaskId(p, o) == TaskId(p', o')
    ensures p == p' && o == o'
  {
    var x, y := "-" + TwoDigits(o), "-" + TwoDigits(o');
    assert TaskId(p, o)[5..] == TwoDigits(p) + x && TaskId(p', o')[5..] == TwoDigits(p') + y;
    TwoDigitsValue(p);
    TwoDigitsValue(p');
    DigitRunUnique(TwoDigits(p), TwoDigits(p'), x, y);
    assert x[1..] == TwoDigits(o) && y[1..] == TwoDigits(o');
    TwoDigitsValue(o);
    TwoDigitsValue(o');
  }

  // ---------------------------------------------------------------- what the plans expect

  /** What one plan expects, from the evidence ids found in its blocks, in order. */
  function PlanTasks(plan: nat, blocks: seq<seq<string>>): (ts: seq<Task>)
    ensures |ts| == |blocks|
    ensures forall i :: 0 <= i < |ts| ==> ts[i] == Task(TaskId(plan, i + 1), plan, i + 1, blocks[i])
  {
    seq(|blocks|, i requires 0 <= i < |blocks| => Task(TaskId(plan, i + 1), plan, i + 1, blocks[i]))
  }

  /** A plan has task blocks, and each has evidence ids without repetition. */
  predicate PlanOk(blocks: seq<seq<string>>) {
    blocks != [] && forall i :: 0 <= i < |blocks| ==> blocks[i] != [] && NoDuplicates(blocks[i])
  }

  /** What plans `from` up to `to` expect. */
  function TasksOf(from: nat, to: nat, plans: nat -> seq<seq<string>>): seq<Task>
    requires from <= to
  {
    if from == to then [] else TasksOf(from, to - 1, plans) + PlanTasks(to - 1, plans(to - 1))
  }

  /** `derive_expected`, as far as tasks go; `total` is the demanded number of tasks, pairs and evidence ids. */
  method DeriveTasks(from: nat, to: nat, plans: nat -> seq<seq<string>>, total: (nat, nat, nat)) returns (ok: bool, tasks: seq<Task>)
    requires from <= to
    ensures ok <==>
      ((forall p :: from <= p < to ==> PlanOk(plans(p))) && |TasksOf(from, to, plans)| == total.0
       && |Pairs(TasksOf(from, to, plans))| == total.1 && |Evidence(TasksOf(from, to, plans))| == total.2)
    ensures ok ==> tasks == TasksOf(from, to, plans)
  {
    tasks := [];
    for p := from to to
      invariant tasks == TasksOf(from, p, plans)
      invariant forall q :: from <= q < p ==> PlanOk(plans(q))
    {
      if !PlanOk(plans(p)) {
        return false, tasks;
      }
      tasks := tasks + PlanTasks(p, plans(p));
    }
    ok := |tasks| == total.0 && |Pairs(tasks)| == total.1 && |Evidence(tasks)| == total.2;
  }

  function Pairs(tasks: seq<Task>): set<(string, string)> {
    if tasks == [] then {} else Pairs(tasks[..|tasks| - 1]) + Tagged(tasks[|tasks| - 1].id, tasks[|tasks| - 1].evidence)
  }

  function Tagged(id: string, evidence: seq<string>): set<(string, string)> { set e | e in evidence :: (id, e) }

  function Evidence(tasks: seq<Task>): set<string> {
    if tasks == [] then {} else Evidence(tasks[..|tasks| - 1]) + Members(tasks[|tasks| - 1].evidence)
  }

  function Total(tasks: seq<Task>): nat {
    if tasks == [] then 0 else Total(tasks[..|tasks| - 1]) + |tasks[|tasks| - 1].evidence|
  }

  ghost predicate DistinctTasks(tasks: seq<Task>) {
    (forall i, j :: 0 <= i < j < |tasks| ==> tasks[i].id != tasks[j].id)
    && forall i :: 0 <= i < |tasks| ==> NoDuplicates(tasks[i].evidence)
  }

  lemma {:induction false} PairsMeaning(tasks: seq<Task>, id: string, e: string)
    ensures (id, e) in Pairs(tasks) <==> exists i :: 0 <= i < |tasks| && tasks[i].id == id && e in tasks[i].evidence
  {
    if tasks == [] {
    } else {
      var n := |tasks| - 1;
      var init := tasks[..n];
      PairsMeaning(init, id, e);
      if exists i :: 0 <= i < |tasks| && tasks[i].id == id && e in tasks[i].evidence {
        var i :| 0 <= i < |tasks| && tasks[i].id == id && e in tasks[i].evidence;
        assert i < n ==> init[i] == tasks[i];
      }
      if (id, e) in Pairs(init) {
        var i :| 0 <= i < |init| && init[i].id == id && e in init[i].evidence;
        assert tasks[i] == init[i];
      }
    }
  }

  lemma {:induction false} TaggedSize(id: string, evidence: seq<string>)
    requires NoDuplicates(evidence)
    ensures |Tagged(id, evidence)| == |evidence|
  {
    if evidence == [] {
    } else {
      var n := |evidence| - 1;
      assert evidence == evidence[..n] + [evidence[n]];
      SnocDistinct(evidence[..n], evidence[n]);
      TaggedSize(id, evidence[..n]);
      assert Tagged(id, evidence) == Tagged(id, evidence[..n]) + {(id, evidence[n])};
    }
  }

  /** With distinct entries, the number of pairs is the sum of the per-entry evidence counts. */
  lemma {:induction false} PairsCount(tasks: seq<Task>)
    requires DistinctTasks(tasks)
    ensures |Pairs(tasks)| == Total(tasks)
  {
    if tasks == [] {
    } else {
      var n := |tasks| - 1;
      var init, last := tasks[..n], tasks[n];
      PairsCount(init);
      TaggedSize(last.id, last.evidence);
      forall id: string, e: string | (id, e) in Pairs(init) ensures id != last.id {
        PairsMeaning(init, id, e);
        var i :| 0 <= i < |init| && init[i].id == id && e in init[i].evidence;
        assert tasks[i] == init[i];
      }
      assert Pairs(init) !! Tagged(last.id, last.evidence);
    }
  }

  ghost predicate WellNamed(t: Task, from: nat, to: nat) {
    from <= t.plan < to && t.id == TaskId(t.plan, t.ordinal)
  }

  lemma {:induction false} NamesApart(a: Task, b: Task, from: nat, to: nat)
    requires WellNamed(a, from, to) && WellNamed(b, from, to) && (a.plan != b.plan || a.ordinal != b.ordinal)
    ensures a.id != b.id
  {
    if a.id == b.id {
      TaskIdInjective(a.plan, a.ordinal, b.plan, b.ordinal);
    }
  }

  lemma {:induction false} TasksDistinct(from: nat, to: nat, plans: nat -> seq<seq<string>>)
    requires from <= to && forall p :: from <= p < to ==> PlanOk(plans(p))
    ensures DistinctTasks(TasksOf(from, to, plans))
    ensures forall i :: 0 <= i < |TasksOf(from, to, plans)| ==> WellNamed(TasksOf(from, to, plans)[i], from, to)
  {
    if from < to {
      TasksDistinct(from, to - 1, plans);
      assert PlanOk(plans(to - 1));
      AppendPlan(TasksOf(from, to - 1, plans), from, to - 1, plans(to - 1));
    }
  }

  lemma {:induction false} AppendPlan(init: seq<Task>, from: nat, plan: nat, blocks: seq<seq<string>>)
    requires from <= plan && DistinctTasks(init) && PlanOk(blocks)
    requires forall i :: 0 <= i < |init| ==> WellNamed(init[i], from, plan)
    ensures DistinctTasks(init + PlanTasks(plan, blocks))
    ensures forall i :: 0 <= i < |init| + |blocks| ==> WellNamed((init + PlanTasks(plan, blocks))[i], from, plan + 1)
  {
    var last := PlanTasks(plan, blocks);
    var all := init + last;
    forall i | 0 <= i < |all| ensures WellNamed(all[i], from, plan + 1) && NoDuplicates(all[i].evidence) {
      assert all[i] == if i < |init| then init[i] else last[i - |init|];
    }
    forall i, j | 0 <= i < j < |all| ensures all[i].id != all[j].id {
      if j < |init| {
        assert init[i].id != init[j].id;
      } else {
        assert all[j] == last[j - |init|];
        assert i < |init| ==> WellNamed(init[i], from, plan);
        NamesApart(all[i], all[j], from, plan + 1);
      }
    }
  }

  /** In what the plans are accepted to expect, no task id is repeated, and the demanded number of task/evidence pairs is
      the sum of the per-entry evidence counts. */
  lemma {:induction false} DerivedCounts(from: nat, to: nat, plans: nat -> seq<seq<string>>)
    requires from <= to && forall p :: from <= p < to ==> PlanOk(plans(p))
    ensures DistinctTasks(TasksOf(from, to, plans))
    ensures |Pairs(TasksOf(from, to, plans))| == Total(TasksOf(from, to, plans))
  {
    TasksDistinct(from, to, plans);
    PairsCount(TasksOf(from, to, plans));
  }

  // ---------------------------------------------------------------- the rows of the document

  /** One row of the validation map. */
  datatype Line = Line(id: string, plan: string, ordinal: string, evidence: seq<string>, result: string, commit: string)

  function Nonempty(parts: seq<string>): seq<string> {
    if parts == [] then [] else (if Trim(parts[0]) == "" then [] else [Trim(parts[0])]) + Nonempty(parts[1..])
  }

  function ReadLine(row: Row): Line
    requires |row| == 6
  {
    Line(row[0], row[1], row[2], Nonempty(Split(row[3], ',')), row[4], row[5])
  }

  /** The patterns of ids, and the search for ids of superseded plans. */
  datatype Formats = Formats(taskId: string -> bool, evidenceId: string -> bool, stale: seq<string> -> bool)

  /** `expected_by_task.get(id)`: the last task with the id. */
  function Expected(tasks: seq<Task>, id: string): Option<Task> {
    if tasks == [] then None
    else if tasks[|tasks| - 1].id == id then Some(tasks[|tasks| - 1])
    else Expected(tasks[..|tasks| - 1], id)
  }

  predicate LineFine(l: Line, tasks: seq<Task>, head: string, f: Formats) {
    var task := Expected(tasks, l.id);
    && f.taskId(l.id)
    && (task.Some? ==> l.plan == TwoDigits(task.value.plan) && l.ordinal == NatText(task.value.ordinal))
    && l.evidence != [] && NoDuplicates(l.evidence) && (forall i :: 0 <= i < |l.evidence| ==> f.evidenceId(l.evidence[i]))
    && l.result == "PASS" && l.commit == head
  }

  /** The row as a task with its evidence. */
  function Seen(l: Line): Task { Task(l.id, 0, 0, l.evidence) }

  function AllSeen(ls: seq<Line>): (ts: seq<Task>)
    ensures |ts| == |ls| && forall i :: 0 <= i < |ts| ==> ts[i] == Seen(ls[i])
  {
    seq(|ls|, i requires 0 <= i < |ls| => Seen(ls[i]))
  }

  function IdList(ts: seq<Task>): (ids: seq<string>)
    ensures |ids| == |ts| && forall i :: 0 <= i < |ids| ==> ids[i] == ts[i].id
  {
    seq(|ts|, i requires 0 <= i < |ts| => ts[i].id)
  }

  predicate LinesFine(ls: seq<Line>, fine: Line -> bool) {
    (forall i :: 0 <= i < |ls| ==> fine(ls[i])) && NoDuplicates(IdList(AllSeen(ls)))
  }

  method CheckLines(ls: seq<Line>, fine: Line -> bool) returns (ok: bool, ids: set<string>, pairs: set<(string, string)>)
    ensures ok <==> LinesFine(ls, fine)
    ensures ok ==> ids == Members(IdList(AllSeen(ls))) && pairs == Pairs(AllSeen(ls))
  {
    ids, pairs := {}, {};
    ghost var all := AllSeen(ls);
    ghost var names := IdList(all);
    for i := 0 to |ls|
      invariant ids == Members(names[..i]) && NoDuplicates(names[..i])
      invariant pairs == Pairs(all[..i])
      invariant forall j :: 0 <= j < i ==> fine(ls[j])
    {
      assert names[..i + 1] == names[..i] + [ls[i].id];
      SnocDistinct(names[..i], ls[i].id);
      if ls[i].id in ids {
        PrefixRepeats(names, i + 1);
        return false, ids, pairs;
      }
      if !fine(ls[i]) {
        return false, ids, pairs;
      }
      PairsSnoc(all, i);
      ids := ids + {ls[i].id};
      pairs := pairs + Tagged(ls[i].id, ls[i].evidence);
    }
    assert all[..|ls|] == all && names[..|ls|] == names;
    ok := true;
  }

  lemma {:induction false} PairsSnoc(all: seq<Task>, i: nat)
    requires i < |all|
    ensures Pairs(all[..i + 1]) == Pairs(all[..i]) + Tagged(all[i].id, all[i].evidence)
  {
    assert all[..i + 1][..i] == all[..i];
  }

  lemma {:induction false} PrefixRepeats(xs: seq<string>, n: nat)
    requires n <= |xs| && !NoDuplicates(xs[..n])
    ensures !NoDuplicates(xs)
  {
    if NoDuplicates(xs) {
      PrefixDistinct(xs, n);
    }
  }

  // ---------------------------------------------------------------- tokens outside the table

  predicate IdChar(c: char) {
    'a' <= c <= 'z' || 'A' <= c <= 'Z' || IsDigit(c) || c == '_' || c == '.' || c == '-'
  }

  /** The token stands at position `p`, not inside a longer id. */
  predicate TokenAt(line: string, token: string, p: nat) {
    p + |token| <= |line| && line[p..p + |token|] == token
    && (p == 0 || !IdChar(line[p - 1])) && (p + |token| == |line| || !IdChar(line[p + |token|]))
  }

  /** `token_present`, line by line. */
  predicate Mentions(lines: seq<string>, token: string) {
    exists i, p :: 0 <= i < |lines| && 0 <= p <= |lines[i]| && TokenAt(lines[i], token, p)
  }

  // ---------------------------------------------------------------- the whole document

  /** The counts the front matter must show. */
  datatype Counts = Counts(plans: nat, tasks: nat, pairs: nat, evidence: nat)

  function PlanNumbers(tasks: seq<Task>): set<nat> { set t | t in tasks :: t.plan }

  function SecondOf(pairs: set<(string, string)>): set<string> { set p | p in pairs :: p.1 }

  function CountsOf(tasks: seq<Task>, observed: seq<Task>): Counts {
    Counts(|PlanNumbers(tasks)|, |Members(IdList(observed))|, |Pairs(observed)|, |SecondOf(Pairs(observed))|)
  }

  function Lines(rows: seq<Row>): seq<Line>
    requires forall i :: 0 <= i < |rows| ==> |rows[i]| == 6
  {
    seq(|rows|, i requires 0 <= i < |rows| => ReadLine(rows[i]))
  }

  /** Outside the table there is no expected id and no stale one. */
  predicate OutsideFine(outside: seq<string>, tasks: seq<Task>, f: Formats) {
    && (forall id :: id in IdList(tasks) ==> !Mentions(outside, id))
    && (forall e :: e in Evidence(tasks) ==> !Mentions(outside, e))
    && !f.stale(outside)
  }

  /** The observed rows state the expected relation, and the front matter its counts. */
  predicate RelationFine(observed: seq<Task>, tasks: seq<Task>, shows: Counts -> bool) {
    && Members(IdList(observed)) == Members(IdList(tasks))
    && Pairs(observed) == Pairs(tasks)
    && shows(CountsOf(tasks, observed))
  }

  ghost predicate Wide(t: Table) { forall i :: 0 <= i < |t.rows| ==> |t.rows[i]| == 6 }

  /** What acceptance of a document demands of its table. */
  ghost predicate TableFine(lines: seq<string>, t: Table, tasks: seq<Task>, head: string, f: Formats, shows: Counts -> bool) {
    && Wide(t)
    && LinesFine(Lines(t.rows), l => LineFine(l, tasks, head, f))
    && OutsideFine(Strip(lines, t), tasks, f)
    && RelationFine(AllSeen(Lines(t.rows)), tasks, shows)
  }

  lemma {:induction false} TableIsWide(lines: seq<string>, r: Reader, header: Row, t: Table)
    requires IsTable(lines, r, header, t) && |header| == 6
    ensures Wide(t)
  {
    var h: nat, e: nat :| Section(lines, r, h, e) && TableIn(lines, r, header, h + 1, e, t);
    forall i | 0 <= i < |t.rows| ensures |t.rows[i]| == 6 {
      var k := t.start + 2 + i;
      assert r.split(lines[k]) == Some(t.rows[k - (t.start + 2)]);
    }
  }

  /** The checks on a document's table once it is found. */
  method CheckTable(lines: seq<string>, t: Table, tasks: seq<Task>, head: string, f: Formats, shows: Counts -> bool) returns (ok: bool)
    requires Wide(t)
    ensures ok <==> TableFine(lines, t, tasks, head, f, shows)
  {
    var ls := Lines(t.rows);
    var ids, pairs;
    ok, ids, pairs := CheckLines(ls, l => LineFine(l, tasks, head, f));
    if !ok {
      return;
    }
    var outside := Strip(lines, t);
    if !OutsideFine(outside, tasks, f) {
      return false;
    }
    if ids != Members(IdList(tasks)) || pairs != Pairs(tasks) {
      return false;
    }
    ok := shows(Counts(|PlanNumbers(tasks)|, |ids|, |pairs|, |SecondOf(pairs)|));
  }

  /** `verify_validation`. `metaOk` is the verdict on the front matter's fixed entries, `shows` the comparison of its counts. */
  method VerifyValidation(
      lines: seq<string>, r: Reader, header: Row, tasks: seq<Task>, head: string, legacy: seq<string>,
      metaOk: bool, f: Formats, shows: Counts -> bool)
    returns (ok: bool, ghost t: Table)
    requires |header| == 6
    ensures ok ==> metaOk && !(exists i, k :: 0 <= i < |lines| && 0 <= k < |legacy| && Contains(lines[i], legacy[k]))
    ensures ok ==> IsTable(lines, r, header, t) && TableFine(lines, t, tasks, head, f, shows)
    ensures metaOk && !(exists i, k :: 0 <= i < |lines| && 0 <= k < |legacy| && Contains(lines[i], legacy[k])) && !ok ==>
      forall t :: IsTable(lines, r, header, t) ==> !TableFine(lines, t, tasks, head, f, shows)
  {
    t := Table([], 0, 0);
    if !metaOk || exists i, k :: 0 <= i < |lines| && 0 <= k < |legacy| && Contains(lines[i], legacy[k]) {
      return false, t;
    }
    var found, table := ParseSectionTable(lines, r, header);
    t := table;
    if !found {
      return false, t;
    }
    TableIsWide(lines, r, header, table);
    ok := CheckTable(lines, table, tasks, head, f, shows);
    if !ok {
      forall u | IsTable(lines, r, header, u) ensures !TableFine(lines, u, tasks, head, f, shows) {
        TableUnique(lines, r, header, table, u);
      }
    }
  }

  // ---------------------------------------------------------------- what acceptance means

  lemma {:induction false} FineLinesDistinct(ls: seq<Line>, tasks: seq<Task>, head: string, f: Formats)
    requires LinesFine(ls, l => LineFine(l, tasks, head, f))
    ensures DistinctTasks(AllSeen(ls))
  {
    var all, ids := AllSeen(ls), IdList(AllSeen(ls));
    var fine := l => LineFine(l, tasks, head, f);
    forall i | 0 <= i < |all| ensures NoDuplicates(all[i].evidence) {
      assert LineFine(ls[i], tasks, head, f);
    }
    forall i, j | 0 <= i < j < |all| ensures all[i].id != all[j].id {
      assert ids[i] != ids[j];
    }
  }

  /** Same pairs, task by task. */
  lemma {:induction false} SameEvidence(observed: seq<Task>, tasks: seq<Task>, i: nat, j: nat)
    requires DistinctTasks(observed) && DistinctTasks(tasks) && Pairs(observed) == Pairs(tasks)
    requires i < |observed| && j < |tasks| && observed[i].id == tasks[j].id
    ensures Members(observed[i].evidence) == Members(tasks[j].evidence) && |observed[i].evidence| == |tasks[j].evidence|
  {
    var id := tasks[j].id;
    forall e ensures e in Members(observed[i].evidence) <==> e in Members(tasks[j].evidence) {
      PairsMeaning(observed, id, e);
      PairsMeaning(tasks, id, e);
      assert e in observed[i].evidence <==> (id, e) in Pairs(observed);
      assert e in tasks[j].evidence <==> (id, e) in Pairs(tasks);
    }
    SetSize(observed[i].evidence);
    SetSize(tasks[j].evidence);
  }

  /** Acceptance means: the table has exactly one row per expected task, with exactly that task's evidence; the number of
      task/evidence pairs is the sum of the rows' evidence counts; and no expected id stands as a token outside the table. */
  lemma {:induction false} AcceptanceMeans(
      lines: seq<string>, t: Table, tasks: seq<Task>, head: string, f: Formats, shows: Counts -> bool)
    requires TableFine(lines, t, tasks, head, f, shows) && DistinctTasks(tasks)
    ensures |t.rows| == |tasks|
    ensures forall j :: 0 <= j < |tasks| ==> exists i :: 0 <= i < |t.rows| && t.rows[i][0] == tasks[j].id
    ensures forall i, j :: 0 <= i < |t.rows| && 0 <= j < |tasks| && t.rows[i][0] == tasks[j].id ==>
      Members(ReadLine(t.rows[i]).evidence) == Members(tasks[j].evidence) && |ReadLine(t.rows[i]).evidence| == |tasks[j].evidence|
    ensures Total(AllSeen(Lines(t.rows))) == |Pairs(tasks)| == Total(tasks)
    ensures forall j, e :: 0 <= j < |tasks| && e in tasks[j].evidence ==>
      !Mentions(Strip(lines, t), tasks[j].id) && !Mentions(Strip(lines, t), e)
  {
    var ls := Lines(t.rows);
    var observed := AllSeen(ls);
    FineLinesDistinct(ls, tasks, head, f);
    PairsCount(observed);
    PairsCount(tasks);
    SameIdCount(observed, tasks);
    forall j | 0 <= j < |tasks| ensures exists i :: 0 <= i < |t.rows| && t.rows[i][0] == tasks[j].id {
      RowFor(observed, tasks, j);
      var i :| 0 <= i < |observed| && observed[i].id == tasks[j].id;
      assert ls[i] == ReadLine(t.rows[i]);
    }
    forall i, j | 0 <= i < |t.rows| && 0 <= j < |tasks| && t.rows[i][0] == tasks[j].id
      ensures Members(ReadLine(t.rows[i]).evidence) == Members(tasks[j].evidence) && |ReadLine(t.rows[i]).evidence| == |tasks[j].evidence|
    {
      assert ls[i] == ReadLine(t.rows[i]);
      SameEvidence(observed, tasks, i, j);
    }
    forall j, e | 0 <= j < |tasks| && e in tasks[j].evidence
      ensures !Mentions(Strip(lines, t), tasks[j].id) && !Mentions(Strip(lines, t), e)
    {
      assert IdList(tasks)[j] in IdList(tasks);
      EvidenceHas(tasks, j, e);
    }
  }

  lemma {:induction false} SameIdCount(observed: seq<Task>, tasks: seq<Task>)
    requires DistinctTasks(observed) && DistinctTasks(tasks) && Members(IdList(observed)) == Members(IdList(tasks))
    ensures |observed| == |tasks|
  {
    SetSize(IdList(observed));
    SetSize(IdList(tasks));
  }

  lemma {:induction false} RowFor(observed: seq<Task>, tasks: seq<Task>, j: nat)
    requires Members(IdList(observed)) == Members(IdList(tasks)) && j < |tasks|
    ensures exists i :: 0 <= i < |observed| && observed[i].id == tasks[j].id
  {
    assert IdList(tasks)[j] in Members(IdList(tasks));
    var i :| 0 <= i < |observed| && IdList(observed)[i] == tasks[j].id;
    assert observed[i].id == tasks[j].id;
  }

  lemma {:induction false} EvidenceHas(tasks: seq<Task>, j: nat, e: string)
    requires j < |tasks| && e in tasks[j].evidence
    ensures e in Evidence(tasks)
    decreases |tasks|
  {
    if j < |tasks| - 1 {
      EvidenceHas(tasks[..|tasks| - 1], j, e);
    }
  }
}
