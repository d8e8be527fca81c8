/** What an accepted validation map says, told from the cells of its rows. */
module AuditMeaning {
  import opened Text
  import opened JsonValues
  import opened Distinctness
  import opened MarkdownTables
  import opened ValidationAudit

  // ---------------------------------------------------------------- the evidence cell

  /** The trimmed piece at a place of a comma-separated cell. */
  predicate PieceAt(cell: string, k: int, e: string) { 0 <= k < |Split(cell, ',')| && Trim(Split(cell, ',')[k]) == e && e != "" }

  lemma {:induction false} KeptPieces(parts: seq<string>, e: string)
    ensures e in Nonempty(parts) <==> e != "" && exists k :: 0 <= k < |parts| && Trim(parts[k]) == e
  {
    if parts != [] {
      KeptPieces(parts[1..], e);
      forall k | 0 < k < |parts| ensures parts[k] == parts[1..][k - 1] {
      }
      if k :| 0 <= k < |parts[1..]| && Trim(parts[1..][k]) == e {
        assert parts[k + 1] == parts[1..][k];
      }
    }
  }

  /** No two pieces are the same, blank ones apart. */
  predicate PiecesDiffer(parts: seq<string>) {
    forall k, l :: 0 <= k < l < |parts| && Trim(parts[k]) != "" ==> Trim(parts[k]) != Trim(parts[l])
  }

  lemma {:induction false} DifferStep(parts: seq<string>)
    requires parts != []
    ensures PiecesDiffer(parts) <==>
      PiecesDiffer(parts[1..]) && (Trim(parts[0]) != "" ==> forall k :: 0 <= k < |parts[1..]| ==> Trim(parts[1..][k]) != Trim(parts[0]))
  {
    var rest := parts[1..];
    forall k | 0 < k < |parts| ensures parts[k] == rest[k - 1] {
    }
    if PiecesDiffer(parts) {
      forall k, l | 0 <= k < l < |rest| && Trim(rest[k]) != "" ensures Trim(rest[k]) != Trim(rest[l]) {
        assert rest[k] == parts[k + 1] && rest[l] == parts[l + 1];
      }
      forall k | 0 <= k < |rest| && Trim(parts[0]) != "" ensures Trim(rest[k]) != Trim(parts[0]) {
        assert rest[k] == parts[k + 1];
      }
    }
  }

  lemma {:induction false} PiecesApart(parts: seq<string>)
    ensures NoDuplicates(Nonempty(parts)) <==> PiecesDiffer(parts)
  {
    if parts != [] {
      PiecesApart(parts[1..]);
      DifferStep(parts);
      var e, kept := Trim(parts[0]), Nonempty(parts[1..]);
      KeptPieces(parts[1..], e);
      if e != "" {
        assert Nonempty(parts) == [e] + kept;
        ConsApart(e, kept);
      } else {
        assert Nonempty(parts) == [] + kept == kept;
      }
    }
  }

  lemma {:induction false} ConsApart(e: string, xs: seq<string>)
    ensures NoDuplicates([e] + xs) <==> NoDuplicates(xs) && e !in xs
  {
    var all := [e] + xs;
    assert forall i :: 0 <= i < |xs| ==> all[i + 1] == xs[i];
    if NoDuplicates(all) {
      forall i, j | 0 <= i < j < |xs| ensures xs[i] != xs[j] {
        assert all[i + 1] != all[j + 1];
      }
      forall i | 0 <= i < |xs| ensures xs[i] != e {
        assert all[0] != all[i + 1];
      }
    }
  }

  /** The cell lists the evidence ids: each as one piece, and no other piece. */
  ghost predicate ListsEvidence(cell: string, evidence: seq<string>) {
    && (forall k :: 0 <= k < |Split(cell, ',')| && Trim(Split(cell, ',')[k]) != "" ==> Trim(Split(cell, ',')[k]) in evidence)
    && (forall e :: e in evidence ==> exists k :: PieceAt(cell, k, e))
    && PiecesDiffer(Split(cell, ','))
  }

  lemma {:induction false} EvidenceExactly(cell: string, evidence: seq<string>)
    ensures ListsEvidence(cell, evidence) <==>
      NoDuplicates(Nonempty(Split(cell, ','))) && forall e :: e in Nonempty(Split(cell, ',')) <==> e in evidence
  {
    var parts := Split(cell, ',');
    PiecesApart(parts);
    forall e ensures e in Nonempty(parts) <==> exists k :: PieceAt(cell, k, e) {
      KeptPieces(parts, e);
      if k :| PieceAt(cell, k, e) {
        assert Trim(parts[k]) == e;
      }
      if e != "" && exists k :: 0 <= k < |parts| && Trim(parts[k]) == e {
        var k :| 0 <= k < |parts| && Trim(parts[k]) == e;
        assert PieceAt(cell, k, e);
      }
    }
    forall k | 0 <= k < |parts| && Trim(parts[k]) != "" ensures PieceAt(cell, k, Trim(parts[k])) {
    }
  }

  // ---------------------------------------------------------------- one row

  /** The row states a task: its id, plan and ordinal, its evidence, that it passed, and at which commit. */
  ghost predicate StatesTask(row: Row, task: Task, head: string, f: Formats)
    requires |row| == 6
  {
    && row[0] == task.id && f.taskId(row[0])
    && row[1] == TwoDigits(task.plan) && row[2] == NatText(task.ordinal)
    && ListsEvidence(row[3], task.evidence) && task.evidence != [] && (forall e :: e in task.evidence ==> f.evidenceId(e))
    && row[4] == "PASS" && row[5] == head
  }

  lemma {:induction false} ExpectedIs(tasks: seq<Task>, j: nat)
    requires j < |tasks| && forall i, k :: 0 <= i < k < |tasks| ==> tasks[i].id != tasks[k].id
    ensures Expected(tasks, tasks[j].id) == Some(tasks[j])
    decreases |tasks|
  {
    var n := |tasks| - 1;
    if j < n {
      assert tasks[n].id != tasks[j].id;
      ExpectedIs(tasks[..n], j);
    }
  }

  lemma {:induction false} RowExactly(row: Row, tasks: seq<Task>, j: nat, head: string, f: Formats)
    requires |row| == 6 && j < |tasks| && row[0] == tasks[j].id && forall i, k :: 0 <= i < k < |tasks| ==> tasks[i].id != tasks[k].id
    ensures StatesTask(row, tasks[j], head, f) <==>
      LineFine(ReadLine(row), tasks, head, f) && forall e :: e in ReadLine(row).evidence <==> e in tasks[j].evidence
  {
    ExpectedIs(tasks, j);
    EvidenceExactly(row[3], tasks[j].evidence);
    var kept := ReadLine(row).evidence;
    if forall e :: e in kept <==> e in tasks[j].evidence {
      assert kept != [] ==> kept[0] in tasks[j].evidence;
      assert tasks[j].evidence != [] ==> tasks[j].evidence[0] in kept;
      forall i | 0 <= i < |kept| ensures kept[i] in tasks[j].evidence {
      }
    }
  }

  // ---------------------------------------------------------------- the whole table

  /** Rows and tasks correspond one to one, and every row states its task. */
  ghost predicate StatesAll(rows: seq<Row>, tasks: seq<Task>, head: string, f: Formats) {
    && |rows| == |tasks| && (forall i :: 0 <= i < |rows| ==> |rows[i]| == 6)
    && (forall i, k :: 0 <= i < k < |rows| ==> rows[i][0] != rows[k][0])
    && forall i :: 0 <= i < |rows| ==> exists j :: 0 <= j < |tasks| && StatesTask(rows[i], tasks[j], head, f)
  }

  /** What is compared with the front matter: how many plans, tasks, pairs and different evidence ids there are. */
  ghost function Tally(tasks: seq<Task>): Counts { Counts(|PlanNumbers(tasks)|, |tasks|, Total(tasks), |Evidence(tasks)|) }

  /** No task id and no evidence id stands as a token outside the table, and no superseded id does. */
  ghost predicate OutsideClear(outside: seq<string>, tasks: seq<Task>, f: Formats) {
    && (forall j :: 0 <= j < |tasks| ==> !Mentions(outside, tasks[j].id))
    && (forall j, e :: 0 <= j < |tasks| && e in tasks[j].evidence ==> !Mentions(outside, e))
    && !f.stale(outside)
  }

  lemma {:induction false} EvidenceOf(tasks: seq<Task>, e: string)
    ensures e in Evidence(tasks) <==> exists j :: 0 <= j < |tasks| && e in tasks[j].evidence
  {
    if tasks == [] {
    } else {
      var n := |tasks| - 1;
      EvidenceOf(tasks[..n], e);
      assert forall j :: 0 <= j < n ==> tasks[..n][j] == tasks[j];
    }
  }

  lemma {:induction false} OutsideExactly(outside: seq<string>, tasks: seq<Task>, f: Formats)
    ensures OutsideFine(outside, tasks, f) <==> OutsideClear(outside, tasks, f)
  {
    assert forall j :: 0 <= j < |tasks| ==> IdList(tasks)[j] == tasks[j].id;
    forall e ensures e in Evidence(tasks) <==> exists j :: 0 <= j < |tasks| && e in tasks[j].evidence {
      EvidenceOf(tasks, e);
    }
  }

  lemma {:induction false} SecondsAreEvidence(tasks: seq<Task>)
    ensures SecondOf(Pairs(tasks)) == Evidence(tasks)
  {
    forall e ensures e in SecondOf(Pairs(tasks)) <==> e in Evidence(tasks) {
      EvidenceOf(tasks, e);
      forall id ensures (id, e) in Pairs(tasks) <==> exists i :: 0 <= i < |tasks| && tasks[i].id == id && e in tasks[i].evidence {
        PairsMeaning(tasks, id, e);
      }
      if e in SecondOf(Pairs(tasks)) {
        var p :| p in Pairs(tasks) && p.1 == e;
        assert p == (p.0, e);
      }
      if e in Evidence(tasks) {
        var j :| 0 <= j < |tasks| && e in tasks[j].evidence;
        assert (tasks[j].id, e) in Pairs(tasks) && (tasks[j].id, e).1 == e;
      }
    }
  }

  lemma {:induction false} CountsExactly(tasks: seq<Task>, observed: seq<Task>)
    requires DistinctTasks(tasks) && Members(IdList(observed)) == Members(IdList(tasks)) && Pairs(observed) == Pairs(tasks)
    ensures CountsOf(tasks, observed) == Tally(tasks)
  {
    SetSize(IdList(tasks));
    PairsCount(tasks);
    SecondsAreEvidence(tasks);
  }

  /** The rows of a fine table state the tasks. */
  lemma {:induction false} FineStates(rows: seq<Row>, tasks: seq<Task>, head: string, f: Formats)
    requires DistinctTasks(tasks) && forall i :: 0 <= i < |rows| ==> |rows[i]| == 6
    requires LinesFine(Lines(rows), l => LineFine(l, tasks, head, f))
    requires Members(IdList(AllSeen(Lines(rows)))) == Members(IdList(tasks)) && Pairs(AllSeen(Lines(rows))) == Pairs(tasks)
    ensures StatesAll(rows, tasks, head, f)
  {
    var ls := Lines(rows);
    var observed := AllSeen(ls);
    FineLinesDistinct(ls, tasks, head, f);
    SameIdCount(observed, tasks);
    forall i | 0 <= i < |rows| ensures exists j :: 0 <= j < |tasks| && StatesTask(rows[i], tasks[j], head, f) {
      assert IdList(observed)[i] in Members(IdList(observed));
      var j :| 0 <= j < |tasks| && IdList(tasks)[j] == observed[i].id;
      SameEvidence(observed, tasks, i, j);
      forall e ensures e in ls[i].evidence <==> e in tasks[j].evidence {
        assert e in Members(observed[i].evidence) <==> e in Members(tasks[j].evidence);
      }
      RowExactly(rows[i], tasks, j, head, f);
    }
    forall i, k | 0 <= i < k < |rows| ensures rows[i][0] != rows[k][0] {
      assert observed[i].id != observed[k].id;
    }
  }

  /** Tasks that differ in their ids, with evidence ids that differ, and as many rows as tasks: every task has its row. */
  lemma {:induction false} EveryTaskStated(rows: seq<Row>, tasks: seq<Task>, head: string, f: Formats)
    requires DistinctTasks(tasks) && StatesAll(rows, tasks, head, f)
    ensures Members(IdList(AllSeen(Lines(rows)))) == Members(IdList(tasks))
    ensures NoDuplicates(IdList(AllSeen(Lines(rows))))
  {
    var ids, names := IdList(AllSeen(Lines(rows))), IdList(tasks);
    forall i | 0 <= i < |rows| ensures ids[i] == rows[i][0] && ids[i] in Members(names) {
      var j :| 0 <= j < |tasks| && StatesTask(rows[i], tasks[j], head, f);
      assert names[j] == ids[i];
    }
    forall i, k | 0 <= i < k < |ids| ensures ids[i] != ids[k] {
      assert rows[i][0] != rows[k][0];
    }
    SetSize(ids);
    SetSize(names);
    assert Members(ids) <= Members(names);
    SubsetOfSize(Members(ids), Members(names));
  }

  lemma {:induction false} SubsetOfSize<T>(a: set<T>, b: set<T>)
    requires a <= b && |a| == |b|
    ensures a == b
  {
    assert b == a + (b - a);
  }

  /** Rows and tasks of one id have the same evidence. */
  ghost predicate Match(observed: seq<Task>, tasks: seq<Task>) {
    forall i, j :: 0 <= i < |observed| && 0 <= j < |tasks| && observed[i].id == tasks[j].id ==>
      Members(observed[i].evidence) == Members(tasks[j].evidence)
  }

  lemma {:induction false} MatchedPairs(observed: seq<Task>, tasks: seq<Task>)
    requires Members(IdList(observed)) == Members(IdList(tasks)) && Match(observed, tasks)
    ensures Pairs(observed) == Pairs(tasks)
  {
    forall pair ensures pair in Pairs(observed) <==> pair in Pairs(tasks) {
      var (id, e) := pair;
      PairsMeaning(observed, id, e);
      PairsMeaning(tasks, id, e);
      if i :| 0 <= i < |observed| && observed[i].id == id && e in observed[i].evidence {
        var j := WithId(observed, i, tasks);
        assert e in Members(observed[i].evidence) && e in Members(tasks[j].evidence);
      }
      if j :| 0 <= j < |tasks| && tasks[j].id == id && e in tasks[j].evidence {
        var i := WithId(tasks, j, observed);
        assert e in Members(tasks[j].evidence) && e in Members(observed[i].evidence);
      }
    }
  }

  lemma {:induction false} WithId(xs: seq<Task>, i: nat, ys: seq<Task>) returns (j: nat)
    requires i < |xs| && Members(IdList(xs)) == Members(IdList(ys))
    ensures j < |ys| && ys[j].id == xs[i].id
  {
    assert IdList(xs)[i] in Members(IdList(xs));
    j :| 0 <= j < |ys| && IdList(ys)[j] == xs[i].id;
  }

  lemma {:induction false} RowMatches(row: Row, task: Task, head: string, f: Formats)
    requires |row| == 6 && StatesTask(row, task, head, f)
    ensures row[0] == task.id && Members(ReadLine(row).evidence) == Members(task.evidence)
  {
    EvidenceExactly(row[3], task.evidence);
    forall e ensures e in Members(ReadLine(row).evidence) <==> e in Members(task.evidence) {
    }
  }

  lemma {:induction false} StatedMatch(rows: seq<Row>, tasks: seq<Task>, head: string, f: Formats)
    requires DistinctTasks(tasks) && StatesAll(rows, tasks, head, f)
    ensures Match(AllSeen(Lines(rows)), tasks)
  {
    forall i, j | 0 <= i < |rows| && 0 <= j < |tasks| && rows[i][0] == tasks[j].id
      ensures Members(ReadLine(rows[i]).evidence) == Members(tasks[j].evidence)
    {
      var k :| 0 <= k < |tasks| && StatesTask(rows[i], tasks[k], head, f);
      assert k == j;
      RowMatches(rows[i], tasks[j], head, f);
    }
  }

  lemma {:induction false} StatesFine(rows: seq<Row>, tasks: seq<Task>, head: string, f: Formats)
    requires DistinctTasks(tasks) && StatesAll(rows, tasks, head, f)
    ensures LinesFine(Lines(rows), l => LineFine(l, tasks, head, f))
  {
    EveryTaskStated(rows, tasks, head, f);
    forall i | 0 <= i < |rows| ensures LineFine(Lines(rows)[i], tasks, head, f) {
      var j :| 0 <= j < |tasks| && StatesTask(rows[i], tasks[j], head, f);
      RowExactly(rows[i], tasks, j, head, f);
    }
  }

  /** A table is accepted exactly when its rows state the tasks one by one, nothing of them stands outside the table, and the
      front matter shows how many plans, tasks, pairs and evidence ids there are. */
  lemma {:induction false} TableExactly(
      lines: seq<string>, t: Table, tasks: seq<Task>, head: string, f: Formats, shows: Counts -> bool)
    requires DistinctTasks(tasks)
    ensures TableFine(lines, t, tasks, head, f, shows) <==>
      StatesAll(t.rows, tasks, head, f) && OutsideClear(Strip(lines, t), tasks, f) && shows(Tally(tasks))
  {
    OutsideExactly(Strip(lines, t), tasks, f);
    if TableFine(lines, t, tasks, head, f, shows) {
      FineStates(t.rows, tasks, head, f);
      CountsExactly(tasks, AllSeen(Lines(t.rows)));
    }
    if StatesAll(t.rows, tasks, head, f) {
      EveryTaskStated(t.rows, tasks, head, f);
      StatedMatch(t.rows, tasks, head, f);
      MatchedPairs(AllSeen(Lines(t.rows)), tasks);
      StatesFine(t.rows, tasks, head, f);
      CountsExactly(tasks, AllSeen(Lines(t.rows)));
    }
  }

  // ---------------------------------------------------------------- what the plans expect

  predicate Digits(s: string) { forall i :: 0 <= i < |s| ==> IsDigit(s[i]) }

  lemma {:induction false} TwoDigitsExactly(n: nat)
    ensures Digits(TwoDigits(n)) && |TwoDigits(n)| >= 2 && Value(TwoDigits(n)) == n
    ensures |TwoDigits(n)| > 2 ==> TwoDigits(n)[0] != '0'
  {
    TwoDigitsValue(n);
    if n >= 10 {
      NoLeadingZero(n);
      assert NatText(n) == NatText(n / 10) + [Digit(n % 10)];
    }
  }

  /** The number in two digits or more. */
  ghost predicate Writes(s: string, n: nat) { Digits(s) && |s| >= 2 && Value(s) == n }

  /** A task id is `31.1-`, the plan in two digits or more, a dash, and the ordinal in two digits or more. */
  lemma {:induction false} TaskIdExactly(plan: nat, ordinal: nat)
    ensures exists a, b :: TaskId(plan, ordinal) == "31.1-" + a + "-" + b && Writes(a, plan) && Writes(b, ordinal)
  {
    TwoDigitsExactly(plan);
    TwoDigitsExactly(ordinal);
    var a, b := TwoDigits(plan), TwoDigits(ordinal);
    assert Writes(a, plan) && Writes(b, ordinal);
    assert TaskId(plan, ordinal) == "31.1-" + a + "-" + b;
  }

  /** The expected tasks are the blocks of the plans, numbered from one within each plan. */
  lemma {:induction false} TasksExactly(from: nat, to: nat, plans: nat -> seq<seq<string>>, t: Task)
    requires from <= to
    ensures t in TasksOf(from, to, plans) <==>
      from <= t.plan < to && 1 <= t.ordinal <= |plans(t.plan)| && t.evidence == plans(t.plan)[t.ordinal - 1]
      && t.id == TaskId(t.plan, t.ordinal)
  {
    if from < to {
      TasksExactly(from, to - 1, plans, t);
      var last := PlanTasks(to - 1, plans(to - 1));
      if t in last {
        var i :| 0 <= i < |last| && last[i] == t;
      }
      if t.plan == to - 1 && 1 <= t.ordinal <= |plans(t.plan)| && t.evidence == plans(t.plan)[t.ordinal - 1]
          && t.id == TaskId(t.plan, t.ordinal) {
        assert last[t.ordinal - 1] == t;
      }
    }
  }

  // ---------------------------------------------------------------- tokens

  /** A letter, a digit, or one of the three marks that ids may hold. */
  predicate IdLetter(c: char) {
    c in "abcdefghijklmnopqrstuvwxyz" || c in "ABCDEFGHIJKLMNOPQRSTUVWXYZ" || c in "0123456789" || c in "_.-"
  }

  lemma {:induction false} LowerLetter(c: char)
    ensures 'a' <= c <= 'z' <==> c in "abcdefghijklmnopqrstuvwxyz"
  {
    var all := "abcdefghijklmnopqrstuvwxyz";
    if 'a' <= c <= 'z' {
      assert all[c as int - 'a' as int] == c;
    }
  }

  lemma {:induction false} UpperLetter(c: char)
    ensures 'A' <= c <= 'Z' <==> c in "ABCDEFGHIJKLMNOPQRSTUVWXYZ"
  {
    var all := "ABCDEFGHIJKLMNOPQRSTUVWXYZ";
    if 'A' <= c <= 'Z' {
      assert all[c as int - 'A' as int] == c;
    }
  }

  lemma {:induction false} DecimalDigit(c: char)
    ensures IsDigit(c) <==> c in "0123456789"
  {
    var all := "0123456789";
    if IsDigit(c) {
      assert all[c as int - '0' as int] == c;
    }
  }

  lemma {:induction false} LetterExactly(c: char)
    ensures IdChar(c) <==> IdLetter(c)
  {
    LowerLetter(c);
    UpperLetter(c);
    DecimalDigit(c);
  }

  /** The line is the token with text around it that does not make the id longer. */
  ghost predicate StandsAlone(line: string, token: string) {
    exists a, b :: Apart(a, b) && line == a + token + b
  }

  /** The texts around a token do not make it longer. */
  predicate Apart(a: string, b: string) { (a == "" || !IdLetter(a[|a| - 1])) && (b == "" || !IdLetter(b[0])) }

  lemma {:induction false} TokenBetween(a: string, token: string, b: string)
    requires (a == "" || !IdChar(a[|a| - 1])) && (b == "" || !IdChar(b[0]))
    ensures TokenAt(a + token + b, token, |a|)
  {
    var line := a + token + b;
    assert line[|a|..|a| + |token|] == token;
    assert a != "" ==> line[|a| - 1] == a[|a| - 1];
    assert b != "" ==> line[|a| + |token|] == b[0];
  }

  lemma {:induction false} AroundToken(line: string, token: string, p: nat)
    requires p <= |line| && TokenAt(line, token, p)
    ensures var a, b := line[..p], line[p + |token|..];
      line == a + token + b && (a == "" || !IdChar(a[|a| - 1])) && (b == "" || !IdChar(b[0]))
  {
    assert line == line[..p] + line[p..p + |token|] + line[p + |token|..];
  }

  lemma {:induction false} EndsAlike(a: string, b: string)
    ensures Apart(a, b) <==> (a == "" || !IdChar(a[|a| - 1])) && (b == "" || !IdChar(b[0]))
  {
    if a != "" {
      LetterExactly(a[|a| - 1]);
    }
    if b != "" {
      LetterExactly(b[0]);
    }
  }

  lemma {:induction false} AloneExactly(line: string, token: string)
    ensures StandsAlone(line, token) <==> exists p :: 0 <= p <= |line| && TokenAt(line, token, p)
  {
    if StandsAlone(line, token) {
      var a, b :| Apart(a, b) && line == a + token + b;
      EndsAlike(a, b);
      TokenBetween(a, token, b);
    }
    if p :| 0 <= p <= |line| && TokenAt(line, token, p) {
      AroundToken(line, token, p);
      EndsAlike(line[..p], line[p + |token|..]);
    }
  }

  /** A token is mentioned exactly if it stands alone in some line. */
  lemma {:induction false} MentionsExactly(lines: seq<string>, token: string)
    ensures Mentions(lines, token) <==> exists i :: 0 <= i < |lines| && StandsAlone(lines[i], token)
  {
    forall i | 0 <= i < |lines|
      ensures StandsAlone(lines[i], token) <==> exists p :: 0 <= p <= |lines[i]| && TokenAt(lines[i], token, p)
    {
      AloneExactly(lines[i], token);
    }
  }
}
