/** Collecting one report for each required surface. */
module SurfaceCollection {
  import opened JsonValues
  import opened Descriptors
  import opened Distinctness
  import opened ReportDirectory
  import Sorting

  /** The outcome of judging one report: the surface it speaks for, or why it was refused. */
  datatype Judgement = Speaks(surface: string, report: Json) | Refused(code: Failure)

  type BySurface = map<string, Json>

  /** One round of the loop over the reports. */
  function Accept(m: BySurface, j: Judgement): Result<BySurface> {
    match j
    case Refused(code) => Failed(code)
    case Speaks(surface, report) => if surface in m then Failed(DuplicateSurface) else Ok(m[surface := report])
  }

  function Collect(m: BySurface, js: seq<Judgement>): Result<BySurface>
    decreases js
  {
    if js == [] then Ok(m)
    else
      var next := Accept(m, js[0]);
      if next.Failed? then next else Collect(next.value, js[1..])
  }

  /** `[reports_by_surface[surface] for surface in required]`. */
  function InOrder(m: BySurface, surfaces: seq<string>): (r: seq<Json>)
    requires forall s :: s in surfaces ==> s in m
    ensures |r| == |surfaces| && forall i :: 0 <= i < |r| ==> r[i] == m[surfaces[i]]
  {
    seq(|surfaces|, i requires 0 <= i < |surfaces| && surfaces[i] in m => m[surfaces[i]])
  }

  /** The reports that the aggregate lists; failing where the loop or the completeness check fails. */
  function Reports(required: seq<string>, js: seq<Judgement>): Result<seq<Json>> {
    var m := Collect(map[], js);
    if m.Failed? then Failed(m.code)
    else if m.value.Keys != Members(required) then Failed(SurfaceSet)
    else Ok(InOrder(m.value, required))
  }

  ghost predicate AllSpeak(js: seq<Judgement>) {
    forall i :: 0 <= i < |js| ==> js[i].Speaks?
  }

  ghost predicate SurfacesDiffer(js: seq<Judgement>)
    requires AllSpeak(js)
  {
    forall i, j :: 0 <= i < j < |js| ==> js[i].surface != js[j].surface
  }

  ghost function Surfaces(js: seq<Judgement>): (names: seq<string>)
    requires AllSpeak(js)
    ensures |names| == |js| && forall i :: 0 <= i < |js| ==> names[i] == js[i].surface
  {
    if js == [] then [] else [js[0].surface] + Surfaces(js[1..])
  }

  /** Reports and surfaces correspond one to one: every required surface has exactly one report, and every
      report speaks for a required surface. */
  ghost predicate OnePerSurface(required: seq<string>, js: seq<Judgement>) {
    && AllSpeak(js) && SurfacesDiffer(js) && |js| == |required|
    && (forall i :: 0 <= i < |js| ==> js[i].surface in required)
    && (forall s :: s in required ==> s in Surfaces(js))
  }

  /** No report is refused, none repeats a surface, and none speaks for a surface that has one already. */
  ghost predicate Collectable(m: BySurface, js: seq<Judgement>) {
    AllSpeak(js) && SurfacesDiffer(js) && forall i :: 0 <= i < |js| ==> js[i].surface !in m
  }

  lemma {:induction false} CollectableStep(m: BySurface, js: seq<Judgement>)
    requires js != [] && js[0].Speaks?
    ensures Collectable(m, js) <==> js[0].surface !in m && Collectable(m[js[0].surface := js[0].report], js[1..])
  {
    var rest := js[1..];
    assert forall i :: 0 < i < |js| ==> js[i] == rest[i - 1];
    if Collectable(m, js) {
      forall i | 0 <= i < |rest| ensures rest[i].Speaks? && rest[i].surface != js[0].surface && rest[i].surface !in m {
        assert rest[i] == js[i + 1];
      }
      forall i, j | 0 <= i < j < |rest| ensures rest[i].surface != rest[j].surface {
        assert rest[i] == js[i + 1] && rest[j] == js[j + 1];
      }
    }
  }

  lemma {:induction false} CollectAccepts(m: BySurface, js: seq<Judgement>)
    ensures Collect(m, js).Ok? <==> Collectable(m, js)
    decreases js
  {
    if js == [] {
    } else if Accept(m, js[0]).Ok? {
      CollectableStep(m, js);
      CollectAccepts(Accept(m, js[0]).value, js[1..]);
    }
  }

  lemma {:induction false} CollectKeys(m: BySurface, js: seq<Judgement>)
    requires Collectable(m, js)
    ensures Collect(m, js).Ok? && Collect(m, js).value.Keys == m.Keys + Members(Surfaces(js))
    decreases js
  {
    if js == [] {
    } else {
      CollectableStep(m, js);
      CollectKeys(m[js[0].surface := js[0].report], js[1..]);
      assert Surfaces(js) == [js[0].surface] + Surfaces(js[1..]);
    }
  }

  lemma {:induction false} CollectKeeps(m: BySurface, js: seq<Judgement>, s: string)
    requires Collectable(m, js) && s in m
    ensures Collect(m, js).Ok? && s in Collect(m, js).value && Collect(m, js).value[s] == m[s]
    decreases js
  {
    if js == [] {
    } else {
      CollectableStep(m, js);
      CollectKeeps(m[js[0].surface := js[0].report], js[1..], s);
    }
  }

  lemma {:induction false} CollectHolds(m: BySurface, js: seq<Judgement>, i: nat)
    requires Collectable(m, js) && i < |js|
    ensures Collect(m, js).Ok?
    ensures js[i].surface in Collect(m, js).value && Collect(m, js).value[js[i].surface] == js[i].report
    decreases js
  {
    var next := m[js[0].surface := js[0].report];
    CollectableStep(m, js);
    if i == 0 {
      CollectKeeps(next, js[1..], js[0].surface);
    } else {
      CollectHolds(next, js[1..], i - 1);
    }
  }

  /** Acceptance: exactly when every report is accepted on its own and the reports are in bijection with the
      required surfaces; the list then holds, in the required order, the report of each surface. */
  lemma {:induction false} AcceptedExactly(required: seq<string>, js: seq<Judgement>)
    requires NoDuplicates(required)
    ensures var r := Reports(required, js);
      && (r.Ok? <==> OnePerSurface(required, js))
      && (r.Ok? ==> |r.value| == |required|)
      && (r.Ok? ==> forall k :: 0 <= k < |required| ==> Speaks(required[k], r.value[k]) in js)
  {
    CollectAccepts(map[], js);
    SetSize(required);
    if Collectable(map[], js) {
      CollectKeys(map[], js);
    }
    if AllSpeak(js) && SurfacesDiffer(js) {
      SetSize(Surfaces(js));
      if Members(Surfaces(js)) == Members(required) {
        forall i | 0 <= i < |js| ensures js[i].surface in required {
          assert Surfaces(js)[i] in Members(required);
        }
        forall s | s in required ensures s in Surfaces(js) {
          assert s in Members(Surfaces(js));
        }
      }
    }
    if Reports(required, js).Ok? {
      ListedReports(required, js);
    }
    if OnePerSurface(required, js) {
      assert Members(Surfaces(js)) == Members(required);
    }
  }

  lemma {:induction false} ListedReports(required: seq<string>, js: seq<Judgement>)
    requires Reports(required, js).Ok?
    ensures forall k :: 0 <= k < |required| ==> Speaks(required[k], Reports(required, js).value[k]) in js
  {
    CollectAccepts(map[], js);
    CollectKeys(map[], js);
    var m := Collect(map[], js).value;
    forall k | 0 <= k < |required| ensures Speaks(required[k], Reports(required, js).value[k]) in js {
      assert required[k] in Members(required);
      assert required[k] in Members(Surfaces(js));
      var i :| 0 <= i < |js| && Surfaces(js)[i] == required[k];
      CollectHolds(map[], js, i);
    }
  }

  /** Judging the reports in another order neither changes acceptance nor the list. */
  lemma {:induction false} OrderOfJudgementsIrrelevant(required: seq<string>, a: seq<Judgement>, b: seq<Judgement>)
    requires NoDuplicates(required) && multiset(a) == multiset(b)
    ensures Reports(required, a).Ok? == Reports(required, b).Ok?
    ensures Reports(required, a).Ok? ==> Reports(required, a) == Reports(required, b)
  {
    AcceptedExactly(required, a);
    AcceptedExactly(required, b);
    Sorting.SameMembers(a, b);
    if Reports(required, a).Ok? {
      OnePerSurfacePermuted(required, a, b);
      var x, y := Reports(required, a).value, Reports(required, b).value;
      forall k | 0 <= k < |required| ensures x[k] == y[k] {
        assert Speaks(required[k], x[k]) in b;
      }
      assert x == y;
    }
    if Reports(required, b).Ok? {
      OnePerSurfacePermuted(required, b, a);
    }
  }

  lemma {:induction false} OnePerSurfacePermuted(required: seq<string>, a: seq<Judgement>, b: seq<Judgement>)
    requires multiset(a) == multiset(b) && OnePerSurface(required, a)
    ensures OnePerSurface(required, b)
  {
    Sorting.SameMembers(a, b);
    forall i | 0 <= i < |b| ensures b[i].Speaks? && b[i].surface in required {
      assert b[i] in a;
    }
    forall i, j | 0 <= i < j < |b| ensures b[i].surface != b[j].surface {
      if b[i].surface == b[j].surface {
        assert b[i] in a && b[j] in a;
        assert b[i] == b[j];
        Twice(b, i, j);
        Once(a, b[i]);
      }
    }
    forall s | s in required ensures s in Surfaces(b) {
      var i :| 0 <= i < |a| && Surfaces(a)[i] == s;
      assert a[i] in b;
      var j :| 0 <= j < |b| && b[j] == a[i];
      assert Surfaces(b)[j] == s;
    }
  }

  lemma {:induction false} Twice(b: seq<Judgement>, i: nat, j: nat)
    requires i < j < |b| && b[i] == b[j]
    ensures multiset(b)[b[i]] >= 2
  {
    assert b == b[..j] + [b[j]] + b[j + 1..];
    assert b[i] in b[..j];
  }

  lemma {:induction false} Once(a: seq<Judgement>, r: Judgement)
    requires AllSpeak(a) && SurfacesDiffer(a)
    ensures multiset(a)[r] <= 1
  {
    if r in a {
      var i :| 0 <= i < |a| && a[i] == r;
      assert a == a[..i] + [a[i]] + a[i + 1..];
      assert r !in a[..i] && r !in a[i + 1..];
    }
  }

  // ---------------------------------------------------------------- reading the reports

  /** What becomes of one argument when nobody interferes; a report that cannot be read is as good as refused. */
  function JudgementFor(
      w: World, dir: Inode, name: string, load: string -> Option<Json>, shapeOk: Json -> bool, judge: (Json, Json) -> Judgement)
    : Judgement
  {
    var reading := Reading(w, dir, name, load, shapeOk);
    if reading.None? then Refused(OsError) else judge(reading.value.0, reading.value.1)
  }

  ghost function JudgementsFor(
      w: World, dir: Inode, names: seq<string>, load: string -> Option<Json>, shapeOk: Json -> bool,
      judge: (Json, Json) -> Judgement)
    : (js: seq<Judgement>)
    ensures |js| == |names|
    ensures forall i :: 0 <= i < |names| ==> js[i] == JudgementFor(w, dir, names[i], load, shapeOk, judge)
  {
    Sorting.Map(names, name => JudgementFor(w, dir, name, load, shapeOk, judge))
  }

  lemma {:induction false} CollectStops(m: BySurface, js: seq<Judgement>, n: nat)
    requires n <= |js| && Collect(m, js[..n]).Failed?
    ensures Collect(m, js).Failed?
    decreases js
  {
    if n == 0 {
    } else {
      assert js[..n][1..] == js[1..][..n - 1];
      if Accept(m, js[0]).Ok? {
        CollectStops(Accept(m, js[0]).value, js[1..], n - 1);
      }
    }
  }

  /** The reports that the aggregate lists when nobody interferes, if it is accepted. */
  ghost function CalmReports(
      w: World, path: LexicalPath, names: seq<string>, load: string -> Option<Json>, shapeOk: Json -> bool,
      judge: (Json, Json) -> Judgement, required: seq<string>)
    : Option<seq<Json>>
  {
    if !Ready(w, path, names) then None
    else Given(Reports(required, JudgementsFor(w, Walk(w, path.parts[1..]).value, names, load, shapeOk, judge)))
  }

  /** Each judged report is the one read, through the held directory, at the argument's name, within the interval. */
  ghost predicate Sourced(
      w: World, dir: Inode, name: string, j: Judgement, load: string -> Option<Json>, judge: (Json, Json) -> Judgement,
      from: nat, until: nat)
  {
    exists file, text, status, times, report ::
      && ReadThrough(w, dir, name, file, text, status, times, from, until)
      && load(text) == Some(report) && j == judge(report, status)
  }

  /** The reports are read one after the other, each between two of the bounds. */
  ghost predicate SourcedInTurn(
      w: World, dir: Inode, names: seq<string>, js: seq<Judgement>, load: string -> Option<Json>,
      judge: (Json, Json) -> Judgement, bounds: seq<nat>)
  {
    && |js| == |names| && |bounds| == |names| + 1
    && forall i :: 0 <= i < |names| ==> Sourced(w, dir, names[i], js[i], load, judge, bounds[i], bounds[i + 1])
  }

  lemma {:induction false} OneMoreInTurn(
      w: World, dir: Inode, names: seq<string>, name: string, js: seq<Judgement>, j: Judgement,
      load: string -> Option<Json>, judge: (Json, Json) -> Judgement, bounds: seq<nat>, until: nat)
    requires SourcedInTurn(w, dir, names, js, load, judge, bounds)
    requires Sourced(w, dir, name, j, load, judge, bounds[|names|], until)
    ensures SourcedInTurn(w, dir, names + [name], js + [j], load, judge, bounds + [until])
  {
  }

  // ---------------------------------------------------------------- the order of the arguments

  lemma {:induction false} StillSource(
      w: World, dir: Inode, name: string, j: Judgement, load: string -> Option<Json>, judge: (Json, Json) -> Judgement,
      from: nat, until: nat)
    requires Sourced(w, dir, name, j, load, judge, from, until) && Still(w, dir)
    ensures j == JudgementFor(w, dir, name, load, _ => true, judge)
  {
    var file, text, status, times, report :|
      ReadThrough(w, dir, name, file, text, status, times, from, until) && load(text) == Some(report) && j == judge(report, status);
    StillReading(w, dir, name, file, text, status, times, from, until, load, report);
  }

  lemma {:induction false} SourcedAreJudgements(
      w: World, dir: Inode, names: seq<string>, js: seq<Judgement>, load: string -> Option<Json>,
      judge: (Json, Json) -> Judgement, bounds: seq<nat>)
    requires SourcedInTurn(w, dir, names, js, load, judge, bounds) && Still(w, dir)
    ensures js == JudgementsFor(w, dir, names, load, _ => true, judge)
  {
    forall i | 0 <= i < |names| ensures js[i] == JudgementFor(w, dir, names[i], load, _ => true, judge) {
      StillSource(w, dir, names[i], js[i], load, judge, bounds[i], bounds[i + 1]);
    }
  }

  lemma {:induction false} JudgementsPermute(
      w: World, dir: Inode, names: seq<string>, names': seq<string>, load: string -> Option<Json>, shapeOk: Json -> bool,
      judge: (Json, Json) -> Judgement)
    requires multiset(names) == multiset(names')
    ensures multiset(JudgementsFor(w, dir, names, load, shapeOk, judge))
         == multiset(JudgementsFor(w, dir, names', load, shapeOk, judge))
  {
    Sorting.MapPermutation(names, names', name => JudgementFor(w, dir, name, load, shapeOk, judge));
  }

  /** Two runs over the same reports in different orders, at whatever times, through a directory that is left alone, judge
      the same reports alike. */
  lemma {:induction false} SourcedPermute(
      w: World, dir: Inode, names: seq<string>, js: seq<Judgement>, bounds: seq<nat>,
      names': seq<string>, js': seq<Judgement>, bounds': seq<nat>,
      load: string -> Option<Json>, judge: (Json, Json) -> Judgement)
    requires Still(w, dir) && multiset(names) == multiset(names')
    requires SourcedInTurn(w, dir, names, js, load, judge, bounds)
    requires SourcedInTurn(w, dir, names', js', load, judge, bounds')
    ensures multiset(js) == multiset(js')
  {
    SourcedAreJudgements(w, dir, names, js, load, judge, bounds);
    SourcedAreJudgements(w, dir, names', js', load, judge, bounds');
    JudgementsPermute(w, dir, names, names', load, _ => true, judge);
  }

  lemma {:induction false} ReadyPermute(w: World, path: LexicalPath, names: seq<string>, names': seq<string>)
    requires multiset(names) == multiset(names') && Ready(w, path, names)
    ensures Ready(w, path, names')
  {
    DistinctPermutation(names, names');
    Sorting.SameMembers(names, names');
  }

  /** When nobody interferes, listing the report arguments in another order changes neither acceptance nor the list. */
  lemma {:induction false} OrderOfArgumentsIrrelevant(
      w: World, path: LexicalPath, names: seq<string>, names': seq<string>, load: string -> Option<Json>,
      shapeOk: Json -> bool, judge: (Json, Json) -> Judgement, required: seq<string>)
    requires multiset(names) == multiset(names') && NoDuplicates(required)
    ensures CalmReports(w, path, names, load, shapeOk, judge, required)
         == CalmReports(w, path, names', load, shapeOk, judge, required)
  {
    if Ready(w, path, names) {
      ReadyPermute(w, path, names, names');
      var dir := Walk(w, path.parts[1..]).value;
      JudgementsPermute(w, dir, names, names', load, shapeOk, judge);
      OrderOfJudgementsIrrelevant(required, JudgementsFor(w, dir, names, load, shapeOk, judge),
                                  JudgementsFor(w, dir, names', load, shapeOk, judge));
    } else if Ready(w, path, names') {
      ReadyPermute(w, path, names', names);
    }
  }

  // ---------------------------------------------------------------- the loop over the reports

  /** `validate_report`: one report read through the held directory and judged. */
  method JudgeOne(
      proc: Process, name: string, fd: int, load: string -> Option<Json>, shapeOk: Json -> bool,
      judge: (Json, Json) -> Judgement)
      returns (r: Result<Judgement>)
    requires proc.Valid() && fd in proc.table
    modifies proc
    ensures proc.Valid() && proc.table == old(proc.table) && proc.clock >= old(proc.clock)
    ensures old(proc.log) <= proc.log && OnlyIn(proc.log[|old(proc.log)|..], proc.table[fd])
    ensures r.Ok? ==> Sourced(proc.world, proc.table[fd], name, r.value, load, judge, old(proc.clock), proc.clock)
    ensures Calm(proc.world) ==>
      var j := JudgementFor(proc.world, proc.table[fd], name, load, shapeOk, judge); if r.Ok? then j == r.value else j.Refused?
  {
    ghost var file, text, times;
    var reading;
    reading, file, text, times := ReadReport(proc, name, fd, load, shapeOk);
    if reading.Failed? {
      return Failed(reading.code);
    }
    return Ok(judge(reading.value.0, reading.value.1));
  }

  /** The loop over the reports; it stops at the first that cannot be read or is refused. */
  method JudgeAll(
      proc: Process, names: seq<string>, fd: int, load: string -> Option<Json>, shapeOk: Json -> bool,
      judge: (Json, Json) -> Judgement)
      returns (r: Result<BySurface>, ghost js: seq<Judgement>, ghost bounds: seq<nat>)
    requires proc.Valid() && fd in proc.table
    modifies proc
    ensures proc.Valid() && proc.table == old(proc.table) && proc.clock >= old(proc.clock)
    ensures old(proc.log) <= proc.log && OnlyIn(proc.log[|old(proc.log)|..], proc.table[fd])
    ensures r.Ok? ==> |js| == |names| && r == Collect(map[], js)
    ensures r.Ok? ==> SourcedInTurn(proc.world, proc.table[fd], names, js, load, judge, bounds)
    ensures r.Ok? ==> bounds[0] == old(proc.clock) && bounds[|names|] == proc.clock
    ensures Calm(proc.world) ==> var all := JudgementsFor(proc.world, proc.table[fd], names, load, shapeOk, judge);
      (r.Ok? <==> Collect(map[], all).Ok?) && (r.Ok? ==> js == all)
  {
    ghost var all := JudgementsFor(proc.world, proc.table[fd], names, load, shapeOk, judge);
    var bySurface, i := map[], 0;
    js, bounds := [], [proc.clock];
    ghost var log0, dir := proc.log, proc.table[fd];
    while i < |names|
      invariant 0 <= i <= |names| && |js| == i
      invariant proc.Valid() && proc.table == old(proc.table) && proc.clock >= old(proc.clock)
      invariant log0 <= proc.log && OnlyIn(proc.log[|log0|..], dir)
      invariant Collect(map[], js) == Ok(bySurface)
      invariant SourcedInTurn(proc.world, dir, names[..i], js, load, judge, bounds)
      invariant bounds[0] == old(proc.clock) && bounds[i] == proc.clock
      invariant Calm(proc.world) ==> js == all[..i]
    {
      ghost var log1 := proc.log;
      var j := JudgeOne(proc, names[i], fd, load, shapeOk, judge);
      LaterStillOnlyIn(log0, log1, proc.log, dir);
      if Calm(proc.world) {
        CollectStep(js, all, i);
      }
      if j.Failed? {
        return Failed(j.code), js, bounds;
      }
      var next := Accept(bySurface, j.value);
      if next.Failed? {
        return next, js, bounds;
      }
      CollectOneMore(map[], js, j.value);
      OneMoreInTurn(proc.world, dir, names[..i], names[i], js, j.value, load, judge, bounds, proc.clock);
      assert names[..i + 1] == names[..i] + [names[i]];
      bounds := bounds + [proc.clock];
      js, bySurface, i := js + [j.value], next.value, i + 1;
    }
    assert names[..|names|] == names;
    return Ok(bySurface), js, bounds;
  }

  lemma {:induction false} CollectStep(js: seq<Judgement>, all: seq<Judgement>, i: nat)
    requires i < |all| && js == all[..i] && Collect(map[], js).Ok?
    ensures js + [all[i]] == all[..i + 1]
    ensures Accept(Collect(map[], js).value, all[i]).Failed? ==> Collect(map[], all).Failed?
  {
    assert js + [all[i]] == all[..i + 1];
    CollectOneMore(map[], js, all[i]);
    if Accept(Collect(map[], js).value, all[i]).Failed? {
      CollectStops(map[], all, i + 1);
    }
  }

  lemma {:induction false} CollectOneMore(m: BySurface, js: seq<Judgement>, j: Judgement)
    requires Collect(m, js).Ok?
    ensures Collect(m, js + [j]) == Accept(Collect(m, js).value, j)
    decreases js
  {
    if js == [] {
    } else {
      assert (js + [j])[1..] == js[1..] + [j];
      CollectOneMore(Accept(m, js[0]).value, js[1..], j);
    }
  }

  /** What a run of the collection leaves behind for its proof: the events of the walk, the directory it held and how it
      got there, when it listed the directory, between which moments it read each report, and the judgements in
      argument order. */
  datatype Run = Run(
    walk: seq<Event>, dir: Inode, chain: seq<Inode>, moments: seq<nat>, listed: nat, bounds: seq<nat>, js: seq<Judgement>)

  const NO_RUN := Run([], 0, [], [], 0, [], [])

  /** A run between two moments: first the walk, then the listing and the looks at the entries, then the reports in turn;
      after the walk, nothing but the one directory is listed, looked into or opened from. */
  ghost predicate Traced(
      w: World, path: LexicalPath, names: seq<string>, load: string -> Option<Json>, judge: (Json, Json) -> Judgement,
      run: Run, after: seq<Event>, from: nat, until: nat)
  {
    && path.absolute && path.parts != [] && PlainComponents(path.parts[1..])
    && Anchored(w, path.parts[1..], run.chain, run.moments, from, run.listed)
    && run.dir == run.chain[|path.parts[1..]|]
    && SourcedInTurn(w, run.dir, names, run.js, load, judge, run.bounds)
    && from <= run.listed < run.bounds[0] && run.bounds[|names|] < until
    && NoDuplicates(names) && Inventoried(w, run.dir, names, run.listed, run.bounds[0])
    && OnlyIn(after, run.dir)
  }

  /** Opening the directory, then `inputs` (a failure to load the other inputs), then the reports; the directory
      is closed in every case. */
  method CollectReports(
      proc: Process, path: LexicalPath, names: seq<string>, load: string -> Option<Json>, shapeOk: Json -> bool,
      inputs: Option<Failure>, judge: (Json, Json) -> Judgement, required: seq<string>)
      returns (r: Result<seq<Json>>, ghost run: Run)
    requires proc.Valid() && (path.absolute ==> path.parts != []) && NoDuplicates(required)
    modifies proc
    ensures proc.Valid() && old(proc.log) + run.walk <= proc.log
    ensures LedgerUnlessHarmed(proc.world, old(proc.table), proc.table, run.walk, |run.moments| + 1 == |path.parts|)
    ensures r.Ok? ==> proc.table == old(proc.table) && inputs.None?
    ensures r.Ok? ==> Traced(proc.world, path, names, load, judge, run, proc.log[|old(proc.log) + run.walk|..],
                             old(proc.clock), proc.clock)
    ensures r.Ok? ==> OnePerSurface(required, run.js) && r == Reports(required, run.js)
    ensures Calm(proc.world) && inputs.None? ==>
      Given(r) == CalmReports(proc.world, path, names, load, shapeOk, judge, required)
  {
    ghost var chain, moments, walk, listed;
    var opening;
    opening, chain, moments, walk, listed := OpenAndCheck(proc, path, names);
    run := NO_RUN.(walk := walk, moments := moments);
    if opening.Failed? {
      return Failed(opening.code), run;
    }
    var fd := opening.value;
    ghost var dir, held := proc.table[fd], proc.table;
    assert held - {fd} == old(proc.table);
    if inputs.Some? {
      var closed := proc.Close(fd);
      return Failed(inputs.value), run;
    }
    ghost var log0, log1 := old(proc.log) + walk, proc.log;
    ghost var js, bounds;
    var reports;
    reports, js, bounds := ReadAndClose(proc, names, fd, load, shapeOk, judge, required);
    LaterStillOnlyIn(log0, log1, proc.log, dir);
    run := Run(walk, dir, chain, moments, listed, bounds, js);
    return reports, run;
  }

  /** The body of the `try` and its `finally`. */
  method ReadAndClose(
      proc: Process, names: seq<string>, fd: int, load: string -> Option<Json>, shapeOk: Json -> bool,
      judge: (Json, Json) -> Judgement, required: seq<string>)
      returns (r: Result<seq<Json>>, ghost js: seq<Judgement>, ghost bounds: seq<nat>)
    requires proc.Valid() && fd in proc.table && NoDuplicates(required)
    modifies proc
    ensures proc.Valid() && proc.table == old(proc.table) - {fd}
    ensures old(proc.log) <= proc.log && OnlyIn(proc.log[|old(proc.log)|..], old(proc.table)[fd])
    ensures r.Ok? ==> OnePerSurface(required, js) && r == Reports(required, js)
    ensures r.Ok? ==> SourcedInTurn(proc.world, old(proc.table)[fd], names, js, load, judge, bounds)
    ensures r.Ok? ==> bounds[0] == old(proc.clock) && bounds[|names|] < proc.clock
    ensures Calm(proc.world) ==>
      Given(r) == Given(Reports(required, JudgementsFor(proc.world, old(proc.table)[fd], names, load, shapeOk, judge)))
  {
    ghost var log0 := proc.log;
    var bySurface;
    bySurface, js, bounds := JudgeAll(proc, names, fd, load, shapeOk, judge);
    ghost var log1, dir := proc.log, proc.table[fd];
    var closed := proc.Close(fd);
    assert proc.log[|log0|..] == log1[|log0|..] + [CloseEvent(closed, fd, dir)];
    if !closed {
      return Failed(OsError), js, bounds;
    }
    if bySurface.Failed? {
      return Failed(bySurface.code), js, bounds;
    }
    AcceptedExactly(required, js);
    if bySurface.value.Keys != Members(required) {
      return Failed(SurfaceSet), js, bounds;
    }
    return Ok(InOrder(bySurface.value, required)), js, bounds;
  }
}
