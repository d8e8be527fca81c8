/** Reading the release reports through one held directory descriptor. */
module ReportDirectory {
  import opened Text
  import opened JsonValues
  import opened Descriptors
  import opened Distinctness

  datatype Failure =
    | BadArguments | BadDirectory | DuplicateReport | StaleDirectory | BadInput | OsError
    | BadReport | IdentitySplice | SurfaceSet | DuplicateSurface | BadIdentity | BadStatus | ClaimInflation

  datatype Result<+T> = Ok(value: T) | Failed(code: Failure)

  const MAX_INPUT_BYTES: nat := 4194304

  /** A pathlib path: `is_absolute()` and `parts`, whose first part is the root of an absolute path. */
  datatype LexicalPath = LexicalPath(absolute: bool, parts: seq<string>)

  ghost predicate PlainComponents(components: seq<string>) {
    forall k :: 0 <= k < |components| ==> components[k] != "." && components[k] != ".."
  }

  /** `_lexical_components`. */
  method LexicalComponents(path: LexicalPath) returns (r: Result<seq<string>>)
    requires path.absolute ==> path.parts != []
    ensures r.Ok? <==> path.absolute && PlainComponents(path.parts[1..])
    ensures r.Ok? ==> r.value == path.parts[1..]
  {
    if !path.absolute {
      return Failed(BadDirectory);
    }
    var components := [];
    var i := 1;
    while i < |path.parts|
      invariant 1 <= i <= |path.parts| && components == path.parts[1..i] && PlainComponents(components)
    {
      if path.parts[i] == "." || path.parts[i] == ".." {
        assert path.parts[1..][i - 1] == path.parts[i];
        return Failed(BadDirectory);
      }
      components := components + [path.parts[i]];
      i := i + 1;
    }
    return Ok(components);
  }

  /** `path.suffix == ".json"`. */
  predicate JsonSuffix(name: string) { EndsWith(name, ".json") && |name| > |".json"| }

  /** Everything a history lists, stats or opens by name happens in one directory. */
  ghost predicate OnlyIn(log: seq<Event>, dir: Inode) {
    forall i :: 0 <= i < |log| ==>
      match log[i]
      case Listed(_, d) => d == dir
      case Statted(_, d, _) => d == dir
      case Opened(_, _, d, _, _) => d == dir
      case OpenedRoot(_, _) => false
      case _ => true
  }

  lemma {:induction false} OnlyInConcat(a: seq<Event>, b: seq<Event>, dir: Inode)
    requires OnlyIn(a, dir) && OnlyIn(b, dir)
    ensures OnlyIn(a + b, dir)
  {
  }

  lemma {:induction false} LaterStillOnlyIn(log0: seq<Event>, log1: seq<Event>, log2: seq<Event>, dir: Inode)
    requires log0 <= log1 <= log2 && OnlyIn(log1[|log0|..], dir) && OnlyIn(log2[|log1|..], dir)
    ensures OnlyIn(log2[|log0|..], dir)
  {
    assert log2[|log0|..] == log1[|log0|..] + log2[|log1|..];
    OnlyInConcat(log1[|log0|..], log2[|log1|..], dir);
  }

  /** The directory held exactly the expected names at the moment `listed`, and each of them was a regular file when it
      was looked at, after that and before `until`. */
  ghost predicate Inventoried(w: World, dir: Inode, names: seq<string>, listed: nat, until: nat) {
    && w.entries(listed, dir).Keys == (set n | n in names)
    && (forall n :: n in names ==> SeenRegular(w, dir, n, listed + 1, until))
  }

  /** A directory that nobody changes holds exactly the expected names, all of them regular files. */
  ghost predicate HoldsExactly(w: World, dir: Inode, names: seq<string>) {
    && NoDuplicates(names) && (forall n :: n in names ==> JsonSuffix(n))
    && w.entries(0, dir).Keys == (set n | n in names)
    && forall n :: n in names ==> RegularIn(w, dir, n)
  }

  predicate RegularIn(w: World, dir: Inode, name: string) {
    name in w.entries(0, dir) && w.kind(w.entries(0, dir)[name]) == Regular
  }

  /** The set of expected names; one short of the list when a name repeats. */
  method ExpectedNames(names: seq<string>) returns (r: Result<set<string>>)
    ensures r.Ok? <==> NoDuplicates(names) && (forall n :: n in names ==> JsonSuffix(n))
    ensures r.Ok? ==> r.value == set n | n in names
  {
    var expected := {};
    for i := 0 to |names|
      invariant expected == Members(names[..i]) && forall n :: n in names[..i] ==> JsonSuffix(n)
    {
      if !JsonSuffix(names[i]) {
        return Failed(BadDirectory);
      }
      assert names[..i + 1] == names[..i] + [names[i]];
      expected := expected + {names[i]};
    }
    assert names[..|names|] == names;
    SetSize(names);
    if |expected| != |names| {
      return Failed(DuplicateReport);
    }
    return Ok(expected);
  }

  ghost predicate SeenRegular(w: World, dir: Inode, name: string, from: nat, until: nat) {
    exists at :: from <= at < until && name in w.entries(at, dir) && w.kind(w.entries(at, dir)[name]) == Regular
  }

  lemma {:induction false} StillSeen(w: World, dir: Inode, name: string, from: nat, until: nat, later: nat)
    requires SeenRegular(w, dir, name, from, until) && until <= later
    ensures SeenRegular(w, dir, name, from, later)
  {
    var at :| from <= at < until && name in w.entries(at, dir) && w.kind(w.entries(at, dir)[name]) == Regular;
  }

  /** Every expected entry is looked at without following links; symbolic links and special files are refused. */
  method StatEach(proc: Process, fd: int, expected: set<string>) returns (ok: bool)
    requires proc.Valid() && fd in proc.table
    modifies proc
    ensures proc.Valid() && proc.table == old(proc.table) && proc.clock >= old(proc.clock)
    ensures old(proc.log) <= proc.log && OnlyIn(proc.log[|old(proc.log)|..], proc.table[fd])
    ensures ok ==> forall n :: n in expected ==> SeenRegular(proc.world, proc.table[fd], n, old(proc.clock), proc.clock)
    ensures Calm(proc.world) ==> (ok <==> forall n :: n in expected ==> RegularIn(proc.world, proc.table[fd], n))
  {
    ghost var dir, tail, start := proc.table[fd], [], proc.clock;
    assert Calm(proc.world) ==> Still(proc.world, dir);
    var rest := expected;
    while rest != {}
      invariant proc.Valid() && proc.table == old(proc.table) && proc.clock >= old(proc.clock)
      invariant proc.log == old(proc.log) + tail && OnlyIn(tail, dir)
      invariant rest <= expected
      invariant forall n :: n in expected - rest ==> SeenRegular(proc.world, dir, n, start, proc.clock)
      invariant Calm(proc.world) ==> forall n :: n in expected - rest ==> RegularIn(proc.world, dir, n)
      decreases rest
    {
      var name :| name in rest;
      ghost var at := proc.clock;
      var inode := proc.StatAt(name, fd);
      if inode.None? {
        return false;
      }
      tail := tail + [Statted(at, dir, name)];
      if proc.world.kind(inode.value) != Regular {
        return false;
      }
      assert SeenRegular(proc.world, dir, name, start, proc.clock);
      forall n | n in expected - rest ensures SeenRegular(proc.world, dir, n, start, proc.clock) {
        StillSeen(proc.world, dir, n, start, at, proc.clock);
      }
      rest := rest - {name};
    }
    return true;
  }

  /** The checks of `validate_report_directory` after the directory is open; the caller closes on failure. */
  method CheckDirectory(proc: Process, fd: int, names: seq<string>) returns (r: Result<()>, ghost listed: nat)
    requires proc.Valid() && fd in proc.table
    modifies proc
    ensures proc.Valid() && proc.table == old(proc.table) && proc.clock >= old(proc.clock)
    ensures old(proc.log) <= proc.log && OnlyIn(proc.log[|old(proc.log)|..], proc.table[fd])
    ensures r.Ok? ==> NoDuplicates(names) && (forall n :: n in names ==> JsonSuffix(n))
    ensures Calm(proc.world) ==> (r.Ok? <==> HoldsExactly(proc.world, proc.table[fd], names))
    ensures listed == old(proc.clock)
    ensures r.Ok? ==> listed < proc.clock && Inventoried(proc.world, proc.table[fd], names, listed, proc.clock)
  {
    listed := proc.clock;
    var expected := ExpectedNames(names);
    if expected.Failed? {
      return Failed(expected.code), listed;
    }
    ghost var log0, dir := proc.log, proc.table[fd];
    assert Calm(proc.world) ==> Still(proc.world, dir);
    var actual := proc.ListDir(fd);
    if actual.None? {
      return Failed(BadDirectory), listed;
    }
    ghost var log1 := proc.log;
    if actual.value != expected.value {
      return Failed(StaleDirectory), listed;
    }
    var regular := StatEach(proc, fd, expected.value);
    assert proc.log[|log0|..] == [Listed(listed, dir)] + proc.log[|log1|..];
    return if regular then Ok(()) else Failed(BadInput), listed;
  }

  /** How one report was obtained: opened at its name in the held directory, seen there again, and read and
      verified through the descriptor, whatever the name was bound to in between; all within the given interval. */
  ghost predicate ReadThrough(
      w: World, dir: Inode, name: string, file: Inode, text: string, status: Json, times: seq<nat>, from: nat, until: nat)
  {
    && |times| == 4 && from <= times[0] < times[1] < times[2] < times[3] < until
    && BoundAt(w, times[0], dir, name, file)
    && SeenAs(w, times[1], dir, name, file)
    && text == w.text(times[2], file) && 0 < |text| <= MAX_INPUT_BYTES
    && w.verdict(times[3], file) == Some(status)
  }

  /** What reading and verifying a file yields when nobody interferes: the report and the verifier's answer. */
  function FileReading(w: World, file: Inode, load: string -> Option<Json>, shapeOk: Json -> bool): Option<(Json, Json)> {
    var text := w.text(0, file);
    if text == "" || |text| > MAX_INPUT_BYTES then None
    else
      var raw, status := load(text), w.verdict(0, file);
      if raw.None? || !shapeOk(raw.value) || status.None? then None else Some((raw.value, status.value))
  }

  /** The same through a name in a directory: it must not be a symbolic link. */
  function Reading(
      w: World, dir: Inode, name: string, load: string -> Option<Json>, shapeOk: Json -> bool): Option<(Json, Json)>
  {
    if w.kind(dir) == Directory && name in w.entries(0, dir) && w.kind(w.entries(0, dir)[name]) != Symlink then
      FileReading(w, w.entries(0, dir)[name], load, shapeOk)
    else None
  }

  function Given<T>(r: Result<T>): Option<T> { if r.Ok? then Some(r.value) else None }

  lemma {:induction false} StillReading(
      w: World, dir: Inode, name: string, file: Inode, text: string, status: Json, times: seq<nat>, from: nat, until: nat,
      load: string -> Option<Json>, report: Json)
    requires ReadThrough(w, dir, name, file, text, status, times, from, until) && Still(w, dir) && load(text) == Some(report)
    ensures Reading(w, dir, name, load, _ => true) == Some((report, status))
  {
  }

  lemma {:induction false} CalmOpening(w: World, at: nat, dir: Inode, name: string)
    requires Calm(w)
    ensures Openable(w, at, dir, name, false) <==>
      w.kind(dir) == Directory && name in w.entries(0, dir) && w.kind(w.entries(0, dir)[name]) != Symlink
    ensures name in w.entries(0, dir) ==> name in w.entries(at, dir) && w.entries(at, dir)[name] == w.entries(0, dir)[name]
  {
    assert Still(w, dir);
  }

  /** The descriptor path of `validate_report` up to the typed verifier's answer; the file is always closed. */
  method ReadReport(proc: Process, name: string, fd: int, load: string -> Option<Json>, shapeOk: Json -> bool)
      returns (r: Result<(Json, Json)>, ghost file: Inode, ghost text: string, ghost times: seq<nat>)
    requires proc.Valid() && fd in proc.table
    modifies proc
    ensures proc.Valid() && proc.table == old(proc.table) && proc.clock >= old(proc.clock)
    ensures old(proc.log) <= proc.log && OnlyIn(proc.log[|old(proc.log)|..], proc.table[fd])
    ensures r.Ok? ==> ReadThrough(proc.world, proc.table[fd], name, file, text, r.value.1, times, old(proc.clock), proc.clock)
    ensures r.Ok? ==> load(text) == Some(r.value.0) && shapeOk(r.value.0)
    ensures Calm(proc.world) ==> Given(r) == Reading(proc.world, proc.table[fd], name, load, shapeOk)
  {
    file, text, times := 0, "", [];
    if Calm(proc.world) {
      CalmOpening(proc.world, proc.clock, proc.table[fd], name);
    }
    ghost var log0, t0, dir := proc.log, proc.clock, proc.table[fd];
    var openedFd := proc.OpenAt(name, fd, false);
    if openedFd.None? {
      return Failed(OsError), file, text, times;
    }
    var f := openedFd.value;
    file := proc.table[f];
    ghost var log1 := proc.log;
    ghost var later;
    r, text, later := ReadOpenReport(proc, name, fd, f, load, shapeOk);
    times := [t0] + later;
    ghost var log2 := proc.log;
    var closed := proc.Close(f);
    OpenedReadClosed(log0, Opened(f, t0, dir, name, file), log1, log2, CloseEvent(closed, f, file), dir);
    if !closed {
      r := Failed(OsError);
    }
  }

  lemma {:induction false} OpenedReadClosed(
      log0: seq<Event>, open: Event, log1: seq<Event>, log2: seq<Event>, close: Event, dir: Inode)
    requires open.Opened? && open.dir == dir && (close.Closed? || close.CloseFailed?)
    requires log1 == log0 + [open] && log1 <= log2 && OnlyIn(log2[|log1|..], dir)
    ensures log0 <= log2 + [close] && OnlyIn((log2 + [close])[|log0|..], dir)
  {
    assert (log2 + [close])[|log0|..] == [open] + log2[|log1|..] + [close];
  }

  method ReadOpenReport(proc: Process, name: string, fd: int, f: int, load: string -> Option<Json>, shapeOk: Json -> bool)
      returns (r: Result<(Json, Json)>, ghost text: string, ghost times: seq<nat>)
    requires proc.Valid() && fd in proc.table && f in proc.table
    modifies proc
    ensures proc.Valid() && proc.table == old(proc.table) && proc.clock >= old(proc.clock)
    ensures old(proc.log) <= proc.log && OnlyIn(proc.log[|old(proc.log)|..], proc.table[fd])
    ensures r.Ok? ==> |times| == 3 && old(proc.clock) <= times[0] < times[1] < times[2] < proc.clock
    ensures r.Ok? ==> SeenAs(proc.world, times[0], proc.table[fd], name, proc.table[f])
    ensures r.Ok? ==> text == proc.world.text(times[1], proc.table[f]) && 0 < |text| <= MAX_INPUT_BYTES
    ensures r.Ok? ==> proc.world.verdict(times[2], proc.table[f]) == Some(r.value.1)
    ensures r.Ok? ==> load(text) == Some(r.value.0) && shapeOk(r.value.0)
    ensures Calm(proc.world) && SeenAs(proc.world, 0, proc.table[fd], name, proc.table[f]) ==>
      Given(r) == FileReading(proc.world, proc.table[f], load, shapeOk)
  {
    assert Calm(proc.world) ==> Still(proc.world, proc.table[fd]);
    ghost var t0, log0 := proc.clock, proc.log;
    var content := ReadSameFile(proc, name, fd, f);
    text, times := "", [];
    if content.Failed? {
      return Failed(content.code), text, times;
    }
    text := content.value;
    var raw := load(content.value);
    if raw.None? {
      return Failed(BadInput), text, times;
    }
    if !shapeOk(raw.value) {
      return Failed(BadReport), text, times;
    }
    ghost var t2, log2 := proc.clock, proc.log;
    var status := proc.VerifyFd(f);
    assert proc.log[|log0|..] == log2[|log0|..] + [Verified(t2, proc.table[f])];
    times := [t0, t0 + 2, t2];
    if status.None? {
      return Failed(BadReport), text, times;
    }
    return Ok((raw.value, status.value)), text, times;
  }

  ghost predicate SeenAs(w: World, at: nat, dir: Inode, name: string, file: Inode) {
    name in w.entries(at, dir) && w.entries(at, dir)[name] == file
  }

  /** The name must still lead to the open file; then the file is read through its descriptor. */
  method ReadSameFile(proc: Process, name: string, fd: int, f: int) returns (r: Result<string>)
    requires proc.Valid() && fd in proc.table && f in proc.table
    modifies proc
    ensures proc.Valid() && proc.table == old(proc.table) && proc.clock >= old(proc.clock)
    ensures old(proc.log) <= proc.log && OnlyIn(proc.log[|old(proc.log)|..], proc.table[fd])
    ensures r.Ok? ==> proc.clock == old(proc.clock) + 3
    ensures r.Ok? ==> SeenAs(proc.world, old(proc.clock), proc.table[fd], name, proc.table[f])
    ensures r.Ok? ==> r.value == proc.world.text(old(proc.clock) + 2, proc.table[f]) && 0 < |r.value| <= MAX_INPUT_BYTES
    ensures Calm(proc.world) && SeenAs(proc.world, 0, proc.table[fd], name, proc.table[f]) ==>
      (r.Ok? <==> 0 < |proc.world.text(0, proc.table[f])| <= MAX_INPUT_BYTES)
  {
    assert Calm(proc.world) ==> Still(proc.world, proc.table[fd]);
    ghost var t0, log0, dir := proc.clock, proc.log, proc.table[fd];
    var pre := proc.StatAt(name, fd);
    if pre.None? {
      return Failed(OsError);
    }
    assert proc.log[|log0|..] == [Statted(t0, dir, name)];
    var post := proc.Fstat(f);
    if post.None? {
      assert proc.log[|log0|..] == [Statted(t0, dir, name), FstatFailed(f)];
      return Failed(OsError);
    }
    assert proc.log[|log0|..] == [Statted(t0, dir, name), Fstatted(f)];
    if pre.value != post.value {
      return Failed(BadInput);
    }
    var content := proc.ReadUpTo(f, MAX_INPUT_BYTES + 1);
    if content.None? {
      return Failed(OsError);
    }
    assert proc.log[|log0|..] == [Statted(t0, dir, name), Fstatted(f), Read(t0 + 2, proc.table[f])];
    if content.value == "" || |content.value| > MAX_INPUT_BYTES {
      return Failed(BadInput);
    }
    return Ok(content.value);
  }

  /** What the walk owes for its directory is kept exactly when no refusal did it harm; `complete` if it got to the end. */
  ghost predicate LedgerUnlessHarmed(w: World, before: Table, after: Table, walk: seq<Event>, complete: bool) {
    (NeverTwice(walk) && after == before) <==> !Harmed(w, walk, RootOf(walk), complete)
  }

  /** When nobody interferes, this is all the directory must satisfy. */
  ghost predicate Ready(w: World, path: LexicalPath, names: seq<string>) {
    && path.absolute && |path.parts| > 1 && PlainComponents(path.parts[1..]) && names != []
    && Walk(w, path.parts[1..]).Some? && HoldsExactly(w, Walk(w, path.parts[1..]).value, names)
  }

  /** `validate_report_directory`: on success one descriptor more is open; on failure none, unless a refusal harmed the
      walk. */
  method OpenAndCheck(proc: Process, path: LexicalPath, names: seq<string>)
      returns (r: Result<int>, ghost chain: seq<Inode>, ghost moments: seq<nat>, ghost walk: seq<Event>, ghost listed: nat)
    requires proc.Valid() && (path.absolute ==> path.parts != [])
    modifies proc
    ensures proc.Valid() && old(proc.log) + walk <= proc.log && proc.clock >= old(proc.clock)
    ensures r.Failed? ==> LedgerUnlessHarmed(proc.world, old(proc.table), proc.table, walk, |moments| + 1 == |path.parts|)
    ensures r.Ok? ==> Ledger(old(proc.table), proc.table, walk, Some(r.value))
    ensures r.Ok? ==> !Harmed(proc.world, walk, RootOf(walk), |moments| + 1 == |path.parts|)
    ensures r.Ok? ==> path.absolute && names != [] && PlainComponents(path.parts[1..])
    ensures r.Ok? ==> old(proc.clock) <= listed < proc.clock
    ensures r.Ok? ==> Anchored(proc.world, path.parts[1..], chain, moments, old(proc.clock), listed)
    ensures r.Ok? ==> proc.table[r.value] == chain[|path.parts[1..]|]
    ensures r.Ok? ==> NoDuplicates(names) && Inventoried(proc.world, proc.table[r.value], names, listed, proc.clock)
    ensures r.Ok? ==> OnlyIn(proc.log[|old(proc.log) + walk|..], proc.table[r.value])
    ensures Calm(proc.world) ==> (r.Ok? <==> Ready(proc.world, path, names))
    ensures Calm(proc.world) && r.Ok? ==> Walk(proc.world, path.parts[1..]) == Some(proc.table[r.value])
  {
    chain, moments, walk, listed := [], [], [], 0;
    if names == [] {
      return Failed(BadDirectory), chain, moments, walk, listed;
    }
    var components := LexicalComponents(path);
    if components.Failed? {
      return Failed(components.code), chain, moments, walk, listed;
    }
    if components.value == [] {
      return Failed(BadDirectory), chain, moments, walk, listed;
    }
    var fd;
    fd, chain, moments, walk := proc.OpenReportDirectory(components.value);
    assert components.value[..|components.value|] == components.value;
    if fd.None? {
      return Failed(BadDirectory), chain, moments, walk, listed;
    }
    ghost var held := proc.table;
    var checked;
    checked, listed := CheckDirectory(proc, fd.value, names);
    if checked.Failed? {
      var closed := proc.Close(fd.value);
      assert held - {fd.value} == old(proc.table);
      return Failed(checked.code), chain, moments, walk, listed;
    }
    return Ok(fd.value), chain, moments, walk, listed;
  }
}
