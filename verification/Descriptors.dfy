/** Walking to the report directory through held descriptors while another actor rebinds names. */
module Descriptors {
  import opened JsonValues

  /** A file object's identity, the pair (st_dev, st_ino). */
  type Inode = nat

  datatype Kind = Directory | Regular | Symlink | Special

  /** Everything the other actor does, for every moment at once: what each directory lists and what each file
      holds at each time, and at which moments the kernel refuses a system call, whichever it is. An object never
      changes its kind. As these functions are arbitrary, a statement about every World covers every interleaving. */
  datatype World = World(
    root: Inode,
    kind: Inode -> Kind,
    entries: (nat, Inode) -> map<string, Inode>,
    text: (nat, Inode) -> string,
    verdict: (nat, Inode) -> Option<Json>,
    refuses: nat -> bool,
    honoursDirectoryFlag: bool)

  /** One system call as it took effect. A refused close still gives up the descriptor, as it does on Linux, which the
      walk's platform check demands; closing a descriptor that is not open has no effect. */
  datatype Event =
    | OpenedRoot(fd: int, at: nat)
    | Opened(fd: int, at: nat, dir: Inode, name: string, inode: Inode)
    | Closed(fd: int)
    | CloseFailed(fd: int, inode: Inode)
    | ClosedAgain(fd: int)
    | Fstatted(fd: int)
    | FstatFailed(fd: int)
    | Listed(at: nat, dir: Inode)
    | Statted(at: nat, dir: Inode, name: string)
    | Read(at: nat, file: Inode)
    | Verified(at: nat, file: Inode)

  type Table = map<int, Inode>

  /** The descriptor table after one more event; None for an event that cannot have happened: opening a number in use, or
      telling a close that had an effect from one that had none wrongly. */
  function Apply(w: World, t: Table, e: Event): Option<Table> {
    match e
    case OpenedRoot(fd, _) => if fd in t then None else Some(t[fd := w.root])
    case Opened(fd, _, _, _, inode) => if fd in t then None else Some(t[fd := inode])
    case Closed(fd) => if fd in t then Some(t - {fd}) else None
    case CloseFailed(fd, inode) => if fd in t && t[fd] == inode then Some(t - {fd}) else None
    case ClosedAgain(fd) => if fd in t then None else Some(t)
    case _ => Some(t)
  }

  /** The descriptor table that a history leads to. */
  function Replay(w: World, start: Table, log: seq<Event>): Option<Table> {
    if log == [] then Some(start)
    else
      var before := Replay(w, start, log[..|log| - 1]);
      if before.None? then None else Apply(w, before.value, log[|log| - 1])
  }

  /** The table is what the history leads to. */
  ghost predicate Consistent(w: World, start: Table, log: seq<Event>, table: Table) {
    forall history {:trigger Replay(w, start, history)} :: history == log ==> Replay(w, start, history) == Some(table)
  }

  lemma {:induction false} ConsistentStep(w: World, start: Table, log: seq<Event>, before: Table, e: Event, after: Table)
    requires Consistent(w, start, log, before) && Apply(w, before, e) == Some(after)
    ensures Consistent(w, start, log + [e], after)
  {
    assert (log + [e])[..|log|] == log && Replay(w, start, log) == Some(before);
  }

  /** `name` was bound to `inode` in `dir` at that moment, and no symbolic link was followed. */
  ghost predicate BoundAt(w: World, at: nat, dir: Inode, name: string, inode: Inode) {
    w.kind(dir) == Directory && name in w.entries(at, dir) && w.entries(at, dir)[name] == inode && w.kind(inode) != Symlink
  }

  /** Every open in the history happened through a held directory, at a name bound there at that moment. */
  ghost predicate Sound(w: World, log: seq<Event>) {
    forall i :: 0 <= i < |log| && log[i].Opened? ==> BoundAt(w, log[i].at, log[i].dir, log[i].name, log[i].inode)
  }

  ghost predicate Step(w: World, at: nat, dir: Inode, name: string, inode: Inode) {
    BoundAt(w, at, dir, name, inode) && w.kind(inode) == Directory
  }

  /** A path of directories from the root: each step was bound in the directory before it at its own moment,
      the moments in order and within the given interval. */
  ghost predicate Anchored(
      w: World, components: seq<string>, chain: seq<Inode>, moments: seq<nat>, from: nat, until: nat)
  {
    && |chain| == |components| + 1 && |moments| == |components| && chain[0] == w.root
    && (forall k {:trigger moments[k]} {:trigger components[k]} :: 0 <= k < |components| ==>
          from <= moments[k] < until && Step(w, moments[k], chain[k], components[k], chain[k + 1]))
    && (forall k, l :: 0 <= k < l < |moments| ==> moments[k] < moments[l])
  }

  lemma {:induction false} OneMoreStep(
      w: World, components: seq<string>, i: nat, chain: seq<Inode>, moments: seq<nat>,
      from: nat, at: nat, until: nat, next: Inode)
    requires i < |components| && from <= at < until
    requires Anchored(w, components[..i], chain, moments, from, at)
    requires Step(w, at, chain[i], components[i], next)
    ensures Anchored(w, components[..i + 1], chain + [next], moments + [at], from, until)
  {
    forall k | 0 <= k < i + 1
      ensures from <= (moments + [at])[k] < until
      ensures Step(w, (moments + [at])[k], (chain + [next])[k], components[k], (chain + [next])[k + 1])
    {
      if k < i {
        assert components[..i][k] == components[k] && moments[k] < at;
      }
    }
  }

  // ---------------------------------------------------------------- when nobody interferes

  /** The other actor leaves this directory alone, and every file and verdict too. */
  ghost predicate Still(w: World, dir: Inode) {
    && (forall at {:trigger w.entries(at, dir)} :: w.entries(at, dir) == w.entries(0, dir))
    && (forall at, file {:trigger w.text(at, file)} :: w.text(at, file) == w.text(0, file))
    && (forall at, file {:trigger w.verdict(at, file)} :: w.verdict(at, file) == w.verdict(0, file))
  }

  /** The other actor does nothing, and the kernel refuses nothing. */
  ghost predicate Calm(w: World) {
    (forall at :: !w.refuses(at)) && forall dir {:trigger Still(w, dir)} :: Still(w, dir)
  }

  /** The directory that a name leads to from a directory nobody changes. */
  function Leads(w: World, dir: Inode, name: string): Option<Inode> {
    if w.kind(dir) == Directory && name in w.entries(0, dir) && w.kind(w.entries(0, dir)[name]) == Directory then
      Some(w.entries(0, dir)[name])
    else None
  }

  /** The directory that a path leads to when nobody interferes. */
  function Walk(w: World, components: seq<string>): Option<Inode> {
    if components == [] then Some(w.root)
    else
      var dir := Walk(w, components[..|components| - 1]);
      if dir.None? then None else Leads(w, dir.value, components[|components| - 1])
  }

  lemma {:induction false} CalmStep(w: World, at: nat, dir: Inode, name: string, inode: Inode)
    requires Calm(w) && Step(w, at, dir, name, inode)
    ensures Leads(w, dir, name) == Some(inode)
  {
    assert Still(w, dir);
  }

  lemma {:induction false} WalkOn(w: World, components: seq<string>, i: nat)
    requires i < |components|
    ensures Walk(w, components[..i + 1]) ==
      if Walk(w, components[..i]).None? then None else Leads(w, Walk(w, components[..i]).value, components[i])
  {
    assert components[..i + 1][..i] == components[..i];
  }

  lemma {:induction false} WalkStops(w: World, components: seq<string>, i: nat)
    requires i <= |components| && Walk(w, components[..i]).None?
    ensures Walk(w, components).None?
    decreases |components| - i
  {
    if i == |components| {
      assert components[..i] == components;
    } else {
      WalkOn(w, components, i);
      WalkStops(w, components, i + 1);
    }
  }

  lemma {:induction false} InitStops(w: World, components: seq<string>, i: nat)
    requires i < |components| - 1 && Walk(w, components[..i + 1]).None?
    ensures Walk(w, components[..|components| - 1]).None?
  {
    var init := components[..|components| - 1];
    assert init[..i + 1] == components[..i + 1];
    WalkStops(w, init, i + 1);
  }

  /** When nobody interferes, the first components lead where they are said to. */
  ghost predicate WalksTo(w: World, components: seq<string>, i: nat, reached: Option<Inode>)
    requires i <= |components|
  {
    Calm(w) ==> Walk(w, components[..i]) == reached
  }

  lemma {:induction false} WalksOn(w: World, components: seq<string>, i: nat, dir: Inode, at: nat, child: Option<Inode>)
    requires i < |components| && WalksTo(w, components, i, Some(dir))
    requires Calm(w) ==> (child.Some? <==> Leads(w, dir, components[i]).Some?)
    requires child.Some? ==> Step(w, at, dir, components[i], child.value)
    ensures WalksTo(w, components, i + 1, child)
    ensures child.None? && i < |components| - 1 ==> WalksTo(w, components, |components| - 1, None)
  {
    if Calm(w) {
      WalkOn(w, components, i);
      if child.Some? {
        CalmStep(w, at, dir, components[i], child.value);
      } else if i < |components| - 1 {
        InitStops(w, components, i);
      }
    }
  }

  lemma {:induction false} NotReached(w: World, components: seq<string>)
    requires components != [] && WalksTo(w, components, |components| - 1, None)
    ensures WalksTo(w, components, |components|, None)
  {
    WalkOn(w, components, |components| - 1);
  }

  // ---------------------------------------------------------------- the descriptor ledger

  /** The kernel lets the name be opened in the directory at that moment. */
  ghost predicate Openable(w: World, at: nat, dir: Inode, name: string, directoryFlag: bool) {
    && !w.refuses(at) && w.kind(dir) == Directory && name in w.entries(at, dir)
    && w.kind(w.entries(at, dir)[name]) != Symlink
    && (directoryFlag && w.honoursDirectoryFlag ==> w.kind(w.entries(at, dir)[name]) == Directory)
  }

  /** The directory under the name can be opened at that moment and looked at again at the next. */
  ghost predicate Acquirable(w: World, at: nat, dir: Inode, name: string) {
    Openable(w, at, dir, name, true) && !w.refuses(at + 1) && w.kind(w.entries(at, dir)[name]) == Directory
  }

  lemma {:induction false} CalmAcquirable(w: World, at: nat, dir: Inode, name: string)
    requires Calm(w)
    ensures Acquirable(w, at, dir, name) <==> Leads(w, dir, name).Some?
  {
    assert Still(w, dir);
  }

  /** The name is opened in the directory, and the second look or the next call but one is refused. */
  ghost predicate RefusedAfterOpening(w: World, at: nat, dir: Inode, name: string) {
    Openable(w, at, dir, name, true) && (w.refuses(at + 1) || (Acquirable(w, at, dir, name) && w.refuses(at + 2)))
  }

  /** No fstat and no close was refused, and none was asked of a descriptor that is not open. */
  ghost predicate Quiet(es: seq<Event>) {
    forall e :: e in es ==> !e.FstatFailed? && !e.CloseFailed? && !e.ClosedAgain?
  }

  ghost predicate NeverTwice(es: seq<Event>) { forall e :: e in es ==> !e.ClosedAgain? }

  /** What the walk owes its caller: no descriptor closed twice, and of those it opened exactly the returned one open. */
  ghost predicate Ledger(before: Table, after: Table, es: seq<Event>, fd: Option<int>) {
    && NeverTwice(es)
    && (fd.None? ==> after == before)
    && (fd.Some? ==> fd.value !in before && fd.value in after && after == before[fd.value := after[fd.value]])
  }

  /** The refusals that the walk does not survive: of an fstat; of closing a directory on the way; and of closing the
      root once the last directory is open. */
  ghost predicate Harmful(w: World, root: int, complete: bool, e: Event) {
    || e.FstatFailed?
    || (e.CloseFailed? && if e.fd == root then complete else w.kind(e.inode) == Directory)
  }

  ghost predicate Harmed(w: World, es: seq<Event>, root: int, complete: bool) {
    exists e :: e in es && Harmful(w, root, complete, e)
  }

  /** Some call of the interval was refused. */
  ghost predicate RefusedBetween(w: World, from: nat, until: nat) {
    exists at :: from <= at < until && w.refuses(at)
  }

  function RootOf(es: seq<Event>): int { if es != [] && es[0].OpenedRoot? then es[0].fd else -1 }

  function CloseEvent(ok: bool, fd: int, inode: Inode): Event { if ok then Closed(fd) else CloseFailed(fd, inode) }

  /** How a component could not be acquired: its descriptor leaks if the second look was refused. */
  ghost predicate Missed(w: World, t: Table, t': Table, es: seq<Event>, leak: Option<int>) {
    if leak.Some? then
      leak.value !in t && leak.value in t' && t' == t[leak.value := t'[leak.value]] && FstatFailed(leak.value) in es
    else
      t' == t && forall e :: e in es ==>
        !e.FstatFailed? && !e.ClosedAgain? && (e.CloseFailed? ==> w.kind(e.inode) != Directory && e.fd !in t)
  }

  /** What the `finally` block did: a failure to close the parent leaves the root open. */
  ghost predicate Released(t: Table, t': Table, parent: int, root: int, es: seq<Event>, ok: bool)
    requires root in t
  {
    if parent !in t then !ok && t' == t && es == [ClosedAgain(parent)]
    else if parent == root then t' == t - {root} && es == [CloseEvent(ok, root, t[root])]
    else if es == [CloseFailed(parent, t[parent])] then !ok && t' == t - {parent}
    else t' == t - {parent, root} && es == [Closed(parent), CloseEvent(ok, root, t[root])]
  }

  /** When a component was missed and the `finally` block has run: nothing stays open exactly if no refusal did harm. */
  lemma {:induction false} MissedThenReleased(
      w: World, t0: Table, t1: Table, t2: Table, parent: int, root: int, leak: Option<int>,
      es1: seq<Event>, es2: seq<Event>, ok: bool)
    requires root in t0 && parent in t0 && (parent != root ==> w.kind(t0[parent]) == Directory)
    requires Missed(w, t0, t1, es1, leak) && Released(t1, t2, parent, root, es2, ok)
    ensures (NeverTwice(es1 + es2) && t2 == t0 - {parent, root}) <==> !Harmed(w, es1 + es2, root, false)
  {
    if leak.Some? {
      assert Harmful(w, root, false, FstatFailed(leak.value)) && FstatFailed(leak.value) in es1 + es2;
      assert leak.value in t2;
    } else if es2 == [CloseFailed(parent, t1[parent])] && parent != root {
      assert Harmful(w, root, false, es2[0]) && es2[0] in es1 + es2;
      assert root in t2;
    } else {
      forall e | e in es1 + es2 ensures !Harmful(w, root, false, e) {
        assert e in es1 || e in es2;
      }
    }
  }

  /** Closing what was opened meanwhile gives back the table as it was. */
  lemma {:induction false} Forgotten(t: Table, fd: int, inode: Inode, root: int)
    requires fd != root ==> fd !in t
    ensures t[fd := inode] - {fd, root} == t - {root}
    ensures root !in t ==> t[root := inode] - {root} == t
  {
  }

  lemma {:induction false} QuietPrefix(w: World, es1: seq<Event>, es2: seq<Event>, root: int, complete: bool)
    requires Quiet(es1)
    ensures Harmed(w, es1 + es2, root, complete) <==> Harmed(w, es2, root, complete)
    ensures NeverTwice(es1 + es2) <==> NeverTwice(es2)
    ensures es1 != [] ==> RootOf(es1 + es2) == RootOf(es1)
  {
    assert forall e :: e in es1 + es2 <==> e in es1 || e in es2;
  }

  lemma {:induction false} MissedUnharmed(
      w: World, t: Table, t': Table, root: int, es1: seq<Event>, es2: seq<Event>, complete: bool)
    requires root in t && Missed(w, t, t', es1, None) && Quiet(es2)
    ensures !Harmed(w, es1 + es2, root, complete)
  {
    forall e | e in es1 + es2 ensures !Harmful(w, root, complete, e) {
      assert e in es1 || e in es2;
    }
  }

  class Process {
    const world: World
    ghost const start: Table
    var clock: nat
    var table: Table
    ghost var log: seq<Event>

    /** The table is what the history says. */
    ghost predicate Valid()
      reads this
    {
      Consistent(world, start, log, table) && Sound(world, log)
    }

    constructor (world: World, table: Table)
      ensures Valid() && this.world == world && this.table == table && log == [] && clock == 0
    {
      this.world := world;
      this.start := table;
      this.clock := 0;
      this.table := table;
      this.log := [];
    }

    // ---------------------------------------------------------------- system calls

    /** Enters an event into the history. */
    ghost method Note(e: Event, after: Table)
      requires Consistent(world, start, log, table) && Sound(world, log) && Apply(world, table, e) == Some(after)
      requires e.Opened? ==> BoundAt(world, e.at, e.dir, e.name, e.inode)
      modifies this`log
      ensures Consistent(world, start, log, after) && Sound(world, log) && log == old(log) + [e]
    {
      ConsistentStep(world, start, log, table, e, after);
      log := log + [e];
    }

    /** Any number not in use: the kernel may hand out a number closed before. */
    method FreshFd() returns (fd: int)
      ensures fd !in table
    {
      var used := table.Keys;
      fd := 0;
      while fd in used
        invariant used <= table.Keys
        invariant forall k :: k in table.Keys && k !in used ==> k < fd
        decreases used
      {
        used := used - {fd};
        fd := fd + 1;
      }
    }

    method OpenRoot() returns (fd: Option<int>)
      requires Valid()
      modifies this
      ensures Valid() && clock == old(clock) + 1
      ensures fd.Some? <==> !world.refuses(old(clock))
      ensures fd.None? ==> table == old(table) && log == old(log)
      ensures fd.Some? ==> fd.value !in old(table) && table == old(table)[fd.value := world.root]
      ensures fd.Some? ==> log == old(log) + [OpenedRoot(fd.value, old(clock))]
    {
      clock := clock + 1;
      if world.refuses(clock - 1) {
        return None;
      }
      var n := FreshFd();
      Note(OpenedRoot(n, clock - 1), table[n := world.root]);
      table := table[n := world.root];
      return Some(n);
    }

    /** `os.open(name, O_RDONLY | O_NOFOLLOW | ..., dir_fd=dir)`. */
    method OpenAt(name: string, dir: int, directoryFlag: bool) returns (fd: Option<int>)
      requires Valid() && dir in table
      modifies this
      ensures Valid() && clock == old(clock) + 1
      ensures fd.Some? <==> Openable(world, old(clock), old(table)[dir], name, directoryFlag)
      ensures fd.None? ==> table == old(table) && log == old(log)
      ensures fd.Some? ==> fd.value !in old(table) && fd.value in table && table == old(table)[fd.value := table[fd.value]]
      ensures fd.Some? ==> BoundAt(world, old(clock), old(table)[dir], name, table[fd.value])
      ensures fd.Some? ==> log == old(log) + [Opened(fd.value, old(clock), old(table)[dir], name, table[fd.value])]
    {
      clock := clock + 1;
      var parent := table[dir];
      if world.refuses(clock - 1) || world.kind(parent) != Directory || name !in world.entries(clock - 1, parent) {
        return None;
      }
      var inode := world.entries(clock - 1, parent)[name];
      if world.kind(inode) == Symlink {
        return None;
      }
      if directoryFlag && world.honoursDirectoryFlag && world.kind(inode) != Directory {
        return None;
      }
      var n := FreshFd();
      Note(Opened(n, clock - 1, parent, name, inode), table[n := inode]);
      table := table[n := inode];
      return Some(n);
    }

    /** `os.fstat(fd)`: what the descriptor refers to. */
    method Fstat(fd: int) returns (inode: Option<Inode>)
      requires Valid() && fd in table
      modifies this
      ensures Valid() && table == old(table) && clock == old(clock) + 1
      ensures inode == if world.refuses(old(clock)) then None else Some(table[fd])
      ensures log == old(log) + [if inode.Some? then Fstatted(fd) else FstatFailed(fd)]
    {
      clock := clock + 1;
      inode := if world.refuses(clock - 1) then None else Some(table[fd]);
      Note(if inode.Some? then Fstatted(fd) else FstatFailed(fd), table);
    }

    /** `os.close(fd)`; false where it raises. */
    method Close(fd: int) returns (ok: bool)
      requires Valid()
      modifies this
      ensures Valid() && clock == old(clock) + 1
      ensures ok <==> fd in old(table) && !world.refuses(old(clock))
      ensures fd in old(table) ==> table == old(table) - {fd} && log == old(log) + [CloseEvent(ok, fd, old(table)[fd])]
      ensures fd !in old(table) ==> table == old(table) && log == old(log) + [ClosedAgain(fd)]
    {
      clock := clock + 1;
      if fd !in table {
        Note(ClosedAgain(fd), table);
        return false;
      }
      ok := !world.refuses(clock - 1);
      Note(CloseEvent(ok, fd, table[fd]), table - {fd});
      table := table - {fd};
    }

    /** `os.listdir(fd)`. */
    method ListDir(fd: int) returns (names: Option<set<string>>)
      requires Valid() && fd in table
      modifies this
      ensures Valid() && table == old(table) && clock == old(clock) + 1
      ensures names.Some? <==> !world.refuses(old(clock))
      ensures names.None? ==> log == old(log)
      ensures names.Some? ==> names.value == world.entries(old(clock), table[fd]).Keys
      ensures names.Some? ==> log == old(log) + [Listed(old(clock), table[fd])]
    {
      clock := clock + 1;
      if world.refuses(clock - 1) {
        return None;
      }
      Note(Listed(clock - 1, table[fd]), table);
      return Some(world.entries(clock - 1, table[fd]).Keys);
    }

    /** `os.stat(name, dir_fd=dir, follow_symlinks=False)`. */
    method StatAt(name: string, dir: int) returns (inode: Option<Inode>)
      requires Valid() && dir in table
      modifies this
      ensures Valid() && table == old(table) && clock == old(clock) + 1
      ensures inode.Some? <==> !world.refuses(old(clock)) && name in world.entries(old(clock), table[dir])
      ensures inode.None? ==> log == old(log)
      ensures inode.Some? ==> name in world.entries(old(clock), table[dir])
      ensures inode.Some? ==> world.entries(old(clock), table[dir])[name] == inode.value
      ensures inode.Some? ==> log == old(log) + [Statted(old(clock), table[dir], name)]
    {
      clock := clock + 1;
      if world.refuses(clock - 1) || name !in world.entries(clock - 1, table[dir]) {
        return None;
      }
      Note(Statted(clock - 1, table[dir], name), table);
      return Some(world.entries(clock - 1, table[dir])[name]);
    }

    /** `os.read(fd, limit)`. */
    method ReadUpTo(fd: int, limit: nat) returns (text: Option<string>)
      requires Valid() && fd in table
      modifies this
      ensures Valid() && table == old(table) && clock == old(clock) + 1
      ensures text.Some? <==> !world.refuses(old(clock))
      ensures text.None? ==> log == old(log)
      ensures text.Some? ==> text.value <= world.text(old(clock), table[fd])
      ensures text.Some? ==> |text.value| < limit ==> text.value == world.text(old(clock), table[fd])
      ensures text.Some? ==> |text.value| <= limit && log == old(log) + [Read(old(clock), table[fd])]
    {
      clock := clock + 1;
      if world.refuses(clock - 1) {
        return None;
      }
      var all := world.text(clock - 1, table[fd]);
      Note(Read(clock - 1, table[fd]), table);
      return Some(if |all| <= limit then all else all[..limit]);
    }

    /** The typed verifier, handed the open descriptor as /proc/self/fd/<fd>. */
    method VerifyFd(fd: int) returns (status: Option<Json>)
      requires Valid() && fd in table
      modifies this
      ensures Valid() && table == old(table) && clock == old(clock) + 1
      ensures status == world.verdict(old(clock), table[fd])
      ensures log == old(log) + [Verified(old(clock), table[fd])]
    {
      clock := clock + 1;
      Note(Verified(clock - 1, table[fd]), table);
      return world.verdict(clock - 1, table[fd]);
    }

    // ---------------------------------------------------------------- the walk

    /** `_open_fd_nofollow_dir`: O_NOFOLLOW and O_DIRECTORY, then a second look at what was opened. A refused second
        look leaks the descriptor, and nothing else does. */
    method OpenFdNofollowDir(name: string, parent: int)
        returns (fd: Option<int>, ghost es: seq<Event>, ghost leak: Option<int>)
      requires Valid() && parent in table
      modifies this
      ensures Valid() && clock > old(clock) && log == old(log) + es
      ensures leak.Some? <==>
        Openable(world, old(clock), old(table)[parent], name, true) && world.refuses(old(clock) + 1)
      ensures fd.None? ==> Missed(world, old(table), table, es, leak)
      ensures fd.Some? ==> fd.value !in old(table) && fd.value in table && table == old(table)[fd.value := table[fd.value]]
      ensures fd.Some? ==> BoundAt(world, old(clock), old(table)[parent], name, table[fd.value])
      ensures fd.Some? ==> world.kind(table[fd.value]) == Directory && Quiet(es) && clock == old(clock) + 2
      ensures fd.Some? <==> Acquirable(world, old(clock), old(table)[parent], name)
    {
      es, leak := [], None;
      fd := OpenAt(name, parent, true);
      if fd.None? {
        return;
      }
      es := [Opened(fd.value, old(clock), old(table)[parent], name, table[fd.value])];
      var inode := Fstat(fd.value);
      if inode.None? {
        es, leak := es + [FstatFailed(fd.value)], fd;
        return None, es, leak;
      }
      es := es + [Fstatted(fd.value)];
      if world.kind(inode.value) != Directory {
        var closed := Close(fd.value);
        es := es + [CloseEvent(closed, fd.value, inode.value)];
        return None, es, leak;
      }
    }

    /** The `finally` block: the last parent, unless it is the root, and then the root are closed. */
    method Release(parent: int, root: int) returns (ok: bool, ghost es: seq<Event>)
      requires Valid() && root in table
      modifies this
      ensures Valid() && log == old(log) + es && clock > old(clock)
      ensures Released(old(table), table, parent, root, es, ok)
      ensures ok ==> Quiet(es) && table == old(table) - {parent, root}
      ensures parent == root ==> (ok <==> !world.refuses(old(clock)))
      ensures parent in old(table) && !ok ==> RefusedBetween(world, old(clock), clock)
    {
      es := [];
      if parent != root {
        ok := Close(parent);
        es := [if parent in old(table) then CloseEvent(ok, parent, old(table)[parent]) else ClosedAgain(parent)];
        if !ok {
          return;
        }
      }
      ok := Close(root);
      es := es + [CloseEvent(ok, root, old(table)[root])];
    }

    /** One round of the loop: the child is opened through the parent before the parent is let go. A refusal to close
        the parent leaks the child and the root, and closes the parent twice. */
    method Descend(name: string, parent: int, root: int) returns (child: Option<int>, ghost es: seq<Event>)
      requires Valid() && parent in table && root in table && (parent != root ==> world.kind(table[parent]) == Directory)
      modifies this
      ensures Valid() && log == old(log) + es && clock > old(clock)
      ensures child.None? ==>
        ((NeverTwice(es) && table == old(table) - {parent, root}) <==> !Harmed(world, es, root, false))
      ensures Harmed(world, es, root, false) ==> RefusedBetween(world, old(clock), clock)
      ensures child.Some? ==> child.value !in old(table) && child.value in table && Quiet(es)
      ensures child.Some? ==> Step(world, old(clock), old(table)[parent], name, table[child.value])
      ensures child.Some? ==>
        table == (if parent == root then old(table) else old(table) - {parent})[child.value := table[child.value]]
      ensures parent != root && Acquirable(world, old(clock), old(table)[parent], name) && world.refuses(old(clock) + 2) ==>
        child.None? && ClosedAgain(parent) in es && root in table && table.Keys - old(table).Keys != {}
      ensures Calm(world) ==> (child.Some? <==> Leads(world, old(table)[parent], name).Some?)
    {
      if Calm(world) {
        CalmAcquirable(world, clock, table[parent], name);
      }
      ghost var leak, es', ok;
      child, es, leak := OpenFdNofollowDir(name, parent);
      if child.None? {
        ghost var t1 := table;
        ok, es' := Release(parent, root);
        MissedThenReleased(world, old(table), t1, table, parent, root, leak, es, es', ok);
        if leak.None? && ok {
          MissedUnharmed(world, old(table), t1, root, es, es', false);
        }
        es := es + es';
      } else if parent != root {
        var closed := Close(parent);
        es := es + [CloseEvent(closed, parent, old(table)[parent])];
        if !closed {
          assert Harmful(world, root, false, es[|es| - 1]);
          ok, es' := Release(parent, root);
          es := es + es';
          assert child.value in table.Keys - old(table).Keys;
          child := None;
        }
      }
    }

    /** The end of the walk: the last component, and the `finally` block in every case. */
    method OpenLast(name: string, parent: int, root: int)
        returns (fd: Option<int>, ghost acquired: Option<Inode>, ghost es: seq<Event>)
      requires Valid() && parent in table && root in table && (parent != root ==> world.kind(table[parent]) == Directory)
      modifies this
      ensures Valid() && log == old(log) + es && clock > old(clock)
      ensures Ledger(old(table) - {parent, root}, table, es, fd) <==> !Harmed(world, es, root, acquired.Some?)
      ensures Harmed(world, es, root, acquired.Some?) ==> RefusedBetween(world, old(clock), clock)
      ensures fd.Some? ==> Ledger(old(table) - {parent, root}, table, es, fd)
      ensures fd.Some? ==> fd.value !in old(table) && fd.value in table && acquired == Some(table[fd.value])
      ensures acquired.Some? ==> Step(world, old(clock), old(table)[parent], name, acquired.value)
      ensures parent == root && RefusedAfterOpening(world, old(clock), old(table)[parent], name) ==>
        Harmed(world, es, root, acquired.Some?)
      ensures Calm(world) ==> (fd.Some? <==> Leads(world, old(table)[parent], name).Some?)
    {
      if Calm(world) {
        CalmAcquirable(world, clock, table[parent], name);
      }
      ghost var leak, es';
      fd, es, leak := OpenFdNofollowDir(name, parent);
      acquired := if fd.Some? then Some(table[fd.value]) else None;
      ghost var t1 := table;
      var released;
      released, es' := Release(parent, root);
      if leak.Some? {
        assert FstatFailed(leak.value) in es + es' && Harmful(world, root, false, FstatFailed(leak.value));
      }
      if fd.None? {
        MissedThenReleased(world, old(table), t1, table, parent, root, leak, es, es', released);
        if leak.None? && released {
          MissedUnharmed(world, old(table), t1, root, es, es', false);
        }
      } else if !released {
        assert Harmful(world, root, true, es'[|es'| - 1]) && es'[|es'| - 1] in es + es';
        assert fd.value in table;
        fd := None;
      }
      es := es + es';
    }

    /** The loop: every component but the last. */
    method DescendAll(components: seq<string>, root: int)
        returns (parent: Option<int>, ghost chain: seq<Inode>, ghost moments: seq<nat>, ghost es: seq<Event>)
      requires Valid() && components != [] && root in table && table[root] == world.root
      modifies this
      ensures Valid() && log == old(log) + es && clock >= old(clock) && |moments| < |components|
      ensures parent.None? ==> ((NeverTwice(es) && table == old(table) - {root}) <==> !Harmed(world, es, root, false))
      ensures Harmed(world, es, root, false) ==> RefusedBetween(world, old(clock), clock)
      ensures parent.Some? ==> Anchored(world, components[..|components| - 1], chain, moments, old(clock), clock) && Quiet(es)
      ensures parent.Some? ==> table == old(table)[parent.value := chain[|components| - 1]]
      ensures |components| == 1 ==> parent == Some(root) && clock == old(clock) && es == []
      ensures parent.Some? && parent.value != root ==>
        parent.value !in old(table) && world.kind(chain[|components| - 1]) == Directory
      ensures WalksTo(world, components, |components| - 1, if parent.Some? then Some(chain[|components| - 1]) else None)
    {
      chain, moments, es := [world.root], [], [];
      var held := root;
      for i := 0 to |components| - 1
        invariant Valid() && log == old(log) + es && clock >= old(clock) && Quiet(es)
        invariant Anchored(world, components[..i], chain, moments, old(clock), clock)
        invariant held != root ==> held !in old(table) && world.kind(chain[i]) == Directory
        invariant held == root ==> chain[i] == world.root
        invariant i == 0 ==> held == root && clock == old(clock) && es == []
        invariant table == old(table)[held := chain[i]]
        invariant WalksTo(world, components, i, Some(chain[i]))
      {
        ghost var at, before := clock, es;
        var child;
        ghost var es';
        child, es' := Descend(components[i], held, root);
        QuietPrefix(world, before, es', root, false);
        es := es + es';
        WalksOn(world, components, i, chain[i], at, if child.Some? then Some(table[child.value]) else None);
        if child.None? {
          Forgotten(old(table), held, chain[i], root);
          return None, chain, moments, es;
        }
        OneMoreStep(world, components, i, chain, moments, old(clock), at, clock, table[child.value]);
        chain, moments := chain + [table[child.value]], moments + [at];
        held := child.value;
      }
      parent := Some(held);
    }

    /** The `try` and its `finally`, once the root is open. */
    method WalkFrom(components: seq<string>, root: int)
        returns (fd: Option<int>, ghost chain: seq<Inode>, ghost moments: seq<nat>, ghost es: seq<Event>)
      requires Valid() && components != [] && root in table && table[root] == world.root
      modifies this
      ensures Valid() && log == old(log) + es && clock >= old(clock)
      ensures Ledger(old(table) - {root}, table, es, fd) <==> !Harmed(world, es, root, |moments| == |components|)
      ensures Harmed(world, es, root, |moments| == |components|) ==> RefusedBetween(world, old(clock), clock)
      ensures fd.Some? ==> fd.value !in old(table) && Ledger(old(table) - {root}, table, es, fd)
      ensures fd.Some? ==> Anchored(world, components, chain, moments, old(clock), clock)
      ensures fd.Some? ==> table[fd.value] == chain[|components|]
      ensures |components| == 1 && RefusedAfterOpening(world, old(clock), world.root, components[0]) ==>
        Harmed(world, es, root, |moments| == |components|)
      ensures WalksTo(world, components, |components|, if fd.Some? then Some(table[fd.value]) else None)
    {
      var parent;
      parent, chain, moments, es := DescendAll(components, root);
      if parent.None? {
        NotReached(world, components);
        return None, chain, moments, es;
      }
      var n := |components| - 1;
      assert components[..n + 1] == components;
      Forgotten(old(table), parent.value, chain[n], root);
      ghost var at, before, acquired, es' := clock, es, None, [];
      fd, acquired, es' := OpenLast(components[n], parent.value, root);
      QuietPrefix(world, before, es', root, acquired.Some?);
      WalksOn(world, components, n, chain[n], at, if fd.Some? then acquired else None);
      es := before + es';
      if acquired.Some? {
        OneMoreStep(world, components, n, chain, moments, old(clock), at, clock, acquired.value);
        chain, moments := chain + [acquired.value], moments + [at];
      }
    }

    /** `open_report_directory_fd` after its platform checks. The ledger is kept exactly when no refusal did harm. */
    method OpenReportDirectory(components: seq<string>)
        returns (fd: Option<int>, ghost chain: seq<Inode>, ghost moments: seq<nat>, ghost es: seq<Event>)
      requires Valid() && components != []
      modifies this
      ensures Valid() && log == old(log) + es && clock > old(clock)
      ensures Ledger(old(table), table, es, fd) <==> !Harmed(world, es, RootOf(es), |moments| == |components|)
      ensures !RefusedBetween(world, old(clock), clock) ==> Ledger(old(table), table, es, fd)
      ensures fd.Some? ==> Ledger(old(table), table, es, fd)
      ensures fd.Some? ==> Anchored(world, components, chain, moments, old(clock), clock)
      ensures fd.Some? ==> table[fd.value] == chain[|components|]
      ensures |components| == 1 && !world.refuses(old(clock)) ==>
        (RefusedAfterOpening(world, old(clock) + 1, world.root, components[0]) ==>
           Harmed(world, es, RootOf(es), |moments| == |components|))
      ensures Calm(world) ==> Walk(world, components) == if fd.Some? then Some(table[fd.value]) else None
    {
      chain, moments, es := [], [], [];
      var root := OpenRoot();
      if root.None? {
        return None, chain, moments, es;
      }
      Forgotten(old(table), root.value, world.root, root.value);
      ghost var first, es' := [OpenedRoot(root.value, old(clock))], [];
      fd, chain, moments, es' := WalkFrom(components, root.value);
      QuietPrefix(world, first, es', root.value, |moments| == |components|);
      es := first + es';
      assert components[..|components|] == components;
    }
  }

  // ---------------------------------------------------------------- refusals that do harm exist

  /** One directory that lists itself as `a`, and one refused moment. */
  function Refusing(at: nat): World {
    World(0, _ => Directory, (_, _) => map["a" := 0], (_, _) => "", (_, _) => None, t => t == at, true)
  }

  /** The walk opens the root at 0 and `a` at 1, looks at `a` again at 2 and closes the root at 3; a refusal at 2 or 3
      breaks the ledger. */
  method RefusalBreaksLedger(at: nat) returns (fd: Option<int>, proc: Process, ghost es: seq<Event>)
    requires at == 2 || at == 3
    ensures proc.world == Refusing(at) && proc.log == es && fd.None? && !Ledger(map[], proc.table, es, fd)
  {
    proc := new Process(Refusing(at), map[]);
    ghost var chain, moments;
    fd, chain, moments, es := proc.OpenReportDirectory(["a"]);
  }
}
