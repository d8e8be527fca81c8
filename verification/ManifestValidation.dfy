/** The manifest validator's own checks, and which projections pass them. */
module ManifestValidation {
  import opened Sorting
  import opened JsonValues
  import opened Distinctness
  import opened SurfaceRows
  import opened OperationUnits
  import opened OperationRows
  import opened OperationSurface

  datatype Fault =
    | OperationIdDuplicate | OperationDuplicate | DispositionDuplicate | SampleDuplicate | SampleScopeMismatch
    | BrowserEventDuplicate | BrowserEventOrphan | ScopeMismatch | SuccessResponseDuplicate | DigestMismatch

  function OperationId(o: Operation): string { o.id }

  function OperationKey(o: Operation): (string, string) { (o.verb, o.path) }

  function DispositionKey(d: Disposition): (string, string) { (d.verb, d.path) }

  function SampleKey(s: Sample): (string, string) { (s.verb, s.path) }

  function EventId(e: BrowserEvent): string { e.id }

  function IncludedKeys(ds: seq<Disposition>): set<(string, string)> { set d | d in ds && d.disposition == "included" :: DispositionKey(d) }

  predicate ResponsesDistinct(os: seq<Operation>) { forall i :: 0 <= i < |os| ==> NoDuplicates(os[i].responses) }

  /** What the checks on ids and keys demand. */
  predicate KeysFine(m: Manifest) {
    && NoDuplicates(Map(m.operations, OperationId)) && NoDuplicates(Map(m.operations, OperationKey))
    && NoDuplicates(Map(m.dispositions, DispositionKey)) && NoDuplicates(Map(m.samples, SampleKey))
    && Members(Map(m.samples, SampleKey)) == Members(Map(m.dispositions, DispositionKey))
    && NoDuplicates(Map(m.events, EventId))
    && Members(Map(m.events, EventId)) <= Members(Map(m.operations, OperationId))
    && IncludedKeys(m.dispositions) == Members(Map(m.operations, OperationKey))
  }

  /** What all checks demand. */
  predicate Passes(digest: Json -> string, m: Manifest) {
    && KeysFine(m)
    && ResponsesDistinct(m.operations)
    && m.projectionDigest == digest(CoreJson(m.dispositions, m.operations))
    && m.eventDigest == digest(EventsValue(m.events))
  }

  method Repeats<T(==)>(xs: seq<T>) returns (r: bool)
    ensures r <==> !NoDuplicates(xs)
  {
    SetSize(xs);
    r := |Members(xs)| != |xs|;
  }

  method CheckDistinct(m: Manifest) returns (r: Option<Fault>)
    ensures r.None? <==>
      (NoDuplicates(Map(m.operations, OperationId)) && NoDuplicates(Map(m.operations, OperationKey))
       && NoDuplicates(Map(m.dispositions, DispositionKey)) && NoDuplicates(Map(m.samples, SampleKey)))
    ensures r != Some(SuccessResponseDuplicate)
  {
    var repeats := Repeats(Map(m.operations, OperationId));
    if repeats {
      return Some(OperationIdDuplicate);
    }
    repeats := Repeats(Map(m.operations, OperationKey));
    if repeats {
      return Some(OperationDuplicate);
    }
    repeats := Repeats(Map(m.dispositions, DispositionKey));
    if repeats {
      return Some(DispositionDuplicate);
    }
    repeats := Repeats(Map(m.samples, SampleKey));
    return if repeats then Some(SampleDuplicate) else None;
  }

  method CheckKeys(m: Manifest) returns (r: Option<Fault>)
    ensures r.None? <==> KeysFine(m)
    ensures r != Some(SuccessResponseDuplicate)
  {
    r := CheckDistinct(m);
    if r.Some? {
      return;
    }
    if Members(Map(m.samples, SampleKey)) != Members(Map(m.dispositions, DispositionKey)) {
      return Some(SampleScopeMismatch);
    }
    var eventIds := Map(m.events, EventId);
    var repeats := Repeats(eventIds);
    if repeats {
      return Some(BrowserEventDuplicate);
    }
    if !(Members(eventIds) <= Members(Map(m.operations, OperationId))) {
      return Some(BrowserEventOrphan);
    }
    if IncludedKeys(m.dispositions) != Members(Map(m.operations, OperationKey)) {
      return Some(ScopeMismatch);
    }
  }

  method CheckResponses(os: seq<Operation>) returns (ok: bool)
    ensures ok <==> ResponsesDistinct(os)
  {
    for i := 0 to |os|
      invariant forall j :: 0 <= j < i ==> NoDuplicates(os[j].responses)
    {
      var repeats := Repeats(os[i].responses);
      if repeats {
        return false;
      }
    }
    return true;
  }

  /** `validate_manifest` after the schema check. */
  method ValidateManifest(digest: Json -> string, m: Manifest) returns (r: Option<Fault>)
    ensures r.None? <==> Passes(digest, m)
    ensures r == Some(SuccessResponseDuplicate) <==> KeysFine(m) && !ResponsesDistinct(m.operations)
  {
    r := CheckKeys(m);
    if r.Some? {
      return;
    }
    var ok := CheckResponses(m.operations);
    if !ok {
      return Some(SuccessResponseDuplicate);
    }
    if m.projectionDigest != digest(CoreJson(m.dispositions, m.operations)) || m.eventDigest != digest(EventsValue(m.events)) {
      return Some(DigestMismatch);
    }
  }

  // ---------------------------------------------------------------- rows of a projection

  /** How the rows of one operation hang together. */
  ghost predicate Coherent(r: Rows) {
    && SampleKey(r.sample) == KeyOf(r)
    && (r.operation.Some? <==> r.disposition.disposition == "included")
    && (r.operation.Some? ==> r.operation.value.id == r.id && OperationKey(r.operation.value) == KeyOf(r))
    && (r.event.Some? ==> r.operation.Some? && r.event.value.id == r.id)
  }

  lemma {:induction false} EventsNamed(c: Conventions, resolve: Resolver, id: string, client: Json, server: Json, responses: seq<Response>)
    ensures var e := ProjectEvents(c, resolve, id, client, server, responses); e.Events? ==> e.row.id == id
  {
  }

  lemma {:induction false} IncludedNamed(c: Conventions, x: Context, id: string, verb: string, path: string, d: OpDoc)
    ensures var r := ProjectIncluded(c, x, id, verb, path, d);
      r.Some? ==> r.value.0.id == id && OperationKey(r.value.0) == (verb, path) && (r.value.1.Some? ==> r.value.1.value.id == id)
  {
    EventsNamed(c, x.resolve, id, d.client, d.server, RowsOrNone(ProjectResponses(c, x.resolve, d.responses, d.terminal)));
  }

  lemma {:induction false} ScopeNamed(s: Scope, verb: string, path: string, mandatory: bool)
    ensures var r := ProjectScope(s, verb, path, mandatory); r.Some? ==> DispositionKey(r.value) == (verb, path)
  {
  }

  lemma {:induction false} SampleNamed(c: Conventions, resolve: Resolver, verb: string, path: string, tags: Json, parameters: Json)
    ensures var r := ProjectSample(c, resolve, verb, path, tags, parameters); r.Some? ==> SampleKey(r.value) == (verb, path)
  {
  }

  lemma {:induction false} DocCoherent(c: Conventions, x: Context, rawPath: string, verb: string, d: OpDoc)
    requires ProjectDoc(c, x, rawPath, verb, d).Some?
    ensures Coherent(ProjectDoc(c, x, rawPath, verb, d).value)
  {
    var id, path := Label(d.id).value, c.normalize(rawPath).value;
    ScopeNamed(ReadScope(d.disposition), verb, path, c.mandatory(path));
    SampleNamed(c, x.resolve, verb, path, d.tags, d.parameters);
    IncludedNamed(c, x, id, verb, path, d);
  }

  lemma {:induction false} ProjectedCoherent(c: Conventions, x: Context, u: Unit)
    requires ProjectUnit(c, x, u).Some?
    ensures Coherent(ProjectUnit(c, x, u).value)
  {
    DocCoherent(c, x, u.path, u.verb, ReadOperation(u.operation, x.security));
  }

  ghost predicate AllCoherent(rows: seq<Rows>) { forall i :: 0 <= i < |rows| ==> Coherent(rows[i]) }

  lemma {:induction false} RowsCoherent(units: seq<Unit>, project: Unit -> Option<Rows>)
    requires AllRows(units, project).Some?
    requires forall u :: project(u).Some? ==> Coherent(project(u).value)
    ensures AllCoherent(AllRows(units, project).value)
  {
    if units == [] {
    } else {
      RowsCoherent(units[..|units| - 1], project);
    }
  }

  // ---------------------------------------------------------------- keys of the sorted lists

  lemma {:induction false} SortedKeys<T(!new), K(!new)>(xs: seq<T>, le: (T, T) -> bool, key: T -> K)
    ensures NoDuplicates(Map(Sort(xs, le), key)) <==> NoDuplicates(Map(xs, key))
    ensures Members(Map(Sort(xs, le), key)) == Members(Map(xs, key))
  {
    MapPermutation(Sort(xs, le), xs, key);
    DistinctPermutation(Map(Sort(xs, le), key), Map(xs, key));
  }

  lemma {:induction false} RowKeys(rows: seq<Rows>)
    requires DistinctRows(rows) && AllCoherent(rows)
    ensures NoDuplicates(Map(Map(rows, DispositionOf), DispositionKey)) && NoDuplicates(Map(Map(rows, SampleOf), SampleKey))
    ensures Members(Map(Map(rows, SampleOf), SampleKey)) == Members(Map(Map(rows, DispositionOf), DispositionKey))
  {
    var a, b := Map(Map(rows, DispositionOf), DispositionKey), Map(Map(rows, SampleOf), SampleKey);
    forall i | 0 <= i < |rows| ensures a[i] == KeyOf(rows[i]) && b[i] == a[i] {
      assert Coherent(rows[i]);
    }
    assert a == b == Map(rows, KeyOf);
  }

  /** The rows from which something is picked. */
  function Chosen<R, T>(rows: seq<R>, pick: R -> Option<T>): seq<R> {
    if rows == [] then [] else (if pick(rows[0]).Some? then [rows[0]] else []) + Chosen(rows[1..], pick)
  }

  lemma {:induction false} ChosenMember<R, T>(rows: seq<R>, pick: R -> Option<T>, r: R)
    ensures r in Chosen(rows, pick) <==> r in rows && pick(r).Some?
  {
    if rows == [] {
    } else {
      ChosenMember(rows[1..], pick, r);
      assert rows == [rows[0]] + rows[1..];
    }
  }

  /** Keys of picked values are keys of their rows, so they are as distinct as those. */
  lemma {:induction false} KeptKeys<R, T, K(!new)>(rows: seq<R>, pick: R -> Option<T>, key: T -> K, rowKey: R -> K)
    requires forall r :: r in rows && pick(r).Some? ==> key(pick(r).value) == rowKey(r)
    ensures Map(Kept(rows, pick), key) == Map(Chosen(rows, pick), rowKey)
  {
    if rows == [] {
    } else {
      KeptKeys(rows[1..], pick, key, rowKey);
      if pick(rows[0]).Some? {
        assert ([pick(rows[0]).value] + Kept(rows[1..], pick))[1..] == Kept(rows[1..], pick);
        assert ([rows[0]] + Chosen(rows[1..], pick))[1..] == Chosen(rows[1..], pick);
      }
    }
  }

  lemma {:induction false} ChosenDistinct<R(!new), T, K(!new)>(rows: seq<R>, pick: R -> Option<T>, rowKey: R -> K)
    requires NoDuplicates(Map(rows, rowKey))
    ensures NoDuplicates(Map(Chosen(rows, pick), rowKey))
    ensures Members(Map(Chosen(rows, pick), rowKey)) <= Members(Map(rows, rowKey))
  {
    if rows == [] {
    } else {
      var r, rest := rows[0], rows[1..];
      assert Map(rows, rowKey) == [rowKey(r)] + Map(rest, rowKey);
      HeadDistinct(rowKey(r), Map(rest, rowKey));
      ChosenDistinct(rest, pick, rowKey);
      var chosen := Chosen(rest, pick);
      assert ([r] + chosen)[1..] == chosen;
      HeadDistinct(rowKey(r), Map(chosen, rowKey));
    }
  }

  lemma {:induction false} HeadDistinct<T>(x: T, xs: seq<T>)
    ensures NoDuplicates([x] + xs) <==> NoDuplicates(xs) && x !in Members(xs)
    ensures Members([x] + xs) == {x} + Members(xs)
  {
    AppendDistinct([x], xs);
  }

  lemma {:induction false} OperationsOf(rows: seq<Rows>)
    requires DistinctRows(rows) && AllCoherent(rows)
    ensures NoDuplicates(Map(Operations(rows), OperationId)) && NoDuplicates(Map(Operations(rows), OperationKey))
    ensures Members(Map(Operations(rows), OperationId)) == Members(Map(Chosen(rows, OperationOf), IdOf))
    ensures Members(Map(Operations(rows), OperationKey)) == Members(Map(Chosen(rows, OperationOf), KeyOf))
  {
    assert forall i :: 0 <= i < |rows| ==> Coherent(rows[i]);
    KeptKeys(rows, OperationOf, OperationId, IdOf);
    KeptKeys(rows, OperationOf, OperationKey, KeyOf);
    ChosenDistinct(rows, OperationOf, IdOf);
    ChosenDistinct(rows, OperationOf, KeyOf);
  }

  lemma {:induction false} MappedMember<R, K>(rows: seq<R>, key: R -> K, r: R)
    requires r in rows
    ensures key(r) in Members(Map(rows, key))
  {
    var i :| 0 <= i < |rows| && rows[i] == r;
    assert Map(rows, key)[i] == key(r);
  }

  lemma {:induction false} MemberMapped<R, K>(rows: seq<R>, key: R -> K, k: K) returns (r: R)
    requires k in Members(Map(rows, key))
    ensures r in rows && key(r) == k
  {
    var i :| 0 <= i < |rows| && Map(rows, key)[i] == k;
    r := rows[i];
  }

  lemma {:induction false} EventsOf(rows: seq<Rows>)
    requires DistinctRows(rows) && AllCoherent(rows)
    ensures NoDuplicates(Map(BrowserEvents(rows), EventId))
    ensures Members(Map(BrowserEvents(rows), EventId)) <= Members(Map(Chosen(rows, OperationOf), IdOf))
  {
    assert forall i :: 0 <= i < |rows| ==> Coherent(rows[i]);
    KeptKeys(rows, EventOf, EventId, IdOf);
    ChosenDistinct(rows, EventOf, IdOf);
    forall id | id in Members(Map(Chosen(rows, EventOf), IdOf)) ensures id in Members(Map(Chosen(rows, OperationOf), IdOf)) {
      var r := MemberMapped(Chosen(rows, EventOf), IdOf, id);
      ChosenMember(rows, EventOf, r);
      ChosenMember(rows, OperationOf, r);
      MappedMember(Chosen(rows, OperationOf), IdOf, r);
    }
  }

  lemma {:induction false} InScopeIsChosen(rows: seq<Rows>, ds: seq<Disposition>, d: Disposition)
    requires AllCoherent(rows) && multiset(ds) == multiset(Map(rows, DispositionOf))
    requires d in ds && d.disposition == "included"
    ensures DispositionKey(d) in Members(Map(Chosen(rows, OperationOf), KeyOf))
  {
    SameMembers(ds, Map(rows, DispositionOf));
    var i :| 0 <= i < |rows| && Map(rows, DispositionOf)[i] == d;
    assert Coherent(rows[i]);
    ChosenMember(rows, OperationOf, rows[i]);
    MappedMember(Chosen(rows, OperationOf), KeyOf, rows[i]);
  }

  lemma {:induction false} ChosenIsInScope(rows: seq<Rows>, ds: seq<Disposition>, r: Rows)
    requires AllCoherent(rows) && multiset(ds) == multiset(Map(rows, DispositionOf))
    requires r in Chosen(rows, OperationOf)
    ensures KeyOf(r) in IncludedKeys(ds)
  {
    SameMembers(ds, Map(rows, DispositionOf));
    ChosenMember(rows, OperationOf, r);
    var i :| 0 <= i < |rows| && rows[i] == r;
    assert Coherent(rows[i]) && Map(rows, DispositionOf)[i] == r.disposition;
    assert DispositionKey(r.disposition) == KeyOf(r);
  }

  lemma {:induction false} IncludedAreInScope(rows: seq<Rows>, ds: seq<Disposition>)
    requires AllCoherent(rows) && multiset(ds) == multiset(Map(rows, DispositionOf))
    ensures IncludedKeys(ds) == Members(Map(Chosen(rows, OperationOf), KeyOf))
  {
    forall k | k in IncludedKeys(ds) ensures k in Members(Map(Chosen(rows, OperationOf), KeyOf)) {
      var d :| d in ds && d.disposition == "included" && DispositionKey(d) == k;
      InScopeIsChosen(rows, ds, d);
    }
    forall k | k in Members(Map(Chosen(rows, OperationOf), KeyOf)) ensures k in IncludedKeys(ds) {
      var r := MemberMapped(Chosen(rows, OperationOf), KeyOf, k);
      ChosenIsInScope(rows, ds, r);
    }
  }

  lemma {:induction false} SortedResponses(os: seq<Operation>, sorted: seq<Operation>)
    requires multiset(os) == multiset(sorted)
    ensures ResponsesDistinct(os) <==> ResponsesDistinct(sorted)
  {
    SameMembers(os, sorted);
    assert forall i :: 0 <= i < |os| ==> os[i] in sorted;
    assert forall i :: 0 <= i < |sorted| ==> sorted[i] in os;
  }

  /** An assembled manifest passes every check except, possibly, the one on repeated responses. */
  lemma {:induction false} AssembledPasses(digest: Json -> string, rows: seq<Rows>)
    requires DistinctRows(rows) && AllCoherent(rows)
    ensures Passes(digest, Assemble(digest, rows)) <==> ResponsesDistinct(Operations(rows))
  {
    RowKeys(rows);
    OperationsOf(rows);
    EventsOf(rows);
    SortedKeys(Map(rows, DispositionOf), DispositionLe, DispositionKey);
    SortedKeys(Map(rows, SampleOf), SampleLe, SampleKey);
    SortedKeys(Operations(rows), OperationLe, OperationId);
    SortedKeys(Operations(rows), OperationLe, OperationKey);
    SortedKeys(BrowserEvents(rows), EventLe, EventId);
    IncludedAreInScope(rows, Sort(Map(rows, DispositionOf), DispositionLe));
    SortedResponses(Operations(rows), Sort(Operations(rows), OperationLe));
  }
}
