/** The manifest validator's own checks, told row by row. */
module ManifestRules {
  import opened Sorting
  import opened JsonValues
  import opened Distinctness
  import opened SurfaceRows
  import opened OperationSurface
  import opened ManifestValidation

  /** No two operations share an id or a place, and no operation lists a response twice. */
  predicate OperationsApart(os: seq<Operation>) {
    && (forall i, j :: 0 <= i < j < |os| ==> os[i].id != os[j].id && (os[i].verb, os[i].path) != (os[j].verb, os[j].path))
    && forall i, j, k :: 0 <= i < |os| && 0 <= j < k < |os[i].responses| ==> os[i].responses[j] != os[i].responses[k]
  }

  predicate DispositionsApart(ds: seq<Disposition>) {
    forall i, j :: 0 <= i < j < |ds| ==> (ds[i].verb, ds[i].path) != (ds[j].verb, ds[j].path)
  }

  /** There is one sample for each disposition, and no other. */
  ghost predicate SamplesMatch(ss: seq<Sample>, ds: seq<Disposition>) {
    && (forall i, j :: 0 <= i < j < |ss| ==> (ss[i].verb, ss[i].path) != (ss[j].verb, ss[j].path))
    && SamplesPlaced(ss, ds) && DispositionsSampled(ds, ss)
  }

  ghost predicate SamplesPlaced(ss: seq<Sample>, ds: seq<Disposition>) {
    forall i :: 0 <= i < |ss| ==> exists d :: d in ds && d.verb == ss[i].verb && d.path == ss[i].path
  }

  ghost predicate DispositionsSampled(ds: seq<Disposition>, ss: seq<Sample>) {
    forall i :: 0 <= i < |ds| ==> exists s :: s in ss && s.verb == ds[i].verb && s.path == ds[i].path
  }

  /** Browser events have different ids, each of them the id of an operation. */
  ghost predicate EventsMatch(es: seq<BrowserEvent>, os: seq<Operation>) {
    && (forall i, j :: 0 <= i < j < |es| ==> es[i].id != es[j].id)
    && forall i :: 0 <= i < |es| ==> exists o :: o in os && o.id == es[i].id
  }

  /** The operations stand exactly at the places with disposition `included`. */
  ghost predicate ScopeMatches(ds: seq<Disposition>, os: seq<Operation>) {
    IncludedPresent(ds, os) && PresentIncluded(os, ds)
  }

  ghost predicate IncludedPresent(ds: seq<Disposition>, os: seq<Operation>) {
    forall i :: 0 <= i < |ds| && ds[i].disposition == "included" ==> exists o :: o in os && o.verb == ds[i].verb && o.path == ds[i].path
  }

  ghost predicate PresentIncluded(os: seq<Operation>, ds: seq<Disposition>) {
    forall i :: 0 <= i < |os| ==>
      exists d :: d in ds && d.disposition == "included" && d.verb == os[i].verb && d.path == os[i].path
  }

  lemma {:induction false} MappedApart<R, K>(rows: seq<R>, key: R -> K)
    ensures NoDuplicates(Map(rows, key)) <==> forall i, j :: 0 <= i < j < |rows| ==> key(rows[i]) != key(rows[j])
  {
    if NoDuplicates(Map(rows, key)) {
      forall i, j | 0 <= i < j < |rows| ensures key(rows[i]) != key(rows[j]) {
        assert Map(rows, key)[i] != Map(rows, key)[j];
      }
    }
  }

  lemma {:induction false} MappedWithin<R, S, K>(rows: seq<R>, key: R -> K, others: seq<S>, other: S -> K)
    ensures Members(Map(rows, key)) <= Members(Map(others, other)) <==>
      forall i :: 0 <= i < |rows| ==> exists s :: s in others && other(s) == key(rows[i])
  {
    if Members(Map(rows, key)) <= Members(Map(others, other)) {
      forall i | 0 <= i < |rows| ensures exists s :: s in others && other(s) == key(rows[i]) {
        assert Map(rows, key)[i] in Members(Map(rows, key));
        var k :| 0 <= k < |others| && Map(others, other)[k] == key(rows[i]);
        assert others[k] in others && other(others[k]) == key(rows[i]);
      }
    }
    if forall i :: 0 <= i < |rows| ==> exists s :: s in others && other(s) == key(rows[i]) {
      forall k | k in Members(Map(rows, key)) ensures k in Members(Map(others, other)) {
        var i :| 0 <= i < |rows| && Map(rows, key)[i] == k;
        var s :| s in others && other(s) == key(rows[i]);
        var j :| 0 <= j < |others| && others[j] == s;
        assert Map(others, other)[j] == k;
      }
    }
  }

  lemma {:induction false} OperationsExactly(os: seq<Operation>)
    ensures OperationsApart(os) <==>
      NoDuplicates(Map(os, OperationId)) && NoDuplicates(Map(os, OperationKey)) && ResponsesDistinct(os)
  {
    MappedApart(os, OperationId);
    MappedApart(os, OperationKey);
  }

  lemma {:induction false} PlacedExactly(ss: seq<Sample>, ds: seq<Disposition>)
    ensures SamplesPlaced(ss, ds) <==> Members(Map(ss, SampleKey)) <= Members(Map(ds, DispositionKey))
  {
    MappedWithin(ss, SampleKey, ds, DispositionKey);
  }

  lemma {:induction false} SampledExactly(ds: seq<Disposition>, ss: seq<Sample>)
    ensures DispositionsSampled(ds, ss) <==> Members(Map(ds, DispositionKey)) <= Members(Map(ss, SampleKey))
  {
    MappedWithin(ds, DispositionKey, ss, SampleKey);
  }

  lemma {:induction false} EventsExactly(es: seq<BrowserEvent>, os: seq<Operation>)
    ensures EventsMatch(es, os) <==>
      NoDuplicates(Map(es, EventId)) && Members(Map(es, EventId)) <= Members(Map(os, OperationId))
  {
    MappedApart(es, EventId);
    MappedWithin(es, EventId, os, OperationId);
  }

  lemma {:induction false} PlaceOf(os: seq<Operation>, k: (string, string))
    ensures k in Members(Map(os, OperationKey)) <==> exists o :: o in os && OperationKey(o) == k
  {
    if k in Members(Map(os, OperationKey)) {
      var i :| 0 <= i < |os| && Map(os, OperationKey)[i] == k;
      assert os[i] in os;
    }
    if o :| o in os && OperationKey(o) == k {
      var i :| 0 <= i < |os| && os[i] == o;
      assert Map(os, OperationKey)[i] == k;
    }
  }

  lemma {:induction false} IncludedExactly(ds: seq<Disposition>, os: seq<Operation>)
    ensures IncludedPresent(ds, os) <==> IncludedKeys(ds) <= Members(Map(os, OperationKey))
  {
    forall k ensures k in Members(Map(os, OperationKey)) <==> exists o :: o in os && OperationKey(o) == k {
      PlaceOf(os, k);
    }
    if IncludedPresent(ds, os) {
      forall k | k in IncludedKeys(ds) ensures k in Members(Map(os, OperationKey)) {
        var d :| d in ds && d.disposition == "included" && DispositionKey(d) == k;
        var i :| 0 <= i < |ds| && ds[i] == d;
        var o :| o in os && o.verb == ds[i].verb && o.path == ds[i].path;
        assert OperationKey(o) == k;
      }
    }
    if IncludedKeys(ds) <= Members(Map(os, OperationKey)) {
      forall i | 0 <= i < |ds| && ds[i].disposition == "included"
        ensures exists o :: o in os && o.verb == ds[i].verb && o.path == ds[i].path
      {
        assert DispositionKey(ds[i]) in IncludedKeys(ds);
      }
    }
  }

  lemma {:induction false} PresentExactly(os: seq<Operation>, ds: seq<Disposition>)
    ensures PresentIncluded(os, ds) <==> Members(Map(os, OperationKey)) <= IncludedKeys(ds)
  {
    if PresentIncluded(os, ds) {
      forall k | k in Members(Map(os, OperationKey)) ensures k in IncludedKeys(ds) {
        var i :| 0 <= i < |os| && Map(os, OperationKey)[i] == k;
        var d :| d in ds && d.disposition == "included" && d.verb == os[i].verb && d.path == os[i].path;
        assert DispositionKey(d) == k;
      }
    }
    if Members(Map(os, OperationKey)) <= IncludedKeys(ds) {
      forall i | 0 <= i < |os|
        ensures exists d :: d in ds && d.disposition == "included" && d.verb == os[i].verb && d.path == os[i].path
      {
        assert Map(os, OperationKey)[i] in Members(Map(os, OperationKey));
        assert OperationKey(os[i]) in IncludedKeys(ds);
      }
    }
  }

  lemma {:induction false} FineApart(m: Manifest)
    requires KeysFine(m) && ResponsesDistinct(m.operations)
    ensures OperationsApart(m.operations) && DispositionsApart(m.dispositions)
  {
    OperationsExactly(m.operations);
    MappedApart(m.dispositions, DispositionKey);
  }

  lemma {:induction false} FineSamples(m: Manifest)
    requires KeysFine(m)
    ensures SamplesMatch(m.samples, m.dispositions)
  {
    MappedApart(m.samples, SampleKey);
    PlacedExactly(m.samples, m.dispositions);
    SampledExactly(m.dispositions, m.samples);
  }

  lemma {:induction false} FineEvents(m: Manifest)
    requires KeysFine(m)
    ensures EventsMatch(m.events, m.operations) && ScopeMatches(m.dispositions, m.operations)
  {
    EventsExactly(m.events, m.operations);
    IncludedExactly(m.dispositions, m.operations);
    PresentExactly(m.operations, m.dispositions);
  }

  /** The rules on ids and places. */
  ghost predicate Ruled(m: Manifest) {
    && OperationsApart(m.operations) && DispositionsApart(m.dispositions) && SamplesMatch(m.samples, m.dispositions)
    && EventsMatch(m.events, m.operations) && ScopeMatches(m.dispositions, m.operations)
  }

  lemma {:induction false} MatchedSamples(ss: seq<Sample>, ds: seq<Disposition>)
    requires SamplesMatch(ss, ds)
    ensures NoDuplicates(Map(ss, SampleKey)) && Members(Map(ss, SampleKey)) == Members(Map(ds, DispositionKey))
  {
    MappedApart(ss, SampleKey);
    PlacedExactly(ss, ds);
    SampledExactly(ds, ss);
  }

  lemma {:induction false} RuledSamples(m: Manifest)
    requires Ruled(m)
    ensures NoDuplicates(Map(m.dispositions, DispositionKey)) && NoDuplicates(Map(m.samples, SampleKey))
    ensures Members(Map(m.samples, SampleKey)) == Members(Map(m.dispositions, DispositionKey))
  {
    MappedApart(m.dispositions, DispositionKey);
    MatchedSamples(m.samples, m.dispositions);
  }

  lemma {:induction false} RuledScope(m: Manifest)
    requires Ruled(m)
    ensures IncludedKeys(m.dispositions) == Members(Map(m.operations, OperationKey))
  {
    IncludedExactly(m.dispositions, m.operations);
    PresentExactly(m.operations, m.dispositions);
  }

  lemma {:induction false} KeysExactly(m: Manifest)
    ensures KeysFine(m) && ResponsesDistinct(m.operations) <==> Ruled(m)
  {
    if KeysFine(m) && ResponsesDistinct(m.operations) {
      FineApart(m);
      FineSamples(m);
      FineEvents(m);
    }
    if Ruled(m) {
      OperationsExactly(m.operations);
      RuledSamples(m);
      EventsExactly(m.events, m.operations);
      RuledScope(m);
    }
  }

  /** A manifest passes exactly if its rows meet these rules and its digests are those of its rows. */
  lemma {:induction false} PassesExactly(digest: Json -> string, m: Manifest)
    ensures Passes(digest, m) <==>
      Ruled(m) && m.projectionDigest == digest(CoreJson(m.dispositions, m.operations)) && m.eventDigest == digest(EventsValue(m.events))
  {
    KeysExactly(m);
  }
}
