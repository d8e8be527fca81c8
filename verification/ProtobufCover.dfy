/** `validate_manifest` of the protobuf toolchain, and the exact cover that acceptance means. */
module ProtobufCover {
  import opened JsonValues
  import opened Distinctness
  import opened ExactCover
  import opened ProtobufRows
  import opened ProtobufChecks

  datatype Summary = Summary(
    sourceCount: nat, outputCount: nat, dispositionCount: nat, managedCount: nat, sourceOnlyCount: nat, generationCount: nat)

  datatype Code = BadRow(fault: Fault) | DuplicateSource | DuplicateOutput | DispositionsEmpty | SourceMismatch | OutputMismatch

  datatype Outcome = Accepted(summary: Summary) | Failed(code: Code) | Raised

  function Refused(r: Verdict): Outcome
    requires !r.Fine?
  {
    match r
    case SourceRepeated => Failed(DuplicateSource)
    case OutputRepeated => Failed(DuplicateOutput)
    case Wrong(c) => if c.Fail? then Failed(BadRow(c.fault)) else Raised
  }

  function Views(rows: seq<Json>): (r: seq<Entry>)
    ensures |r| == |rows| && forall i :: 0 <= i < |rows| ==> r[i] == View(rows[i])
  {
    seq(|rows|, i requires 0 <= i < |rows| => View(rows[i]))
  }

  predicate AllTrue(oks: seq<bool>) {
    forall i :: 0 <= i < |oks| ==> oks[i]
  }

  function RowsJudged(rows: seq<Json>, rules: Rules): (r: seq<bool>)
    ensures |r| == |rows| && forall i :: 0 <= i < |rows| ==> r[i] == RowOk(rows[i], rules)
  {
    seq(|rows|, i requires 0 <= i < |rows| => RowOk(rows[i], rules))
  }

  predicate AllOk(rows: seq<Json>, rules: Rules) {
    forall i :: 0 <= i < |rows| ==> RowOk(rows[i], rules)
  }

  /** Every row is right by itself, no source has two rows and no output two places. */
  predicate WellDisposed(d: Json, rules: Rules) {
    d.Arr? && d.items != [] && AllOk(d.items, rules) && Disjointed(Views(d.items))
  }

  /** What acceptance demands. */
  predicate Acceptable(d: Json, rules: Rules, sources: set<string>, outputs: set<string>) {
    d.Arr? && AllOk(d.items, rules) && Covers(Views(d.items), sources, outputs)
  }

  /** What the loop over the rows has found. */
  datatype Tally = Tally(sources: set<string>, outputs: set<string>, managed: nat, sourceOnly: nat, generations: nat)

  function TallyOf(es: seq<Entry>): Tally {
    ManagedAtMost(es);
    Tally(Members(Sources(es)), Members(AllOutputs(es)), ManagedCount(es), |es| - ManagedCount(es), GenerationCount(es))
  }

  lemma {:induction false} ManagedAtMost(es: seq<Entry>)
    ensures ManagedCount(es) <= |es|
  {
    if es == [] {
    } else {
      ManagedAtMost(es[..|es| - 1]);
    }
  }

  function Counted(t: Tally, e: Entry): Tally {
    Tally(t.sources + {e.source}, t.outputs + Members(e.outputs), t.managed + (if e.managed then 1 else 0),
          t.sourceOnly + (if e.managed then 0 else 1), t.generations + |e.generations|)
  }

  lemma {:induction false} TallySnoc(es: seq<Entry>, e: Entry)
    ensures TallyOf(es + [e]) == Counted(TallyOf(es), e)
    ensures Disjointed(es + [e]) <==> Disjointed(es) && Fresh(e, TallyOf(es).sources, TallyOf(es).outputs)
  {
    EntriesSnoc(es, e);
    DisjointedSnoc(es, e);
  }

  /** The reading and the judgement of single rows, kept abstract for the loop over them. */
  ghost predicate ReadsRows(rows: seq<Json>, rules: Rules, oks: seq<bool>, es: seq<Entry>) {
    |oks| == |es| == |rows|
    && (forall i {:trigger RowOk(rows[i], rules)} :: 0 <= i < |rows| ==> oks[i] == RowOk(rows[i], rules))
    && (forall i {:trigger View(rows[i])} :: 0 <= i < |rows| ==> es[i] == View(rows[i]))
  }

  method CheckRowAt(rows: seq<Json>, i: nat, rules: Rules, t: Tally, ghost oks: seq<bool>, ghost es: seq<Entry>)
    returns (r: Verdict, after: Tally)
    requires ReadsRows(rows, rules, oks, es) && i < |rows|
    ensures r.Fine? <==> oks[i] && Fresh(es[i], t.sources, t.outputs)
    ensures r.Fine? ==> after == Counted(t, es[i])
    ensures r.SourceRepeated? || r.OutputRepeated? ==> !Fresh(es[i], t.sources, t.outputs)
  {
    after := t;
    r := CheckRow(rows[i], rules, t.sources, t.outputs);
    var row := ReadRow(rows[i]);
    if r.Fine? {
      after := Tally(t.sources + {TextOf(row.source)}, r.seenAfter, t.managed + (if SourceOnly(row) then 0 else 1),
                     t.sourceOnly + (if SourceOnly(row) then 1 else 0), t.generations + r.generationCount);
      ModesDiffer(row);
    }
  }

  method CheckRows(rows: seq<Json>, rules: Rules, ghost oks: seq<bool>, ghost es: seq<Entry>) returns (r: Verdict, t: Tally)
    requires ReadsRows(rows, rules, oks, es)
    ensures r.Fine? <==> AllTrue(oks) && Disjointed(es)
    ensures r.Fine? ==> t == TallyOf(es)
    ensures r.SourceRepeated? || r.OutputRepeated? ==> !Disjointed(es)
  {
    t := Tally({}, {}, 0, 0, 0);
    for i := 0 to |rows|
      invariant forall j :: 0 <= j < i ==> oks[j]
      invariant Disjointed(es[..i]) && t == TallyOf(es[..i])
    {
      var after;
      r, after := CheckRowAt(rows, i, rules, t, oks, es);
      TallySnoc(es[..i], es[i]);
      assert es[..i + 1] == es[..i] + [es[i]];
      if !r.Fine? {
        if Disjointed(es) {
          DisjointedPrefix(es, i + 1);
        }
        return;
      }
      t := after;
    }
    assert es[..|es|] == es;
    r := Fine(0, {});
  }

  lemma {:induction false} JudgedPartitioned(rows: seq<Json>, rules: Rules)
    ensures forall i :: 0 <= i < |rows| ==> RowsJudged(rows, rules)[i] ==> Partitioned(Views(rows)[i])
  {
  }

  /** The closing comparisons with the tracked inventories. */
  method CompareInventories(rows: seq<Json>, ghost es: seq<Entry>, t: Tally, sources: set<string>, outputs: set<string>)
    returns (r: Outcome)
    requires |es| == |rows| && t == TallyOf(es) && Disjointed(es) && forall i :: 0 <= i < |es| ==> Partitioned(es[i])
    ensures r.Accepted? <==> Covers(es, sources, outputs)
    ensures r.Accepted? ==> r.summary == Summary(
      |sources|, |outputs|, |rows|, ManagedCount(es), |rows| - ManagedCount(es), GenerationCount(es))
    ensures r.Accepted? || r == Failed(SourceMismatch) || r == Failed(OutputMismatch) || r == Failed(DispositionsEmpty)
    ensures r == Failed(SourceMismatch) <==> Members(Sources(es)) != sources
    ensures r == Failed(OutputMismatch) <==> Members(Sources(es)) == sources && Members(AllOutputs(es)) != outputs
  {
    assert forall i :: 0 <= i < |es| ==> Partitioned(es[i]) ==> es[i].managed ==> es[i].generations != [];
    ManagedGenerates(es);
    if t.sources != sources {
      return Failed(SourceMismatch);
    }
    if t.outputs != outputs {
      return Failed(OutputMismatch);
    }
    if t.managed == 0 || t.sourceOnly == 0 || t.generations == 0 {
      return Failed(DispositionsEmpty);
    }
    return Accepted(Summary(|sources|, |outputs|, |rows|, t.managed, t.sourceOnly, t.generations));
  }

  /** The validator with the judgement of single rows kept abstract. */
  method ValidateRows(
      rows: seq<Json>, rules: Rules, sources: set<string>, outputs: set<string>, ghost oks: seq<bool>, ghost es: seq<Entry>)
    returns (r: Outcome)
    requires ReadsRows(rows, rules, oks, es) && forall i :: 0 <= i < |rows| ==> oks[i] ==> Partitioned(es[i])
    ensures r.Accepted? <==> AllTrue(oks) && Covers(es, sources, outputs)
    ensures r.Accepted? ==> r.summary == Summary(
      |sources|, |outputs|, |rows|, ManagedCount(es), |rows| - ManagedCount(es), GenerationCount(es))
    ensures r == Failed(DuplicateSource) || r == Failed(DuplicateOutput) ==> !Disjointed(es)
    ensures r == Failed(SourceMismatch) <==>
      (AllTrue(oks) && Disjointed(es) && Members(Sources(es)) != sources)
    ensures r == Failed(OutputMismatch) <==>
      (AllTrue(oks) && Disjointed(es) && Members(Sources(es)) == sources
       && Members(AllOutputs(es)) != outputs)
  {
    var v, t := CheckRows(rows, rules, oks, es);
    if !v.Fine? {
      return Refused(v);
    }
    r := CompareInventories(rows, es, t, sources, outputs);
  }

  method ValidateManifest(d: Json, rules: Rules, sources: set<string>, outputs: set<string>) returns (r: Outcome)
    ensures r.Accepted? <==> Acceptable(d, rules, sources, outputs)
    ensures r.Accepted? ==> r.summary == Summary(
      |sources|, |outputs|, |d.items|, ManagedCount(Views(d.items)), |d.items| - ManagedCount(Views(d.items)),
      GenerationCount(Views(d.items)))
    ensures d.Arr? && (r == Failed(DuplicateSource) || r == Failed(DuplicateOutput)) ==> !Disjointed(Views(d.items))
    ensures r == Failed(SourceMismatch) <==> WellDisposed(d, rules) && Members(Sources(Views(d.items))) != sources
    ensures r == Failed(OutputMismatch) <==>
      WellDisposed(d, rules) && Members(Sources(Views(d.items))) == sources && Members(AllOutputs(Views(d.items))) != outputs
  {
    if !d.Arr? || d.items == [] {
      return Failed(DispositionsEmpty);
    }
    ghost var oks, es := RowsJudged(d.items, rules), Views(d.items);
    JudgedPartitioned(d.items, rules);
    r := ValidateRows(d.items, rules, sources, outputs, oks, es);
    assert AllTrue(oks) <==> AllOk(d.items, rules);
  }

  // ---------------------------------------------------------------- what acceptance means

  /** Acceptance is an exact cover: the dispositions are in bijection with the tracked sources, managed and source-only
      rows add up to both counts, and every tracked output has exactly one place in exactly one generation of exactly
      one managed disposition. */
  lemma {:induction false} AcceptanceIsExactCover(d: Json, rules: Rules, sources: set<string>, outputs: set<string>)
    requires Acceptable(d, rules, sources, outputs)
    ensures var es := Views(d.items);
      && |es| == |sources| && |AllOutputs(es)| == |outputs|
      && (forall s :: s in sources <==> exists i :: 0 <= i < |es| && es[i].source == s)
      && (forall i, j :: 0 <= i < j < |es| ==> es[i].source != es[j].source)
      && (forall o :: o in outputs <==> exists i: nat, g: nat, k: nat :: Produces(es, i, g, k, o))
  {
    var es := Views(d.items);
    SourcesCovered(es, sources, outputs);
    forall o ensures o in outputs <==> exists i: nat, g: nat, k: nat :: Produces(es, i, g, k, o) {
      OutputsCovered(es, sources, outputs, o);
    }
  }

  lemma {:induction false} AcceptedOutputHasOnePlace(
      d: Json, rules: Rules, sources: set<string>, outputs: set<string>, output: string,
      i: nat, g: nat, k: nat, i': nat, g': nat, k': nat)
    requires Acceptable(d, rules, sources, outputs)
    requires Produces(Views(d.items), i, g, k, output) && Produces(Views(d.items), i', g', k', output)
    ensures i == i' && g == g' && k == k'
  {
    OutputsProducedOnce(Views(d.items), sources, outputs, output, i, g, k, i', g', k');
  }
}
