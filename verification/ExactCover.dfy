/** Tables whose rows share out a set of names exactly. */
module ExactCover {
  import opened Distinctness

  // ---------------------------------------------------------------- lists of lists

  function Concat<T>(xss: seq<seq<T>>): seq<T> {
    if xss == [] then [] else Concat(xss[..|xss| - 1]) + xss[|xss| - 1]
  }

  lemma {:induction false} ConcatSnoc<T>(xss: seq<seq<T>>, xs: seq<T>)
    ensures Concat(xss + [xs]) == Concat(xss) + xs
  {
    assert (xss + [xs])[..|xss|] == xss;
  }

  ghost predicate Holds<T>(xss: seq<seq<T>>, g: nat, k: nat, x: T) {
    g < |xss| && k < |xss[g]| && xss[g][k] == x
  }

  lemma {:induction false} ConcatFind<T>(xss: seq<seq<T>>, x: T) returns (g: nat, k: nat)
    requires x in Concat(xss)
    ensures Holds(xss, g, k, x)
  {
    var init, last := xss[..|xss| - 1], xss[|xss| - 1];
    if x in last {
      g := |xss| - 1;
      k :| 0 <= k < |last| && last[k] == x;
    } else {
      g, k := ConcatFind(init, x);
    }
  }

  lemma {:induction false} ConcatContains<T>(xss: seq<seq<T>>, g: nat, k: nat, x: T)
    requires Holds(xss, g, k, x)
    ensures x in Concat(xss)
    decreases |xss|
  {
    if g < |xss| - 1 {
      ConcatContains(xss[..|xss| - 1], g, k, x);
    }
  }

  /** In a concatenation without repetition a name has one place. */
  lemma {:induction false} ConcatOnce<T>(xss: seq<seq<T>>, x: T, g: nat, k: nat, g': nat, k': nat)
    requires NoDuplicates(Concat(xss)) && Holds(xss, g, k, x) && Holds(xss, g', k', x)
    ensures g == g' && k == k'
    decreases |xss|
  {
    var n := |xss| - 1;
    AppendDistinct(Concat(xss[..n]), xss[n]);
    if g < n && g' < n {
      ConcatOnce(xss[..n], x, g, k, g', k');
    } else if g < n {
      assert x in Members(xss[n]);
      ConcatContains(xss[..n], g, k, x);
    } else if g' < n {
      assert x in Members(xss[n]);
      ConcatContains(xss[..n], g', k', x);
    }
  }

  // ---------------------------------------------------------------- rows

  /** What a row contributes: its source, its declared outputs and the outputs of each of its generations. */
  datatype Entry = Entry(source: string, managed: bool, outputs: seq<string>, generations: seq<seq<string>>)

  /** A managed row's generations list each of its outputs once and nothing else; other rows have neither. */
  predicate Partitioned(e: Entry) {
    if e.managed then
      e.generations != [] && NoDuplicates(Concat(e.generations)) && multiset(Concat(e.generations)) == multiset(e.outputs)
    else
      e.generations == [] && e.outputs == []
  }

  function Sources(es: seq<Entry>): (r: seq<string>)
    ensures |r| == |es| && forall i :: 0 <= i < |es| ==> r[i] == es[i].source
  {
    seq(|es|, i requires 0 <= i < |es| => es[i].source)
  }

  function OutputLists(es: seq<Entry>): (r: seq<seq<string>>)
    ensures |r| == |es| && forall i :: 0 <= i < |es| ==> r[i] == es[i].outputs
  {
    seq(|es|, i requires 0 <= i < |es| => es[i].outputs)
  }

  function AllOutputs(es: seq<Entry>): seq<string> { Concat(OutputLists(es)) }

  function ManagedCount(es: seq<Entry>): nat {
    if es == [] then 0 else ManagedCount(es[..|es| - 1]) + if es[|es| - 1].managed then 1 else 0
  }

  function GenerationCount(es: seq<Entry>): nat {
    if es == [] then 0 else GenerationCount(es[..|es| - 1]) + |es[|es| - 1].generations|
  }

  predicate Disjointed(es: seq<Entry>) {
    NoDuplicates(Sources(es)) && NoDuplicates(AllOutputs(es))
  }

  lemma {:induction false} EntriesSnoc(es: seq<Entry>, e: Entry)
    ensures Sources(es + [e]) == Sources(es) + [e.source]
    ensures AllOutputs(es + [e]) == AllOutputs(es) + e.outputs
    ensures ManagedCount(es + [e]) == ManagedCount(es) + if e.managed then 1 else 0
    ensures GenerationCount(es + [e]) == GenerationCount(es) + |e.generations|
  {
    assert (es + [e])[..|es|] == es;
    assert OutputLists(es + [e]) == OutputLists(es) + [e.outputs];
    ConcatSnoc(OutputLists(es), e.outputs);
  }

  /** The row repeats neither a source nor an output. */
  predicate Fresh(e: Entry, sources: set<string>, outputs: set<string>) {
    e.source !in sources && NoDuplicates(e.outputs) && Members(e.outputs) !! outputs
  }

  lemma {:induction false} DisjointedSnoc(es: seq<Entry>, e: Entry)
    ensures Disjointed(es + [e]) <==> Disjointed(es) && Fresh(e, Members(Sources(es)), Members(AllOutputs(es)))
    ensures Members(Sources(es + [e])) == Members(Sources(es)) + {e.source}
    ensures Members(AllOutputs(es + [e])) == Members(AllOutputs(es)) + Members(e.outputs)
  {
    EntriesSnoc(es, e);
    SnocDistinct(Sources(es), e.source);
    AppendDistinct(AllOutputs(es), e.outputs);
  }

  lemma {:induction false} DisjointedPrefix(es: seq<Entry>, n: nat)
    requires n <= |es| && Disjointed(es)
    ensures Disjointed(es[..n])
    decreases |es|
  {
    if n == |es| {
      assert es[..n] == es;
    } else {
      var init := es[..|es| - 1];
      assert es == init + [es[|es| - 1]];
      DisjointedSnoc(init, es[|es| - 1]);
      DisjointedPrefix(init, n);
      assert init[..n] == es[..n];
    }
  }

  lemma {:induction false} ManagedGenerates(es: seq<Entry>)
    requires forall i :: 0 <= i < |es| ==> es[i].managed ==> es[i].generations != []
    ensures ManagedCount(es) <= GenerationCount(es) && ManagedCount(es) <= |es|
  {
    if es == [] {
    } else {
      ManagedGenerates(es[..|es| - 1]);
    }
  }

  // ---------------------------------------------------------------- the cover

  /** The rows share out the sources and the outputs exactly, and both kinds of row occur. */
  predicate Covers(es: seq<Entry>, sources: set<string>, outputs: set<string>) {
    && (forall i :: 0 <= i < |es| ==> Partitioned(es[i]))
    && Disjointed(es)
    && Members(Sources(es)) == sources && Members(AllOutputs(es)) == outputs
    && 0 < ManagedCount(es) < |es|
  }

  /** The output at place `k` of generation `g` of row `i`. */
  ghost predicate Produces(es: seq<Entry>, i: nat, g: nat, k: nat, output: string) {
    i < |es| && es[i].managed && Holds(es[i].generations, g, k, output)
  }

  lemma {:induction false} ProducedIsDeclared(e: Entry, g: nat, k: nat, output: string)
    requires Partitioned(e) && Holds(e.generations, g, k, output)
    ensures output in e.outputs
  {
    ConcatContains(e.generations, g, k, output);
    assert output in multiset(Concat(e.generations));
  }

  lemma {:induction false} DeclaredIsProduced(e: Entry, output: string) returns (g: nat, k: nat)
    requires Partitioned(e) && output in e.outputs
    ensures e.managed && Holds(e.generations, g, k, output)
  {
    assert output in multiset(e.outputs);
    g, k := ConcatFind(e.generations, output);
  }

  /** The generations of the managed rows produce the given outputs and no others. */
  lemma {:induction false} OutputsCovered(es: seq<Entry>, sources: set<string>, outputs: set<string>, output: string)
    requires Covers(es, sources, outputs)
    ensures output in outputs <==> exists i: nat, g: nat, k: nat :: Produces(es, i, g, k, output)
  {
    if output in outputs {
      var i, j := ConcatFind(OutputLists(es), output);
      assert Partitioned(es[i]);
      var g, k := DeclaredIsProduced(es[i], output);
      assert Produces(es, i, g, k, output);
    }
    if exists i: nat, g: nat, k: nat :: Produces(es, i, g, k, output) {
      var i: nat, g: nat, k: nat :| Produces(es, i, g, k, output);
      assert Partitioned(es[i]);
      ProducedIsDeclared(es[i], g, k, output);
      var j :| 0 <= j < |es[i].outputs| && es[i].outputs[j] == output;
      ConcatContains(OutputLists(es), i, j, output);
      assert output in Members(AllOutputs(es));
    }
  }

  /** No output is produced at two places. */
  lemma {:induction false} OutputsProducedOnce(
      es: seq<Entry>, sources: set<string>, outputs: set<string>, output: string,
      i: nat, g: nat, k: nat, i': nat, g': nat, k': nat)
    requires Covers(es, sources, outputs)
    requires Produces(es, i, g, k, output) && Produces(es, i', g', k', output)
    ensures i == i' && g == g' && k == k'
  {
    assert Partitioned(es[i]) && Partitioned(es[i']);
    ProducedIsDeclared(es[i], g, k, output);
    ProducedIsDeclared(es[i'], g', k', output);
    var j :| 0 <= j < |es[i].outputs| && es[i].outputs[j] == output;
    var j' :| 0 <= j' < |es[i'].outputs| && es[i'].outputs[j'] == output;
    ConcatOnce(OutputLists(es), output, i, j, i', j');
    ConcatOnce(es[i].generations, output, g, k, g', k');
  }

  /** The rows are in bijection with the sources, and the counts add up. */
  lemma {:induction false} SourcesCovered(es: seq<Entry>, sources: set<string>, outputs: set<string>)
    requires Covers(es, sources, outputs)
    ensures forall s :: s in sources <==> exists i :: 0 <= i < |es| && es[i].source == s
    ensures forall i, j :: 0 <= i < j < |es| ==> es[i].source != es[j].source
    ensures |es| == |sources| && |AllOutputs(es)| == |outputs|
  {
    var names := Sources(es);
    SetSize(names);
    SetSize(AllOutputs(es));
    forall i, j | 0 <= i < j < |es| ensures es[i].source != es[j].source {
      assert names[i] != names[j];
    }
    forall s ensures s in sources <==> exists i :: 0 <= i < |es| && es[i].source == s {
      assert s in sources <==> s in names;
      if s in names {
        var i :| 0 <= i < |names| && names[i] == s;
        assert es[i].source == s;
      }
      if exists i :: 0 <= i < |es| && es[i].source == s {
        var i :| 0 <= i < |es| && es[i].source == s;
        assert names[i] == s;
      }
    }
  }
}
