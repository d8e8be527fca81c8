/** The loops over one disposition: consumers, outputs, generations. */
module ProtobufChecks {
  import opened Sorting
  import opened Text
  import opened Orders
  import opened JsonValues
  import opened Distinctness
  import opened ExactCover
  import opened ProtobufRows

  /** Sorted lists are equal exactly when the lists are permutations of each other. */
  lemma {:induction false} SortedAlike(a: seq<string>, b: seq<string>)
    ensures Sort(a, StrLe) == Sort(b, StrLe) <==> multiset(a) == multiset(b)
  {
    if Sort(a, StrLe) == Sort(b, StrLe) {
      assert multiset(a) == multiset(Sort(a, StrLe)) == multiset(Sort(b, StrLe)) == multiset(b);
    }
    if multiset(a) == multiset(b) {
      StrOrder();
      SortPermutation(a, b, StrLe);
    }
  }

  lemma {:induction false} TextsSnoc(items: seq<Json>, i: nat)
    requires i < |items|
    ensures Texts(items[..i + 1]) == Texts(items[..i]) + [TextOf(items[i])]
    ensures Texts(items)[..i + 1] == Texts(items[..i + 1])
  {
  }

  method CheckConsumers(v: Json, rules: Rules) returns (c: Check)
    ensures c.Pass? <==> ConsumersOk(v, rules)
  {
    if !v.Arr? || v.items == [] {
      return Fail(ConsumerMissing);
    }
    var consumers: seq<string> := [];
    for i := 0 to |v.items|
      invariant consumers == Texts(v.items[..i])
      invariant forall j :: 0 <= j < i ==> rules.consumer(v.items[j]).Pass?
    {
      c := rules.consumer(v.items[i]);
      if !c.Pass? {
        return;
      }
      TextsSnoc(v.items, i);
      consumers := consumers + [TextOf(v.items[i])];
    }
    assert v.items[..|v.items|] == v.items;
    SetSize(consumers);
    if |consumers| != |Members(consumers)| {
      return Fail(DuplicateConsumer);
    }
    return Pass;
  }

  lemma {:induction false} NotFreshPrefix(xs: seq<string>, n: nat, seen: set<string>)
    requires n < |xs| && (xs[n] in Members(xs[..n]) || xs[n] in seen)
    ensures !(NoDuplicates(xs) && Members(xs) !! seen)
  {
    if NoDuplicates(xs) {
      PrefixDistinct(xs, n + 1);
      assert xs[..n + 1] == xs[..n] + [xs[n]];
      SnocDistinct(xs[..n], xs[n]);
      assert xs[n] in Members(xs);
    }
  }

  /** One row's outputs, added to those seen before; `repeated` says that one of them was seen. */
  method CheckOutputs(items: seq<Json>, rules: Rules, seen: set<string>)
    returns (c: Check, repeated: bool, seenAfter: set<string>, outputs: seq<string>)
    ensures c.Pass? && !repeated <==> OutputsOk(items, rules) && NoDuplicates(Texts(items)) && Members(Texts(items)) !! seen
    ensures c.Pass? && !repeated ==> outputs == Texts(items) && seenAfter == seen + Members(outputs)
    ensures repeated ==> !(NoDuplicates(Texts(items)) && Members(Texts(items)) !! seen)
  {
    seenAfter, outputs, repeated := seen, [], false;
    for i := 0 to |items|
      invariant outputs == Texts(items[..i]) && seenAfter == seen + Members(outputs) && !repeated
      invariant NoDuplicates(outputs) && Members(outputs) !! seen
      invariant forall j :: 0 <= j < i ==> rules.outputName(items[j]).Pass? && rules.isFile(TextOf(items[j]))
    {
      c := rules.outputName(items[i]);
      if !c.Pass? {
        return;
      }
      var output := TextOf(items[i]);
      SnocDistinct(outputs, output);
      TextsSnoc(items, i);
      if output in seenAfter {
        assert Texts(items)[..i] == outputs;
        NotFreshPrefix(Texts(items), i, seen);
        return Pass, true, seenAfter, outputs;
      }
      seenAfter := seenAfter + {output};
      outputs := outputs + [output];
      if !rules.isFile(output) {
        return Fail(OutputMissing), false, seenAfter, outputs;
      }
    }
    assert items[..|items|] == items;
    return Pass, false, seenAfter, outputs;
  }

  method CheckGeneratedOutputs(items: seq<Json>, rules: Rules, header: string, plugins: seq<string>, before: seq<string>)
    returns (c: Check, generated: seq<string>)
    ensures c.Pass? <==> forall i :: 0 <= i < |items| ==> rules.generated(items[i], header, plugins).Pass?
    ensures c.Pass? ==> generated == before + Texts(items)
  {
    generated := before;
    for i := 0 to |items|
      invariant generated == before + Texts(items[..i])
      invariant forall j :: 0 <= j < i ==> rules.generated(items[j], header, plugins).Pass?
    {
      c := rules.generated(items[i], header, plugins);
      if !c.Pass? {
        return;
      }
      TextsSnoc(items, i);
      generated := generated + [TextOf(items[i])];
    }
    assert items[..|items|] == items;
    c := Pass;
  }

  method CheckGeneration(v: Json, rules: Rules, source: string, names: set<string>, before: seq<string>)
    returns (c: Check, name: string, generated: seq<string>)
    ensures c.Pass? <==> KeyedGenerationOk(v, rules, source) && GenerationName(v) !in names
    ensures c.Pass? ==> generated == before + GenerationOutputs(v)
    ensures name == GenerationName(v)
  {
    generated, name := before, GenerationName(v);
    c := KeyCheck(v, GENERATION_KEYS);
    if !c.Pass? {
      return;
    }
    var g := ReadGeneration(v);
    if !g.name.Str? || name == "" || name in names {
      return Fail(GenerationNameInvalid), name, generated;
    }
    if !rules.path(g.includeRoot, true) || !rules.path(g.outputRoot, true) {
      return Fail(PathInvalid), name, generated;
    }
    var header := rules.header(source, TextOf(g.includeRoot));
    if header.None? {
      return Fail(IncludeRootInvalid), name, generated;
    }
    c := rules.plugins(g.plugins);
    if !c.Pass? {
      return;
    }
    if !rules.options(g.options, g.plugins) {
      return Fail(OptionsInvalid), name, generated;
    }
    if !g.outputs.Arr? || g.outputs.items == [] {
      return Fail(GenerationOutputsEmpty), name, generated;
    }
    c, generated := CheckGeneratedOutputs(g.outputs.items, rules, header.value, Texts(ItemsOf(g.plugins)), before);
  }

  /** The reading and the judgement of single generations, kept abstract for the loop over them. */
  ghost predicate ReadsGenerations(gs: seq<Json>, rules: Rules, source: string, oks: seq<bool>, names: seq<string>, lists: seq<seq<string>>) {
    |oks| == |names| == |lists| == |gs|
    && (forall i {:trigger KeyedGenerationOk(gs[i], rules, source)} :: 0 <= i < |gs| ==> oks[i] == KeyedGenerationOk(gs[i], rules, source))
    && (forall i {:trigger GenerationName(gs[i])} :: 0 <= i < |gs| ==> names[i] == GenerationName(gs[i]))
    && (forall i {:trigger GenerationOutputs(gs[i])} :: 0 <= i < |gs| ==> lists[i] == GenerationOutputs(gs[i]))
  }

  method CheckGenerationAt(
      gs: seq<Json>, i: nat, rules: Rules, source: string, seen: set<string>, before: seq<string>,
      ghost oks: seq<bool>, ghost names: seq<string>, ghost lists: seq<seq<string>>)
    returns (c: Check, name: string, generated: seq<string>)
    requires ReadsGenerations(gs, rules, source, oks, names, lists) && i < |gs|
    ensures c.Pass? <==> oks[i] && name !in seen
    ensures c.Pass? ==> generated == before + lists[i]
    ensures name == names[i]
  {
    c, name, generated := CheckGeneration(gs[i], rules, source, seen, before);
  }

  method CheckGenerations(
      gs: seq<Json>, rules: Rules, source: string, ghost oks: seq<bool>, ghost names: seq<string>, ghost lists: seq<seq<string>>)
    returns (c: Check, generated: seq<string>, count: nat)
    requires ReadsGenerations(gs, rules, source, oks, names, lists)
    ensures c.Pass? <==> (forall i :: 0 <= i < |oks| ==> oks[i]) && NoDuplicates(names)
    ensures c.Pass? ==> generated == Concat(lists) && count == |gs|
  {
    generated, count := [], 0;
    var seen: set<string> := {};
    for i := 0 to |gs|
      invariant generated == Concat(lists[..i]) && count == i
      invariant seen == Members(names[..i]) && NoDuplicates(names[..i])
      invariant forall j :: 0 <= j < i ==> oks[j]
    {
      count := count + 1;
      var name;
      c, name, generated := CheckGenerationAt(gs, i, rules, source, seen, generated, oks, names, lists);
      assert lists[..i + 1] == lists[..i] + [lists[i]] && names[..i + 1] == names[..i] + [name];
      ConcatSnoc(lists[..i], lists[i]);
      SnocDistinct(names[..i], name);
      if !c.Pass? {
        if NoDuplicates(names) {
          PrefixDistinct(names, i + 1);
        }
        return;
      }
      seen := seen + {name};
    }
    assert lists[..|gs|] == lists && names[..|gs|] == names;
    c := Pass;
  }

  function Judged(gs: seq<Json>, rules: Rules, source: string): (r: seq<bool>)
    ensures |r| == |gs| && forall i :: 0 <= i < |gs| ==> r[i] == KeyedGenerationOk(gs[i], rules, source)
  {
    seq(|gs|, i requires 0 <= i < |gs| => KeyedGenerationOk(gs[i], rules, source))
  }

  method CheckAllGenerations(gs: seq<Json>, rules: Rules, source: string) returns (c: Check, generated: seq<string>, count: nat)
    ensures c.Pass? <==> GenerationsOk(gs, rules, source)
    ensures c.Pass? ==> generated == Concat(GeneratedLists(gs)) && count == |gs|
  {
    c, generated, count := CheckGenerations(gs, rules, source, Judged(gs, rules, source), Names(gs), GeneratedLists(gs));
  }

  lemma {:induction false} ModesDiffer(row: Row)
    ensures !(Managed(row) && SourceOnly(row))
  {
    assert |"managed"| != |"source-only"|;
  }

  /** The outputs the generations list are the declared ones, each once. */
  method CheckPartition(generated: seq<string>, outputs: seq<string>) returns (c: Check)
    ensures c.Pass? <==> NoDuplicates(generated) && multiset(generated) == multiset(outputs)
  {
    SortedAlike(generated, outputs);
    SetSize(generated);
    if Sort(generated, StrLe) != Sort(outputs, StrLe) || |generated| != |Members(generated)| {
      return Fail(PartitionMismatch);
    }
    return Pass;
  }

  method CheckMode(row: Row, rules: Rules, outputs: seq<string>) returns (c: Check, generationCount: nat)
    requires outputs == Texts(ItemsOf(row.outputs))
    ensures c.Pass? <==> ModeOk(row, rules)
    ensures c.Pass? ==> generationCount == |ItemsOf(row.generations)|
  {
    generationCount := 0;
    var gs := ItemsOf(row.generations);
    ModesDiffer(row);
    if SourceOnly(row) {
      if outputs != [] || gs != [] {
        return Fail(SourceOnlyOutputs), 0;
      }
      return Pass, 0;
    }
    if !Managed(row) {
      return Fail(ModeInvalid), 0;
    }
    if outputs == [] {
      return Fail(ManagedOutputsEmpty), 0;
    }
    if gs == [] {
      return Fail(GenerationsEmpty), 0;
    }
    var generated;
    c, generated, generationCount := CheckAllGenerations(gs, rules, TextOf(row.source));
    if !c.Pass? {
      return;
    }
    c := CheckPartition(generated, outputs);
  }

  /** The checks before the outputs of a row; `repeated` says that its source was seen. */
  method CheckFront(row: Row, rules: Rules, seen: set<string>) returns (c: Check, repeated: bool)
    ensures c.Pass? && !repeated <==> FrontOk(row, rules) && TextOf(row.source) !in seen
    ensures repeated ==> TextOf(row.source) in seen
  {
    if !rules.path(row.source, false) || !rules.path(row.includeRoot, true) {
      return Fail(PathInvalid), false;
    }
    var source := TextOf(row.source);
    if source in seen {
      return Pass, true;
    }
    repeated := false;
    if !rules.isFile(source) {
      return Fail(SourceMissing), false;
    }
    if rules.header(source, TextOf(row.includeRoot)).None? {
      return Fail(IncludeRootInvalid), false;
    }
    c := CheckConsumers(row.consumers, rules);
    if !c.Pass? {
      return;
    }
    if !rules.reason(row.reason) {
      return Fail(ReasonMissing), false;
    }
    if !row.outputs.Arr? || !row.generations.Arr? {
      return Fail(SchemaInvalid), false;
    }
  }

  /** What a row does to the sources and outputs seen so far. */
  datatype Verdict = Fine(generationCount: nat, seenAfter: set<string>) | SourceRepeated | OutputRepeated | Wrong(check: Check)

  /** One row against the sources and outputs seen before it. */
  method CheckRow(v: Json, rules: Rules, seenSources: set<string>, seenOutputs: set<string>) returns (r: Verdict)
    ensures r.Fine? <==> RowOk(v, rules) && Fresh(View(v), seenSources, seenOutputs)
    ensures r.Fine? ==> r.seenAfter == seenOutputs + Members(View(v).outputs) && r.generationCount == |View(v).generations|
    ensures r.SourceRepeated? || r.OutputRepeated? ==> !Fresh(View(v), seenSources, seenOutputs)
  {
    var row := ReadRow(v);
    if !HasKeys(v, ROW_KEYS) {
      return Wrong(Fail(SchemaInvalid));
    }
    var c, repeated := CheckFront(row, rules, seenSources);
    if repeated {
      return SourceRepeated;
    }
    if !c.Pass? {
      return Wrong(c);
    }
    var outputs, seenAfter;
    c, repeated, seenAfter, outputs := CheckOutputs(row.outputs.items, rules, seenOutputs);
    if repeated {
      return OutputRepeated;
    }
    if !c.Pass? {
      return Wrong(c);
    }
    var generationCount;
    c, generationCount := CheckMode(row, rules, outputs);
    return if c.Pass? then Fine(generationCount, seenAfter) else Wrong(c);
  }
}
