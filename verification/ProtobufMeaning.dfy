/** What an accepted protobuf manifest says, told from its JSON and from the texts of the generated files. */
module ProtobufMeaning {
  import opened Text
  import opened JsonValues
  import opened JsonPositions
  import opened Distinctness
  import opened ExactCover
  import opened ProtobufRows
  import opened ProtobufRules
  import ProtobufCover

  // ---------------------------------------------------------------- paths

  predicate PlainPart(part: string) { part != "" && part != "." && part != ".." && '/' !in part }

  /** A relative path is safe exactly when it is made of plain parts and has no backslash; `.` alone is safe where allowed. */
  lemma {:induction false} SafeExactly(s: string, allowDot: bool)
    ensures SafePath(s, allowDot) <==>
      (s == "." && allowDot)
      || ('\\' !in s && exists parts :: parts != [] && (forall i :: 0 <= i < |parts| ==> PlainPart(parts[i])) && s == Join(parts, '/'))
  {
    if SafePath(s, allowDot) && s != "." {
      var parts := Split(s, '/');
      JoinSplit(s, '/');
      SplitParts(s, '/');
      forall i | 0 <= i < |parts| ensures PlainPart(parts[i]) {
        assert parts[i] in parts && Free(parts[i], '/');
      }
    }
    if '\\' !in s && exists parts :: parts != [] && (forall i :: 0 <= i < |parts| ==> PlainPart(parts[i])) && s == Join(parts, '/') {
      var parts :| parts != [] && (forall i :: 0 <= i < |parts| ==> PlainPart(parts[i])) && s == Join(parts, '/');
      forall i | 0 <= i < |parts| ensures Free(parts[i], '/') {
        assert PlainPart(parts[i]);
      }
      SplitJoin(parts, '/');
      PlainJoined(parts);
    }
  }

  lemma {:induction false} PlainJoined(parts: seq<string>)
    requires parts != [] && forall i :: 0 <= i < |parts| ==> PlainPart(parts[i])
    ensures Join(parts, '/') != "" && Join(parts, '/') != "."
  {
    assert PlainPart(parts[0]);
    if |parts| > 1 {
      assert Join(parts, '/')[|parts[0]|] == '/';
    }
  }

  /** The source of a header: what follows the include root and a slash, or the whole path below the root `.`. */
  lemma {:induction false} HeaderSourceExactly(source: string, root: string, t: string)
    ensures HeaderSource(source, root) == Some(t) <==>
      if root == "." then t == source else source == root + "/" + t || (source == root && t == ".")
  {
    if root != "." && source == root + "/" + t {
      assert source[|root| + 1..] == t;
    }
  }

  // ---------------------------------------------------------------- headers

  predicate StandsIn(text: string, p: string, i: int) {
    0 <= i && i + |p| <= |text| && forall j :: 0 <= j < |p| ==> text[i + j] == p[j]
  }

  lemma {:induction false} ContainsExactly(text: string, p: string)
    ensures Contains(text, p) <==> exists i :: StandsIn(text, p, i)
  {
    if p <= text {
      assert StandsIn(text, p, 0);
    } else if text != "" {
      var rest := text[1..];
      ContainsExactly(rest, p);
      if i :| StandsIn(rest, p, i) {
        assert StandsIn(text, p, i + 1);
      }
      if i :| StandsIn(text, p, i) {
        NotAtStart(text, p, i);
        assert StandsIn(rest, p, i - 1);
      }
    }
  }

  lemma {:induction false} NotAtStart(text: string, p: string, i: int)
    requires StandsIn(text, p, i) && !(p <= text)
    ensures i > 0
  {
  }

  /** The header names the compiler version, the source and the plugin that belongs to the output's name. */
  predicate HeaderFine(output: string, text: string, source: string, plugins: seq<string>) {
    var grpc := EndsWith(output, "_grpc.pb.go");
    && (Contains(text, "protoc        v4.25.1") || Contains(text, "protoc             v4.25.1"))
    && Contains(text, "source: " + source)
    && (grpc ==> "go-grpc" in plugins && Contains(text, "protoc-gen-go-grpc v1.6.2"))
    && (!grpc ==> "go" in plugins && Contains(text, "protoc-gen-go v1.36.11"))
  }

  lemma {:induction false} HeaderExactly(output: string, text: string, source: string, plugins: seq<string>)
    ensures HeaderCheck(output, text, source, plugins).Pass? <==> HeaderFine(output, text, source, plugins)
  {
  }

  // ---------------------------------------------------------------- one generation

  /** A list of different plugins, each of them one of the two. */
  predicate PluginsFine(v: Json) {
    && v.Arr? && v.items != [] && (forall i :: 0 <= i < |v.items| ==> v.items[i] == Str("go") || v.items[i] == Str("go-grpc"))
    && forall i, j :: 0 <= i < j < |v.items| ==> v.items[i] != v.items[j]
  }

  /** Every plugin has options of its own, which are non-empty strings, and nothing else has. */
  ghost predicate OptionsFine(v: Json, plugins: Json) {
    && v.Obj? && plugins.Arr?
    && (forall key :: Has(v, key) <==> Str(key) in plugins.items)
    && forall i :: 0 <= i < |v.fields| ==>
         var values := v.fields[i].value;
         && values.Arr? && values.items != []
         && forall k :: 0 <= k < |values.items| ==> values.items[k].Str? && values.items[k] != Str("")
  }

  predicate OutputFine(v: Json, source: string, plugins: seq<string>, repo: Repo) {
    PathOk(v, false) && repo.header(v.s).Some? && HeaderFine(v.s, repo.header(v.s).value, source, plugins)
  }

  ghost predicate GenerationFine(v: Json, repo: Repo, source: string) {
    var header := HeaderSource(source, TextOf(Get(v, "includeRoot")));
    var outputs := Get(v, "outputs");
    && v.Obj? && Keys(v.fields) == {"name", "includeRoot", "outputRoot", "plugins", "options", "outputs"}
    && Get(v, "name").Str? && Get(v, "name") != Str("")
    && PathOk(Get(v, "includeRoot"), true) && PathOk(Get(v, "outputRoot"), true) && header.Some?
    && PluginsFine(Get(v, "plugins")) && OptionsFine(Get(v, "options"), Get(v, "plugins"))
    && outputs.Arr? && outputs.items != []
    && forall i :: 0 <= i < |outputs.items| ==> OutputFine(outputs.items[i], header.value, Texts(Get(v, "plugins").items), repo)
  }

  lemma {:induction false} PluginsExactly(v: Json)
    ensures PluginsCheck(v).Pass? <==> PluginsFine(v)
  {
    if v.Arr? && forall i :: 0 <= i < |v.items| ==> v.items[i].Str? {
      assert Texts(v.items) == Texts(v.items);
      if NoDuplicates(Texts(v.items)) {
        forall i, j | 0 <= i < j < |v.items| ensures v.items[i] != v.items[j] {
          assert Texts(v.items)[i] != Texts(v.items)[j];
        }
      }
    }
  }

  lemma {:induction false} OptionsExactly(v: Json, plugins: Json)
    requires PluginsFine(plugins)
    ensures OptionsOk(v, plugins) <==> OptionsFine(v, plugins)
  {
    if v.Obj? {
      var names := Members(Texts(plugins.items));
      forall key ensures key in names <==> Str(key) in plugins.items {
        if Str(key) in plugins.items {
          var i :| 0 <= i < |plugins.items| && plugins.items[i] == Str(key);
          assert Texts(plugins.items)[i] == key;
        }
        if key in names {
          var i :| 0 <= i < |plugins.items| && Texts(plugins.items)[i] == key;
        }
      }
      forall key ensures Has(v, key) <==> key in Keys(v.fields) {
        KeyPresent(v, key);
      }
      assert Keys(v.fields) == names <==> forall key :: Has(v, key) <==> Str(key) in plugins.items;
    }
  }

  lemma {:induction false} GeneratedExactly(v: Json, source: string, plugins: seq<string>, repo: Repo)
    ensures GeneratedCheck(v, source, plugins, repo).Pass? <==> OutputFine(v, source, plugins, repo)
  {
  }

  lemma {:induction false} GenerationExactly(v: Json, repo: Repo, source: string)
    ensures KeyedGenerationOk(v, Standard(repo), source) <==> GenerationFine(v, repo, source)
  {
    var plugins, outputs := Get(v, "plugins"), Get(v, "outputs");
    var header := HeaderSource(source, TextOf(Get(v, "includeRoot")));
    PluginsExactly(plugins);
    if PluginsFine(plugins) {
      OptionsExactly(Get(v, "options"), plugins);
      if outputs.Arr? && header.Some? {
        forall i | 0 <= i < |outputs.items|
          ensures GeneratedCheck(outputs.items[i], header.value, Texts(plugins.items), repo).Pass? <==>
            OutputFine(outputs.items[i], header.value, Texts(plugins.items), repo)
        {
          GeneratedExactly(outputs.items[i], header.value, Texts(plugins.items), repo);
        }
      }
    }
  }

  // ---------------------------------------------------------------- one disposition

  /** Different paths to files that are there. */
  predicate ConsumersFine(v: Json, repo: Repo) {
    && v.Arr? && v.items != [] && (forall i :: 0 <= i < |v.items| ==> PathOk(v.items[i], false) && repo.isPresent(v.items[i].s))
    && forall i, j :: 0 <= i < j < |v.items| ==> v.items[i] != v.items[j]
  }

  predicate OutputsFine(v: Json, repo: Repo) {
    v.Arr? && forall i :: 0 <= i < |v.items| ==> PathOk(v.items[i], false) && EndsWith(v.items[i].s, ".pb.go") && repo.isFile(v.items[i].s)
  }

  /** A managed disposition has outputs and generations of different names; a source-only one has neither. */
  ghost predicate ModeFine(v: Json, repo: Repo, source: string)
    requires Get(v, "outputs").Arr? && Get(v, "generations").Arr?
  {
    var outputs, generations := Get(v, "outputs").items, Get(v, "generations").items;
    || (Get(v, "mode") == Str("source-only") && outputs == [] && generations == [])
    || (&& Get(v, "mode") == Str("managed") && outputs != [] && generations != []
        && (forall i :: 0 <= i < |generations| ==> GenerationFine(generations[i], repo, source))
        && (forall i, j :: 0 <= i < j < |generations| ==> Get(generations[i], "name") != Get(generations[j], "name"))
        && Partitioned(View(v)))
  }

  ghost predicate RowFine(v: Json, repo: Repo) {
    var source, root := Get(v, "source"), Get(v, "includeRoot");
    && v.Obj? && Keys(v.fields) == {"source", "mode", "includeRoot", "outputs", "consumers", "reason", "generations"}
    && PathOk(source, false) && PathOk(root, true) && repo.isFile(source.s) && HeaderSource(source.s, root.s).Some?
    && ConsumersFine(Get(v, "consumers"), repo)
    && Get(v, "reason").Str? && |Trim(Get(v, "reason").s)| >= 12
    && OutputsFine(Get(v, "outputs"), repo) && Get(v, "generations").Arr?
    && ModeFine(v, repo, source.s)
  }

  lemma {:induction false} DifferentTexts(items: seq<Json>)
    requires forall i :: 0 <= i < |items| ==> items[i].Str?
    ensures NoDuplicates(Texts(items)) <==> forall i, j :: 0 <= i < j < |items| ==> items[i] != items[j]
  {
    if NoDuplicates(Texts(items)) {
      forall i, j | 0 <= i < j < |items| ensures items[i] != items[j] {
        assert Texts(items)[i] != Texts(items)[j];
      }
    }
  }

  lemma {:induction false} ConsumersExactly(v: Json, repo: Repo)
    ensures ConsumersOk(v, Standard(repo)) <==> ConsumersFine(v, repo)
  {
    if v.Arr? {
      forall i | 0 <= i < |v.items|
        ensures Standard(repo).consumer(v.items[i]).Pass? <==> PathOk(v.items[i], false) && repo.isPresent(v.items[i].s)
      {
      }
      if forall i :: 0 <= i < |v.items| ==> v.items[i].Str? {
        DifferentTexts(v.items);
      }
    }
  }

  lemma {:induction false} OutputsExactly(v: Json, repo: Repo)
    requires v.Arr?
    ensures OutputsOk(v.items, Standard(repo)) <==> OutputsFine(v, repo)
  {
    forall i | 0 <= i < |v.items|
      ensures Standard(repo).outputName(v.items[i]).Pass? <==> PathOk(v.items[i], false) && EndsWith(v.items[i].s, ".pb.go")
    {
    }
  }

  lemma {:induction false} NamesExactly(gs: seq<Json>)
    requires forall i :: 0 <= i < |gs| ==> Get(gs[i], "name").Str?
    ensures NoDuplicates(Names(gs)) <==> forall i, j :: 0 <= i < j < |gs| ==> Get(gs[i], "name") != Get(gs[j], "name")
  {
    if NoDuplicates(Names(gs)) {
      forall i, j | 0 <= i < j < |gs| ensures Get(gs[i], "name") != Get(gs[j], "name") {
        assert Names(gs)[i] != Names(gs)[j];
      }
    }
  }

  lemma {:induction false} GenerationsExactly(gs: seq<Json>, repo: Repo, source: string)
    ensures GenerationsOk(gs, Standard(repo), source) <==>
      (forall i :: 0 <= i < |gs| ==> GenerationFine(gs[i], repo, source))
      && forall i, j :: 0 <= i < j < |gs| ==> Get(gs[i], "name") != Get(gs[j], "name")
  {
    forall i | 0 <= i < |gs| ensures KeyedGenerationOk(gs[i], Standard(repo), source) <==> GenerationFine(gs[i], repo, source) {
      GenerationExactly(gs[i], repo, source);
    }
    if forall i :: 0 <= i < |gs| ==> GenerationFine(gs[i], repo, source) {
      NamesExactly(gs);
    }
  }

  lemma {:induction false} ModeExactly(v: Json, repo: Repo, source: string)
    requires Get(v, "outputs").Arr? && Get(v, "generations").Arr? && Get(v, "source") == Str(source)
    ensures ModeOk(ReadRow(v), Standard(repo)) <==> ModeFine(v, repo, source)
  {
    GenerationsExactly(Get(v, "generations").items, repo, source);
    ModeParts(v, repo);
    PartsOfMode(v);
  }

  lemma {:induction false} ModeParts(v: Json, repo: Repo)
    requires Get(v, "outputs").Arr? && Get(v, "generations").Arr? && Get(v, "source").Str?
    ensures ModeOk(ReadRow(v), Standard(repo)) <==>
      Partitioned(View(v))
      && (Get(v, "mode") == Str("source-only")
          || (Get(v, "mode") == Str("managed") && Get(v, "outputs").items != []
              && GenerationsOk(Get(v, "generations").items, Standard(repo), Get(v, "source").s)))
  {
  }

  lemma {:induction false} PartsOfMode(v: Json)
    requires Get(v, "outputs").Arr? && Get(v, "generations").Arr?
    ensures Str("managed") != Str("source-only")
    ensures Get(v, "mode") == Str("source-only") ==>
      (Partitioned(View(v)) <==> Get(v, "outputs").items == [] && Get(v, "generations").items == [])
    ensures Get(v, "mode") == Str("managed") && Partitioned(View(v)) ==> Get(v, "generations").items != []
  {
    assert |"managed"| != |"source-only"|;
    assert |View(v).outputs| == |Get(v, "outputs").items| && |View(v).generations| == |Get(v, "generations").items|;
  }

  /** A disposition is right by itself exactly in this sense. */
  lemma {:induction false} RowExactly(v: Json, repo: Repo)
    ensures RowOk(v, Standard(repo)) <==> RowFine(v, repo)
  {
    ConsumersExactly(Get(v, "consumers"), repo);
    if Get(v, "outputs").Arr? && Get(v, "generations").Arr? && Get(v, "source").Str? {
      OutputsExactly(Get(v, "outputs"), repo);
      ModeExactly(v, repo, Get(v, "source").s);
    }
  }

  // ---------------------------------------------------------------- the cover, position by position

  /** A generation of a managed disposition lists the output. */
  ghost predicate ListsOutput(d: Json, i: nat, g: nat, k: nat, output: string) {
    && At(d, [Index(i), Key("generations"), Index(g), Key("outputs"), Index(k)]) == Some(Str(output))
    && At(d, [Index(i), Key("mode")]) == Some(Str("managed"))
  }

  lemma {:induction false} Below(v: Json, s: Step, path: Path)
    ensures At(v, [s] + path) == if Child(v, s).None? then None else At(Child(v, s).value, path)
  {
    assert ([s] + path)[1..] == path;
  }

  lemma {:induction false} OutputAt(v: Json, g: nat, k: nat)
    ensures At(v, [Key("generations"), Index(g), Key("outputs"), Index(k)]) ==
      (var gs := Get(v, "generations");
       if gs.Arr? && g < |gs.items| && Get(gs.items[g], "outputs").Arr? && k < |Get(gs.items[g], "outputs").items|
       then Some(Get(gs.items[g], "outputs").items[k]) else None)
  {
    var gs := Get(v, "generations");
    Below(v, Key("generations"), [Index(g), Key("outputs"), Index(k)]);
    Below(gs, Index(g), [Key("outputs"), Index(k)]);
    assert [Key("generations")] + [Index(g), Key("outputs"), Index(k)] == [Key("generations"), Index(g), Key("outputs"), Index(k)];
    assert [Index(g)] + [Key("outputs"), Index(k)] == [Index(g), Key("outputs"), Index(k)];
    if gs.Arr? && g < |gs.items| {
      var outs := Get(gs.items[g], "outputs");
      Below(gs.items[g], Key("outputs"), [Index(k)]);
      Below(outs, Index(k), []);
      assert [Key("outputs")] + [Index(k)] == [Key("outputs"), Index(k)] && [Index(k)] + [] == [Index(k)];
    }
  }

  /** What is known of the generations of a right disposition: lists of texts. */
  ghost predicate TextLists(v: Json) {
    var gs := Get(v, "generations");
    && gs.Arr? && forall g :: 0 <= g < |gs.items| ==>
         var outs := Get(gs.items[g], "outputs");
         outs.Arr? && forall k :: 0 <= k < |outs.items| ==> outs.items[k].Str?
  }

  lemma {:induction false} FineLists(v: Json, repo: Repo)
    requires RowFine(v, repo)
    ensures TextLists(v) && (Get(v, "mode") == Str("managed") || Get(v, "generations").items == [])
  {
    var gs := Get(v, "generations").items;
    forall g | 0 <= g < |gs|
      ensures Get(gs[g], "outputs").Arr? && forall k :: 0 <= k < |Get(gs[g], "outputs").items| ==> Get(gs[g], "outputs").items[k].Str?
    {
      assert GenerationFine(gs[g], repo, Get(v, "source").s);
    }
  }

  lemma {:induction false} HeldAt(v: Json, g: nat, k: nat, output: string)
    requires TextLists(v)
    ensures Holds(View(v).generations, g, k, output) <==>
      At(v, [Key("generations"), Index(g), Key("outputs"), Index(k)]) == Some(Str(output))
  {
    OutputAt(v, g, k);
  }

  lemma {:induction false} InRow(d: Json, i: nat, path: Path)
    requires d.Arr?
    ensures At(d, [Index(i)] + path) == if i < |d.items| then At(d.items[i], path) else None
  {
    Below(d, Index(i), path);
  }

  lemma {:induction false} ListedInRow(d: Json, i: nat, g: nat, k: nat, output: string)
    requires d.Arr?
    ensures ListsOutput(d, i, g, k, output) <==>
      i < |d.items| && At(d.items[i], [Key("generations"), Index(g), Key("outputs"), Index(k)]) == Some(Str(output))
      && Get(d.items[i], "mode") == Str("managed")
  {
    InRow(d, i, [Key("generations"), Index(g), Key("outputs"), Index(k)]);
    InRow(d, i, [Key("mode")]);
    assert [Index(i)] + [Key("generations"), Index(g), Key("outputs"), Index(k)]
        == [Index(i), Key("generations"), Index(g), Key("outputs"), Index(k)];
    assert [Index(i)] + [Key("mode")] == [Index(i), Key("mode")];
    if i < |d.items| {
      Below(d.items[i], Key("mode"), []);
      assert [Key("mode")] + [] == [Key("mode")];
    }
  }

  lemma {:induction false} ProducesAt(d: Json, repo: Repo, i: nat, g: nat, k: nat, output: string)
    requires d.Arr? && forall j :: 0 <= j < |d.items| ==> RowFine(d.items[j], repo)
    ensures Produces(ProtobufCover.Views(d.items), i, g, k, output) <==> ListsOutput(d, i, g, k, output)
  {
    ListedInRow(d, i, g, k, output);
    if i < |d.items| {
      FineLists(d.items[i], repo);
      HeldAt(d.items[i], g, k, output);
    }
  }

  lemma {:induction false} RowsFine(d: Json, repo: Repo, sources: set<string>, outputs: set<string>)
    requires ProtobufCover.Acceptable(d, Standard(repo), sources, outputs)
    ensures d.Arr? && forall i :: 0 <= i < |d.items| ==> RowFine(d.items[i], repo)
  {
    forall i | 0 <= i < |d.items| ensures RowFine(d.items[i], repo) {
      assert RowOk(d.items[i], Standard(repo));
      RowExactly(d.items[i], repo);
    }
  }

  lemma {:induction false} FineSource(v: Json, repo: Repo)
    requires RowFine(v, repo)
    ensures Get(v, "source") == Str(View(v).source)
  {
  }

  lemma {:induction false} SourcesShown(d: Json, repo: Repo, sources: set<string>, outputs: set<string>, es: seq<Entry>)
    requires ProtobufCover.Acceptable(d, Standard(repo), sources, outputs) && es == ProtobufCover.Views(d.items)
    ensures forall i :: 0 <= i < |es| ==> Get(d.items[i], "source") == Str(es[i].source)
  {
    RowsFine(d, repo, sources, outputs);
    forall i | 0 <= i < |d.items| ensures Get(d.items[i], "source") == Str(es[i].source) {
      FineSource(d.items[i], repo);
    }
  }

  lemma {:induction false} SourcesMatch(items: seq<Json>, es: seq<Entry>, sources: set<string>)
    requires |es| == |items| && forall i :: 0 <= i < |es| ==> Get(items[i], "source") == Str(es[i].source)
    requires forall s :: s in sources <==> exists i :: 0 <= i < |es| && es[i].source == s
    ensures forall s :: s in sources <==> exists i :: 0 <= i < |items| && Get(items[i], "source") == Str(s)
  {
    forall s | s in sources ensures exists i :: 0 <= i < |items| && Get(items[i], "source") == Str(s) {
      var i :| 0 <= i < |es| && es[i].source == s;
      assert Get(items[i], "source") == Str(s);
    }
    forall s, i | 0 <= i < |items| && Get(items[i], "source") == Str(s) ensures s in sources {
      assert es[i].source == s;
    }
  }

  lemma {:induction false} SourcesAt(d: Json, repo: Repo, sources: set<string>, outputs: set<string>)
    requires ProtobufCover.Acceptable(d, Standard(repo), sources, outputs)
    ensures |d.items| == |sources| && forall s :: s in sources <==> exists i :: 0 <= i < |d.items| && Get(d.items[i], "source") == Str(s)
  {
    var es := ProtobufCover.Views(d.items);
    ProtobufCover.AcceptanceIsExactCover(d, Standard(repo), sources, outputs);
    SourcesShown(d, repo, sources, outputs, es);
    SourcesMatch(d.items, es, sources);
  }

  lemma {:induction false} OutputListed(d: Json, repo: Repo, sources: set<string>, outputs: set<string>, o: string)
    requires ProtobufCover.Acceptable(d, Standard(repo), sources, outputs)
    ensures o in outputs <==> exists i: nat, g: nat, k: nat :: ListsOutput(d, i, g, k, o)
  {
    ProtobufCover.AcceptanceIsExactCover(d, Standard(repo), sources, outputs);
    RowsFine(d, repo, sources, outputs);
    forall i: nat, g: nat, k: nat
      ensures Produces(ProtobufCover.Views(d.items), i, g, k, o) <==> ListsOutput(d, i, g, k, o)
    {
      ProducesAt(d, repo, i, g, k, o);
    }
  }

  /** An accepted output is listed at one place only. */
  lemma {:induction false} ListedOnce(
      d: Json, repo: Repo, sources: set<string>, outputs: set<string>, o: string,
      i: nat, g: nat, k: nat, i': nat, g': nat, k': nat)
    requires ProtobufCover.Acceptable(d, Standard(repo), sources, outputs)
    requires ListsOutput(d, i, g, k, o) && ListsOutput(d, i', g', k', o)
    ensures i == i' && g == g' && k == k'
  {
    RowsFine(d, repo, sources, outputs);
    ProducesAt(d, repo, i, g, k, o);
    ProducesAt(d, repo, i', g', k', o);
    ProtobufCover.AcceptedOutputHasOnePlace(d, Standard(repo), sources, outputs, o, i, g, k, i', g', k');
  }

  /** An accepted list of dispositions: each is right by itself; their sources are the tracked ones, each once; and the
      tracked outputs are exactly those that some generation of a managed disposition lists. */
  lemma {:induction false} CoverExactly(d: Json, repo: Repo, sources: set<string>, outputs: set<string>)
    requires ProtobufCover.Acceptable(d, Standard(repo), sources, outputs)
    ensures d.Arr? && |d.items| == |sources| && forall i :: 0 <= i < |d.items| ==> RowFine(d.items[i], repo)
    ensures forall s :: s in sources <==> exists i :: 0 <= i < |d.items| && Get(d.items[i], "source") == Str(s)
    ensures forall o :: o in outputs <==> exists i: nat, g: nat, k: nat :: ListsOutput(d, i, g, k, o)
  {
    RowsFine(d, repo, sources, outputs);
    SourcesAt(d, repo, sources, outputs);
    forall o ensures o in outputs <==> exists i: nat, g: nat, k: nat :: ListsOutput(d, i, g, k, o) {
      OutputListed(d, repo, sources, outputs, o);
    }
  }

  // ---------------------------------------------------------------- the counts

  function ManagedRows(d: Json): set<int>
    requires d.Arr?
  {
    set i | 0 <= i < |d.items| && Get(d.items[i], "mode") == Str("managed")
  }

  /** The positions of the generations in the list of dispositions. */
  function Generations(d: Json): set<(int, int)>
    requires d.Arr? && forall i :: 0 <= i < |d.items| ==> Get(d.items[i], "generations").Arr?
  {
    set i, g | 0 <= i < |d.items| && 0 <= g < |Get(d.items[i], "generations").items| :: (i, g)
  }

  function ManagedAt(es: seq<Entry>): set<int> { set i | 0 <= i < |es| && es[i].managed }

  function Places(es: seq<Entry>): set<(int, int)> { set i, g | 0 <= i < |es| && 0 <= g < |es[i].generations| :: (i, g) }

  lemma {:induction false} ManagedCounted(es: seq<Entry>)
    ensures ManagedCount(es) == |ManagedAt(es)|
  {
    if es != [] {
      var n := |es| - 1;
      ManagedCounted(es[..n]);
      assert ManagedAt(es) == ManagedAt(es[..n]) + if es[n].managed then {n} else {};
    }
  }

  lemma {:induction false} PlacesOfRow(i: int, n: nat)
    ensures |set g | 0 <= g < n :: (i, g)| == n
  {
    if n > 0 {
      PlacesOfRow(i, n - 1);
      assert (set g | 0 <= g < n :: (i, g)) == (set g | 0 <= g < n - 1 :: (i, g)) + {(i, n - 1)};
    }
  }

  lemma {:induction false} GenerationsCounted(es: seq<Entry>)
    ensures GenerationCount(es) == |Places(es)|
  {
    if es != [] {
      var n := |es| - 1;
      GenerationsCounted(es[..n]);
      PlacesOfRow(n, |es[n].generations|);
      var last := set g | 0 <= g < |es[n].generations| :: (n, g);
      assert Places(es) == Places(es[..n]) + last;
      assert Places(es[..n]) !! last;
    }
  }

  lemma {:induction false} RowCounts(v: Json, repo: Repo)
    requires RowFine(v, repo)
    ensures (View(v).managed <==> Get(v, "mode") == Str("managed"))
    ensures |View(v).generations| == |Get(v, "generations").items|
  {
  }

  lemma {:induction false} RowsCounted(d: Json, repo: Repo, sources: set<string>, outputs: set<string>, es: seq<Entry>)
    requires ProtobufCover.Acceptable(d, Standard(repo), sources, outputs) && es == ProtobufCover.Views(d.items)
    ensures forall i :: 0 <= i < |es| ==> (es[i].managed <==> Get(d.items[i], "mode") == Str("managed"))
    ensures forall i :: 0 <= i < |es| ==>
      Get(d.items[i], "generations").Arr? && |es[i].generations| == |Get(d.items[i], "generations").items|
  {
    RowsFine(d, repo, sources, outputs);
    forall i | 0 <= i < |es|
      ensures (es[i].managed <==> Get(d.items[i], "mode") == Str("managed"))
      ensures Get(d.items[i], "generations").Arr? && |es[i].generations| == |Get(d.items[i], "generations").items|
    {
      RowCounts(d.items[i], repo);
    }
  }

  lemma {:induction false} CountsShown(d: Json, es: seq<Entry>)
    requires d.Arr? && |es| == |d.items|
    requires forall i :: 0 <= i < |es| ==> (es[i].managed <==> Get(d.items[i], "mode") == Str("managed"))
    requires forall i :: 0 <= i < |es| ==>
      Get(d.items[i], "generations").Arr? && |es[i].generations| == |Get(d.items[i], "generations").items|
    ensures ManagedRows(d) == ManagedAt(es) && Generations(d) == Places(es)
  {
  }

  /** The counts of an accepted list: how many dispositions are managed, which is some but not all of them, and how many
      generations there are. */
  lemma {:induction false} CountsExactly(d: Json, repo: Repo, sources: set<string>, outputs: set<string>)
    requires ProtobufCover.Acceptable(d, Standard(repo), sources, outputs)
    ensures d.Arr? && forall i :: 0 <= i < |d.items| ==> Get(d.items[i], "generations").Arr?
    ensures ManagedCount(ProtobufCover.Views(d.items)) == |ManagedRows(d)| && 0 < |ManagedRows(d)| < |d.items|
    ensures GenerationCount(ProtobufCover.Views(d.items)) == |Generations(d)|
  {
    var es := ProtobufCover.Views(d.items);
    RowsCounted(d, repo, sources, outputs, es);
    CountsShown(d, es);
    ManagedCounted(es);
    GenerationsCounted(es);
  }
}
