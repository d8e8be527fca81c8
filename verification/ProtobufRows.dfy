/** The dispositions of the protobuf toolchain manifest, with the rules for single values kept as parameters. */
module ProtobufRows {
  import opened JsonValues
  import opened Distinctness
  import opened ExactCover

  /** What is wrong with one value of a disposition. */
  datatype Fault =
    | SchemaInvalid | PathInvalid | SourceMissing | IncludeRootInvalid | ConsumerMissing | DuplicateConsumer
    | ReasonMissing | OutputPathInvalid | OutputMissing | SourceOnlyOutputs | ModeInvalid | ManagedOutputsEmpty
    | GenerationsEmpty | GenerationNameInvalid | PluginsInvalid | OptionsInvalid | GenerationOutputsEmpty
    | HeaderVersion | HeaderSourceWrong | HeaderPlugin | PartitionMismatch

  /** A check passes, fails, or stops on an exception other than the contract error. */
  datatype Check = Pass | Fail(fault: Fault) | Raise

  /** The checks of single values and of the files they name. */
  datatype Rules = Rules(
    path: (Json, bool) -> bool,
    header: (string, string) -> Option<string>,
    isFile: string -> bool,
    consumer: Json -> Check,
    reason: Json -> bool,
    outputName: Json -> Check,
    plugins: Json -> Check,
    options: (Json, Json) -> bool,
    generated: (Json, string, seq<string>) -> Check)

  const ROW_KEYS: set<string> := {"source", "mode", "includeRoot", "outputs", "consumers", "reason", "generations"}
  const GENERATION_KEYS: set<string> := {"name", "includeRoot", "outputRoot", "plugins", "options", "outputs"}

  function ItemsOf(v: Json): seq<Json> { if v.Arr? then v.items else [] }

  predicate HasKeys(v: Json, keys: set<string>) { v.Obj? && Keys(v.fields) == keys }

  /** `require_exact_keys`: `set(value)` also accepts strings and lists, which fail or stop later. */
  function KeyCheck(v: Json, keys: set<string>): Check {
    match v
    case Obj(fs) => if Keys(fs) == keys then Pass else Fail(SchemaInvalid)
    case Str(s) => Fail(SchemaInvalid)
    case Arr(items) =>
      if exists i :: 0 <= i < |items| && (items[i].Arr? || items[i].Obj?) then Raise
      else if (forall i :: 0 <= i < |items| ==> items[i].Str?) && Members(Texts(items)) == keys then Raise
      else Fail(SchemaInvalid)
    case _ => Raise
  }

  // ---------------------------------------------------------------- generations

  datatype Generation = Generation(name: Json, includeRoot: Json, outputRoot: Json, plugins: Json, options: Json, outputs: Json)

  function ReadGeneration(v: Json): Generation {
    Generation(Get(v, "name"), Get(v, "includeRoot"), Get(v, "outputRoot"), Get(v, "plugins"), Get(v, "options"), Get(v, "outputs"))
  }

  predicate GenerationOk(g: Generation, rules: Rules, source: string) {
    var header := rules.header(source, TextOf(g.includeRoot));
    && g.name.Str? && g.name.s != ""
    && rules.path(g.includeRoot, true) && rules.path(g.outputRoot, true) && header.Some?
    && rules.plugins(g.plugins).Pass? && rules.options(g.options, g.plugins)
    && g.outputs.Arr? && g.outputs.items != []
    && forall i :: 0 <= i < |g.outputs.items| ==>
         rules.generated(g.outputs.items[i], header.value, Texts(ItemsOf(g.plugins))).Pass?
  }

  predicate KeyedGenerationOk(v: Json, rules: Rules, source: string) {
    HasKeys(v, GENERATION_KEYS) && GenerationOk(ReadGeneration(v), rules, source)
  }

  function GenerationName(v: Json): string { TextOf(ReadGeneration(v).name) }

  function GenerationOutputs(v: Json): seq<string> { Texts(ItemsOf(ReadGeneration(v).outputs)) }

  function Names(gs: seq<Json>): (r: seq<string>)
    ensures |r| == |gs| && forall i :: 0 <= i < |gs| ==> r[i] == GenerationName(gs[i])
  {
    seq(|gs|, i requires 0 <= i < |gs| => GenerationName(gs[i]))
  }

  function GeneratedLists(gs: seq<Json>): (r: seq<seq<string>>)
    ensures |r| == |gs| && forall i :: 0 <= i < |gs| ==> r[i] == GenerationOutputs(gs[i])
  {
    seq(|gs|, i requires 0 <= i < |gs| => GenerationOutputs(gs[i]))
  }

  predicate GenerationsOk(gs: seq<Json>, rules: Rules, source: string) {
    (forall i :: 0 <= i < |gs| ==> KeyedGenerationOk(gs[i], rules, source)) && NoDuplicates(Names(gs))
  }

  // ---------------------------------------------------------------- rows

  datatype Row = Row(source: Json, mode: Json, includeRoot: Json, outputs: Json, consumers: Json, reason: Json, generations: Json)

  function ReadRow(v: Json): Row {
    Row(Get(v, "source"), Get(v, "mode"), Get(v, "includeRoot"), Get(v, "outputs"), Get(v, "consumers"), Get(v, "reason"),
        Get(v, "generations"))
  }

  predicate Managed(row: Row) { row.mode == Str("managed") }

  predicate SourceOnly(row: Row) { row.mode == Str("source-only") }

  predicate HeadOk(row: Row, rules: Rules) {
    rules.path(row.source, false) && rules.path(row.includeRoot, true)
    && rules.isFile(TextOf(row.source)) && rules.header(TextOf(row.source), TextOf(row.includeRoot)).Some?
  }

  predicate ConsumersOk(v: Json, rules: Rules) {
    v.Arr? && v.items != [] && (forall i :: 0 <= i < |v.items| ==> rules.consumer(v.items[i]).Pass?)
    && NoDuplicates(Texts(v.items))
  }

  predicate FrontOk(row: Row, rules: Rules) {
    HeadOk(row, rules) && ConsumersOk(row.consumers, rules) && rules.reason(row.reason)
    && row.outputs.Arr? && row.generations.Arr?
  }

  predicate OutputsOk(items: seq<Json>, rules: Rules) {
    forall i :: 0 <= i < |items| ==> rules.outputName(items[i]).Pass? && rules.isFile(TextOf(items[i]))
  }

  function RowView(row: Row): Entry {
    Entry(TextOf(row.source), Managed(row), Texts(ItemsOf(row.outputs)), GeneratedLists(ItemsOf(row.generations)))
  }

  predicate ModeOk(row: Row, rules: Rules) {
    (SourceOnly(row)
     || (Managed(row) && ItemsOf(row.outputs) != [] && GenerationsOk(ItemsOf(row.generations), rules, TextOf(row.source))))
    && Partitioned(RowView(row))
  }

  /** Everything a row must meet by itself. */
  predicate RowOk(v: Json, rules: Rules) {
    var row := ReadRow(v);
    HasKeys(v, ROW_KEYS) && FrontOk(row, rules) && OutputsOk(ItemsOf(row.outputs), rules) && ModeOk(row, rules)
  }

  function View(v: Json): Entry { RowView(ReadRow(v)) }
}
