/** The rules the protobuf validator applies to single values. */
module ProtobufRules {
  import opened Text
  import opened JsonValues
  import opened Distinctness
  import opened ExactCover
  import opened ProtobufRows
  import opened ProtobufCover

  /** The tracked files. `header` is the joined first eight lines, if the file can be read. */
  datatype Repo = Repo(isFile: string -> bool, isPresent: string -> bool, header: string -> Option<string>)

  const ALLOWED_PLUGINS: set<string> := {"go", "go-grpc"}

  /** A non-empty, relative, normalised path without `..` or backslashes. */
  predicate SafePath(s: string, allowDot: bool) {
    s != "" && '\\' !in s
    && if s == "." then allowDot else forall part :: part in Split(s, '/') ==> part != "" && part != "." && part != ".."
  }

  predicate PathOk(v: Json, allowDot: bool) { v.Str? && SafePath(v.s, allowDot) }

  /** `expected_header_source`: the source relative to the include root. */
  function HeaderSource(source: string, root: string): Option<string> {
    if root == "." then Some(source)
    else if source == root then Some(".")
    else if root + "/" <= source then Some(source[|root| + 1..])
    else None
  }

  function ConsumerCheck(v: Json, repo: Repo): Check {
    if !PathOk(v, false) then Fail(PathInvalid) else if !repo.isPresent(v.s) then Fail(ConsumerMissing) else Pass
  }

  predicate ReasonOk(v: Json) { v.Str? && |Trim(v.s)| >= 12 }

  function OutputName(v: Json): Check {
    if !PathOk(v, false) then Fail(PathInvalid) else if !EndsWith(v.s, ".pb.go") then Fail(OutputPathInvalid) else Pass
  }

  predicate PluginsOk(v: Json) {
    v.Arr? && v.items != [] && (forall i :: 0 <= i < |v.items| ==> v.items[i].Str? && v.items[i].s in ALLOWED_PLUGINS)
    && NoDuplicates(Texts(v.items))
  }

  /** Lists of unhashable plugins stop the validator when it builds a set of them. */
  function PluginsCheck(v: Json): Check {
    if !v.Arr? || v.items == [] then Fail(PluginsInvalid)
    else if exists i :: 0 <= i < |v.items| && (v.items[i].Arr? || v.items[i].Obj?) then Raise
    else if PluginsOk(v) then Pass
    else Fail(PluginsInvalid)
  }

  predicate OptionOk(v: Json) {
    v.Arr? && v.items != [] && forall i :: 0 <= i < |v.items| ==> v.items[i].Str? && v.items[i].s != ""
  }

  predicate OptionsOk(v: Json, plugins: Json) {
    v.Obj? && Keys(v.fields) == Members(Texts(ItemsOf(plugins))) && forall i :: 0 <= i < |v.fields| ==> OptionOk(v.fields[i].value)
  }

  function VersionLine(wide: bool): string {
    if wide then "protoc             v4.25.1" else "protoc        v4.25.1"
  }

  /** What the header of a generated file must say. */
  function HeaderCheck(output: string, text: string, source: string, plugins: seq<string>): Check {
    if !Contains(text, VersionLine(false)) && !Contains(text, VersionLine(true)) then Fail(HeaderVersion)
    else if !Contains(text, "source: " + source) then Fail(HeaderSourceWrong)
    else if EndsWith(output, "_grpc.pb.go") then
      if "go-grpc" in plugins && Contains(text, "protoc-gen-go-grpc v1.6.2") then Pass else Fail(HeaderPlugin)
    else if "go" in plugins && Contains(text, "protoc-gen-go v1.36.11") then Pass
    else Fail(HeaderPlugin)
  }

  /** The output is a safe path to a readable file with the right header. */
  function GeneratedCheck(v: Json, source: string, plugins: seq<string>, repo: Repo): Check {
    if !PathOk(v, false) then Fail(PathInvalid)
    else
      var text := repo.header(v.s);
      if text.None? then Raise else HeaderCheck(v.s, text.value, source, plugins)
  }

  function Standard(repo: Repo): Rules {
    Rules(PathOk, HeaderSource, repo.isFile, v => ConsumerCheck(v, repo), ReasonOk, OutputName, PluginsCheck, OptionsOk,
          (v, source, plugins) => GeneratedCheck(v, source, plugins, repo))
  }

  /** `validate_manifest` after the manifest's own integrity checks. */
  method Validate(dispositions: Json, repo: Repo, sources: set<string>, outputs: set<string>) returns (r: Outcome)
    ensures r.Accepted? <==> Acceptable(dispositions, Standard(repo), sources, outputs)
    ensures r.Accepted? ==> r.summary == Summary(
      |sources|, |outputs|, |dispositions.items|, ManagedCount(Views(dispositions.items)),
      |dispositions.items| - ManagedCount(Views(dispositions.items)), GenerationCount(Views(dispositions.items)))
  {
    r := ValidateManifest(dispositions, Standard(repo), sources, outputs);
  }
}
