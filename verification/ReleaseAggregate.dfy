/** The aggregate over all release reports. */
module ReleaseAggregate {
  import opened JsonValues
  import opened Descriptors
  import opened Distinctness
  import opened ReportDirectory
  import opened SurfaceCollection
  import Redaction

  const REQUIRED: seq<string> := [
    "build-identity", "readiness", "deployment", "http-runtime", "frontend-transport",
    "frontend-exposure", "protobuf", "migration-static", "migration-ledger", "migration-replay"
  ]

  /** Canonical source, consumer and version that each surface must report. */
  function ExpectedKey(surface: string): Option<(string, string, string)> {
    match surface
    case "build-identity" => Some(("config/release/contract.v1.json", "binary-oci-packaged-contract-inspector", "v1"))
    case "readiness" => Some(("config/release/contract.v1.json", "runtime-readiness-inspector", "v1"))
    case "deployment" => Some(("deploy/kubernetes/app-deployment.yaml", "readiness-deployment-harness", "v1"))
    case "http-runtime" => Some(("docs/api/openapi.yaml", "runtime-route-registry", "v1"))
    case "frontend-transport" => Some(("src/web/src", "frontend-transport-verifier", "v1"))
    case "frontend-exposure" => Some(("src/web/src", "product-exposure-verifier", "v1"))
    case "protobuf" => Some(("config/release/protobuf-toolchain.v1.json", "tracked-protobuf-generated-consumers", "v1"))
    case "migration-static" => Some(("src/server/migrations", "monolith-migration-static-inventory", "v1"))
    case "migration-ledger" => Some(("schema_migrations(version,checksum)", "monolith-runtime-ledger", "v1"))
    case "migration-replay" =>
      Some(("src/server/migrations+schema_migrations(version,checksum)", "monolith-migration-replay", "v1"))
    case _ => None
  }

  // ---------------------------------------------------------------- one report

  /** `exact_keys`. */
  predicate ExactKeys(j: Json, keys: set<string>) { j.Obj? && Keys(j.fields) == keys }

  const REPORT_KEYS := {"schemaVersion", "releaseIdentity", "surfaceIdentity", "drift", "evidence", "outcome"}

  predicate ReportShape(j: Json) { ExactKeys(j, REPORT_KEYS) }

  predicate IsHex(c: char) { '0' <= c <= '9' || 'a' <= c <= 'f' }

  predicate IsDigest(s: string) {
    |s| == 71 && "sha256:" <= s && forall i :: 7 <= i < 71 ==> IsHex(s[i])
  }

  predicate IsCommit(s: string) {
    |s| == 40 && forall i :: 0 <= i < 40 ==> IsHex(s[i])
  }

  /** Python's `x == False`, which the number zero satisfies too. */
  predicate EqualsFalse(j: Json) { j == Bool(false) || j == Num(0) }

  /** `load_identity` after reading: the identity all reports are compared with. */
  predicate TrustedIdentity(j: Json) {
    && ExactKeys(j, {"schemaVersion", "releaseCommit", "sourceTree", "contractDigest", "dirty", "evidenceClass"})
    && Get(j, "schemaVersion") == Str("build-identity/v1")
    && Get(j, "releaseCommit").Str? && IsCommit(Get(j, "releaseCommit").s)
    && Get(j, "sourceTree").Str? && IsCommit(Get(j, "sourceTree").s)
    && Get(j, "contractDigest").Str? && IsDigest(Get(j, "contractDigest").s)
    && Get(j, "dirty") == Bool(false) && Get(j, "evidenceClass") == Str("repository-local")
  }

  predicate CarriesIdentity(report: Json, identity: Json, profile: string) {
    var r := Get(report, "releaseIdentity");
    && Get(r, "releaseCommit") == Get(identity, "releaseCommit")
    && Get(r, "sourceTree") == Get(identity, "sourceTree")
    && Get(r, "contractDigest") == Get(identity, "contractDigest")
    && Get(r, "deploymentProfile") == Str(profile)
    && EqualsFalse(Get(r, "dirty"))
    && Get(r, "evidenceClass") == Str("repository-local")
  }

  predicate Undrifted(report: Json) {
    && ExactKeys(Get(report, "drift"), {"missing", "extra", "incompatible"})
    && Get(Get(report, "drift"), "missing") == Arr([])
    && Get(Get(report, "drift"), "extra") == Arr([])
    && Get(Get(report, "drift"), "incompatible") == Arr([])
  }

  predicate Passed(report: Json) {
    && ExactKeys(Get(report, "outcome"), {"result", "errorCodes", "skippedChecks"})
    && Get(Get(report, "outcome"), "result") == Str("pass")
    && Get(Get(report, "outcome"), "errorCodes") == Arr([])
    && Get(Get(report, "outcome"), "skippedChecks") == Arr([])
  }

  /** The checks of `validate_report` on what was read: the surface the report speaks for. */
  function Judge(report: Json, status: Json, identity: Json, profile: string): Result<string> {
    var surfaceIdentity := Get(report, "surfaceIdentity");
    var surface := Get(surfaceIdentity, "surface");
    if !ReportShape(report) then Failed(BadReport)
    else if !ExactKeys(status, {"schemaVersion", "surface", "result", "evidenceClass"}) then Failed(BadReport)
    else if Get(status, "schemaVersion") != Str("surface-report/v1") || Get(status, "result") != Str("pass")
            || Get(status, "evidenceClass") != Str("repository-local") then Failed(BadReport)
    else if !ExactKeys(Get(report, "releaseIdentity"),
               {"releaseCommit", "sourceTree", "contractDigest", "deploymentProfile", "dirty", "evidenceClass"}) then
      Failed(BadIdentity)
    else if !CarriesIdentity(report, identity, profile) then Failed(IdentitySplice)
    else if !ExactKeys(surfaceIdentity,
               {"surface", "canonicalSource", "consumer", "version", "sourceDigest", "consumerDigest"}) then Failed(BadReport)
    else if !surface.Str? || ExpectedKey(surface.s).None? || Get(status, "surface") != surface then Failed(SurfaceSet)
    else if Get(surfaceIdentity, "canonicalSource") != Str(ExpectedKey(surface.s).value.0)
            || Get(surfaceIdentity, "consumer") != Str(ExpectedKey(surface.s).value.1)
            || Get(surfaceIdentity, "version") != Str(ExpectedKey(surface.s).value.2) then Failed(BadReport)
    else if !Get(surfaceIdentity, "sourceDigest").Str? || !IsDigest(Get(surfaceIdentity, "sourceDigest").s)
            || !Get(surfaceIdentity, "consumerDigest").Str? || !IsDigest(Get(surfaceIdentity, "consumerDigest").s) then
      Failed(BadReport)
    else if !ExactKeys(Get(report, "evidence"), {"class", "environment", "mode", "checkedAt", "toolVersions", "details"})
            || !Undrifted(report) || !Passed(report) || Get(Get(report, "evidence"), "class") != Str("repository-local") then
      Failed(BadReport)
    else Ok(surface.s)
  }

  lemma {:induction false} RequiredDistinct()
    ensures NoDuplicates(REQUIRED)
  {
  }

  /** The keys by surface are those of the required surfaces. */
  lemma {:induction false} RequiredSurfaces()
    ensures forall s :: s in REQUIRED <==> ExpectedKey(s).Some?
  {
  }

  /** A report that may stand for a surface: it carries the trusted identity, names the surface with that surface's own
      source, consumer and version, and reports neither drift nor errors. */
  predicate StandsFor(report: Json, surface: string, identity: Json, profile: string) {
    var key := Get(report, "surfaceIdentity");
    && CarriesIdentity(report, identity, profile) && Undrifted(report) && Passed(report)
    && Get(key, "surface") == Str(surface) && ExpectedKey(surface).Some?
    && Get(key, "canonicalSource") == Str(ExpectedKey(surface).value.0)
    && Get(key, "consumer") == Str(ExpectedKey(surface).value.1)
    && Get(key, "version") == Str(ExpectedKey(surface).value.2)
  }

  lemma {:induction false} PassingReport(report: Json, status: Json, identity: Json, profile: string)
    requires Judge(report, status, identity, profile).Ok?
    ensures StandsFor(report, Judge(report, status, identity, profile).value, identity, profile)
  {
  }

  // ---------------------------------------------------------------- the aggregate

  function ToJudgement(report: Json, status: Json, identity: Json, profile: string): Judgement {
    var r := Judge(report, status, identity, profile);
    if r.Ok? then Speaks(r.value, report) else Refused(r.code)
  }

  function PassOutcome(): Json {
    Obj([Field("result", Str("pass")), Field("errorCodes", Arr([])), Field("skippedChecks", Arr([]))])
  }

  function Aggregate(identity: Json, profile: string, reports: seq<Json>, producerStatus: Json): Json {
    Obj([
      Field("schemaVersion", Str("release-contract-aggregate/v1")),
      Field("releaseIdentity", Obj([
        Field("releaseCommit", Get(identity, "releaseCommit")),
        Field("sourceTree", Get(identity, "sourceTree")),
        Field("contractDigest", Get(identity, "contractDigest")),
        Field("deploymentProfile", Str(profile)),
        Field("dirty", Bool(false)),
        Field("evidenceClass", Str("repository-local"))])),
      Field("reports", Arr(reports)),
      Field("producerStatus", producerStatus),
      Field("outcome", PassOutcome())])
  }

  function WithRedactionNote(aggregate: Json, count: nat): Json {
    if aggregate.Obj? then
      Obj(SetField(aggregate.fields, "redaction", Obj([
        Field("schemaVersion", Str("release-contract-redaction/v1")),
        Field("policyVersion", Str("v1")),
        Field("redactedValueCount", Num(count))])))
    else aggregate
  }

  /** The published aggregate of a list of reports. */
  function PublishList(p: Redaction.Policy, identity: Json, profile: string, reports: seq<Json>, status: Json): Result<Json> {
    var redacted := Redaction.Redact(p, Aggregate(identity, profile, reports, status), None);
    if redacted.None? then Failed(ClaimInflation) else Ok(WithRedactionNote(redacted.value.0, redacted.value.1))
  }

  type Publisher = seq<Json> -> Result<Json>

  function Publishing(policy: Redaction.Policy, identity: Json, profile: string, status: Json): Publisher {
    reports => PublishList(policy, identity, profile, reports, status)
  }

  /** What is published of the judged reports. */
  function Publish(publish: Publisher, required: seq<string>, js: seq<Judgement>): Result<Json> {
    var reports := Reports(required, js);
    if reports.Failed? then Failed(reports.code) else publish(reports.value)
  }

  /** What is wrong with the other inputs, in the order of their loading. */
  function InputsProblem(identity: Json, producerStatus: Option<Json>): Option<Failure> {
    if !TrustedIdentity(identity) then Some(BadIdentity) else if producerStatus.None? then Some(BadStatus) else None
  }

  /** What is published from a path and the report arguments when nobody interferes, if they are accepted. */
  ghost function CalmAggregate(
      w: World, path: LexicalPath, names: seq<string>, load: string -> Option<Json>, judge: (Json, Json) -> Judgement,
      publish: Publisher, required: seq<string>)
    : Option<Json>
  {
    var reports := CalmReports(w, path, names, load, ReportShape, judge, required);
    if reports.None? then None else Given(publish(reports.value))
  }

  /** How `validate_report` judges what it has read. */
  function Judging(identity: Json, profile: string): (Json, Json) -> Judgement {
    (report: Json, status: Json) => ToJudgement(report, status, identity, profile)
  }

  lemma {:induction false} JudgedStands(report: Json, status: Json, identity: Json, profile: string)
    ensures var j := ToJudgement(report, status, identity, profile);
      j.Speaks? ==> StandsFor(j.report, j.surface, identity, profile)
  {
    if Judge(report, status, identity, profile).Ok? {
      PassingReport(report, status, identity, profile);
    }
  }

  /** There is a list of reports, and each stands for the required surface at its place. */
  ghost predicate ListsTrusted(required: seq<string>, reports: Result<seq<Json>>, identity: Json, profile: string) {
    && reports.Ok? && |reports.value| == |required|
    && forall k :: 0 <= k < |required| ==> StandsFor(reports.value[k], required[k], identity, profile)
  }

  /** Every report that the aggregate lists was judged, stands for the required surface at its place, and carries the
      trusted identity; so one report of another build anywhere among the arguments keeps the aggregate from being built. */
  lemma {:induction false} ListedReportsTrusted(
      required: seq<string>, w: World, dir: Inode, names: seq<string>, js: seq<Judgement>, load: string -> Option<Json>,
      identity: Json, profile: string, bounds: seq<nat>)
    requires NoDuplicates(required) && Reports(required, js).Ok?
    requires SourcedInTurn(w, dir, names, js, load, Judging(identity, profile), bounds)
    ensures ListsTrusted(required, Reports(required, js), identity, profile)
    ensures forall j :: j in js ==> j.Speaks? && j.surface in required && StandsFor(j.report, j.surface, identity, profile)
  {
    AcceptedExactly(required, js);
    forall i | 0 <= i < |js| ensures StandsFor(js[i].report, js[i].surface, identity, profile) {
      SpokenStands(w, dir, names[i], js[i], load, identity, profile, bounds[i], bounds[i + 1]);
    }
    forall k | 0 <= k < |required| ensures StandsFor(Reports(required, js).value[k], required[k], identity, profile) {
      var i :| 0 <= i < |js| && js[i] == Speaks(required[k], Reports(required, js).value[k]);
    }
  }

  lemma {:induction false} SpokenStands(
      w: World, dir: Inode, name: string, j: Judgement, load: string -> Option<Json>,
      identity: Json, profile: string, from: nat, until: nat)
    requires Sourced(w, dir, name, j, load, Judging(identity, profile), from, until) && j.Speaks?
    ensures StandsFor(j.report, j.surface, identity, profile)
  {
    var judge := Judging(identity, profile);
    var file, text, status, times, report :|
      ReadThrough(w, dir, name, file, text, status, times, from, until) && load(text) == Some(report) && j == judge(report, status);
    assert j == ToJudgement(report, status, identity, profile);
    JudgedStands(report, status, identity, profile);
  }

  method PublishReports(
      policy: Redaction.Policy, identity: Json, profile: string, reports: seq<Json>, status: Json, ghost publish: Publisher)
      returns (r: Result<Json>)
    requires forall rs {:trigger PublishList(policy, identity, profile, rs, status)} ::
      publish(rs) == PublishList(policy, identity, profile, rs, status)
    ensures r == publish(reports)
  {
    var redacted := Redaction.RedactValue(policy, Aggregate(identity, profile, reports, status), None);
    assert publish(reports) == PublishList(policy, identity, profile, reports, status);
    if redacted.None? {
      return Failed(ClaimInflation);
    }
    return Ok(WithRedactionNote(redacted.value.0, redacted.value.1));
  }

  /** The reports collected, listed in required order and published. */
  method AggregateReports(
      proc: Process, path: LexicalPath, names: seq<string>, load: string -> Option<Json>, inputs: Option<Failure>,
      judge: (Json, Json) -> Judgement, identity: Json, status: Json, profile: string, policy: Redaction.Policy,
      ghost publish: Publisher, required: seq<string>)
      returns (r: Result<Json>, ghost run: Run)
    requires proc.Valid() && (path.absolute ==> path.parts != []) && NoDuplicates(required)
    requires forall rs {:trigger PublishList(policy, identity, profile, rs, status)} ::
      publish(rs) == PublishList(policy, identity, profile, rs, status)
    modifies proc
    ensures proc.Valid() && old(proc.log) + run.walk <= proc.log
    ensures LedgerUnlessHarmed(proc.world, old(proc.table), proc.table, run.walk, |run.moments| + 1 == |path.parts|)
    ensures r.Ok? ==> proc.table == old(proc.table) && inputs.None?
    ensures r.Ok? ==> Traced(proc.world, path, names, load, judge, run,
                             proc.log[|old(proc.log) + run.walk|..], old(proc.clock), proc.clock)
    ensures r.Ok? ==> OnePerSurface(required, run.js)
    ensures r.Ok? ==> Reports(required, run.js).Ok? && r == Publish(publish, required, run.js)
    ensures Calm(proc.world) && inputs.None? ==>
      Given(r) == CalmAggregate(proc.world, path, names, load, judge, publish, required)
  {
    var reports;
    reports, run := CollectReports(proc, path, names, load, ReportShape, inputs, judge, required);
    if reports.Failed? {
      return Failed(reports.code), run;
    }
    r := PublishReports(policy, identity, profile, reports.value, status, publish);
  }

  /** What `validate_aggregate` asks of everything but the reports: the profile, a verifier, a trusted identity and a
      producer status. */
  predicate ArgumentsOk(profile: string, verifierIsFile: bool, identity: Json, producerStatus: Option<Json>) {
    profile == "monolith" && verifierIsFile && InputsProblem(identity, producerStatus).None?
  }

  /** Collecting and publishing, with the judgement that compares each report with the trusted identity. */
  method AggregateTrusted(
      proc: Process, path: LexicalPath, names: seq<string>, load: string -> Option<Json>, inputs: Option<Failure>,
      identity: Json, status: Json, profile: string, policy: Redaction.Policy, required: seq<string>)
      returns (r: Result<Json>, ghost run: Run)
    requires proc.Valid() && (path.absolute ==> path.parts != []) && NoDuplicates(required)
    modifies proc
    ensures proc.Valid() && old(proc.log) + run.walk <= proc.log
    ensures LedgerUnlessHarmed(proc.world, old(proc.table), proc.table, run.walk, |run.moments| + 1 == |path.parts|)
    ensures r.Ok? ==> proc.table == old(proc.table) && inputs.None?
    ensures r.Ok? ==> Traced(proc.world, path, names, load, Judging(identity, profile), run,
                             proc.log[|old(proc.log) + run.walk|..], old(proc.clock), proc.clock)
    ensures r.Ok? ==> OnePerSurface(required, run.js)
    ensures r.Ok? ==> ListsTrusted(required, Reports(required, run.js), identity, profile)
    ensures r.Ok? ==> r == Publish(Publishing(policy, identity, profile, status), required, run.js)
    ensures Calm(proc.world) && inputs.None? ==>
      Given(r) == CalmAggregate(proc.world, path, names, load, Judging(identity, profile),
                                Publishing(policy, identity, profile, status), required)
  {
    r, run := AggregateReports(proc, path, names, load, inputs, Judging(identity, profile), identity, status, profile, policy,
                               Publishing(policy, identity, profile, status), required);
    if r.Ok? {
      ListedReportsTrusted(required, proc.world, run.dir, names, run.js, load, identity, profile, run.bounds);
    }
  }

  /** `validate_aggregate` up to writing its result. Whatever the other actor does, no descriptor stays open;
      and an aggregate is only ever built from reports read, in bijection with the required surfaces, through
      one directory reached from the root without following a link. When nobody interferes, it is built exactly where
      `CalmAggregate` says. */
  method ValidateAggregate(
      proc: Process, path: LexicalPath, names: seq<string>, load: string -> Option<Json>, verifierIsFile: bool,
      identity: Json, producerStatus: Option<Json>, profile: string, policy: Redaction.Policy)
      returns (r: Result<Json>, ghost run: Run)
    requires proc.Valid() && (path.absolute ==> path.parts != [])
    modifies proc
    ensures proc.Valid() && old(proc.log) + run.walk <= proc.log
    ensures LedgerUnlessHarmed(proc.world, old(proc.table), proc.table, run.walk, |run.moments| + 1 == |path.parts|)
    ensures r.Ok? ==> proc.table == old(proc.table)
    ensures r.Ok? ==> ArgumentsOk(profile, verifierIsFile, identity, producerStatus)
    ensures r.Ok? ==> Traced(proc.world, path, names, load, Judging(identity, profile), run,
                             proc.log[|old(proc.log) + run.walk|..], old(proc.clock), proc.clock)
    ensures r.Ok? ==> OnePerSurface(REQUIRED, run.js)
    ensures r.Ok? ==> ListsTrusted(REQUIRED, Reports(REQUIRED, run.js), identity, profile)
    ensures r.Ok? ==> r == Publish(Publishing(policy, identity, profile, producerStatus.value), REQUIRED, run.js)
    ensures Calm(proc.world) && ArgumentsOk(profile, verifierIsFile, identity, producerStatus) ==>
      Given(r) == CalmAggregate(proc.world, path, names, load, Judging(identity, profile),
                                Publishing(policy, identity, profile, producerStatus.value), REQUIRED)
  {
    if profile != "monolith" || !verifierIsFile {
      return Failed(BadArguments), NO_RUN;
    }
    RequiredDistinct();
    var status := if producerStatus.Some? then producerStatus.value else Null;
    r, run := AggregateTrusted(proc, path, names, load, InputsProblem(identity, producerStatus), identity, status, profile,
                               policy, REQUIRED);
  }

  lemma {:induction false} PublishIgnoresOrder(publish: Publisher, required: seq<string>, a: seq<Judgement>, b: seq<Judgement>)
    requires multiset(a) == multiset(b) && NoDuplicates(required)
    ensures Given(Publish(publish, required, a)) == Given(Publish(publish, required, b))
  {
    OrderOfJudgementsIrrelevant(required, a, b);
  }

  /** Two successful runs over the same report arguments in different orders, through one directory that is left alone,
      publish the same value, whatever happens elsewhere. */
  lemma {:induction false} RunsPublishAlike(
      w: World, path: LexicalPath, names: seq<string>, run: Run, after: seq<Event>, from: nat, until: nat,
      path': LexicalPath, names': seq<string>, run': Run, after': seq<Event>, from': nat, until': nat,
      load: string -> Option<Json>, judge: (Json, Json) -> Judgement, publish: Publisher, required: seq<string>)
    requires Traced(w, path, names, load, judge, run, after, from, until)
    requires Traced(w, path', names', load, judge, run', after', from', until')
    requires NoDuplicates(required) && run.dir == run'.dir && Still(w, run.dir) && multiset(names) == multiset(names')
    ensures Given(Publish(publish, required, run.js)) == Given(Publish(publish, required, run'.js))
  {
    SourcedPermute(w, run.dir, names, run.js, run.bounds, names', run'.js, run'.bounds, load, judge);
    PublishIgnoresOrder(publish, required, run.js, run'.js);
  }

  /** When nobody interferes, the order of the report arguments shows neither in acceptance nor in what is published. */
  lemma {:induction false} ArgumentOrderIrrelevant(
      w: World, path: LexicalPath, names: seq<string>, names': seq<string>, load: string -> Option<Json>,
      judge: (Json, Json) -> Judgement, publish: Publisher, required: seq<string>)
    requires multiset(names) == multiset(names') && NoDuplicates(required)
    ensures CalmAggregate(w, path, names, load, judge, publish, required)
         == CalmAggregate(w, path, names', load, judge, publish, required)
  {
    OrderOfArgumentsIrrelevant(w, path, names, names', load, ReportShape, judge, required);
  }

  /** Two runs in a world where nobody interferes, with the report arguments in different orders: both accept or both
      refuse, and what they publish is the same. */
  method RunInBothOrders(
      proc: Process, proc': Process, path: LexicalPath, names: seq<string>, names': seq<string>, load: string -> Option<Json>,
      verifierIsFile: bool, identity: Json, producerStatus: Option<Json>, profile: string, policy: Redaction.Policy)
      returns (r: Option<Json>, r': Option<Json>)
    requires proc != proc' && proc.Valid() && proc'.Valid() && (path.absolute ==> path.parts != [])
    requires proc.world == proc'.world && Calm(proc.world) && multiset(names) == multiset(names')
    modifies proc, proc'
    ensures r == r'
  {
    RequiredDistinct();
    ghost var run, run';
    var first, second;
    first, run := ValidateAggregate(proc, path, names, load, verifierIsFile, identity, producerStatus, profile, policy);
    second, run' := ValidateAggregate(proc', path, names', load, verifierIsFile, identity, producerStatus, profile, policy);
    if ArgumentsOk(profile, verifierIsFile, identity, producerStatus) {
      ArgumentOrderIrrelevant(proc.world, path, names, names', load, Judging(identity, profile),
                              Publishing(policy, identity, profile, producerStatus.value), REQUIRED);
    }
    return Given(first), Given(second);
  }
}
