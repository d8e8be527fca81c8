/** Release digests that cover files which themselves store the digests. */
module ReleaseDigests {
  import opened Sorting
  import opened Text
  import opened JsonValues
  import opened CanonicalJson

  const ZERO_SHA256 := "0000000000000000000000000000000000000000000000000000000000000000"
  const TARGET := "targetEvidenceSha256"
  const BUNDLE := "artifactBundleSha256"
  const BUNDLE_SCHEMA := "oblivious-target-artifact-bundle-digest-v1"
  const STRICT_KIND := "strict-verifier-log"

  datatype Problem =
    | NoArtifacts | ArtifactNotObject | BadArtifactId | DuplicateArtifactId
    | NoStrictVerifier | StrictRefUnresolved | StrictRefKind | StrictAmbiguous
    | BodyMissing | NotJson | TypeError

  datatype Result<+T> = Ok(value: T) | Failed(problem: Problem)

  /** What the script takes from its surroundings: the digest function, the JSON reader, the indented
      JSON printer, and where the file system puts the manifest and the body of each artifact. */
  datatype Env = Env(
    hash: string -> string,
    load: string -> Option<Json>,
    pretty: Json -> string,
    at: string -> string,
    manifestAt: string)

  type Files = map<string, string>

  // ---------------------------------------------------------------- artifacts_by_id

  function IdOf(a: Json): string {
    if Get(a, "id").Str? then Get(a, "id").s else ""
  }

  function ArtifactProblem(a: Json, seen: set<string>): Option<Problem> {
    if !a.Obj? then Some(ArtifactNotObject)
    else if !Get(a, "id").Str? || Blank(IdOf(a)) then Some(BadArtifactId)
    else if IdOf(a) in seen then Some(DuplicateArtifactId)
    else None
  }

  function FirstProblem(items: seq<Json>, seen: set<string>): Option<Problem> {
    if items == [] then None
    else if ArtifactProblem(items[0], seen).Some? then ArtifactProblem(items[0], seen)
    else FirstProblem(items[1..], seen + {IdOf(items[0])})
  }

  /** The dict from id to artifact; as ids are distinct it is the artifact list in its own order. */
  function ById(manifest: Json): Result<seq<Json>> {
    if !manifest.Obj? then Failed(TypeError)
    else
      var artifacts := Get(manifest, "artifacts");
      if !artifacts.Arr? || artifacts.items == [] then Failed(NoArtifacts)
      else
        var problem := FirstProblem(artifacts.items, {});
        if problem.Some? then Failed(problem.value) else Ok(artifacts.items)
  }

  method ArtifactsById(manifest: Json) returns (r: Result<seq<Json>>)
    ensures r == ById(manifest)
  {
    if !manifest.Obj? {
      return Failed(TypeError);
    }
    var artifacts := Get(manifest, "artifacts");
    if !artifacts.Arr? || artifacts.items == [] {
      return Failed(NoArtifacts);
    }
    var problem := ScanArtifacts(artifacts.items);
    return if problem.Some? then Failed(problem.value) else Ok(artifacts.items);
  }

  method ScanArtifacts(items: seq<Json>) returns (problem: Option<Problem>)
    ensures problem == FirstProblem(items, {})
  {
    var seen, i := {}, 0;
    while i < |items|
      invariant 0 <= i <= |items|
      invariant FirstProblem(items, {}) == FirstProblem(items[i..], seen)
    {
      problem := ArtifactProblem(items[i], seen);
      if problem.Some? {
        return;
      }
      seen := seen + {IdOf(items[i])};
      i := i + 1;
    }
    return None;
  }

  ghost predicate DistinctIds(arts: seq<Json>) {
    && (forall i :: 0 <= i < |arts| ==> arts[i].Obj? && Get(arts[i], "id").Str?)
    && (forall i, j :: 0 <= i < j < |arts| ==> IdOf(arts[i]) != IdOf(arts[j]))
  }

  lemma {:induction false} NextProblem(items: seq<Json>, seen: set<string>)
    requires items != [] && FirstProblem(items, seen).None?
    ensures ArtifactProblem(items[0], seen).None?
    ensures FirstProblem(items[1..], seen + {IdOf(items[0])}).None?
  {
  }

  lemma {:induction false} AcceptedIdsDistinct(items: seq<Json>)
    requires FirstProblem(items, {}).None?
    ensures DistinctIds(items)
  {
    var seen, k := {}, 0;
    while k < |items|
      invariant 0 <= k <= |items| && FirstProblem(items[k..], seen).None?
      invariant forall i :: 0 <= i < k ==> items[i].Obj? && Get(items[i], "id").Str? && IdOf(items[i]) in seen
      invariant forall i, j :: 0 <= i < j < k ==> IdOf(items[i]) != IdOf(items[j])
    {
      NextProblem(items[k..], seen);
      assert items[k..][0] == items[k] && items[k..][1..] == items[k + 1..];
      seen := seen + {IdOf(items[k])};
      k := k + 1;
    }
  }

  // ---------------------------------------------------------------- strict_artifact_id

  predicate IsStrictKind(a: Json) { Get(a, "kind") == Str(STRICT_KIND) }

  function WithId(arts: seq<Json>, id: string): Option<Json> {
    if arts == [] then None else if IdOf(arts[0]) == id then Some(arts[0]) else WithId(arts[1..], id)
  }

  function StrictIds(arts: seq<Json>): seq<string> {
    if arts == [] then []
    else (if IsStrictKind(arts[0]) then [IdOf(arts[0])] else []) + StrictIds(arts[1..])
  }

  /** The id of the artifact whose body carries the digests. */
  function StrictId(strict: Json, arts: seq<Json>): Result<string> {
    if !strict.Obj? then Failed(NoStrictVerifier)
    else
      var ref := Get(strict, "evidenceRef");
      if ref.Str? && !Blank(ref.s) then
        var a := WithId(arts, ref.s);
        if a.None? then Failed(StrictRefUnresolved)
        else if !IsStrictKind(a.value) then Failed(StrictRefKind)
        else Ok(ref.s)
      else if |StrictIds(arts)| != 1 then Failed(StrictAmbiguous)
      else Ok(StrictIds(arts)[0])
  }

  method StrictArtifactId(manifest: Json, arts: seq<Json>) returns (r: Result<string>)
    ensures r == StrictId(Get(manifest, "strictVerifier"), arts)
  {
    var strict := Get(manifest, "strictVerifier");
    if !strict.Obj? {
      return Failed(NoStrictVerifier);
    }
    var ref := Get(strict, "evidenceRef");
    if ref.Str? && !Blank(ref.s) {
      var a := WithId(arts, ref.s);
      if a.None? {
        return Failed(StrictRefUnresolved);
      }
      return if !IsStrictKind(a.value) then Failed(StrictRefKind) else Ok(ref.s);
    }
    var ids, i := [], 0;
    while i < |arts|
      invariant 0 <= i <= |arts|
      invariant StrictIds(arts) == ids + StrictIds(arts[i..])
    {
      if IsStrictKind(arts[i]) {
        ids := ids + [IdOf(arts[i])];
      }
      i := i + 1;
    }
    return if |ids| != 1 then Failed(StrictAmbiguous) else Ok(ids[0]);
  }

  // ---------------------------------------------------------------- read_artifact_bodies

  function SetDigests(fs: seq<Field>, target: string, bundle: string): seq<Field> {
    SetField(SetField(fs, TARGET, Str(target)), BUNDLE, Str(bundle))
  }

  /** `normalize_strict_digest_fields`. */
  function NormalBody(body: Json): Json {
    if body.Obj? then Obj(SetDigests(body.fields, ZERO_SHA256, ZERO_SHA256)) else body
  }

  datatype Info = Info(artifact: Json, body: Json, rawSha: string, bodySha: string)

  function ReadBody(env: Env, files: Files, a: Json, strictId: string): Result<Info> {
    if env.at(IdOf(a)) !in files then Failed(BodyMissing)
    else
      var text := files[env.at(IdOf(a))];
      var body := env.load(text);
      if body.None? then Failed(NotJson)
      else
        var digested := if IdOf(a) == strictId then NormalBody(body.value) else body.value;
        Ok(Info(a, body.value, env.hash(text), env.hash(Canonical(digested))))
  }

  function Joined(head: seq<Info>, tail: Result<seq<Info>>): Result<seq<Info>> {
    if tail.Ok? then Ok(head + tail.value) else tail
  }

  function ReadAll(env: Env, files: Files, arts: seq<Json>, strictId: string): Result<seq<Info>> {
    if arts == [] then Ok([])
    else
      var head := ReadBody(env, files, arts[0], strictId);
      if head.Failed? then Failed(head.problem) else Joined([head.value], ReadAll(env, files, arts[1..], strictId))
  }

  lemma {:induction false} ReadAllEach(env: Env, files: Files, arts: seq<Json>, strictId: string)
    requires ReadAll(env, files, arts, strictId).Ok?
    ensures var infos := ReadAll(env, files, arts, strictId).value;
      |infos| == |arts| && forall i :: 0 <= i < |arts| ==> ReadBody(env, files, arts[i], strictId) == Ok(infos[i])
  {
    if arts == [] {
    } else {
      ReadAllEach(env, files, arts[1..], strictId);
    }
  }

  lemma {:induction false} JoinedTwice(a: seq<Info>, b: seq<Info>, tail: Result<seq<Info>>)
    ensures Joined(a, Joined(b, tail)) == Joined(a + b, tail)
    ensures Joined([], tail) == tail
    ensures Joined(a, Ok([])) == Ok(a)
  {
    assert a + [] == a;
    if tail.Ok? {
      assert a + (b + tail.value) == (a + b) + tail.value;
      assert [] + tail.value == tail.value;
    }
  }

  predicate IdLe(a: Json, b: Json) { StrLe(IdOf(a), IdOf(b)) }

  /** The bodies of all artifacts, in the order of their ids. */
  function Bodies(env: Env, files: Files, arts: seq<Json>, strictId: string): Result<seq<Info>> {
    ReadAll(env, files, Sort(arts, IdLe), strictId)
  }

  method ReadArtifactBodies(env: Env, files: Files, arts: seq<Json>, strictId: string) returns (r: Result<seq<Info>>)
    ensures r == Bodies(env, files, arts, strictId)
  {
    var sorted, infos, i := Sort(arts, IdLe), [], 0;
    JoinedTwice([], [], ReadAll(env, files, sorted, strictId));
    while i < |sorted|
      invariant 0 <= i <= |sorted|
      invariant Bodies(env, files, arts, strictId) == Joined(infos, ReadAll(env, files, sorted[i..], strictId))
    {
      var info := ReadBody(env, files, sorted[i], strictId);
      if info.Failed? {
        return Failed(info.problem);
      }
      JoinedTwice(infos, [info.value], ReadAll(env, files, sorted[i + 1..], strictId));
      assert sorted[i..][1..] == sorted[i + 1..];
      infos := infos + [info.value];
      i := i + 1;
    }
    JoinedTwice(infos, [], Ok([]));
    return Ok(infos);
  }

  function RawSha(infos: seq<Info>, id: string): Option<string> {
    if infos == [] then None
    else if IdOf(infos[0].artifact) == id then Some(infos[0].rawSha)
    else RawSha(infos[1..], id)
  }

  // ---------------------------------------------------------------- stamping a manifest

  function StampArtifact(a: Json, strictId: string, strictSha: string, infos: seq<Info>): Json {
    if !a.Obj? then a
    else if Get(a, "id") == Str(strictId) then Obj(SetField(a.fields, "sha256", Str(strictSha)))
    else if Get(a, "id").Str? && RawSha(infos, IdOf(a)).Some? then
      Obj(SetField(a.fields, "sha256", Str(RawSha(infos, IdOf(a)).value)))
    else a
  }

  function StampAll(arts: seq<Json>, strictId: string, strictSha: string, infos: seq<Info>): (r: seq<Json>)
    ensures |r| == |arts|
    ensures forall i :: 0 <= i < |r| ==> r[i] == StampArtifact(arts[i], strictId, strictSha, infos)
  {
    if arts == [] then [] else [StampArtifact(arts[0], strictId, strictSha, infos)] + StampAll(arts[1..], strictId, strictSha, infos)
  }

  /** The manifest with both digests and every artifact's `sha256` overwritten. */
  function Stamp(
      m: Json, target: string, bundle: string, strictId: string, strictSha: string, infos: seq<Info>): Json
    requires m.Obj? && Get(m, "strictVerifier").Obj? && Get(m, "artifacts").Arr?
  {
    var strict := Obj(SetDigests(Get(m, "strictVerifier").fields, target, bundle));
    var artifacts := Arr(StampAll(Get(m, "artifacts").items, strictId, strictSha, infos));
    Obj(SetField(SetField(m.fields, "strictVerifier", strict), "artifacts", artifacts))
  }

  method StampArtifacts(arts: seq<Json>, strictId: string, strictSha: string, infos: seq<Info>) returns (out: seq<Json>)
    ensures out == StampAll(arts, strictId, strictSha, infos)
  {
    out := [];
    for i := 0 to |arts|
      invariant |out| == i && forall k :: 0 <= k < i ==> out[k] == StampArtifact(arts[k], strictId, strictSha, infos)
    {
      out := out + [StampArtifact(arts[i], strictId, strictSha, infos)];
    }
  }

  method StampManifest(
      m: Json, target: string, bundle: string, strictId: string, strictSha: string, infos: seq<Info>) returns (r: Json)
    requires m.Obj? && Get(m, "strictVerifier").Obj? && Get(m, "artifacts").Arr?
    ensures r == Stamp(m, target, bundle, strictId, strictSha, infos)
  {
    var strict := Get(m, "strictVerifier").fields;
    strict := SetField(strict, TARGET, Str(target));
    strict := SetField(strict, BUNDLE, Str(bundle));
    var out := StampArtifacts(Get(m, "artifacts").items, strictId, strictSha, infos);
    return Obj(SetField(SetField(m.fields, "strictVerifier", Obj(strict)), "artifacts", Arr(out)));
  }

  // ---------------------------------------------------------------- artifact_bundle_payload

  function BundleEntry(info: Info): Json {
    var provider := if Has(info.artifact, "provider") then [Field("provider", Get(info.artifact, "provider"))] else [];
    Obj([Field("id", Str(IdOf(info.artifact)))]
        + ([Field("kind", Get(info.artifact, "kind"))] + ([Field("bodySha256", Str(info.bodySha))] + provider)))
  }

  function BundleEntries(infos: seq<Info>): (r: seq<Json>)
    ensures |r| == |infos| && forall i :: 0 <= i < |r| ==> r[i] == BundleEntry(infos[i])
  {
    if infos == [] then [] else [BundleEntry(infos[0])] + BundleEntries(infos[1..])
  }

  function Bundle(infos: seq<Info>): Json {
    Obj([Field("schema", Str(BUNDLE_SCHEMA)), Field("artifacts", Arr(BundleEntries(infos)))])
  }

  method ArtifactBundlePayload(infos: seq<Info>) returns (r: Json)
    ensures r == Bundle(infos)
  {
    var entries, i := [], 0;
    while i < |infos|
      invariant 0 <= i <= |infos| && |entries| == i
      invariant forall k :: 0 <= k < i ==> entries[k] == BundleEntry(infos[k])
    {
      entries := entries + [BundleEntry(infos[i])];
      i := i + 1;
    }
    assert entries == BundleEntries(infos);
    return Obj([Field("schema", Str(BUNDLE_SCHEMA)), Field("artifacts", Arr(entries))]);
  }

  // ---------------------------------------------------------------- compute and write

  datatype Computation = Computation(strictId: string, infos: seq<Info>, target: string, bundle: string)

  function Normalized(m: Json, strictId: string, infos: seq<Info>): Json
    requires m.Obj? && Get(m, "strictVerifier").Obj? && Get(m, "artifacts").Arr?
  {
    Stamp(m, ZERO_SHA256, ZERO_SHA256, strictId, ZERO_SHA256, infos)
  }

  function Compute(env: Env, files: Files, m: Json): (r: Result<Computation>)
    ensures r.Ok? ==> m.Obj? && Get(m, "strictVerifier").Obj? && Get(m, "artifacts").Arr?
  {
    var arts := ById(m);
    if arts.Failed? then Failed(arts.problem)
    else
      var strictId := StrictId(Get(m, "strictVerifier"), arts.value);
      if strictId.Failed? then Failed(strictId.problem)
      else
        var infos := Bodies(env, files, arts.value, strictId.value);
        if infos.Failed? then Failed(infos.problem)
        else Ok(Computation(strictId.value, infos.value,
                            env.hash(Canonical(Normalized(m, strictId.value, infos.value))),
                            env.hash(Canonical(Bundle(infos.value)))))
  }

  function BodyOf(infos: seq<Info>, id: string): Json {
    if infos == [] then Null
    else if IdOf(infos[0].artifact) == id then infos[0].body
    else BodyOf(infos[1..], id)
  }

  /** The files after `write_refreshed_manifest`; a strict body that is no object raises before any write. */
  function Written(env: Env, files: Files, m: Json, c: Computation): Result<Files>
    requires m.Obj? && Get(m, "strictVerifier").Obj? && Get(m, "artifacts").Arr?
  {
    var body := BodyOf(c.infos, c.strictId);
    if !body.Obj? then Failed(TypeError)
    else
      var text := Canonical(Obj(SetDigests(body.fields, c.target, c.bundle)));
      var manifest := Stamp(m, c.target, c.bundle, c.strictId, env.hash(text), c.infos);
      Ok(files[env.at(c.strictId) := text][env.manifestAt := env.pretty(manifest)])
  }

  /** One run of the script with `--write`: the files it leaves and the digests it reports. */
  function Refresh(env: Env, files: Files): Result<(Files, Computation)> {
    if env.manifestAt !in files then Failed(BodyMissing)
    else
      var m := env.load(files[env.manifestAt]);
      if m.None? then Failed(NotJson)
      else
        var c := Compute(env, files, m.value);
        if c.Failed? then Failed(c.problem)
        else
          var after := Written(env, files, m.value, c.value);
          if after.Failed? then Failed(after.problem) else Ok((after.value, c.value))
  }

  class Workspace {
    const env: Env
    var files: Files

    constructor (env: Env, files: Files)
      ensures this.env == env && this.files == files
    {
      this.env := env;
      this.files := files;
    }

    method ComputeDigests(m: Json) returns (r: Result<Computation>)
      ensures r == Compute(env, files, m)
    {
      var arts := ArtifactsById(m);
      if arts.Failed? {
        return Failed(arts.problem);
      }
      var strictId := StrictArtifactId(m, arts.value);
      if strictId.Failed? {
        return Failed(strictId.problem);
      }
      var infos := ReadArtifactBodies(env, files, arts.value, strictId.value);
      if infos.Failed? {
        return Failed(infos.problem);
      }
      var normal := StampManifest(m, ZERO_SHA256, ZERO_SHA256, strictId.value, ZERO_SHA256, infos.value);
      var bundle := ArtifactBundlePayload(infos.value);
      return Ok(Computation(strictId.value, infos.value, env.hash(Canonical(normal)), env.hash(Canonical(bundle))));
    }

    method WriteRefreshedManifest(m: Json, c: Computation) returns (problem: Option<Problem>)
      requires m.Obj? && Get(m, "strictVerifier").Obj? && Get(m, "artifacts").Arr?
      modifies this`files
      ensures var after := Written(env, old(files), m, c);
        if after.Ok? then problem.None? && files == after.value
        else problem == Some(after.problem) && files == old(files)
    {
      var body := BodyOf(c.infos, c.strictId);
      if !body.Obj? {
        return Some(TypeError);
      }
      var fields := SetField(body.fields, TARGET, Str(c.target));
      fields := SetField(fields, BUNDLE, Str(c.bundle));
      var text := Canonical(Obj(fields));
      files := files[env.at(c.strictId) := text];
      var manifest := StampManifest(m, c.target, c.bundle, c.strictId, env.hash(text), c.infos);
      files := files[env.manifestAt := env.pretty(manifest)];
      return None;
    }

    /** `main` with `--write`. */
    method RefreshDigests() returns (r: Result<Computation>)
      modifies this`files
      ensures var spec := Refresh(env, old(files));
        if spec.Ok? then r == Ok(spec.value.1) && files == spec.value.0
        else r == Failed(spec.problem) && files == old(files)
    {
      if env.manifestAt !in files {
        return Failed(BodyMissing);
      }
      var m := env.load(files[env.manifestAt]);
      if m.None? {
        return Failed(NotJson);
      }
      r := ComputeDigests(m.value);
      if r.Ok? {
        var problem := WriteRefreshedManifest(m.value, r.value);
        if problem.Some? {
          return Failed(problem.value);
        }
      }
    }
  }
}
