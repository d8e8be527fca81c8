/** A release whose digests settle after one run, and the same release with an artifact id that names the manifest, whose
    digests do not. */
module AliasedDigests {
  import opened Sorting
  import opened Text
  import opened JsonValues
  import opened CanonicalJson
  import opened ReleaseDigests
  import opened DigestFixedPoint
  import opened DigestGuard
  import opened FaithfulReading

  const EMPTY: seq<Field> := []

  const STRICT := Obj([Field("id", Str("s")), Field("kind", Str(STRICT_KIND))])

  function Other(id: string): Json { Obj([Field("id", Str(id))]) }

  function Artifacts(id: string): seq<Json> { [Other(id), STRICT] }

  function TheManifest(id: string): Json {
    Obj([Field("strictVerifier", Obj(EMPTY)), Field("artifacts", Arr(Artifacts(id)))])
  }

  function PathOf(id: string): string { id + ".json" }

  /** Nothing collides: the digest of a text is the text. */
  ghost function TheEnv(): Env { Env(t => t, t => Read(t), Plainly, PathOf, "m.json") }

  /** An empty strict body, a null body for the other artifact, and the manifest. */
  function TheFiles(id: string): Files {
    map["s.json" := Canonical(Obj(EMPTY))][PathOf(id) := Canonical(Null)]["m.json" := Plainly(TheManifest(id))]
  }

  lemma {:induction false} PathsDiffer(a: string, b: string)
    requires a != b
    ensures PathOf(a) != PathOf(b)
  {
    assert PathOf(a)[..|PathOf(a)| - 5] == a && PathOf(b)[..|PathOf(b)| - 5] == b;
  }

  lemma {:induction false} OtherGets(id: string)
    ensures IdOf(Other(id)) == id && Get(Other(id), "id") == Str(id)
    ensures Get(Other(id), "kind") == Null && Get(Other(id), "sha256") == Null
  {
    FindFirst(Other(id).fields, 0);
    FindAbsent(Other(id).fields, "kind");
    FindAbsent(Other(id).fields, "sha256");
  }

  lemma {:induction false} StrictGets()
    ensures IdOf(STRICT) == "s" && Get(STRICT, "id") == Str("s") && IsStrictKind(STRICT) && Get(STRICT, "sha256") == Null
  {
    FindFirst(STRICT.fields, 0);
    FindFirst(STRICT.fields, 1);
    FindAbsent(STRICT.fields, "sha256");
  }

  lemma {:induction false} ManifestGets(id: string)
    ensures Get(TheManifest(id), "strictVerifier") == Obj(EMPTY) && Get(TheManifest(id), "artifacts") == Arr(Artifacts(id))
    ensures WellFormed(TheManifest(id))
  {
    FindFirst(TheManifest(id).fields, 0);
    FindFirst(TheManifest(id).fields, 1);
    assert WellFormed(Other(id)) && WellFormed(STRICT);
    assert WellFormed(Arr(Artifacts(id)));
  }

  lemma {:induction false} Accepted(id: string)
    requires !Blank(id) && id != "s"
    ensures ById(TheManifest(id)) == Ok(Artifacts(id))
  {
    ManifestGets(id);
    OtherGets(id);
    StrictGets();
    assert !Blank("s") by {
      assert !IsSpace("s"[0]);
    }
    assert Artifacts(id)[1..] == [STRICT] && [STRICT][1..] == [];
    assert ArtifactProblem(Other(id), {}).None? && ArtifactProblem(STRICT, {id}).None?;
    assert FirstProblem([STRICT], {id}).None?;
    assert {} + {id} == {id};
  }

  lemma {:induction false} TheStrict(id: string)
    ensures StrictId(Obj(EMPTY), Artifacts(id)) == Ok("s")
  {
    OtherGets(id);
    StrictGets();
    assert Artifacts(id)[1..] == [STRICT] && [STRICT][1..] == [];
    assert StrictIds([STRICT]) == ["s"] && StrictIds(Artifacts(id)) == ["s"];
    assert Get(Obj(EMPTY), "evidenceRef") == Null;
  }

  ghost predicate HasBody(env: Env, files: Files, id: string) {
    env.at(id) in files && env.load(files[env.at(id)]).Some?
  }

  lemma {:induction false} AllRead(env: Env, files: Files, arts: seq<Json>, sid: string)
    requires forall a :: a in arts ==> HasBody(env, files, IdOf(a))
    ensures ReadAll(env, files, arts, sid).Ok?
  {
    if arts == [] {
    } else {
      AllRead(env, files, arts[1..], sid);
    }
  }

  lemma {:induction false} FilesHold(id: string)
    requires id != "s"
    ensures "m.json" in TheFiles(id) && TheFiles(id)["m.json"] == Plainly(TheManifest(id))
    ensures PathOf("s") in TheFiles(id) && TheFiles(id)[PathOf("s")] == Canonical(Obj(EMPTY))
    ensures PathOf(id) in TheFiles(id)
    ensures TheFiles(id)[PathOf(id)] == if id == "m" then Plainly(TheManifest(id)) else Canonical(Null)
  {
    PathsDiffer(id, "s");
    PathsDiffer("s", "m");
    assert PathOf("s") == "s.json" && PathOf("m") == "m.json";
    if id != "m" {
      PathsDiffer(id, "m");
    }
  }

  lemma {:induction false} Loads(env: Env, m: Json)
    requires Faithful(env) && WellFormed(m)
    ensures env.load(env.pretty(m)) == Some(m) && env.load(Canonical(m)) == Some(Canon(m))
  {
  }

  lemma {:induction false} FilesRead(id: string)
    requires id != "s"
    ensures Faithful(TheEnv())
    ensures "m.json" in TheFiles(id) && TheEnv().load(TheFiles(id)["m.json"]) == Some(TheManifest(id))
    ensures PathOf("s") in TheFiles(id) && TheEnv().load(TheFiles(id)[PathOf("s")]) == Some(Obj(EMPTY))
    ensures PathOf(id) in TheFiles(id) && TheEnv().load(TheFiles(id)[PathOf(id)]).Some?
  {
    var env := TheEnv();
    FaithfulExists(env.hash, env.at, env.manifestAt);
    FilesHold(id);
    ManifestGets(id);
    Loads(env, TheManifest(id));
    Loads(env, Obj(EMPTY));
    Loads(env, Null);
  }

  lemma {:induction false} BothRead(env: Env, files: Files, a: Json, b: Json, sid: string)
    requires HasBody(env, files, IdOf(a)) && HasBody(env, files, IdOf(b))
    ensures ReadAll(env, files, Sort([a, b], IdLe), sid).Ok?
  {
    forall x | x in Sort([a, b], IdLe) ensures HasBody(env, files, IdOf(x)) {
      assert x in [a, b];
    }
    AllRead(env, files, Sort([a, b], IdLe), sid);
  }

  lemma {:induction false} BodiesRead(id: string)
    requires id != "s"
    ensures ReadAll(TheEnv(), TheFiles(id), Sort(Artifacts(id), IdLe), "s").Ok?
  {
    OtherGets(id);
    StrictGets();
    FilesRead(id);
    BothRead(TheEnv(), TheFiles(id), Other(id), STRICT, "s");
  }

  lemma {:induction false} Computes(env: Env, files: Files, m: Json, arts: seq<Json>, sid: string) returns (c: Computation)
    requires ById(m) == Ok(arts) && StrictId(Get(m, "strictVerifier"), arts) == Ok(sid)
    requires ReadAll(env, files, Sort(arts, IdLe), sid).Ok?
    ensures Compute(env, files, m) == Ok(c) && c.strictId == sid && ReadAll(env, files, Sort(arts, IdLe), sid) == Ok(c.infos)
  {
    c := Compute(env, files, m).value;
  }

  lemma {:induction false} Refreshes(env: Env, files: Files, m: Json, c: Computation)
    requires env.manifestAt in files && env.load(files[env.manifestAt]) == Some(m)
    requires Compute(env, files, m) == Ok(c) && BodyOf(c.infos, c.strictId).Obj?
    ensures Refresh(env, files).Ok? && Refresh(env, files).value.1 == c && ManifestOf(env, files) == m
  {
  }

  lemma {:induction false} NothingRecorded(env: Env, files: Files, m: Json, c: Computation)
    requires Refresh(env, files).Ok? && Refresh(env, files).value.1 == c && ManifestOf(env, files) == m
    requires forall a :: a in ArtifactsOf(m) ==> Get(a, "sha256") == Null
    requires BodyOf(c.infos, c.strictId) == Obj(EMPTY) && Get(m, "strictVerifier") == Obj(EMPTY)
    ensures Fresh(env, files)
  {
  }

  /** A manifest with one strict artifact and no digest recorded. */
  ghost predicate Unrecorded(m: Json, arts: seq<Json>, sid: string) {
    && Get(m, "strictVerifier") == Obj(EMPTY) && ArtifactsOf(m) == arts && ById(m) == Ok(arts)
    && StrictId(Get(m, "strictVerifier"), arts) == Ok(sid) && HasId(arts, sid)
    && forall a :: a in arts ==> Get(a, "sha256") == Null
  }

  /** Files from which the manifest and all bodies can be read, the strict one an empty object. */
  ghost predicate Readable(env: Env, files: Files, m: Json, arts: seq<Json>, sid: string) {
    && env.manifestAt in files && env.load(files[env.manifestAt]) == Some(m)
    && env.at(sid) in files && env.load(files[env.at(sid)]) == Some(Obj(EMPTY))
    && ReadAll(env, files, Sort(arts, IdLe), sid).Ok?
  }

  lemma {:induction false} StartsFresh(env: Env, files: Files, m: Json, arts: seq<Json>, sid: string)
    requires Unrecorded(m, arts, sid) && Readable(env, files, m, arts, sid)
    ensures Refresh(env, files).Ok? && Fresh(env, files)
    ensures ManifestOf(env, files) == m && Refresh(env, files).value.1.strictId == sid
  {
    var c := Computes(env, files, m, arts, sid);
    SortedHasId(arts, sid);
    InfoReads(env, files, Sort(arts, IdLe), sid, sid);
    Refreshes(env, files, m, c);
    NothingRecorded(env, files, m, c);
  }

  lemma {:induction false} ManifestUnrecorded(id: string)
    requires !Blank(id) && id != "s"
    ensures Unrecorded(TheManifest(id), Artifacts(id), "s")
  {
    ManifestGets(id);
    OtherGets(id);
    StrictGets();
    Accepted(id);
    TheStrict(id);
    assert STRICT in Artifacts(id);
  }

  lemma {:induction false} FilesReadable(id: string)
    requires id != "s"
    ensures Faithful(TheEnv()) && Readable(TheEnv(), TheFiles(id), TheManifest(id), Artifacts(id), "s")
  {
    FilesRead(id);
    BodiesRead(id);
  }

  /** The run succeeds, on files that record nothing yet. */
  lemma {:induction false} RunsFresh(id: string)
    requires !Blank(id) && id != "s"
    ensures Faithful(TheEnv()) && Refresh(TheEnv(), TheFiles(id)).Ok? && Fresh(TheEnv(), TheFiles(id))
    ensures ManifestOf(TheEnv(), TheFiles(id)) == TheManifest(id) && Refresh(TheEnv(), TheFiles(id)).value.1.strictId == "s"
  {
    ManifestUnrecorded(id);
    FilesReadable(id);
    StartsFresh(TheEnv(), TheFiles(id), TheManifest(id), Artifacts(id), "s");
  }

  lemma {:induction false} AliasedExactly(id: string)
    requires id != "s"
    ensures Unaliased(TheEnv(), Artifacts(id), "s") <==> id != "m"
  {
    OtherGets(id);
    StrictGets();
    assert Other(id) in Artifacts(id) && STRICT in Artifacts(id);
    PathsDiffer(id, "s");
    PathsDiffer("s", "m");
    assert PathOf("m") == "m.json";
    if id != "m" {
      PathsDiffer(id, "m");
    }
  }

  /** Without aliasing the digests settle; with an artifact id that names the manifest the second run finds others. */
  lemma {:induction false} SettlesUnlessAliased(id: string)
    requires !Blank(id) && id != "s"
    ensures Faithful(TheEnv()) && Refresh(TheEnv(), TheFiles(id)).Ok?
    ensures FixedPoint(TheEnv(), TheFiles(id)) <==> id != "m"
  {
    RunsFresh(id);
    ManifestGets(id);
    AliasedExactly(id);
    FixedPointIffUnaliased(TheEnv(), TheFiles(id));
  }
}
