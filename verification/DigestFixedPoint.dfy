/** Rewriting the digests is a fixed point: the files that store the digests are what the digests cover. */
module DigestFixedPoint {
  import opened Sorting
  import opened Text
  import opened JsonValues
  import opened CanonicalJson
  import opened ReleaseDigests

  /** The JSON reader inverts both printers and never yields a repeated key. */
  ghost predicate Faithful(env: Env) {
    && (forall j {:trigger env.load(Canonical(j))} :: WellFormed(j) ==> env.load(Canonical(j)) == Some(Canon(j)))
    && (forall j {:trigger env.load(env.pretty(j))} :: WellFormed(j) ==> env.load(env.pretty(j)) == Some(j))
    && (forall t {:trigger env.load(t)} :: env.load(t).Some? ==> WellFormed(env.load(t).value))
  }

  /** The strict body and the manifest are files of their own. */
  ghost predicate Unaliased(env: Env, arts: seq<Json>, strictId: string) {
    forall a :: a in arts ==>
      env.at(IdOf(a)) != env.manifestAt && (IdOf(a) != strictId ==> env.at(IdOf(a)) != env.at(strictId))
  }

  /** The write leaves the strict body where it put it, and no byte of another artifact's file is changed by it. */
  ghost predicate Undisturbed(env: Env, files: Files, after: Files, arts: seq<Json>, strictId: string) {
    && env.at(strictId) != env.manifestAt
    && forall a :: a in arts && IdOf(a) != strictId && env.at(IdOf(a)) in files ==>
         env.at(IdOf(a)) in after && after[env.at(IdOf(a))] == files[env.at(IdOf(a))]
  }

  // ---------------------------------------------------------------- overwriting twice

  lemma {:induction false} SetDigestsTwice(fs: seq<Field>, t: string, b: string, t': string, b': string)
    ensures SetDigests(SetDigests(fs, t, b), t', b') == SetDigests(fs, t', b')
  {
    var f1 := SetField(fs, TARGET, Str(t));
    FindSet(fs, TARGET, Str(t), TARGET);
    SetCommutes(f1, TARGET, Str(t'), BUNDLE, Str(b));
    SetSet(fs, TARGET, Str(t), Str(t'));
    SetSet(SetField(fs, TARGET, Str(t')), BUNDLE, Str(b), Str(b'));
  }

  lemma {:induction false} SetDigestsGet(fs: seq<Field>, t: string, b: string, key: string)
    ensures GetField(SetDigests(fs, t, b), key)
         == if key == TARGET then Str(t) else if key == BUNDLE then Str(b) else GetField(fs, key)
  {
    FindSet(fs, TARGET, Str(t), key);
    FindSet(SetField(fs, TARGET, Str(t)), BUNDLE, Str(b), key);
  }

  lemma {:induction false} SetDigestsWellFormed(fs: seq<Field>, t: string, b: string)
    requires WellFormed(Obj(fs))
    ensures WellFormed(Obj(SetDigests(fs, t, b)))
  {
    SetWellFormed(fs, TARGET, Str(t));
    SetWellFormed(SetField(fs, TARGET, Str(t)), BUNDLE, Str(b));
  }

  /** Key order of the body does not show in its digest-normalised canonical form. */
  lemma {:induction false} SetDigestsSame(fs: seq<Field>, gs: seq<Field>, t: string, b: string)
    requires WellFormed(Obj(fs)) && WellFormed(Obj(gs)) && Same(Obj(fs), Obj(gs))
    ensures Same(Obj(SetDigests(fs, t, b)), Obj(SetDigests(gs, t, b)))
  {
    CanonSet(fs, gs, TARGET, Str(t));
    SetWellFormed(fs, TARGET, Str(t));
    SetWellFormed(gs, TARGET, Str(t));
    CanonSet(SetField(fs, TARGET, Str(t)), SetField(gs, TARGET, Str(t)), BUNDLE, Str(b));
  }

  /** Stamping an artifact changes its `sha256` and nothing else that is read. */
  lemma {:induction false} StampKeeps(a: Json, sid: string, sha: string, infos: seq<Info>, key: string)
    requires key != "sha256"
    ensures Get(StampArtifact(a, sid, sha, infos), key) == Get(a, key)
    ensures Has(StampArtifact(a, sid, sha, infos), key) == Has(a, key)
    ensures StampArtifact(a, sid, sha, infos).Obj? == a.Obj?
  {
    if a.Obj? {
      FindSet(a.fields, "sha256", Str(sha), key);
      if RawSha(infos, IdOf(a)).Some? {
        FindSet(a.fields, "sha256", Str(RawSha(infos, IdOf(a)).value), key);
      }
    }
  }

  lemma {:induction false} StampArtifactTwice(a: Json, sid: string, sha: string, infos: seq<Info>, sha': string, infos': seq<Info>)
    requires RawSha(infos, IdOf(a)).Some? ==> RawSha(infos', IdOf(a)).Some?
    ensures StampArtifact(StampArtifact(a, sid, sha, infos), sid, sha', infos') == StampArtifact(a, sid, sha', infos')
  {
    StampKeeps(a, sid, sha, infos, "id");
    if a.Obj? {
      if Get(a, "id") == Str(sid) {
        SetSet(a.fields, "sha256", Str(sha), Str(sha'));
      } else if Get(a, "id").Str? && RawSha(infos, IdOf(a)).Some? {
        SetSet(a.fields, "sha256", Str(RawSha(infos, IdOf(a)).value), Str(RawSha(infos', IdOf(a)).value));
      }
    }
  }

  ghost predicate Stampable(m: Json) {
    m.Obj? && Get(m, "strictVerifier").Obj? && Get(m, "artifacts").Arr?
  }

  lemma {:induction false} StampShape(m: Json, t: string, b: string, sid: string, sha: string, infos: seq<Info>)
    requires Stampable(m)
    ensures var r := Stamp(m, t, b, sid, sha, infos);
      && Stampable(r)
      && Get(r, "strictVerifier") == Obj(SetDigests(Get(m, "strictVerifier").fields, t, b))
      && Get(r, "artifacts") == Arr(StampAll(Get(m, "artifacts").items, sid, sha, infos))
  {
    var strict := Obj(SetDigests(Get(m, "strictVerifier").fields, t, b));
    var artifacts := Arr(StampAll(Get(m, "artifacts").items, sid, sha, infos));
    FindSet(m.fields, "strictVerifier", strict, "strictVerifier");
    FindSet(SetField(m.fields, "strictVerifier", strict), "artifacts", artifacts, "strictVerifier");
    FindSet(SetField(m.fields, "strictVerifier", strict), "artifacts", artifacts, "artifacts");
  }

  /** The last stamp decides. */
  lemma {:induction false} StampTwice(
      m: Json, t: string, b: string, sid: string, sha: string, infos: seq<Info>,
      t': string, b': string, sha': string, infos': seq<Info>)
    requires Stampable(m)
    requires forall a :: a in Get(m, "artifacts").items ==> RawSha(infos, IdOf(a)).Some? ==> RawSha(infos', IdOf(a)).Some?
    ensures Stampable(Stamp(m, t, b, sid, sha, infos))
    ensures Stamp(Stamp(m, t, b, sid, sha, infos), t', b', sid, sha', infos') == Stamp(m, t', b', sid, sha', infos')
  {
    StampShape(m, t, b, sid, sha, infos);
    var strict, arts := Get(m, "strictVerifier").fields, Get(m, "artifacts").items;
    var s1, s2 := Obj(SetDigests(strict, t, b)), Obj(SetDigests(strict, t', b'));
    SetDigestsTwice(strict, t, b, t', b');
    var a1, a2 := Arr(StampAll(arts, sid, sha, infos)), Arr(StampAll(arts, sid, sha', infos'));
    assert StampAll(StampAll(arts, sid, sha, infos), sid, sha', infos') == StampAll(arts, sid, sha', infos') by {
      forall i | 0 <= i < |arts|
        ensures StampArtifact(StampArtifact(arts[i], sid, sha, infos), sid, sha', infos') == StampArtifact(arts[i], sid, sha', infos')
      {
        StampArtifactTwice(arts[i], sid, sha, infos, sha', infos');
      }
    }
    TwoSets(m.fields, s1, a1, s2, a2);
  }

  lemma {:induction false} TwoSets(fs: seq<Field>, s1: Json, a1: Json, s2: Json, a2: Json)
    ensures SetField(SetField(SetField(SetField(fs, "strictVerifier", s1), "artifacts", a1), "strictVerifier", s2), "artifacts", a2)
         == SetField(SetField(fs, "strictVerifier", s2), "artifacts", a2)
  {
    var f1 := SetField(fs, "strictVerifier", s1);
    FindSet(fs, "strictVerifier", s1, "strictVerifier");
    SetCommutes(f1, "strictVerifier", s2, "artifacts", a1);
    SetSet(fs, "strictVerifier", s1, s2);
    SetSet(SetField(fs, "strictVerifier", s2), "artifacts", a1, a2);
  }

  /** Stamps that agree on every non-strict digest are the same stamp. */
  lemma {:induction false} StampAgree(m: Json, t: string, b: string, sid: string, sha: string, infos: seq<Info>, infos': seq<Info>)
    requires Stampable(m)
    requires forall a :: a in Get(m, "artifacts").items && IdOf(a) != sid ==> RawSha(infos, IdOf(a)) == RawSha(infos', IdOf(a))
    requires forall a :: a in Get(m, "artifacts").items ==> Get(a, "id").Str?
    ensures Stamp(m, t, b, sid, sha, infos) == Stamp(m, t, b, sid, sha, infos')
  {
    var arts := Get(m, "artifacts").items;
    assert StampAll(arts, sid, sha, infos) == StampAll(arts, sid, sha, infos');
  }

  // ---------------------------------------------------------------- what stamping leaves alone

  lemma {:induction false} StampFirstProblem(arts: seq<Json>, seen: set<string>, sid: string, sha: string, infos: seq<Info>)
    ensures FirstProblem(StampAll(arts, sid, sha, infos), seen) == FirstProblem(arts, seen)
  {
    if arts == [] {
    } else {
      StampKeeps(arts[0], sid, sha, infos, "id");
      StampFirstProblem(arts[1..], seen + {IdOf(arts[0])}, sid, sha, infos);
      assert StampAll(arts, sid, sha, infos)[1..] == StampAll(arts[1..], sid, sha, infos);
    }
  }

  lemma {:induction false} StampStrictIds(arts: seq<Json>, id: string, sid: string, sha: string, infos: seq<Info>)
    ensures StrictIds(StampAll(arts, sid, sha, infos)) == StrictIds(arts)
    ensures WithId(arts, id).Some? == WithId(StampAll(arts, sid, sha, infos), id).Some?
    ensures WithId(arts, id).Some? ==>
      IsStrictKind(WithId(arts, id).value) == IsStrictKind(WithId(StampAll(arts, sid, sha, infos), id).value)
  {
    if arts == [] {
    } else {
      StampKeeps(arts[0], sid, sha, infos, "id");
      StampKeeps(arts[0], sid, sha, infos, "kind");
      StampStrictIds(arts[1..], id, sid, sha, infos);
      assert StampAll(arts, sid, sha, infos)[1..] == StampAll(arts[1..], sid, sha, infos);
    }
  }

  lemma {:induction false} StampOrder(a: Json, b: Json, sid: string, sha: string, infos: seq<Info>)
    ensures IdLe(StampArtifact(a, sid, sha, infos), StampArtifact(b, sid, sha, infos)) == IdLe(a, b)
  {
    StampKeeps(a, sid, sha, infos, "id");
    StampKeeps(b, sid, sha, infos, "id");
  }

  lemma {:induction false} StampInsert(a: Json, arts: seq<Json>, sid: string, sha: string, infos: seq<Info>)
    ensures Insert(StampArtifact(a, sid, sha, infos), StampAll(arts, sid, sha, infos), IdLe)
         == StampAll(Insert(a, arts, IdLe), sid, sha, infos)
  {
    if arts == [] {
    } else {
      StampOrder(a, arts[0], sid, sha, infos);
      StampInsert(a, arts[1..], sid, sha, infos);
      assert StampAll(arts, sid, sha, infos)[1..] == StampAll(arts[1..], sid, sha, infos);
    }
  }

  /** Artifacts sort alike before and after stamping. */
  lemma {:induction false} StampSort(arts: seq<Json>, sid: string, sha: string, infos: seq<Info>)
    ensures Sort(StampAll(arts, sid, sha, infos), IdLe) == StampAll(Sort(arts, IdLe), sid, sha, infos)
  {
    if arts == [] {
    } else {
      StampSort(arts[1..], sid, sha, infos);
      StampInsert(arts[0], Sort(arts[1..], IdLe), sid, sha, infos);
      assert StampAll(arts, sid, sha, infos)[1..] == StampAll(arts[1..], sid, sha, infos);
    }
  }

  // ---------------------------------------------------------------- reading the bodies

  /** What was read for an id is what its file holds. */
  lemma {:induction false} InfoReads(env: Env, files: Files, arts: seq<Json>, sid: string, id: string)
    requires ReadAll(env, files, arts, sid).Ok? && HasId(arts, id)
    ensures env.at(id) in files && env.load(files[env.at(id)]).Some?
    ensures var infos := ReadAll(env, files, arts, sid).value;
      && RawSha(infos, id) == Some(env.hash(files[env.at(id)]))
      && BodyOf(infos, id) == env.load(files[env.at(id)]).value
  {
    var infos := ReadAll(env, files, arts, sid).value;
    assert infos[0] == ReadBody(env, files, arts[0], sid).value;
    if IdOf(arts[0]) != id {
      assert HasId(arts[1..], id) by {
        assert arts == [arts[0]] + arts[1..];
      }
      InfoReads(env, files, arts[1..], sid, id);
      assert infos[1..] == ReadAll(env, files, arts[1..], sid).value;
    }
  }

  /** One body after the digests are written: same digest as before, for the strict body up to its digest fields. */
  lemma {:induction false} ReadAfterWrite(
      env: Env, before: Files, after: Files, a: Json, sid: string, t: string, b: string, sha: string, infos: seq<Info>)
    requires Faithful(env) && ReadBody(env, before, a, sid).Ok?
    requires env.at(IdOf(a)) in after
    requires IdOf(a) != sid ==> after[env.at(IdOf(a))] == before[env.at(IdOf(a))]
    requires var body := env.load(before[env.at(IdOf(a))]).value;
      IdOf(a) == sid ==> body.Obj? && after[env.at(sid)] == Canonical(Obj(SetDigests(body.fields, t, b)))
    ensures var next := ReadBody(env, after, StampArtifact(a, sid, sha, infos), sid);
      next.Ok? && BundleEntry(next.value) == BundleEntry(ReadBody(env, before, a, sid).value)
  {
    StampKeeps(a, sid, sha, infos, "id");
    StampKeeps(a, sid, sha, infos, "kind");
    StampKeeps(a, sid, sha, infos, "provider");
    if IdOf(a) == sid {
      var body := env.load(before[env.at(sid)]).value;
      RewrittenBody(env, body, t, b);
    }
  }

  /** The strict body as read back: normalising its digest fields undoes the rewrite. */
  lemma {:induction false} RewrittenBody(env: Env, body: Json, t: string, b: string)
    requires Faithful(env) && WellFormed(body) && body.Obj?
    ensures var written := Obj(SetDigests(body.fields, t, b));
      && env.load(Canonical(written)) == Some(Canon(written))
      && Canon(written).Obj?
      && Canonical(NormalBody(Canon(written))) == Canonical(NormalBody(body))
      && Canonical(Obj(SetDigests(Canon(written).fields, t, b))) == Canonical(written)
  {
    var written := SetDigests(body.fields, t, b);
    SetDigestsWellFormed(body.fields, t, b);
    CanonIdempotent(Obj(written));
    CanonWellFormed(Obj(written));
    var readBack := Canon(Obj(written)).fields;
    SetDigestsSame(readBack, written, ZERO_SHA256, ZERO_SHA256);
    SetDigestsTwice(body.fields, t, b, ZERO_SHA256, ZERO_SHA256);
    SetDigestsSame(readBack, written, t, b);
    SetDigestsTwice(body.fields, t, b, t, b);
  }

  lemma {:induction false} ReadAllAfterWrite(
      env: Env, before: Files, after: Files, arts: seq<Json>, sid: string, t: string, b: string, sha: string, infos: seq<Info>)
    requires Faithful(env) && ReadAll(env, before, arts, sid).Ok?
    requires forall a :: a in arts ==> env.at(IdOf(a)) in after
    requires forall a :: a in arts && IdOf(a) != sid && env.at(IdOf(a)) in before ==>
      after[env.at(IdOf(a))] == before[env.at(IdOf(a))]
    requires forall a :: a in arts && IdOf(a) == sid && env.at(sid) in before && env.load(before[env.at(sid)]).Some? ==>
      var body := env.load(before[env.at(sid)]).value;
      body.Obj? && after[env.at(sid)] == Canonical(Obj(SetDigests(body.fields, t, b)))
    ensures var next := ReadAll(env, after, StampAll(arts, sid, sha, infos), sid);
      next.Ok? && BundleEntries(next.value) == BundleEntries(ReadAll(env, before, arts, sid).value)
  {
    if arts == [] {
    } else {
      ReadAfterWrite(env, before, after, arts[0], sid, t, b, sha, infos);
      ReadAllAfterWrite(env, before, after, arts[1..], sid, t, b, sha, infos);
      assert StampAll(arts, sid, sha, infos)[1..] == StampAll(arts[1..], sid, sha, infos);
    }
  }

  // ---------------------------------------------------------------- the fixed point

  ghost function ManifestOf(env: Env, files: Files): Json {
    if env.manifestAt in files && env.load(files[env.manifestAt]).Some? then env.load(files[env.manifestAt]).value else Null
  }

  ghost function ArtifactsOf(m: Json): seq<Json> {
    if Get(m, "artifacts").Arr? then Get(m, "artifacts").items else []
  }

  /** The text written for the strict body. */
  ghost function StrictText(c: Computation): string
    requires BodyOf(c.infos, c.strictId).Obj?
  {
    Canonical(Obj(SetDigests(BodyOf(c.infos, c.strictId).fields, c.target, c.bundle)))
  }

  /** The manifest that one run leaves. */
  ghost function Stamped(env: Env, m: Json, c: Computation): Json
    requires Stampable(m) && BodyOf(c.infos, c.strictId).Obj?
  {
    Stamp(m, c.target, c.bundle, c.strictId, env.hash(StrictText(c)), c.infos)
  }

  /** One successful run: manifest `m` read from `files`, computation `c`, files `after` left behind. */
  ghost predicate Ran(env: Env, files: Files, m: Json, c: Computation, after: Files) {
    && Faithful(env) && WellFormed(m) && Stampable(m)
    && Undisturbed(env, files, after, ArtifactsOf(m), c.strictId)
    && ById(m) == Ok(ArtifactsOf(m))
    && StrictId(Get(m, "strictVerifier"), ArtifactsOf(m)) == Ok(c.strictId)
    && ReadAll(env, files, Sort(ArtifactsOf(m), IdLe), c.strictId) == Ok(c.infos)
    && c.target == env.hash(Canonical(Normalized(m, c.strictId, c.infos)))
    && c.bundle == env.hash(Canonical(Bundle(c.infos)))
    && BodyOf(c.infos, c.strictId).Obj?
    && after == files[env.at(c.strictId) := StrictText(c)][env.manifestAt := env.pretty(Stamped(env, m, c))]
  }

  lemma {:induction false} RunFacts(env: Env, files: Files) returns (m: Json, c: Computation, after: Files)
    requires Faithful(env) && Refresh(env, files).Ok?
    requires var (after, c) := Refresh(env, files).value;
      Undisturbed(env, files, after, ArtifactsOf(ManifestOf(env, files)), c.strictId)
    ensures m == ManifestOf(env, files) && Refresh(env, files).value == (after, c)
    ensures Ran(env, files, m, c, after)
  {
    m := ManifestOf(env, files);
    after := Refresh(env, files).value.0;
    c := Refresh(env, files).value.1;
    ComputeParts(env, files, m);
  }

  lemma {:induction false} ComputeParts(env: Env, files: Files, m: Json)
    requires Compute(env, files, m).Ok?
    ensures var c := Compute(env, files, m).value;
      && Stampable(m) && ById(m) == Ok(ArtifactsOf(m))
      && StrictId(Get(m, "strictVerifier"), ArtifactsOf(m)) == Ok(c.strictId)
      && ReadAll(env, files, Sort(ArtifactsOf(m), IdLe), c.strictId) == Ok(c.infos)
      && c.target == env.hash(Canonical(Normalized(m, c.strictId, c.infos)))
      && c.bundle == env.hash(Canonical(Bundle(c.infos)))
  {
    ByIdParts(m);
  }

  lemma {:induction false} ByIdParts(m: Json)
    requires ById(m).Ok?
    ensures m.Obj? && Get(m, "artifacts").Arr? && ById(m) == Ok(ArtifactsOf(m))
    ensures FirstProblem(ArtifactsOf(m), {}).None?
  {
  }

  lemma {:induction false} StrictIdPresent(strict: Json, arts: seq<Json>)
    requires StrictId(strict, arts).Ok?
    ensures HasId(arts, StrictId(strict, arts).value)
  {
    var ref := Get(strict, "evidenceRef");
    if ref.Str? && !Blank(ref.s) {
      WithIdPresent(arts, ref.s);
    } else {
      StrictIdsPresent(arts, StrictIds(arts)[0]);
    }
  }

  lemma {:induction false} WithIdPresent(arts: seq<Json>, id: string)
    requires WithId(arts, id).Some?
    ensures HasId(arts, id)
  {
    if IdOf(arts[0]) == id {
      assert arts[0] in arts;
    } else {
      WithIdPresent(arts[1..], id);
    }
  }

  lemma {:induction false} StrictIdsPresent(arts: seq<Json>, id: string)
    requires id in StrictIds(arts)
    ensures HasId(arts, id)
  {
    if IsStrictKind(arts[0]) && IdOf(arts[0]) == id {
      assert arts[0] in arts;
    } else {
      assert id in StrictIds(arts[1..]);
      StrictIdsPresent(arts[1..], id);
    }
  }

  lemma {:induction false} StampWellFormed(m: Json, t: string, b: string, sid: string, sha: string, infos: seq<Info>)
    requires Stampable(m) && WellFormed(m)
    ensures WellFormed(Stamp(m, t, b, sid, sha, infos))
  {
    GetWellFormed(m, "strictVerifier");
    GetWellFormed(m, "artifacts");
    var strict, arts := Get(m, "strictVerifier").fields, Get(m, "artifacts").items;
    SetDigestsWellFormed(strict, t, b);
    forall i | 0 <= i < |arts| ensures WellFormed(StampArtifact(arts[i], sid, sha, infos)) {
      if arts[i].Obj? {
        SetWellFormed(arts[i].fields, "sha256", Str(sha));
        if RawSha(infos, IdOf(arts[i])).Some? {
          SetWellFormed(arts[i].fields, "sha256", Str(RawSha(infos, IdOf(arts[i])).value));
        }
      }
    }
    var s1, a1 := Obj(SetDigests(strict, t, b)), Arr(StampAll(arts, sid, sha, infos));
    SetWellFormed(m.fields, "strictVerifier", s1);
    SetWellFormed(SetField(m.fields, "strictVerifier", s1), "artifacts", a1);
  }

  ghost predicate HasId(arts: seq<Json>, id: string) {
    exists a :: a in arts && IdOf(a) == id
  }

  lemma {:induction false} StrictPresent(env: Env, files: Files, m: Json, c: Computation, after: Files)
    requires Ran(env, files, m, c, after)
    ensures HasId(ArtifactsOf(m), c.strictId)
  {
    StrictIdPresent(Get(m, "strictVerifier"), ArtifactsOf(m));
  }

  /** Which files one run changes: the strict body and the manifest, and no other artifact. */
  lemma {:induction false} FileAfter(env: Env, files: Files, m: Json, c: Computation, after: Files, id: string)
    requires Ran(env, files, m, c, after) && HasId(ArtifactsOf(m), id)
    ensures env.at(id) in files && env.at(id) in after
    ensures after[env.at(id)] == if id == c.strictId then StrictText(c) else files[env.at(id)]
  {
    SortedHasId(ArtifactsOf(m), id);
    InfoReads(env, files, Sort(ArtifactsOf(m), IdLe), c.strictId, id);
    var a :| a in ArtifactsOf(m) && IdOf(a) == id;
  }

  lemma {:induction false} TwoWrites(env: Env, files: Files, arts: seq<Json>, sid: string, text: string, manifest: string)
    requires Unaliased(env, arts, sid) && HasId(arts, sid)
    ensures Undisturbed(env, files, files[env.at(sid) := text][env.manifestAt := manifest], arts, sid)
  {
  }

  /** What can be checked before a run: where no other artifact's id names the manifest or the strict body's file, the
      write disturbs none. */
  lemma {:induction false} UnaliasedUndisturbed(env: Env, files: Files)
    requires Refresh(env, files).Ok?
    requires Unaliased(env, ArtifactsOf(ManifestOf(env, files)), Refresh(env, files).value.1.strictId)
    ensures var (after, c) := Refresh(env, files).value;
      Undisturbed(env, files, after, ArtifactsOf(ManifestOf(env, files)), c.strictId)
  {
    var m, c := ManifestOf(env, files), Refresh(env, files).value.1;
    ComputeParts(env, files, m);
    StrictIdPresent(Get(m, "strictVerifier"), ArtifactsOf(m));
    var text := StrictText(c);
    TwoWrites(env, files, ArtifactsOf(m), c.strictId, text, env.pretty(Stamped(env, m, c)));
  }

  lemma {:induction false} SortedHasId(arts: seq<Json>, id: string)
    requires HasId(arts, id)
    ensures HasId(Sort(arts, IdLe), id)
  {
    var a :| a in arts && IdOf(a) == id;
    assert a in Sort(arts, IdLe);
  }

  lemma {:induction false} ManifestAfter(env: Env, files: Files, m: Json, c: Computation, after: Files)
    requires Ran(env, files, m, c, after)
    ensures env.manifestAt in after && env.load(after[env.manifestAt]) == Some(Stamped(env, m, c))
    ensures ManifestOf(env, after) == Stamped(env, m, c)
  {
    StampWellFormed(m, c.target, c.bundle, c.strictId, env.hash(StrictText(c)), c.infos);
  }

  /** A second run finds the same artifacts, in the same order, with the same strict one among them. */
  lemma {:induction false} SameArtifacts(env: Env, m: Json, c: Computation)
    requires Stampable(m) && BodyOf(c.infos, c.strictId).Obj? && ById(m) == Ok(ArtifactsOf(m))
    requires StrictId(Get(m, "strictVerifier"), ArtifactsOf(m)) == Ok(c.strictId)
    ensures var m1 := Stamped(env, m, c);
      && Stampable(m1)
      && ArtifactsOf(m1) == StampAll(ArtifactsOf(m), c.strictId, env.hash(StrictText(c)), c.infos)
      && ById(m1) == Ok(ArtifactsOf(m1))
      && StrictId(Get(m1, "strictVerifier"), ArtifactsOf(m1)) == Ok(c.strictId)
  {
    var arts, sha := ArtifactsOf(m), env.hash(StrictText(c));
    var strict := Get(m, "strictVerifier");
    StampShape(m, c.target, c.bundle, c.strictId, sha, c.infos);
    StampFirstProblem(arts, {}, c.strictId, sha, c.infos);
    SetDigestsGet(strict.fields, c.target, c.bundle, "evidenceRef");
    StampStrictIds(arts, if Get(strict, "evidenceRef").Str? then Get(strict, "evidenceRef").s else "", c.strictId, sha, c.infos);
  }

  /** A second run reads every body and digests it as before. */
  lemma {:induction false} SecondRead(env: Env, files: Files, m: Json, c: Computation, after: Files) returns (infos1: seq<Info>)
    requires Ran(env, files, m, c, after)
    ensures ReadAll(env, after, Sort(ArtifactsOf(Stamped(env, m, c)), IdLe), c.strictId) == Ok(infos1)
    ensures Bundle(infos1) == Bundle(c.infos)
  {
    var arts, sid, sha := ArtifactsOf(m), c.strictId, env.hash(StrictText(c));
    var sorted := Sort(arts, IdLe);
    StrictPresent(env, files, m, c, after);
    SortedHasId(arts, sid);
    InfoReads(env, files, sorted, sid, sid);
    SameArtifacts(env, m, c);
    forall a | a in sorted
      ensures env.at(IdOf(a)) in files && env.at(IdOf(a)) in after
      ensures after[env.at(IdOf(a))] == if IdOf(a) == sid then StrictText(c) else files[env.at(IdOf(a))]
    {
      assert HasId(arts, IdOf(a));
      FileAfter(env, files, m, c, after, IdOf(a));
    }
    ReadAllAfterWrite(env, files, after, sorted, sid, c.target, c.bundle, sha, c.infos);
    StampSort(arts, sid, sha, c.infos);
    infos1 := ReadAll(env, after, StampAll(sorted, sid, sha, c.infos), sid).value;
  }

  /** The raw digests a second run uses: unchanged for other artifacts, and the new text's for the strict body. */
  lemma {:induction false} SecondRawSha(env: Env, files: Files, m: Json, c: Computation, after: Files, infos1: seq<Info>, id: string)
    requires Ran(env, files, m, c, after) && HasId(ArtifactsOf(m), id)
    requires ReadAll(env, after, Sort(ArtifactsOf(Stamped(env, m, c)), IdLe), c.strictId) == Ok(infos1)
    ensures env.at(id) in after && RawSha(infos1, id) == Some(env.hash(after[env.at(id)]))
    ensures RawSha(c.infos, id).Some? && (id != c.strictId ==> RawSha(c.infos, id) == RawSha(infos1, id))
    ensures env.load(after[env.at(id)]) == Some(BodyOf(infos1, id))
  {
    FileAfter(env, files, m, c, after, id);
    SameArtifacts(env, m, c);
    SortedHasId(ArtifactsOf(m), id);
    InfoReads(env, files, Sort(ArtifactsOf(m), IdLe), c.strictId, id);
    StampHasId(ArtifactsOf(m), c.strictId, env.hash(StrictText(c)), c.infos, id);
    SortedHasId(ArtifactsOf(Stamped(env, m, c)), id);
    InfoReads(env, after, Sort(ArtifactsOf(Stamped(env, m, c)), IdLe), c.strictId, id);
  }

  lemma {:induction false} StampHasId(arts: seq<Json>, sid: string, sha: string, infos: seq<Info>, id: string)
    requires HasId(arts, id)
    ensures HasId(StampAll(arts, sid, sha, infos), id)
  {
    var a :| a in arts && IdOf(a) == id;
    var i :| 0 <= i < |arts| && arts[i] == a;
    StampKeeps(a, sid, sha, infos, "id");
    assert StampAll(arts, sid, sha, infos)[i] in StampAll(arts, sid, sha, infos);
  }

  /** Normalising or stamping the manifest again gives what it gave before. */
  lemma {:induction false} SecondStamps(env: Env, files: Files, m: Json, c: Computation, after: Files, infos1: seq<Info>)
    requires Ran(env, files, m, c, after)
    requires ReadAll(env, after, Sort(ArtifactsOf(Stamped(env, m, c)), IdLe), c.strictId) == Ok(infos1)
    ensures var m1 := Stamped(env, m, c);
      && Stampable(m1)
      && Normalized(m1, c.strictId, infos1) == Normalized(m, c.strictId, c.infos)
      && Stamp(m1, c.target, c.bundle, c.strictId, env.hash(StrictText(c)), infos1) == m1
  {
    var arts, sha := ArtifactsOf(m), env.hash(StrictText(c));
    forall a | a in arts
      ensures RawSha(infos1, IdOf(a)).Some?
      ensures IdOf(a) != c.strictId ==> RawSha(c.infos, IdOf(a)) == RawSha(infos1, IdOf(a))
    {
      assert HasId(arts, IdOf(a));
      SecondRawSha(env, files, m, c, after, infos1, IdOf(a));
    }
    ByIdParts(m);
    AcceptedIdsDistinct(arts);
    StampTwice(m, c.target, c.bundle, c.strictId, sha, c.infos, ZERO_SHA256, ZERO_SHA256, ZERO_SHA256, infos1);
    StampAgree(m, ZERO_SHA256, ZERO_SHA256, c.strictId, ZERO_SHA256, c.infos, infos1);
    StampTwice(m, c.target, c.bundle, c.strictId, sha, c.infos, c.target, c.bundle, sha, infos1);
    StampAgree(m, c.target, c.bundle, c.strictId, sha, c.infos, infos1);
  }

  /** The strict body read back carries the digests and prints to the very text it was read from. */
  lemma {:induction false} SecondStrictBody(env: Env, files: Files, m: Json, c: Computation, after: Files, infos1: seq<Info>)
    requires Ran(env, files, m, c, after)
    requires ReadAll(env, after, Sort(ArtifactsOf(Stamped(env, m, c)), IdLe), c.strictId) == Ok(infos1)
    ensures var body := BodyOf(infos1, c.strictId);
      && body.Obj? && env.load(after[env.at(c.strictId)]) == Some(body)
      && Canonical(Obj(SetDigests(body.fields, c.target, c.bundle))) == StrictText(c)
      && Get(body, TARGET) == Str(c.target) && Get(body, BUNDLE) == Str(c.bundle)
  {
    StrictPresent(env, files, m, c, after);
    FileAfter(env, files, m, c, after, c.strictId);
    SecondRawSha(env, files, m, c, after, infos1, c.strictId);
    SortedHasId(ArtifactsOf(m), c.strictId);
    InfoReads(env, files, Sort(ArtifactsOf(m), IdLe), c.strictId, c.strictId);
    var body := BodyOf(c.infos, c.strictId);
    RewrittenBody(env, body, c.target, c.bundle);
    SetDigestsWellFormed(body.fields, c.target, c.bundle);
    CanonGet(Obj(SetDigests(body.fields, c.target, c.bundle)), TARGET);
    CanonGet(Obj(SetDigests(body.fields, c.target, c.bundle)), BUNDLE);
    SetDigestsGet(body.fields, c.target, c.bundle, TARGET);
    SetDigestsGet(body.fields, c.target, c.bundle, BUNDLE);
  }

  lemma {:induction false} FixedPointOfRun(env: Env, files: Files, m: Json, c: Computation, after: Files)
    requires Ran(env, files, m, c, after)
    ensures exists infos1 :: Refresh(env, after) == Ok((after, c.(infos := infos1)))
  {
    ManifestAfter(env, files, m, c, after);
    SameArtifacts(env, m, c);
    var infos1 := SecondRead(env, files, m, c, after);
    SecondStamps(env, files, m, c, after, infos1);
    SecondStrictBody(env, files, m, c, after, infos1);
    StrictPresent(env, files, m, c, after);
    FileAfter(env, files, m, c, after, c.strictId);
    var m1, c1 := Stamped(env, m, c), c.(infos := infos1);
    ComputeIs(env, after, m1, ArtifactsOf(m1), c.strictId, infos1);
    RewritingChangesNothing(files, env.at(c.strictId), StrictText(c), env.manifestAt, env.pretty(m1));
    RefreshIs(env, after, m1, c1, after);
  }

  lemma {:induction false} RewritingChangesNothing(files: Files, p: string, t: string, q: string, u: string)
    requires p != q
    ensures var after := files[p := t][q := u]; after[p := t][q := u] == after
  {
  }

  lemma {:induction false} ComputeIs(env: Env, files: Files, m: Json, arts: seq<Json>, sid: string, infos: seq<Info>)
    requires Stampable(m) && ById(m) == Ok(arts) && StrictId(Get(m, "strictVerifier"), arts) == Ok(sid)
    requires ReadAll(env, files, Sort(arts, IdLe), sid) == Ok(infos)
    ensures Compute(env, files, m) == Ok(Computation(
      sid, infos, env.hash(Canonical(Normalized(m, sid, infos))), env.hash(Canonical(Bundle(infos)))))
  {
  }

  lemma {:induction false} RefreshIs(env: Env, files: Files, m: Json, c: Computation, after: Files)
    requires env.manifestAt in files && env.load(files[env.manifestAt]) == Some(m) && Stampable(m)
    requires Compute(env, files, m) == Ok(c) && Written(env, files, m, c) == Ok(after)
    ensures Refresh(env, files) == Ok((after, c))
  {
  }

  /** After `--write`, computing again gives the same strict artifact and the same two digests,
      and writing again changes no file. */
  lemma {:induction false} RefreshIsFixedPoint(env: Env, files: Files)
    requires Faithful(env) && Refresh(env, files).Ok?
    requires var (after, c) := Refresh(env, files).value;
      Undisturbed(env, files, after, ArtifactsOf(ManifestOf(env, files)), c.strictId)
    ensures var (after, c) := Refresh(env, files).value;
      && Refresh(env, after).Ok?
      && Refresh(env, after).value.0 == after
      && Refresh(env, after).value.1.(infos := c.infos) == c
  {
    var m, c, after := RunFacts(env, files);
    FixedPointOfRun(env, files, m, c, after);
  }

  /** Every stored digest describes the files as they are after the run: each artifact's `sha256` is the
      hash of its final body, and the manifest and the strict body both carry the reported digests. */
  lemma {:induction false} StoredDigestsAreTrue(env: Env, files: Files)
    requires Faithful(env) && Refresh(env, files).Ok?
    requires var (after, c) := Refresh(env, files).value;
      Undisturbed(env, files, after, ArtifactsOf(ManifestOf(env, files)), c.strictId)
    ensures var (after, c) := Refresh(env, files).value;
      var m1 := ManifestOf(env, after);
      && (forall a :: a in ArtifactsOf(m1) ==>
            env.at(IdOf(a)) in after && Get(a, "sha256") == Str(env.hash(after[env.at(IdOf(a))])))
      && Get(Get(m1, "strictVerifier"), TARGET) == Str(c.target)
      && Get(Get(m1, "strictVerifier"), BUNDLE) == Str(c.bundle)
      && env.at(c.strictId) in after && env.load(after[env.at(c.strictId)]).Some?
      && Get(env.load(after[env.at(c.strictId)]).value, TARGET) == Str(c.target)
      && Get(env.load(after[env.at(c.strictId)]).value, BUNDLE) == Str(c.bundle)
  {
    var m, c, after := RunFacts(env, files);
    ManifestAfter(env, files, m, c, after);
    var infos1 := SecondRead(env, files, m, c, after);
    SecondStrictBody(env, files, m, c, after, infos1);
    StrictPresent(env, files, m, c, after);
    FileAfter(env, files, m, c, after, c.strictId);
    StampedDigests(env, m, c);
    StampedShas(env, files, m, c, after, infos1);
  }

  lemma {:induction false} StampedShas(env: Env, files: Files, m: Json, c: Computation, after: Files, infos1: seq<Info>)
    requires Ran(env, files, m, c, after)
    requires ReadAll(env, after, Sort(ArtifactsOf(Stamped(env, m, c)), IdLe), c.strictId) == Ok(infos1)
    ensures forall a1 :: a1 in ArtifactsOf(Stamped(env, m, c)) ==>
      env.at(IdOf(a1)) in after && Get(a1, "sha256") == Str(env.hash(after[env.at(IdOf(a1))]))
  {
    SameArtifacts(env, m, c);
    forall i | 0 <= i < |ArtifactsOf(m)|
      ensures var a1 := ArtifactsOf(Stamped(env, m, c))[i];
        env.at(IdOf(a1)) in after && Get(a1, "sha256") == Str(env.hash(after[env.at(IdOf(a1))]))
    {
      StampedSha(env, files, m, c, after, infos1, i);
    }
  }

  lemma {:induction false} StampedDigests(env: Env, m: Json, c: Computation)
    requires Stampable(m) && BodyOf(c.infos, c.strictId).Obj?
    ensures Get(Get(Stamped(env, m, c), "strictVerifier"), TARGET) == Str(c.target)
    ensures Get(Get(Stamped(env, m, c), "strictVerifier"), BUNDLE) == Str(c.bundle)
  {
    StampShape(m, c.target, c.bundle, c.strictId, env.hash(StrictText(c)), c.infos);
    SetDigestsGet(Get(m, "strictVerifier").fields, c.target, c.bundle, TARGET);
    SetDigestsGet(Get(m, "strictVerifier").fields, c.target, c.bundle, BUNDLE);
  }

  /** What is known of one artifact of a run: the digest stored for it is that of its file afterwards. */
  lemma {:induction false} ShaAfter(env: Env, files: Files, m: Json, c: Computation, after: Files, infos1: seq<Info>, a: Json)
    requires Ran(env, files, m, c, after) && a in ArtifactsOf(m)
    requires ReadAll(env, after, Sort(ArtifactsOf(Stamped(env, m, c)), IdLe), c.strictId) == Ok(infos1)
    ensures env.at(IdOf(a)) in after && RawSha(c.infos, IdOf(a)).Some?
    ensures IdOf(a) == c.strictId ==> after[env.at(IdOf(a))] == StrictText(c)
    ensures IdOf(a) != c.strictId ==> RawSha(c.infos, IdOf(a)) == Some(env.hash(after[env.at(IdOf(a))]))
  {
    assert HasId(ArtifactsOf(m), IdOf(a));
    FileAfter(env, files, m, c, after, IdOf(a));
    SecondRawSha(env, files, m, c, after, infos1, IdOf(a));
  }

  lemma {:induction false} AcceptedArtifact(m: Json, i: nat)
    requires Stampable(m) && ById(m) == Ok(ArtifactsOf(m)) && i < |ArtifactsOf(m)|
    ensures ArtifactsOf(m)[i].Obj? && Get(ArtifactsOf(m)[i], "id").Str?
  {
    ByIdParts(m);
    AcceptedIdsDistinct(ArtifactsOf(m));
  }

  lemma {:induction false} StampedSha(env: Env, files: Files, m: Json, c: Computation, after: Files, infos1: seq<Info>, i: nat)
    requires Ran(env, files, m, c, after) && i < |ArtifactsOf(m)|
    requires ReadAll(env, after, Sort(ArtifactsOf(Stamped(env, m, c)), IdLe), c.strictId) == Ok(infos1)
    ensures var a1 := StampArtifact(ArtifactsOf(m)[i], c.strictId, env.hash(StrictText(c)), c.infos);
      env.at(IdOf(a1)) in after && Get(a1, "sha256") == Str(env.hash(after[env.at(IdOf(a1))]))
  {
    var a, sha := ArtifactsOf(m)[i], env.hash(StrictText(c));
    AcceptedArtifact(m, i);
    ShaAfter(env, files, m, c, after, infos1, a);
    StampGet(a, c.strictId, sha, c.infos);
  }

  lemma {:induction false} StampGet(a: Json, sid: string, sha: string, infos: seq<Info>)
    requires a.Obj? && Get(a, "id").Str? && RawSha(infos, IdOf(a)).Some?
    ensures var r := StampArtifact(a, sid, sha, infos);
      IdOf(r) == IdOf(a) && Get(r, "sha256") == Str(if IdOf(a) == sid then sha else RawSha(infos, IdOf(a)).value)
  {
    StampKeeps(a, sid, sha, infos, "id");
    FindSet(a.fields, "sha256", Str(sha), "sha256");
    FindSet(a.fields, "sha256", Str(RawSha(infos, IdOf(a)).value), "sha256");
  }
}
