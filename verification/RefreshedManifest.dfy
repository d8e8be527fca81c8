/** What a run of the digest script leaves alone, and what its target digest covers. */
module RefreshedManifest {
  import opened JsonValues
  import opened JsonPositions
  import opened CanonicalJson
  import opened ReleaseDigests
  import opened DigestFixedPoint
  import opened DigestMeaning
  import opened DigestGuard

  // ---------------------------------------------------------------- editing a dict in place

  /** `after` is `before` with some keys written to: every key keeps its place, every other field is untouched, and only
      written keys are added, at the end. */
  ghost predicate Edited(before: Json, after: Json, written: set<string>) {
    && before.Obj? && after.Obj? && |before.fields| <= |after.fields|
    && (forall i :: 0 <= i < |before.fields| ==>
          after.fields[i].key == before.fields[i].key
          && (before.fields[i].key !in written ==> after.fields[i] == before.fields[i]))
    && (forall i :: |before.fields| <= i < |after.fields| ==> after.fields[i].key in written)
    && UniqueKeys(after.fields)
    && Keys(after.fields) == Keys(before.fields) + written
  }

  lemma {:induction false} SetEdits(fs: seq<Field>, key: string, value: Json)
    ensures var gs := SetField(fs, key, value);
      && |fs| <= |gs|
      && (forall i :: 0 <= i < |fs| ==> gs[i].key == fs[i].key && (fs[i].key != key ==> gs[i] == fs[i]))
      && (forall i :: |fs| <= i < |gs| ==> gs[i].key == key)
      && (Find(fs, key).Some? ==> |gs| == |fs|)
  {
    if fs != [] && fs[0].key != key {
      SetEdits(fs[1..], key, value);
      assert SetField(fs, key, value)[1..] == SetField(fs[1..], key, value);
      forall i | 0 < i < |fs| ensures fs[i] == fs[1..][i - 1] {
      }
    }
  }

  lemma {:induction false} OneEdit(fs: seq<Field>, key: string, value: Json)
    requires UniqueKeys(fs)
    ensures Edited(Obj(fs), Obj(SetField(fs, key, value)), {key})
  {
    SetEdits(fs, key, value);
    SetKeys(fs, key, value);
  }

  lemma {:induction false} TwoEdits(fs: seq<Field>, k: string, v: Json, l: string, w: Json)
    requires UniqueKeys(fs)
    ensures Edited(Obj(fs), Obj(SetField(SetField(fs, k, v), l, w)), {k, l})
    ensures Find(fs, k).Some? && Find(fs, l).Some? ==> |SetField(SetField(fs, k, v), l, w)| == |fs|
  {
    FindSet(fs, k, v, l);
    var gs := SetField(fs, k, v);
    SetEdits(fs, k, v);
    SetKeys(fs, k, v);
    SetEdits(gs, l, w);
    SetKeys(gs, l, w);
  }

  // ---------------------------------------------------------------- the manifest after a run

  lemma {:induction false} StampEdits(m: Json, t: string, b: string, sid: string, sha: string, infos: seq<Info>)
    requires Stampable(m) && WellFormed(m)
    ensures var r := Stamp(m, t, b, sid, sha, infos);
      && Edited(m, r, {"strictVerifier", "artifacts"}) && |r.fields| == |m.fields|
      && Edited(Get(m, "strictVerifier"), Get(r, "strictVerifier"), {"targetEvidenceSha256", "artifactBundleSha256"})
  {
    GetWellFormed(m, "strictVerifier");
    StampShape(m, t, b, sid, sha, infos);
    var strict := Get(m, "strictVerifier").fields;
    TwoEdits(strict, TARGET, Str(t), BUNDLE, Str(b));
    TwoEdits(m.fields, "strictVerifier", Obj(SetDigests(strict, t, b)), "artifacts",
             Arr(StampAll(Get(m, "artifacts").items, sid, sha, infos)));
  }

  lemma {:induction false} StampEditsArtifact(a: Json, sid: string, sha: string, infos: seq<Info>)
    requires WellFormed(a) && a.Obj? && Get(a, "id").Str? && RawSha(infos, IdOf(a)).Some?
    ensures var r := StampArtifact(a, sid, sha, infos);
      && Edited(a, r, {"sha256"})
      && Get(r, "sha256") == Str(if Get(a, "id") == Str(sid) then sha else RawSha(infos, IdOf(a)).value)
  {
    OneEdit(a.fields, "sha256", Str(sha));
    OneEdit(a.fields, "sha256", Str(RawSha(infos, IdOf(a)).value));
    StampGet(a, sid, sha, infos);
  }

  /** After a successful run the manifest has its old fields in their old places; only what stands below `strictVerifier` and
      `artifacts` may have changed, and below `strictVerifier` only the two digests, which are those reported. */
  lemma {:induction false} RunKeepsManifest(env: Env, files: Files)
    requires Faithful(env) && Refresh(env, files).Ok?
    ensures var (after, c) := Refresh(env, files).value;
      var m, r := ManifestOf(env, files), ManifestOf(env, after);
      && Edited(m, r, {"strictVerifier", "artifacts"}) && |r.fields| == |m.fields|
      && Edited(Get(m, "strictVerifier"), Get(r, "strictVerifier"), {"targetEvidenceSha256", "artifactBundleSha256"})
      && Get(Get(r, "strictVerifier"), "targetEvidenceSha256") == Str(c.target)
      && Get(Get(r, "strictVerifier"), "artifactBundleSha256") == Str(c.bundle)
  {
    var m, c := ManifestOf(env, files), Refresh(env, files).value.1;
    RunRead(env, files);
    RunLeaves(env, files);
    StampEdits(m, c.target, c.bundle, c.strictId, env.hash(StrictText(c)), c.infos);
    StampedDigests(env, m, c);
  }

  /** What a run stores for an artifact: the digest of the file it was read from, for the strict one of the file that was
      written. */
  ghost predicate StoresDigest(env: Env, files: Files, after: Files, sid: string, id: string, sha: Json) {
    && env.at(id) in files && env.at(id) in after
    && (id != sid ==> sha == Str(env.hash(files[env.at(id)])))
    && (id == sid && env.at(id) != env.manifestAt ==> sha == Str(env.hash(after[env.at(id)])))
  }

  lemma {:induction false} RunStores(env: Env, files: Files, id: string)
    requires Faithful(env) && Refresh(env, files).Ok? && HasId(ArtifactsOf(ManifestOf(env, files)), id)
    ensures var (after, c) := Refresh(env, files).value;
      BodyOf(c.infos, c.strictId).Obj? && RawSha(c.infos, id).Some?
      && StoresDigest(env, files, after, c.strictId, id,
                      Str(if id == c.strictId then env.hash(StrictText(c)) else RawSha(c.infos, id).value))
  {
    RunRead(env, files);
    RunReads(env, files, id);
  }

  lemma {:induction false} RunKeeps(env: Env, files: Files, i: nat)
    requires Faithful(env) && Refresh(env, files).Ok? && i < |ArtifactsOf(ManifestOf(env, files))|
    ensures var (m, c) := (ManifestOf(env, files), Refresh(env, files).value.1);
      && Stampable(m) && WellFormed(m) && ById(m) == Ok(ArtifactsOf(m)) && HasId(ArtifactsOf(m), IdOf(ArtifactsOf(m)[i]))
      && BodyOf(c.infos, c.strictId).Obj? && ManifestOf(env, Refresh(env, files).value.0) == Stamped(env, m, c)
  {
    RunRead(env, files);
    RunCovers(env, files);
    RunLeaves(env, files);
    var arts := ArtifactsOf(ManifestOf(env, files));
    assert arts[i] in arts;
  }

  /** The artifacts stay in their order; in each only `sha256` is written. */
  lemma {:induction false} RunKeepsArtifacts(env: Env, files: Files, i: nat)
    requires Faithful(env) && Refresh(env, files).Ok? && i < |ArtifactsOf(ManifestOf(env, files))|
    ensures var (after, c) := Refresh(env, files).value;
      var before, now := ArtifactsOf(ManifestOf(env, files)), ArtifactsOf(ManifestOf(env, after));
      && |now| == |before| && before[i].Obj? && Get(before[i], "id").Str?
      && Edited(before[i], now[i], {"sha256"})
      && StoresDigest(env, files, after, c.strictId, Get(before[i], "id").s, Get(now[i], "sha256"))
  {
    var m, c := ManifestOf(env, files), Refresh(env, files).value.1;
    RunKeeps(env, files, i);
    RunStores(env, files, IdOf(ArtifactsOf(m)[i]));
    ArtifactKept(m, c.target, c.bundle, c.strictId, env.hash(StrictText(c)), c.infos, i);
  }

  lemma {:induction false} ArtifactKept(m: Json, t: string, b: string, sid: string, sha: string, infos: seq<Info>, i: nat)
    requires WellFormed(m) && Stampable(m) && ById(m) == Ok(ArtifactsOf(m)) && i < |ArtifactsOf(m)|
    requires RawSha(infos, IdOf(ArtifactsOf(m)[i])).Some?
    ensures var before, now := ArtifactsOf(m), ArtifactsOf(Stamp(m, t, b, sid, sha, infos));
      && |now| == |before| && before[i].Obj? && Get(before[i], "id").Str?
      && Edited(before[i], now[i], {"sha256"})
      && Get(now[i], "sha256") == Str(if Get(before[i], "id").s == sid then sha else RawSha(infos, Get(before[i], "id").s).value)
  {
    StampShape(m, t, b, sid, sha, infos);
    AcceptedArtifact(m, i);
    GetWellFormed(m, "artifacts");
    StampEditsArtifact(ArtifactsOf(m)[i], sid, sha, infos);
  }

  /** No other file is touched; and where the strict body is a file of its own, it holds, as canonical text, the old body with
      the two digests written. */
  lemma {:induction false} RunKeepsFiles(env: Env, files: Files)
    requires Faithful(env) && Refresh(env, files).Ok?
    ensures var (after, c) := Refresh(env, files).value;
      && env.manifestAt in files && env.at(c.strictId) in files && after.Keys == files.Keys
      && (forall p :: p in files && p != env.manifestAt && p != env.at(c.strictId) ==> after[p] == files[p])
      && (env.at(c.strictId) != env.manifestAt ==>
            exists body, now :: env.load(files[env.at(c.strictId)]) == Some(body) && after[env.at(c.strictId)] == Canonical(now)
              && Carries(body, now, c.target, c.bundle))
  {
    var (after, c) := Refresh(env, files).value;
    RunRead(env, files);
    RunCovers(env, files);
    RunReads(env, files, c.strictId);
    BodyKept(BodyOf(c.infos, c.strictId), c);
    OthersKept(files, env.at(c.strictId), StrictText(c), env.manifestAt, env.pretty(Stamped(env, ManifestOf(env, files), c)));
  }

  lemma {:induction false} OthersKept(files: Files, p: string, t: string, q: string, u: string)
    requires p in files && q in files
    ensures var after := files[p := t][q := u];
      after.Keys == files.Keys && (p != q ==> after[p] == t) && forall r :: r in files && r != p && r != q ==> after[r] == files[r]
  {
  }

  /** `now` is the body with the two digests written to it. */
  ghost predicate Carries(body: Json, now: Json, target: string, bundle: string) {
    && Edited(body, now, {"targetEvidenceSha256", "artifactBundleSha256"})
    && Get(now, "targetEvidenceSha256") == Str(target) && Get(now, "artifactBundleSha256") == Str(bundle)
  }

  lemma {:induction false} BodyKept(body: Json, c: Computation)
    requires body.Obj? && WellFormed(body)
    ensures Carries(body, Obj(SetDigests(body.fields, c.target, c.bundle)), c.target, c.bundle)
  {
    TwoEdits(body.fields, TARGET, Str(c.target), BUNDLE, Str(c.bundle));
    SetDigestsGet(body.fields, c.target, c.bundle, TARGET);
    SetDigestsGet(body.fields, c.target, c.bundle, BUNDLE);
  }

  // ---------------------------------------------------------------- which artifact is the strict one

  lemma {:induction false} FirstWithId(arts: seq<Json>, id: string)
    requires WithId(arts, id).Some?
    ensures WithId(arts, id).value in arts && IdOf(WithId(arts, id).value) == id
  {
    if IdOf(arts[0]) != id {
      FirstWithId(arts[1..], id);
    }
  }

  lemma {:induction false} OnlyStrict(arts: seq<Json>, i: nat)
    requires i < |arts| && Get(arts[i], "kind") == Str("strict-verifier-log")
    ensures IdOf(arts[i]) in StrictIds(arts)
  {
    if i > 0 {
      OnlyStrict(arts[1..], i - 1);
    }
  }

  lemma {:induction false} StrictOnes(arts: seq<Json>, id: string)
    requires id in StrictIds(arts)
    ensures exists a :: a in arts && IdOf(a) == id && Get(a, "kind") == Str("strict-verifier-log")
  {
    if IsStrictKind(arts[0]) && IdOf(arts[0]) == id {
      assert arts[0] in arts;
    } else {
      assert id in StrictIds(arts[1..]);
      StrictOnes(arts[1..], id);
      var a :| a in arts[1..] && IdOf(a) == id && Get(a, "kind") == Str("strict-verifier-log");
    }
  }

  /** The strict artifact is a strict verifier log: the one that a non-blank `evidenceRef` names, and without one the only one
      there is. */
  lemma {:induction false} StrictIdMeaning(strict: Json, arts: seq<Json>)
    requires StrictId(strict, arts).Ok?
    ensures var id, ref := StrictId(strict, arts).value, Get(strict, "evidenceRef");
      && (exists a :: a in arts && IdOf(a) == id && Get(a, "kind") == Str("strict-verifier-log"))
      && (ref.Str? && !Text.Blank(ref.s) ==> ref.s == id)
      && ((ref.Str? && !Text.Blank(ref.s))
          || forall a :: a in arts && Get(a, "kind") == Str("strict-verifier-log") ==> IdOf(a) == id)
  {
    var ref := Get(strict, "evidenceRef");
    if ref.Str? && !Text.Blank(ref.s) {
      FirstWithId(arts, ref.s);
      var a := WithId(arts, ref.s).value;
      assert a in arts && IdOf(a) == ref.s && Get(a, "kind") == Str("strict-verifier-log");
    } else {
      StrictOnes(arts, StrictIds(arts)[0]);
      forall a | a in arts && Get(a, "kind") == Str("strict-verifier-log") ensures IdOf(a) == StrictIds(arts)[0] {
        var i :| 0 <= i < |arts| && arts[i] == a;
        OnlyStrict(arts, i);
      }
    }
  }
}
