/** When writing the digests is a fixed point, in terms of what can be checked before the run. */
module DigestGuard {
  import opened Sorting
  import opened JsonValues
  import opened CanonicalJson
  import opened ReleaseDigests
  import opened DigestFixedPoint
  import opened DigestMeaning

  /** The text that the target digest of a run covers. */
  ghost function TargetText(env: Env, files: Files): string {
    if Refresh(env, files).Ok? then
      var m, c := ManifestOf(env, files), Refresh(env, files).value.1;
      Canonical(Normalized(m, c.strictId, c.infos))
    else ""
  }

  /** The texts whose hashes enter the bundle digest of a run. */
  ghost function BundleTextsOf(env: Env, files: Files): set<string> {
    if Refresh(env, files).Ok? then
      var c := Refresh(env, files).value.1;
      BundleTexts(c.infos, c.strictId)
    else {}
  }

  /** The texts whose hashes enter the digests of a run and of the run after it. */
  ghost function CoveredTexts(env: Env, files: Files): set<string>
    requires Refresh(env, files).Ok?
  {
    var after := Refresh(env, files).value.0;
    files.Values + after.Values + {TargetText(env, files), TargetText(env, after)}
    + BundleTextsOf(env, files) + BundleTextsOf(env, after)
  }

  /** A second run finds the same digests and changes nothing. */
  ghost predicate FixedPoint(env: Env, files: Files)
    requires Refresh(env, files).Ok?
  {
    var (after, c) := Refresh(env, files).value;
    && Refresh(env, after).Ok? && Refresh(env, after).value.0 == after
    && Refresh(env, after).value.1.target == c.target && Refresh(env, after).value.1.bundle == c.bundle
  }

  lemma {:induction false} RefreshComputed(env: Env, files: Files)
    requires Faithful(env) && Refresh(env, files).Ok?
    ensures Computed(env, files, ManifestOf(env, files), Refresh(env, files).value.1)
  {
  }

  lemma {:induction false} FewerTexts(hash: string -> string, texts: set<string>, some: set<string>)
    requires TellsApart(hash, texts) && some <= texts
    ensures TellsApart(hash, some)
  {
  }

  lemma {:induction false} BytesAt(
      env: Env, files: Files, files': Files, arts: seq<Json>, sid: string, texts: set<string>, a: Json)
    requires TellsApart(env.hash, texts) && files.Values + files'.Values <= texts && a in arts && IdOf(a) != sid
    requires forall i :: 0 <= i < |arts| ==> var p := env.at(IdOf(arts[i]));
      && p in files && p in files'
      && (IdOf(arts[i]) != sid && TellsApart(env.hash, {files[p], files'[p]}) ==> files[p] == files'[p])
    ensures var p := env.at(IdOf(a)); p in files && p in files' && files[p] == files'[p]
  {
    var i :| 0 <= i < |arts| && arts[i] == a;
    var p := env.at(IdOf(arts[i]));
    assert files[p] in files.Values && files'[p] in files'.Values;
    FewerTexts(env.hash, texts, {files[p], files'[p]});
  }

  lemma {:induction false} SameListing(
      env: Env, files: Files, m: Json, c: Computation, files': Files, m': Json, c': Computation, texts: set<string>)
    requires Computed(env, files, m, c) && Computed(env, files', m', c') && c.target == c'.target
    requires TellsApart(env.hash, texts)
    requires Canonical(Normalized(m, c.strictId, c.infos)) in texts && Canonical(Normalized(m', c'.strictId, c'.infos)) in texts
    ensures forall i :: 0 <= i < |ArtifactsOf(m)| ==> var p := env.at(IdOf(ArtifactsOf(m)[i]));
      && p in files && p in files'
      && (IdOf(ArtifactsOf(m)[i]) != c.strictId && TellsApart(env.hash, {files[p], files'[p]}) ==> files[p] == files'[p])
  {
    FewerTexts(env.hash, texts,
      {Canonical(Normalized(m, c.strictId, c.infos)), Canonical(Normalized(m', c'.strictId, c'.infos))});
    TargetDigestMeaning(env, files, m, c, env, files', m', c');
  }

  lemma {:induction false} BytesUnchanged(
      env: Env, files: Files, m: Json, c: Computation, files': Files, m': Json, c': Computation, texts: set<string>, a: Json)
    requires Computed(env, files, m, c) && Computed(env, files', m', c') && c.target == c'.target
    requires TellsApart(env.hash, texts) && files.Values + files'.Values <= texts
    requires Canonical(Normalized(m, c.strictId, c.infos)) in texts && Canonical(Normalized(m', c'.strictId, c'.infos)) in texts
    requires a in ArtifactsOf(m) && IdOf(a) != c.strictId
    ensures var p := env.at(IdOf(a)); p in files && p in files' && files[p] == files'[p]
  {
    SameListing(env, files, m, c, files', m', c', texts);
    BytesAt(env, files, files', ArtifactsOf(m), c.strictId, texts, a);
  }

  lemma {:induction false} FixedOnlyIfUndisturbed(env: Env, files: Files)
    requires Faithful(env) && Refresh(env, files).Ok?
    requires env.at(Refresh(env, files).value.1.strictId) != env.manifestAt
    requires TellsApart(env.hash, CoveredTexts(env, files)) && FixedPoint(env, files)
    ensures var (after, c) := Refresh(env, files).value;
      Undisturbed(env, files, after, ArtifactsOf(ManifestOf(env, files)), c.strictId)
  {
    var (after, c) := Refresh(env, files).value;
    var m, m', c' := ManifestOf(env, files), ManifestOf(env, after), Refresh(env, after).value.1;
    var texts := CoveredTexts(env, files);
    RefreshComputed(env, files);
    RefreshComputed(env, after);
    assert Canonical(Normalized(m, c.strictId, c.infos)) == TargetText(env, files);
    assert Canonical(Normalized(m', c'.strictId, c'.infos)) == TargetText(env, after);
    forall a | a in ArtifactsOf(m) && IdOf(a) != c.strictId
      ensures var p := env.at(IdOf(a)); p in files && p in after && files[p] == after[p]
    {
      BytesUnchanged(env, files, m, c, after, m', c', texts, a);
    }
  }

  /** Where the strict body is a file of its own, writing is a fixed point exactly when it changes no other artifact's
      file. */
  lemma {:induction false} FixedPointExactly(env: Env, files: Files)
    requires Faithful(env) && Refresh(env, files).Ok?
    requires env.at(Refresh(env, files).value.1.strictId) != env.manifestAt
    requires TellsApart(env.hash, CoveredTexts(env, files))
    ensures FixedPoint(env, files) <==>
      var (after, c) := Refresh(env, files).value;
      Undisturbed(env, files, after, ArtifactsOf(ManifestOf(env, files)), c.strictId)
  {
    var (after, c) := Refresh(env, files).value;
    if Undisturbed(env, files, after, ArtifactsOf(ManifestOf(env, files)), c.strictId) {
      RefreshIsFixedPoint(env, files);
    }
    if FixedPoint(env, files) {
      FixedOnlyIfUndisturbed(env, files);
    }
  }

  // ---------------------------------------------------------------- the guard

  /** The files do not already record what the run is about to write: no artifact is recorded with the digest of the manifest
      as it is, and neither the strict body nor the manifest carries the digest that the run reports. */
  ghost predicate Fresh(env: Env, files: Files)
    requires Refresh(env, files).Ok?
  {
    var m, c := ManifestOf(env, files), Refresh(env, files).value.1;
    && (env.manifestAt in files ==>
          forall a :: a in ArtifactsOf(m) ==> Get(a, "sha256") != Str(env.hash(files[env.manifestAt])))
    && Get(BodyOf(c.infos, c.strictId), TARGET) != Str(c.target)
    && Get(Get(m, "strictVerifier"), BUNDLE) != Str(c.bundle)
  }

  lemma {:induction false} RunRead(env: Env, files: Files)
    requires Faithful(env) && Refresh(env, files).Ok?
    ensures var m, c := ManifestOf(env, files), Refresh(env, files).value.1;
      && env.manifestAt in files && env.load(files[env.manifestAt]) == Some(m) && WellFormed(m)
      && Compute(env, files, m) == Ok(c) && Stampable(m) && BodyOf(c.infos, c.strictId).Obj?
      && Refresh(env, files).value.0 == files[env.at(c.strictId) := StrictText(c)][env.manifestAt := env.pretty(Stamped(env, m, c))]
  {
  }

  lemma {:induction false} RunCovers(env: Env, files: Files)
    requires Faithful(env) && Refresh(env, files).Ok?
    ensures var m, c := ManifestOf(env, files), Refresh(env, files).value.1;
      && Stampable(m) && ById(m) == Ok(ArtifactsOf(m)) && HasId(ArtifactsOf(m), c.strictId)
      && StrictId(Get(m, "strictVerifier"), ArtifactsOf(m)) == Ok(c.strictId)
      && ReadAll(env, files, Sort(ArtifactsOf(m), IdLe), c.strictId) == Ok(c.infos)
  {
    var m := ManifestOf(env, files);
    RunRead(env, files);
    ComputeParts(env, files, m);
    StrictIdPresent(Get(m, "strictVerifier"), ArtifactsOf(m));
  }

  lemma {:induction false} RunLeaves(env: Env, files: Files)
    requires Faithful(env) && Refresh(env, files).Ok?
    ensures var m, c := ManifestOf(env, files), Refresh(env, files).value.1;
      && Stampable(m) && BodyOf(c.infos, c.strictId).Obj?
      && ManifestOf(env, Refresh(env, files).value.0) == Stamped(env, m, c)
  {
    var m, c := ManifestOf(env, files), Refresh(env, files).value.1;
    RunRead(env, files);
    StampWellFormed(m, c.target, c.bundle, c.strictId, env.hash(StrictText(c)), c.infos);
  }

  /** What a run read for an id is what its file holds. */
  lemma {:induction false} RunReads(env: Env, files: Files, id: string)
    requires Faithful(env) && Refresh(env, files).Ok? && HasId(ArtifactsOf(ManifestOf(env, files)), id)
    ensures var c := Refresh(env, files).value.1;
      && env.at(id) in files && RawSha(c.infos, id) == Some(env.hash(files[env.at(id)]))
      && env.load(files[env.at(id)]) == Some(BodyOf(c.infos, id))
  {
    var m, c := ManifestOf(env, files), Refresh(env, files).value.1;
    RunCovers(env, files);
    SortedHasId(ArtifactsOf(m), id);
    InfoReads(env, files, Sort(ArtifactsOf(m), IdLe), c.strictId, id);
  }

  /** If another artifact's file is the manifest and is left alone, the manifest already records its own digest. */
  lemma {:induction false} ManifestAlias(env: Env, files: Files, a: Json)
    requires Faithful(env) && Refresh(env, files).Ok?
    requires var (after, c) := Refresh(env, files).value;
      && Undisturbed(env, files, after, ArtifactsOf(ManifestOf(env, files)), c.strictId)
      && a in ArtifactsOf(ManifestOf(env, files)) && IdOf(a) != c.strictId && env.at(IdOf(a)) == env.manifestAt
    ensures Get(a, "sha256") == Str(env.hash(files[env.manifestAt]))
  {
    var (after, c) := Refresh(env, files).value;
    var m := ManifestOf(env, files);
    RunRead(env, files);
    RunCovers(env, files);
    RunLeaves(env, files);
    assert HasId(ArtifactsOf(m), IdOf(a));
    RunReads(env, files, IdOf(a));
    assert Stamped(env, m, c) == m;
    SameArtifacts(env, m, c);
    var i :| 0 <= i < |ArtifactsOf(m)| && ArtifactsOf(m)[i] == a;
    AcceptedArtifact(m, i);
    StampGet(a, c.strictId, env.hash(StrictText(c)), c.infos);
  }

  /** If another artifact's file is the strict body's and is left alone, the strict body already carries the target digest. */
  lemma {:induction false} StrictAlias(env: Env, files: Files, a: Json)
    requires Faithful(env) && Refresh(env, files).Ok?
    requires var (after, c) := Refresh(env, files).value;
      && Undisturbed(env, files, after, ArtifactsOf(ManifestOf(env, files)), c.strictId)
      && a in ArtifactsOf(ManifestOf(env, files)) && IdOf(a) != c.strictId && env.at(IdOf(a)) == env.at(c.strictId)
    ensures var c := Refresh(env, files).value.1; Get(BodyOf(c.infos, c.strictId), TARGET) == Str(c.target)
  {
    var m, c, after := RunFacts(env, files);
    StrictPresent(env, files, m, c, after);
    RunReads(env, files, c.strictId);
    FileAfter(env, files, m, c, after, c.strictId);
    var infos1 := SecondRead(env, files, m, c, after);
    SecondStrictBody(env, files, m, c, after, infos1);
  }

  // ---------------------------------------------------------------- a strict body that is the manifest

  lemma {:induction false} BodyAt(infos: seq<Info>, id: string) returns (i: nat)
    requires RawSha(infos, id).Some?
    ensures i < |infos| && IdOf(infos[i].artifact) == id && infos[i].body == BodyOf(infos, id)
  {
    if IdOf(infos[0].artifact) == id {
      i := 0;
    } else {
      var j := BodyAt(infos[1..], id);
      i := j + 1;
    }
  }

  /** Equal listings hold the same strict body, up to its digest fields and key order. */
  lemma {:induction false} SameStrictBody(env: Env, xs: seq<Info>, ys: seq<Info>, sid: string)
    requires ReadInOrder(env, xs, sid) && ReadInOrder(env, ys, sid) && ItemsOf(xs, sid) == ItemsOf(ys, sid)
    requires RawSha(xs, sid).Some? && RawSha(ys, sid).Some?
    ensures Same(NormalBody(BodyOf(xs, sid)), NormalBody(BodyOf(ys, sid)))
  {
    var i := BodyAt(xs, sid);
    var j := BodyAt(ys, sid);
    assert ItemsOf(xs, sid)[i] == ItemsOf(ys, sid)[i] && ItemsOf(ys, sid)[i].id == sid;
    assert i == j;
  }

  /** Normalising a body's digest fields does not touch what stands below its other keys. */
  lemma {:induction false} SameBelow(a: Json, b: Json, key: string)
    requires a.Obj? && b.Obj? && WellFormed(a) && WellFormed(b) && Same(NormalBody(a), NormalBody(b))
    requires key != TARGET && key != BUNDLE
    ensures Same(Get(a, key), Get(b, key))
  {
    SetDigestsWellFormed(a.fields, ZERO_SHA256, ZERO_SHA256);
    SetDigestsWellFormed(b.fields, ZERO_SHA256, ZERO_SHA256);
    SetDigestsGet(a.fields, ZERO_SHA256, ZERO_SHA256, key);
    SetDigestsGet(b.fields, ZERO_SHA256, ZERO_SHA256, key);
    CanonGet(NormalBody(a), key);
    CanonGet(NormalBody(b), key);
  }

  /** If stamping the manifest changes nothing below its strict verifier, the bundle digest was there already. */
  lemma {:induction false} StampedBefore(env: Env, m: Json, c: Computation)
    requires Stampable(m) && WellFormed(m) && BodyOf(c.infos, c.strictId).Obj?
    requires Same(Get(m, "strictVerifier"), Get(Stamped(env, m, c), "strictVerifier"))
    ensures Get(Get(m, "strictVerifier"), BUNDLE) == Str(c.bundle)
  {
    var own, stamped := Get(m, "strictVerifier"), Get(Stamped(env, m, c), "strictVerifier");
    StampedDigests(env, m, c);
    StampWellFormed(m, c.target, c.bundle, c.strictId, env.hash(StrictText(c)), c.infos);
    GetWellFormed(m, "strictVerifier");
    GetWellFormed(Stamped(env, m, c), "strictVerifier");
    CanonGet(own, BUNDLE);
    CanonGet(stamped, BUNDLE);
  }

  lemma {:induction false} SameStrictAgain(env: Env, files: Files)
    requires Faithful(env) && Refresh(env, files).Ok? && FixedPoint(env, files)
    ensures var (after, c) := Refresh(env, files).value; Refresh(env, after).value.1.strictId == c.strictId
  {
    var (after, c) := Refresh(env, files).value;
    RunRead(env, files);
    RunCovers(env, files);
    RunLeaves(env, files);
    RunCovers(env, after);
    SameArtifacts(env, ManifestOf(env, files), c);
  }

  /** If the strict artifact's file is the manifest and writing is a fixed point, the manifest already carries the bundle
      digest that the run reports. */
  lemma {:induction false} SelfAlias(env: Env, files: Files)
    requires Faithful(env) && Refresh(env, files).Ok?
    requires env.at(Refresh(env, files).value.1.strictId) == env.manifestAt
    requires TellsApart(env.hash, CoveredTexts(env, files)) && FixedPoint(env, files)
    ensures Get(Get(ManifestOf(env, files), "strictVerifier"), BUNDLE) == Str(Refresh(env, files).value.1.bundle)
  {
    var (after, c) := Refresh(env, files).value;
    var m, c' := ManifestOf(env, files), Refresh(env, after).value.1;
    SameStrictAgain(env, files);
    BothRead(env, files);
    BothRead(env, after);
    FewerTexts(env.hash, CoveredTexts(env, files), BundleTexts(c.infos, c.strictId) + BundleTexts(c'.infos, c.strictId));
    BundleDigestMeaning(env, c.infos, c.strictId, c'.infos, c.strictId);
    SetDecidesListing(env, c.infos, c.strictId, c'.infos, c.strictId);
    SameStrictBody(env, c.infos, c'.infos, c.strictId);
    RunRead(env, files);
    RunRead(env, after);
    RunLeaves(env, files);
    SameBelow(m, Stamped(env, m, c), "strictVerifier");
    StampedBefore(env, m, c);
  }

  lemma {:induction false} BothRead(env: Env, files: Files)
    requires Faithful(env) && Refresh(env, files).Ok?
    ensures var c := Refresh(env, files).value.1;
      && ReadInOrder(env, c.infos, c.strictId) && RawSha(c.infos, c.strictId).Some?
      && c.bundle == env.hash(Canonical(Bundle(c.infos)))
      && (env.at(c.strictId) == env.manifestAt ==> BodyOf(c.infos, c.strictId) == ManifestOf(env, files))
  {
    var m, c := ManifestOf(env, files), Refresh(env, files).value.1;
    RunRead(env, files);
    RunCovers(env, files);
    RunReads(env, files, c.strictId);
    ComputeReadsInOrder(env, files, m);
    ComputeParts(env, files, m);
  }

  // ---------------------------------------------------------------- the exact condition

  lemma {:induction false} FreshFixedIsUnaliased(env: Env, files: Files)
    requires Faithful(env) && Refresh(env, files).Ok? && Fresh(env, files)
    requires TellsApart(env.hash, CoveredTexts(env, files)) && FixedPoint(env, files)
    ensures Unaliased(env, ArtifactsOf(ManifestOf(env, files)), Refresh(env, files).value.1.strictId)
  {
    var m, c := ManifestOf(env, files), Refresh(env, files).value.1;
    RunRead(env, files);
    if env.at(c.strictId) == env.manifestAt {
      SelfAlias(env, files);
    } else {
      FixedOnlyIfUndisturbed(env, files);
      forall a | a in ArtifactsOf(m)
        ensures env.at(IdOf(a)) != env.manifestAt && (IdOf(a) != c.strictId ==> env.at(IdOf(a)) != env.at(c.strictId))
      {
        if IdOf(a) != c.strictId && env.at(IdOf(a)) == env.manifestAt {
          ManifestAlias(env, files, a);
        }
        if IdOf(a) != c.strictId && env.at(IdOf(a)) == env.at(c.strictId) {
          StrictAlias(env, files, a);
        }
      }
    }
  }

  /** On files that do not already record what the run is about to write, writing is a fixed point exactly when no artifact's
      id names the manifest and no other artifact's id names the strict body's file; without that guard on the files, the
      condition on the ids is still sufficient. */
  lemma {:induction false} FixedPointIffUnaliased(env: Env, files: Files)
    requires Faithful(env) && Refresh(env, files).Ok?
    ensures Unaliased(env, ArtifactsOf(ManifestOf(env, files)), Refresh(env, files).value.1.strictId) ==> FixedPoint(env, files)
    ensures Fresh(env, files) && TellsApart(env.hash, CoveredTexts(env, files)) ==>
      (FixedPoint(env, files) <==> Unaliased(env, ArtifactsOf(ManifestOf(env, files)), Refresh(env, files).value.1.strictId))
  {
    if Unaliased(env, ArtifactsOf(ManifestOf(env, files)), Refresh(env, files).value.1.strictId) {
      UnaliasedUndisturbed(env, files);
      RefreshIsFixedPoint(env, files);
    }
    if Fresh(env, files) && TellsApart(env.hash, CoveredTexts(env, files)) && FixedPoint(env, files) {
      FreshFixedIsUnaliased(env, files);
    }
  }
}
