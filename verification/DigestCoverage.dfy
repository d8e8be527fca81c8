/** What the target digest covers: every field of the manifest that a run does not write. */
module DigestCoverage {
  import opened JsonValues
  import opened CanonicalJson
  import opened ReleaseDigests
  import opened DigestFixedPoint
  import opened DigestMeaning

  // ---------------------------------------------------------------- dicts that agree key by key

  /** Both values hold something under the key, the same up to key order, or neither does. */
  ghost predicate SameUnder(a: Json, b: Json, key: string) {
    Has(a, key) == Has(b, key) && (Has(a, key) ==> Same(Get(a, key), Get(b, key)))
  }

  ghost predicate SameOutside(a: Json, b: Json, written: set<string>) {
    forall key :: key !in written ==> SameUnder(a, b, key)
  }

  lemma {:induction false} UnderExactly(fs: seq<Field>, gs: seq<Field>, key: string)
    ensures SameUnder(Obj(fs), Obj(gs), key) <==> Find(CanonFields(fs), key) == Find(CanonFields(gs), key)
  {
    CanonFind(fs, key);
    CanonFind(gs, key);
  }

  /** Dicts are the same up to key order exactly when they agree under every key. */
  lemma {:induction false} SameByKeys(fs: seq<Field>, gs: seq<Field>)
    requires UniqueKeys(fs) && UniqueKeys(gs)
    ensures Same(Obj(fs), Obj(gs)) <==> SameOutside(Obj(fs), Obj(gs), {})
  {
    if Same(Obj(fs), Obj(gs)) {
      forall key ensures SameUnder(Obj(fs), Obj(gs), key) {
        SameFind(fs, gs, key);
        UnderExactly(fs, gs, key);
      }
    }
    if SameOutside(Obj(fs), Obj(gs), {}) {
      forall key ensures Find(CanonFields(fs), key) == Find(CanonFields(gs), key) {
        assert SameUnder(Obj(fs), Obj(gs), key);
        UnderExactly(fs, gs, key);
      }
      SortedByLookups(CanonFields(fs), CanonFields(gs));
    }
  }

  lemma {:induction false} SetUnder(fs: seq<Field>, key: string, v: Json, other: string)
    ensures Has(Obj(SetField(fs, key, v)), other) == (other == key || Has(Obj(fs), other))
    ensures Get(Obj(SetField(fs, key, v)), other) == if other == key then v else Get(Obj(fs), other)
  {
    FindSet(fs, key, v, other);
  }

  /** Writing to a key of both dicts: they agree afterwards exactly when they agreed elsewhere and the new values agree. */
  lemma {:induction false} SameOnceSet(fs: seq<Field>, gs: seq<Field>, key: string, v: Json, w: Json, written: set<string>)
    requires key !in written
    ensures SameOutside(Obj(SetField(fs, key, v)), Obj(SetField(gs, key, w)), written) <==>
      SameOutside(Obj(fs), Obj(gs), written + {key}) && Same(v, w)
  {
    forall other ensures SameUnder(Obj(SetField(fs, key, v)), Obj(SetField(gs, key, w)), other) <==>
        if other == key then Same(v, w) else SameUnder(Obj(fs), Obj(gs), other)
    {
      SetUnder(fs, key, v, other);
      SetUnder(gs, key, w, other);
    }
    if SameOutside(Obj(SetField(fs, key, v)), Obj(SetField(gs, key, w)), written) {
      assert SameUnder(Obj(SetField(fs, key, v)), Obj(SetField(gs, key, w)), key);
    }
  }

  lemma {:induction false} SameOnceBothSet(
      fs: seq<Field>, gs: seq<Field>, k: string, v: Json, w: Json, l: string, x: Json, y: Json)
    requires UniqueKeys(fs) && UniqueKeys(gs) && k != l
    ensures Same(Obj(SetField(SetField(fs, k, v), l, x)), Obj(SetField(SetField(gs, k, w), l, y))) <==>
      SameOutside(Obj(fs), Obj(gs), {k, l}) && Same(v, w) && Same(x, y)
  {
    var f, g := SetField(fs, k, v), SetField(gs, k, w);
    SetKeys(fs, k, v);
    SetKeys(gs, k, w);
    SetKeys(f, l, x);
    SetKeys(g, l, y);
    SameByKeys(SetField(f, l, x), SetField(g, l, y));
    SameOnceSet(f, g, l, x, y, {});
    SameOnceSet(fs, gs, k, v, w, {l});
    assert {} + {l} == {l} && {l} + {k} == {k, l};
  }

  // ---------------------------------------------------------------- what two manifests have in common

  /** The manifests agree in everything that a run does not write. */
  ghost predicate AgreeUnwritten(m: Json, n: Json) {
    var xs, ys := ArtifactsOf(m), ArtifactsOf(n);
    && SameOutside(m, n, {"strictVerifier", "artifacts"})
    && SameOutside(Get(m, "strictVerifier"), Get(n, "strictVerifier"), {"targetEvidenceSha256", "artifactBundleSha256"})
    && AgreeingArtifacts(xs, ys)
  }

  ghost predicate AgreeingArtifacts(xs: seq<Json>, ys: seq<Json>) {
    |xs| == |ys| && forall i {:trigger xs[i]} :: 0 <= i < |xs| ==> SameOutside(xs[i], ys[i], {"sha256"})
  }

  lemma {:induction false} StampedSame(a: Json, sid: string, xs: seq<Info>, b: Json, sid': string, ys: seq<Info>)
    requires WellFormed(a) && WellFormed(b) && a.Obj? && b.Obj? && Get(a, "id").Str? && Get(b, "id").Str?
    requires RawSha(xs, IdOf(a)).Some? && RawSha(ys, IdOf(b)).Some?
    ensures Same(StampArtifact(a, sid, ZERO_SHA256, xs), StampArtifact(b, sid', ZERO_SHA256, ys)) <==>
      SameOutside(a, b, {"sha256"})
      && (if IdOf(a) == sid then ZERO_SHA256 else RawSha(xs, IdOf(a)).value)
      == (if IdOf(b) == sid' then ZERO_SHA256 else RawSha(ys, IdOf(b)).value)
  {
    var s := if IdOf(a) == sid then ZERO_SHA256 else RawSha(xs, IdOf(a)).value;
    var t := if IdOf(b) == sid' then ZERO_SHA256 else RawSha(ys, IdOf(b)).value;
    SetKeys(a.fields, "sha256", Str(s));
    SetKeys(b.fields, "sha256", Str(t));
    SameByKeys(SetField(a.fields, "sha256", Str(s)), SetField(b.fields, "sha256", Str(t)));
    SameOnceSet(a.fields, b.fields, "sha256", Str(s), Str(t), {});
    assert {} + {"sha256"} == {"sha256"};
  }

  lemma {:induction false} DigestsSame(fs: seq<Field>, gs: seq<Field>)
    requires UniqueKeys(fs) && UniqueKeys(gs)
    ensures Same(Obj(SetDigests(fs, ZERO_SHA256, ZERO_SHA256)), Obj(SetDigests(gs, ZERO_SHA256, ZERO_SHA256))) <==>
      SameOutside(Obj(fs), Obj(gs), {"targetEvidenceSha256", "artifactBundleSha256"})
  {
    var zero := Str(ZERO_SHA256);
    SameOnceBothSet(fs, gs, TARGET, zero, zero, BUNDLE, zero, zero);
  }

  lemma {:induction false} BothWritten(fs: seq<Field>, gs: seq<Field>, s: Json, t: Json, xs: seq<Json>, ys: seq<Json>)
    requires UniqueKeys(fs) && UniqueKeys(gs)
    ensures Same(Obj(SetField(SetField(fs, "strictVerifier", s), "artifacts", Arr(xs))),
                 Obj(SetField(SetField(gs, "strictVerifier", t), "artifacts", Arr(ys)))) <==>
      SameOutside(Obj(fs), Obj(gs), {"strictVerifier", "artifacts"}) && Same(s, t) && CanonItems(xs) == CanonItems(ys)
  {
    SameOnceBothSet(fs, gs, "strictVerifier", s, t, "artifacts", Arr(xs), Arr(ys));
  }

  lemma {:induction false} StampedSameInParts(m: Json, sid: string, xs: seq<Info>, n: Json, sid': string, ys: seq<Info>)
    requires Stampable(m) && WellFormed(m) && Stampable(n) && WellFormed(n)
    ensures Same(Normalized(m, sid, xs), Normalized(n, sid', ys)) <==>
      SameOutside(m, n, {"strictVerifier", "artifacts"})
      && SameOutside(Get(m, "strictVerifier"), Get(n, "strictVerifier"), {"targetEvidenceSha256", "artifactBundleSha256"})
      && CanonItems(StampAll(ArtifactsOf(m), sid, ZERO_SHA256, xs)) == CanonItems(StampAll(ArtifactsOf(n), sid', ZERO_SHA256, ys))
  {
    GetWellFormed(m, "strictVerifier");
    GetWellFormed(n, "strictVerifier");
    var s, t := Get(m, "strictVerifier").fields, Get(n, "strictVerifier").fields;
    DigestsSame(s, t);
    BothWritten(m.fields, n.fields, Obj(SetDigests(s, ZERO_SHA256, ZERO_SHA256)), Obj(SetDigests(t, ZERO_SHA256, ZERO_SHA256)),
                StampAll(ArtifactsOf(m), sid, ZERO_SHA256, xs), StampAll(ArtifactsOf(n), sid', ZERO_SHA256, ys));
  }

  /** The raw digest that a computation covers for an artifact, none for the strict one. */
  ghost function Covered(env: Env, files: Files, id: string, sid: string): Option<string> {
    if id != sid && env.at(id) in files then Some(env.hash(files[env.at(id)])) else None
  }

  /** Every artifact but the strict one has a body with the same digest on both sides. */
  ghost predicate SameBodies(env: Env, files: Files, xs: seq<Json>, sid: string, env': Env, files': Files, ys: seq<Json>, sid': string) {
    |xs| == |ys| && forall i {:trigger xs[i]} :: 0 <= i < |xs| ==>
      Covered(env, files, IdOf(xs[i]), sid) == Covered(env', files', IdOf(ys[i]), sid')
  }

  lemma {:induction false} StampedCovered(
      a: Json, xs: seq<Info>, x: string, b: Json, ys: seq<Info>, y: string, sid: string)
    requires WellFormed(a) && WellFormed(b) && a.Obj? && b.Obj? && Get(a, "id").Str? && Get(b, "id").Str?
    requires RawSha(xs, IdOf(a)) == Some(x) && RawSha(ys, IdOf(b)) == Some(y)
    ensures Same(StampArtifact(a, sid, ZERO_SHA256, xs), StampArtifact(b, sid, ZERO_SHA256, ys)) <==>
      SameOutside(a, b, {"sha256"}) && (IdOf(a) != sid ==> x == y)
  {
    StampedSame(a, sid, xs, b, sid, ys);
    if SameOutside(a, b, {"sha256"}) {
      AgreeingAlike(a, b);
    }
  }

  lemma {:induction false} ArtifactCovered(
      env: Env, files: Files, m: Json, c: Computation, env': Env, files': Files, m': Json, c': Computation, i: nat)
    requires Computed(env, files, m, c) && Computed(env', files', m', c') && c.strictId == c'.strictId
    requires i < |ArtifactsOf(m)| && i < |ArtifactsOf(m')|
    ensures var a, b := ArtifactsOf(m)[i], ArtifactsOf(m')[i];
      Same(StampArtifact(a, c.strictId, ZERO_SHA256, c.infos), StampArtifact(b, c.strictId, ZERO_SHA256, c'.infos)) <==>
      SameOutside(a, b, {"sha256"})
      && Covered(env, files, IdOf(a), c.strictId) == Covered(env', files', IdOf(b), c.strictId)
  {
    var a, x := ArtifactRead(env, files, m, c, i);
    var b, y := ArtifactRead(env', files', m', c', i);
    StampedCovered(a, c.infos, x, b, c'.infos, y, c.strictId);
    if SameOutside(a, b, {"sha256"}) {
      AgreeingAlike(a, b);
    }
  }

  lemma {:induction false} ArtifactRead(env: Env, files: Files, m: Json, c: Computation, i: nat) returns (a: Json, x: string)
    requires Computed(env, files, m, c) && i < |ArtifactsOf(m)|
    ensures a == ArtifactsOf(m)[i] && WellFormed(a) && a.Obj? && Get(a, "id").Str? && RawSha(c.infos, IdOf(a)) == Some(x)
    ensures Covered(env, files, IdOf(a), c.strictId) == if IdOf(a) == c.strictId then None else Some(x)
  {
    ComputedParts(env, files, m, c);
    AllHaveRawSha(env, files, ArtifactsOf(m), c.strictId, c.infos, i);
    GetWellFormed(m, "artifacts");
    a := ArtifactsOf(m)[i];
    x := env.hash(files[env.at(IdOf(a))]);
  }

  lemma {:induction false} ArtifactsCovered(
      env: Env, files: Files, m: Json, c: Computation, env': Env, files': Files, m': Json, c': Computation)
    requires Computed(env, files, m, c) && Computed(env', files', m', c') && c.strictId == c'.strictId
    ensures var zs := StampAll(ArtifactsOf(m), c.strictId, ZERO_SHA256, c.infos);
      var ws := StampAll(ArtifactsOf(m'), c.strictId, ZERO_SHA256, c'.infos);
      CanonItems(zs) == CanonItems(ws) <==>
      AgreeingArtifacts(ArtifactsOf(m), ArtifactsOf(m'))
      && SameBodies(env, files, ArtifactsOf(m), c.strictId, env', files', ArtifactsOf(m'), c.strictId)
  {
    var xs, ys := ArtifactsOf(m), ArtifactsOf(m');
    var zs, ws := StampAll(xs, c.strictId, ZERO_SHA256, c.infos), StampAll(ys, c.strictId, ZERO_SHA256, c'.infos);
    ItemsSame(zs, ws);
    if |xs| == |ys| {
      forall i | 0 <= i < |xs|
        ensures Same(zs[i], ws[i]) <==>
          (SameOutside(xs[i], ys[i], {"sha256"})
           && Covered(env, files, IdOf(xs[i]), c.strictId) == Covered(env', files', IdOf(ys[i]), c.strictId))
      {
        ArtifactCovered(env, files, m, c, env', files', m', c', i);
      }
    }
  }

  lemma {:induction false} AgreeingAlike(a: Json, b: Json)
    requires SameOutside(a, b, {"sha256"}) && Get(a, "id").Str?
    ensures Alike(a, b)
  {
    assert SameUnder(a, b, "id") && SameUnder(a, b, "kind");
    CanonStr(Get(a, "id"), Get(b, "id"));
    if Has(a, "kind") {
      CanonStr(Get(a, "kind"), Get(b, "kind"));
    }
  }

  lemma {:induction false} AgreeingListings(s: Json, xs: seq<Json>, t: Json, ys: seq<Json>)
    requires s.Obj? && t.Obj? && SameUnder(s, t, "evidenceRef") && AgreeingArtifacts(xs, ys) && DistinctIds(xs)
    ensures StrictId(s, xs) == StrictId(t, ys)
  {
    forall i | 0 <= i < |xs| ensures Alike(xs[i], ys[i]) {
      AgreeingAlike(xs[i], ys[i]);
    }
    SameStrictId(s, t, xs, ys);
  }

  lemma {:induction false} StrictOf(env: Env, files: Files, m: Json, c: Computation)
    requires Computed(env, files, m, c)
    ensures Get(m, "strictVerifier").Obj? && DistinctIds(ArtifactsOf(m))
    ensures StrictId(Get(m, "strictVerifier"), ArtifactsOf(m)) == Ok(c.strictId)
  {
    ComputedParts(env, files, m, c);
  }

  /** Manifests that agree in what a run does not write have the same strict artifact. */
  lemma {:induction false} AgreeingStrictId(
      env: Env, files: Files, m: Json, c: Computation, env': Env, files': Files, m': Json, c': Computation)
    requires Computed(env, files, m, c) && Computed(env', files', m', c') && AgreeUnwritten(m, m')
    ensures c.strictId == c'.strictId
  {
    StrictOf(env, files, m, c);
    StrictOf(env', files', m', c');
    assert SameUnder(Get(m, "strictVerifier"), Get(m', "strictVerifier"), "evidenceRef");
    AgreeingListings(Get(m, "strictVerifier"), ArtifactsOf(m), Get(m', "strictVerifier"), ArtifactsOf(m'));
  }

  /** Target digests are equal exactly when the manifests agree in everything that a run does not write, and every artifact
      but the strict one has a body with the same digest. */
  lemma {:induction false} TargetDigestCovers(
      env: Env, files: Files, m: Json, c: Computation, env': Env, files': Files, m': Json, c': Computation)
    requires Computed(env, files, m, c) && Computed(env', files', m', c') && env.hash == env'.hash
    requires TellsApart(env.hash, {Canonical(Normalized(m, c.strictId, c.infos)), Canonical(Normalized(m', c'.strictId, c'.infos))})
    ensures c.target == c'.target <==>
      AgreeUnwritten(m, m')
      && SameBodies(env, files, ArtifactsOf(m), c.strictId, env', files', ArtifactsOf(m'), c'.strictId)
  {
    if c.target == c'.target {
      TargetDigestMeaning(env, files, m, c, env', files', m', c');
    } else if AgreeUnwritten(m, m') {
      AgreeingStrictId(env, files, m, c, env', files', m', c');
    }
    if c.strictId == c'.strictId {
      TargetsAgree(env, files, m, c, env', files', m', c');
      StampedSameInParts(m, c.strictId, c.infos, m', c'.strictId, c'.infos);
      ArtifactsCovered(env, files, m, c, env', files', m', c');
    }
  }

  lemma {:induction false} TargetsAgree(
      env: Env, files: Files, m: Json, c: Computation, env': Env, files': Files, m': Json, c': Computation)
    requires Computed(env, files, m, c) && Computed(env', files', m', c') && env.hash == env'.hash
    requires TellsApart(env.hash, {Canonical(Normalized(m, c.strictId, c.infos)), Canonical(Normalized(m', c'.strictId, c'.infos))})
    ensures c.target == c'.target <==> Same(Normalized(m, c.strictId, c.infos), Normalized(m', c'.strictId, c'.infos))
  {
    ComputedParts(env, files, m, c);
    ComputedParts(env', files', m', c');
    CanonicalInjective(Normalized(m, c.strictId, c.infos), Normalized(m', c'.strictId, c'.infos));
  }
}
