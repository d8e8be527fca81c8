/** Which files the digest script accepts. */
module DigestAcceptance {
  import opened Sorting
  import opened JsonValues
  import opened ReleaseDigests
  import opened DigestFixedPoint
  import Text

  // ---------------------------------------------------------------- the artifact list

  /** An artifact is a dict with a string id that is not blank. */
  predicate Named(a: Json) { a.Obj? && Get(a, "id").Str? && !Text.Blank(Get(a, "id").s) }

  ghost predicate NamedApart(arts: seq<Json>, seen: set<string>) {
    && (forall i :: 0 <= i < |arts| ==> Named(arts[i]) && Get(arts[i], "id").s !in seen)
    && forall i, j :: 0 <= i < j < |arts| ==> Get(arts[i], "id") != Get(arts[j], "id")
  }

  lemma {:induction false} NoProblemExactly(arts: seq<Json>, seen: set<string>)
    ensures FirstProblem(arts, seen).None? <==> NamedApart(arts, seen)
    decreases arts
  {
    if arts != [] && ArtifactProblem(arts[0], seen).None? {
      var id, rest := IdOf(arts[0]), arts[1..];
      NoProblemExactly(rest, seen + {id});
      if NamedApart(rest, seen + {id}) {
        forall i | 0 <= i < |arts| ensures Named(arts[i]) && Get(arts[i], "id").s !in seen {
          assert i > 0 ==> arts[i] == rest[i - 1];
        }
        forall i, j | 0 <= i < j < |arts| ensures Get(arts[i], "id") != Get(arts[j], "id") {
          assert arts[j] == rest[j - 1] && (i > 0 ==> arts[i] == rest[i - 1]);
        }
      }
      if NamedApart(arts, seen) {
        forall i | 0 <= i < |rest| ensures Named(rest[i]) && Get(rest[i], "id").s !in seen + {id} {
          assert rest[i] == arts[i + 1];
        }
        forall i, j | 0 <= i < j < |rest| ensures Get(rest[i], "id") != Get(rest[j], "id") {
          assert rest[i] == arts[i + 1] && rest[j] == arts[j + 1];
        }
      }
    }
  }

  // ---------------------------------------------------------------- the strict artifact

  predicate StrictLog(a: Json) { Get(a, "kind") == Str("strict-verifier-log") }

  /** The reference names an artifact, and the first of that name is a strict log; without a reference there is exactly one. */
  ghost predicate StrictFound(strict: Json, arts: seq<Json>) {
    var ref := Get(strict, "evidenceRef");
    && strict.Obj?
    && if ref.Str? && !Text.Blank(ref.s) then
         exists i :: 0 <= i < |arts| && IdOf(arts[i]) == ref.s && StrictLog(arts[i]) && forall j :: 0 <= j < i ==> IdOf(arts[j]) != ref.s
       else OneStrictLog(arts)
  }

  ghost predicate OneStrictLog(arts: seq<Json>) {
    exists i :: 0 <= i < |arts| && StrictLog(arts[i]) && forall j :: 0 <= j < |arts| && StrictLog(arts[j]) ==> j == i
  }

  lemma {:induction false} WithIdIs(arts: seq<Json>, id: string, i: nat)
    requires i < |arts| && IdOf(arts[i]) == id && forall j :: 0 <= j < i ==> IdOf(arts[j]) != id
    ensures WithId(arts, id) == Some(arts[i])
    decreases i
  {
    if i > 0 {
      assert IdOf(arts[0]) != id;
      WithIdIs(arts[1..], id, i - 1);
    }
  }

  lemma {:induction false} WithIdAt(arts: seq<Json>, id: string) returns (i: nat)
    requires WithId(arts, id).Some?
    ensures i < |arts| && IdOf(arts[i]) == id && forall j :: 0 <= j < i ==> IdOf(arts[j]) != id
  {
    if IdOf(arts[0]) == id {
      return 0;
    }
    var k := WithIdAt(arts[1..], id);
    i := k + 1;
    forall j | 0 <= j < i ensures IdOf(arts[j]) != id {
      assert j > 0 ==> arts[j] == arts[1..][j - 1];
    }
  }

  lemma {:induction false} NoStrictLog(arts: seq<Json>)
    ensures StrictIds(arts) == [] <==> forall j :: 0 <= j < |arts| ==> !StrictLog(arts[j])
  {
    if arts != [] {
      NoStrictLog(arts[1..]);
      forall j | 0 < j < |arts| ensures arts[j] == arts[1..][j - 1] {
      }
    }
  }

  lemma {:induction false} OneStrictExactly(arts: seq<Json>)
    ensures |StrictIds(arts)| == 1 <==> OneStrictLog(arts)
  {
    if arts != [] {
      var rest := arts[1..];
      forall j | 0 < j < |arts| ensures arts[j] == rest[j - 1] {
      }
      if StrictLog(arts[0]) {
        NoStrictLog(rest);
        if StrictIds(rest) == [] {
          forall j | 0 <= j < |arts| && StrictLog(arts[j]) ensures j == 0 {
          }
        } else {
          var j :| 0 <= j < |rest| && StrictLog(rest[j]);
          assert StrictLog(arts[j + 1]);
        }
      } else {
        OneStrictExactly(rest);
        if OneStrictLog(rest) {
          var i :| 0 <= i < |rest| && StrictLog(rest[i]) && forall j :: 0 <= j < |rest| && StrictLog(rest[j]) ==> j == i;
          forall j | 0 <= j < |arts| && StrictLog(arts[j]) ensures j == i + 1 {
            assert StrictLog(rest[j - 1]);
          }
          assert StrictLog(arts[i + 1]);
        }
        if OneStrictLog(arts) {
          var i :| 0 <= i < |arts| && StrictLog(arts[i]) && forall j :: 0 <= j < |arts| && StrictLog(arts[j]) ==> j == i;
          forall j | 0 <= j < |rest| && StrictLog(rest[j]) ensures j == i - 1 {
            assert StrictLog(arts[j + 1]);
          }
          assert StrictLog(rest[i - 1]);
        }
      }
    }
  }

  lemma {:induction false} StrictFoundExactly(strict: Json, arts: seq<Json>)
    ensures StrictId(strict, arts).Ok? <==> StrictFound(strict, arts)
  {
    var ref := Get(strict, "evidenceRef");
    if ref.Str? && !Text.Blank(ref.s) {
      if WithId(arts, ref.s).Some? {
        var i := WithIdAt(arts, ref.s);
        WithIdIs(arts, ref.s, i);
      }
      if strict.Obj? && StrictFound(strict, arts) {
        var i :| 0 <= i < |arts| && IdOf(arts[i]) == ref.s && StrictLog(arts[i]) && forall j :: 0 <= j < i ==> IdOf(arts[j]) != ref.s;
        WithIdIs(arts, ref.s, i);
      }
    } else {
      OneStrictExactly(arts);
    }
  }

  // ---------------------------------------------------------------- the bodies

  predicate Readable(env: Env, files: Files, path: string) { path in files && env.load(files[path]).Some? }

  lemma {:induction false} ReadAllExactly(env: Env, files: Files, arts: seq<Json>, sid: string)
    ensures ReadAll(env, files, arts, sid).Ok? <==> forall a :: a in arts ==> Readable(env, files, env.at(IdOf(a)))
  {
    if arts != [] {
      assert arts[0] in arts && ReadBody(env, files, arts[0], sid).Ok? == Readable(env, files, env.at(IdOf(arts[0])));
      ReadAllExactly(env, files, arts[1..], sid);
      assert arts == [arts[0]] + arts[1..];
    }
  }

  // ---------------------------------------------------------------- acceptance

  /** A manifest with artifacts named apart, one of them found as the strict one, all of them with JSON bodies. */
  ghost predicate Acceptable(env: Env, files: Files, m: Json) {
    var arts := ArtifactsOf(m);
    && m.Obj? && arts != [] && NamedApart(arts, {}) && StrictFound(Get(m, "strictVerifier"), arts)
    && forall a :: a in arts ==> Readable(env, files, env.at(IdOf(a)))
  }

  /** The digests are computed exactly for the acceptable manifests. */
  lemma {:induction false} ComputesExactly(env: Env, files: Files, m: Json)
    ensures Compute(env, files, m).Ok? <==> Acceptable(env, files, m)
  {
    var arts := ArtifactsOf(m);
    NoProblemExactly(arts, {});
    StrictFoundExactly(Get(m, "strictVerifier"), arts);
    if ById(m).Ok? {
      assert ById(m) == Ok(arts);
      if StrictId(Get(m, "strictVerifier"), arts).Ok? {
        ReadAllExactly(env, files, Sort(arts, IdLe), StrictId(Get(m, "strictVerifier"), arts).value);
      }
    }
  }

  /** A run with `--write` succeeds exactly when the manifest is read and acceptable and the strict body is a dict. */
  lemma {:induction false} RefreshesExactly(env: Env, files: Files)
    ensures Refresh(env, files).Ok? <==>
      Readable(env, files, env.manifestAt) && Acceptable(env, files, ManifestOf(env, files))
      && StrictBodyIsDict(env, files, ManifestOf(env, files))
  {
    if Readable(env, files, env.manifestAt) {
      var m := ManifestOf(env, files);
      ComputesExactly(env, files, m);
      if Compute(env, files, m).Ok? {
        ComputeParts(env, files, m);
        var c := Compute(env, files, m).value;
        StrictIdPresent(Get(m, "strictVerifier"), ArtifactsOf(m));
        SortedHasId(ArtifactsOf(m), c.strictId);
        InfoReads(env, files, Sort(ArtifactsOf(m), IdLe), c.strictId, c.strictId);
      }
    }
  }

  ghost predicate StrictBodyIsDict(env: Env, files: Files, m: Json) {
    var id := StrictId(Get(m, "strictVerifier"), ArtifactsOf(m));
    id.Ok? && Readable(env, files, env.at(id.value)) && env.load(files[env.at(id.value)]).value.Obj?
  }
}
