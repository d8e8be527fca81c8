/** What equal digests say about the artifacts they cover, as far as the hashed texts do not collide. */
module DigestMeaning {
  import opened Sorting
  import opened Text
  import opened JsonValues
  import opened CanonicalJson
  import opened ReleaseDigests
  import opened DigestFixedPoint

  /** The digest function tells the given texts apart. */
  ghost predicate TellsApart(hash: string -> string, texts: set<string>) {
    forall x, y :: x in texts && y in texts && hash(x) == hash(y) ==> x == y
  }

  /** What the bundle digest is meant to identify about one artifact. */
  datatype Item = Item(id: string, kind: Json, provider: Option<Json>, body: Json)

  function Digested(info: Info, sid: string): Json {
    if IdOf(info.artifact) == sid then NormalBody(info.body) else info.body
  }

  function ItemOf(info: Info, sid: string): Item {
    Item(IdOf(info.artifact), Canon(Get(info.artifact, "kind")),
         if Has(info.artifact, "provider") then Some(Canon(Get(info.artifact, "provider"))) else None,
         Canon(Digested(info, sid)))
  }

  function ItemsOf(infos: seq<Info>, sid: string): (r: seq<Item>)
    ensures |r| == |infos| && forall i :: 0 <= i < |r| ==> r[i] == ItemOf(infos[i], sid)
  {
    if infos == [] then [] else [ItemOf(infos[0], sid)] + ItemsOf(infos[1..], sid)
  }

  ghost function ItemSet(infos: seq<Info>, sid: string): set<Item> {
    set item | item in ItemsOf(infos, sid)
  }

  /** The texts whose hashes enter the bundle digest. */
  ghost function BundleTexts(infos: seq<Info>, sid: string): set<string> {
    {Canonical(Bundle(infos))} + set i | 0 <= i < |infos| :: Canonical(Digested(infos[i], sid))
  }

  /** Bodies read in strictly increasing order of id, each with the digest of its normalised text. */
  ghost predicate ReadInOrder(env: Env, infos: seq<Info>, sid: string) {
    && (forall i :: 0 <= i < |infos| ==> infos[i].bodySha == env.hash(Canonical(Digested(infos[i], sid))))
    && (forall i :: 0 <= i < |infos| ==> WellFormed(infos[i].artifact))
    && (forall i, j :: 0 <= i < j < |infos| ==>
          IdLe(infos[i].artifact, infos[j].artifact) && IdOf(infos[i].artifact) != IdOf(infos[j].artifact))
  }

  /** Every successful computation reads its bodies so. */
  lemma {:induction false} ComputeReadsInOrder(env: Env, files: Files, m: Json)
    requires Compute(env, files, m).Ok? && WellFormed(m)
    ensures var c := Compute(env, files, m).value; ReadInOrder(env, c.infos, c.strictId)
  {
    var c := Compute(env, files, m).value;
    ComputeParts(env, files, m);
    ByIdParts(m);
    AcceptedIdsDistinct(ArtifactsOf(m));
    GetWellFormed(m, "artifacts");
    SortedReads(env, files, ArtifactsOf(m), c.strictId, c.infos);
  }

  lemma {:induction false} SortedReads(env: Env, files: Files, arts: seq<Json>, sid: string, infos: seq<Info>)
    requires IdsDiffer(arts) && WellFormed(Arr(arts)) && ReadAll(env, files, Sort(arts, IdLe), sid) == Ok(infos)
    ensures ReadInOrder(env, infos, sid)
  {
    var sorted := Sort(arts, IdLe);
    IdPreorder();
    SortOrdered(arts, IdLe);
    SortDistinct(arts);
    ReadAllEach(env, files, sorted, sid);
    forall i | 0 <= i < |infos|
      ensures infos[i].artifact == sorted[i] && WellFormed(sorted[i])
      ensures infos[i].bodySha == env.hash(Canonical(Digested(infos[i], sid)))
    {
      ReadParts(env, files, sorted[i], sid, infos[i]);
      assert sorted[i] in arts;
    }
    forall i, j | 0 <= i < j < |infos|
      ensures IdLe(infos[i].artifact, infos[j].artifact) && IdOf(infos[i].artifact) != IdOf(infos[j].artifact)
    {
      assert IdLe(sorted[i], sorted[j]);
    }
  }

  lemma {:induction false} ReadParts(env: Env, files: Files, a: Json, sid: string, info: Info)
    requires ReadBody(env, files, a, sid) == Ok(info)
    ensures info.artifact == a && info.bodySha == env.hash(Canonical(Digested(info, sid)))
  {
  }

  lemma {:induction false} IdPreorder()
    ensures Preorder(IdLe)
  {
    forall a, b ensures IdLe(a, b) || IdLe(b, a) {
      StrLeTotal(IdOf(a), IdOf(b));
    }
    forall a, b, c | IdLe(a, b) && IdLe(b, c) ensures IdLe(a, c) {
      StrLeTransitive(IdOf(a), IdOf(b), IdOf(c));
    }
  }

  ghost predicate IdsDiffer(arts: seq<Json>) {
    forall i, j :: 0 <= i < j < |arts| ==> IdOf(arts[i]) != IdOf(arts[j])
  }

  lemma {:induction false} SortDistinct(arts: seq<Json>)
    requires IdsDiffer(arts)
    ensures IdsDiffer(Sort(arts, IdLe))
  {
    if arts == [] {
    } else {
      SortDistinct(arts[1..]);
      forall a | a in Sort(arts[1..], IdLe) ensures IdOf(a) != IdOf(arts[0]) {
        assert a in arts[1..];
      }
      InsertDistinct(arts[0], Sort(arts[1..], IdLe));
    }
  }

  lemma {:induction false} InsertDistinct(a: Json, arts: seq<Json>)
    requires IdsDiffer(arts) && forall b :: b in arts ==> IdOf(b) != IdOf(a)
    ensures IdsDiffer(Insert(a, arts, IdLe))
  {
    if arts != [] && !IdLe(a, arts[0]) {
      InsertDistinct(a, arts[1..]);
      var rest := Insert(a, arts[1..], IdLe);
      forall k | 0 <= k < |rest| ensures IdOf(rest[k]) != IdOf(arts[0]) {
        assert rest[k] in multiset(rest);
        assert rest[k] == a || rest[k] in arts[1..];
      }
    }
  }

  // ---------------------------------------------------------------- the artifact bundle digest

  lemma {:induction false} EntryFind(info: Info, key: string)
    ensures Find(BundleEntry(info).fields, key)
         == if key == "id" then Some(Str(IdOf(info.artifact)))
            else if key == "kind" then Some(Get(info.artifact, "kind"))
            else if key == "bodySha256" then Some(Str(info.bodySha))
            else if key == "provider" && Has(info.artifact, "provider") then Some(Get(info.artifact, "provider"))
            else None
  {
    var p := if Has(info.artifact, "provider") then [Field("provider", Get(info.artifact, "provider"))] else [];
    var s, k := Field("bodySha256", Str(info.bodySha)), Field("kind", Get(info.artifact, "kind"));
    FindCons(Field("id", Str(IdOf(info.artifact))), [k] + ([s] + p), key);
    FindCons(k, [s] + p, key);
    FindCons(s, p, key);
  }

  lemma {:induction false} EntryWellFormed(info: Info)
    requires WellFormed(info.artifact)
    ensures WellFormed(BundleEntry(info))
  {
    var a := info.artifact;
    GetWellFormed(a, "kind");
    GetWellFormed(a, "provider");
    var p := if Has(a, "provider") then [Field("provider", Get(a, "provider"))] else [];
    FourFields(Field("id", Str(IdOf(a))), Field("kind", Get(a, "kind")), Field("bodySha256", Str(info.bodySha)), p);
  }

  lemma {:induction false} FourFields(f: Field, g: Field, h: Field, p: seq<Field>)
    requires f.key == "id" && g.key == "kind" && h.key == "bodySha256"
    requires WellFormed(f.value) && WellFormed(g.value) && WellFormed(h.value)
    requires p == [] || (|p| == 1 && p[0].key == "provider" && WellFormed(p[0].value))
    ensures WellFormed(Obj([f] + ([g] + ([h] + p))))
  {
    ConsWellFormed(h, p);
    FindCons(h, p, "kind");
    ConsWellFormed(g, [h] + p);
    FindCons(h, p, "id");
    FindCons(g, [h] + p, "id");
    ConsWellFormed(f, [g] + ([h] + p));
  }

  /** An entry as a canonical dict, field by field. */
  lemma {:induction false} EntryCanon(info: Info)
    ensures var p := if Has(info.artifact, "provider") then [Field("provider", Canon(Get(info.artifact, "provider")))] else [];
      CanonFields(BundleEntry(info).fields)
      == [Field("id", Str(IdOf(info.artifact)))]
         + ([Field("kind", Canon(Get(info.artifact, "kind")))] + ([Field("bodySha256", Str(info.bodySha))] + p))
  {
  }

  lemma {:induction false} EntryGets(info: Info)
    requires WellFormed(info.artifact)
    ensures var e := Canon(BundleEntry(info));
      && Get(e, "id") == Str(IdOf(info.artifact))
      && Get(e, "kind") == Canon(Get(info.artifact, "kind"))
      && Get(e, "bodySha256") == Str(info.bodySha)
      && Has(e, "provider") == Has(info.artifact, "provider")
      && (Has(info.artifact, "provider") ==> Get(e, "provider") == Canon(Get(info.artifact, "provider")))
  {
    EntryWellFormed(info);
    var e := BundleEntry(info);
    EntryFind(info, "id");
    CanonGet(e, "id");
    EntryFind(info, "kind");
    CanonGet(e, "kind");
    EntryFind(info, "bodySha256");
    CanonGet(e, "bodySha256");
    EntryFind(info, "provider");
    CanonGet(e, "provider");
  }

  /** Bundle entries print alike exactly when the items they stand for agree. */
  lemma {:induction false} EntryDecidesItem(env: Env, a: Info, sa: string, b: Info, sb: string, texts: set<string>)
    requires WellFormed(a.artifact) && WellFormed(b.artifact)
    requires a.bodySha == env.hash(Canonical(Digested(a, sa))) && b.bodySha == env.hash(Canonical(Digested(b, sb)))
    requires Canonical(Digested(a, sa)) in texts && Canonical(Digested(b, sb)) in texts && TellsApart(env.hash, texts)
    ensures Same(BundleEntry(a), BundleEntry(b)) <==> ItemOf(a, sa) == ItemOf(b, sb)
  {
    CanonicalInjective(Digested(a, sa), Digested(b, sb));
    if Same(BundleEntry(a), BundleEntry(b)) {
      EntryGets(a);
      EntryGets(b);
    }
    if ItemOf(a, sa) == ItemOf(b, sb) {
      EntryCanon(a);
      EntryCanon(b);
    }
  }

  lemma {:induction false} SameEntries(xs: seq<Info>, ys: seq<Info>)
    ensures Same(Bundle(xs), Bundle(ys)) <==>
      (|xs| == |ys| && forall i :: 0 <= i < |xs| ==> Same(BundleEntry(xs[i]), BundleEntry(ys[i])))
  {
    BundleSame(BundleEntries(xs), BundleEntries(ys));
    assert forall i :: 0 <= i < |xs| ==> BundleEntries(xs)[i] == BundleEntry(xs[i]);
    assert forall i :: 0 <= i < |ys| ==> BundleEntries(ys)[i] == BundleEntry(ys[i]);
  }

  lemma {:induction false} ItemsSame(ex: seq<Json>, ey: seq<Json>)
    ensures CanonItems(ex) == CanonItems(ey) <==> (|ex| == |ey| && forall i :: 0 <= i < |ex| ==> Same(ex[i], ey[i]))
  {
    if CanonItems(ex) == CanonItems(ey) {
      assert |CanonItems(ex)| == |CanonItems(ey)|;
      forall i | 0 <= i < |ex| ensures Same(ex[i], ey[i]) {
        assert CanonItems(ex)[i] == CanonItems(ey)[i];
      }
    }
  }

  lemma {:induction false} SecondField(f: Field, key: string, v: Json)
    requires f.key != key
    ensures Find([f, Field(key, v)], key) == Some(v) && UniqueKeys([f, Field(key, v)])
  {
    assert [f, Field(key, v)][1..] == [Field(key, v)];
  }

  /** Dicts that differ only in a second field are the same exactly when that field's values are. */
  lemma {:induction false} SecondFieldSame(f: Field, key: string, v: Json, w: Json)
    requires f.key != key
    ensures Same(Obj([f, Field(key, v)]), Obj([f, Field(key, w)])) <==> Same(v, w)
  {
    var fx, fy := [f, Field(key, v)], [f, Field(key, w)];
    SecondField(f, key, v);
    SecondField(f, key, w);
    if Same(Obj(fx), Obj(fy)) {
      SameFind(fx, fy, key);
      CanonFind(fx, key);
      CanonFind(fy, key);
    }
    if Same(v, w) {
      assert CanonFields(fx) == CanonFields(fy);
    }
  }

  lemma {:induction false} BundleSame(ex: seq<Json>, ey: seq<Json>)
    ensures var schema := Field("schema", Str(BUNDLE_SCHEMA));
      Same(Obj([schema, Field("artifacts", Arr(ex))]), Obj([schema, Field("artifacts", Arr(ey))])) <==>
      (|ex| == |ey| && forall i :: 0 <= i < |ex| ==> Same(ex[i], ey[i]))
  {
    assert |"schema"| != |"artifacts"|;
    SecondFieldSame(Field("schema", Str(BUNDLE_SCHEMA)), "artifacts", Arr(ex), Arr(ey));
    ItemsSame(ex, ey);
  }

  ghost predicate ItemsInOrder(items: seq<Item>) {
    forall i, j :: 0 <= i < j < |items| ==> StrLe(items[i].id, items[j].id) && items[i].id != items[j].id
  }

  /** In order of distinct ids, a set of items has one listing. */
  lemma {:induction false} OneListing(xs: seq<Item>, ys: seq<Item>)
    requires ItemsInOrder(xs) && ItemsInOrder(ys) && forall x :: x in xs <==> x in ys
    ensures xs == ys
  {
    assert ys != [] ==> ys[0] in ys;
    if xs != [] {
      assert xs[0] in ys && ys != [] && ys[0] in xs;
      var i :| 0 <= i < |ys| && ys[i] == xs[0];
      var j :| 0 <= j < |xs| && xs[j] == ys[0];
      if i > 0 {
        StrLeAntisymmetric(xs[0].id, ys[0].id);
      }
      assert xs == [xs[0]] + xs[1..] && ys == [ys[0]] + ys[1..];
      forall x ensures x in xs[1..] <==> x in ys[1..] {
        assert xs[0] !in xs[1..] && ys[0] !in ys[1..];
        assert x in xs <==> x == xs[0] || x in xs[1..];
        assert x in ys <==> x == ys[0] || x in ys[1..];
      }
      OneListing(xs[1..], ys[1..]);
    }
  }

  /** Two computations have the same bundle digest exactly when they cover the same set of artifacts: same ids,
      kinds, providers and bodies as values, the strict body up to its digest fields. The order in which a
      manifest lists its artifacts and the layout of the body files do not matter. */
  lemma {:induction false} BundleDigestMeaning(env: Env, xs: seq<Info>, sx: string, ys: seq<Info>, sy: string)
    requires ReadInOrder(env, xs, sx) && ReadInOrder(env, ys, sy)
    requires TellsApart(env.hash, BundleTexts(xs, sx) + BundleTexts(ys, sy))
    ensures env.hash(Canonical(Bundle(xs))) == env.hash(Canonical(Bundle(ys))) <==> ItemSet(xs, sx) == ItemSet(ys, sy)
  {
    var texts := BundleTexts(xs, sx) + BundleTexts(ys, sy);
    CanonicalInjective(Bundle(xs), Bundle(ys));
    assert Canonical(Bundle(xs)) in texts && Canonical(Bundle(ys)) in texts;
    BundleListsItems(env, xs, sx, ys, sy, texts);
    SetDecidesListing(env, xs, sx, ys, sy);
  }

  lemma {:induction false} SetDecidesListing(env: Env, xs: seq<Info>, sx: string, ys: seq<Info>, sy: string)
    requires ReadInOrder(env, xs, sx) && ReadInOrder(env, ys, sy)
    ensures ItemSet(xs, sx) == ItemSet(ys, sy) <==> ItemsOf(xs, sx) == ItemsOf(ys, sy)
  {
    var ix, iy := ItemsOf(xs, sx), ItemsOf(ys, sy);
    if ItemSet(xs, sx) == ItemSet(ys, sy) {
      forall item ensures item in ix <==> item in iy {
        assert item in ix <==> item in ItemSet(xs, sx);
        assert item in iy <==> item in ItemSet(ys, sy);
      }
      OneListing(ix, iy);
    }
  }

  lemma {:induction false} BundleListsItems(
      env: Env, xs: seq<Info>, sx: string, ys: seq<Info>, sy: string, texts: set<string>)
    requires ReadInOrder(env, xs, sx) && ReadInOrder(env, ys, sy)
    requires TellsApart(env.hash, texts) && BundleTexts(xs, sx) + BundleTexts(ys, sy) <= texts
    ensures Same(Bundle(xs), Bundle(ys)) <==> ItemsOf(xs, sx) == ItemsOf(ys, sy)
  {
    var ix, iy := ItemsOf(xs, sx), ItemsOf(ys, sy);
    SameEntries(xs, ys);
    forall i | 0 <= i < |xs| && |xs| == |ys|
      ensures Same(BundleEntry(xs[i]), BundleEntry(ys[i])) <==> ix[i] == iy[i]
    {
      assert Canonical(Digested(xs[i], sx)) in BundleTexts(xs, sx);
      assert Canonical(Digested(ys[i], sy)) in BundleTexts(ys, sy);
      EntryDecidesItem(env, xs[i], sx, ys[i], sy, texts);
    }
    if Same(Bundle(xs), Bundle(ys)) {
      assert ix == iy;
    }
    if ix == iy {
      assert |xs| == |ix| == |iy| == |ys|;
    }
  }

  // ---------------------------------------------------------------- the target evidence digest

  /** Artifacts that agree on id, on being a strict log, and on their stamped digest. */
  ghost predicate Alike(a: Json, b: Json) {
    Get(a, "id") == Get(b, "id") && IsStrictKind(a) == IsStrictKind(b)
  }

  lemma {:induction false} AlikeStrictIds(xs: seq<Json>, ys: seq<Json>, id: string)
    requires |xs| == |ys| && forall i :: 0 <= i < |xs| ==> Alike(xs[i], ys[i])
    ensures StrictIds(xs) == StrictIds(ys)
    ensures WithId(xs, id).Some? == WithId(ys, id).Some?
    ensures WithId(xs, id).Some? ==> IsStrictKind(WithId(xs, id).value) == IsStrictKind(WithId(ys, id).value)
  {
    if xs == [] {
    } else {
      assert Alike(xs[0], ys[0]);
      forall i | 0 <= i < |xs[1..]| ensures Alike(xs[1..][i], ys[1..][i]) {
        assert Alike(xs[i + 1], ys[i + 1]);
      }
      AlikeStrictIds(xs[1..], ys[1..], id);
    }
  }

  lemma {:induction false} SameStrictId(s: Json, t: Json, xs: seq<Json>, ys: seq<Json>)
    requires s.Obj? == t.Obj? && Canon(Get(s, "evidenceRef")) == Canon(Get(t, "evidenceRef"))
    requires |xs| == |ys| && forall i :: 0 <= i < |xs| ==> Alike(xs[i], ys[i])
    ensures StrictId(s, xs) == StrictId(t, ys)
  {
    var ref := Get(s, "evidenceRef");
    AlikeStrictIds(xs, ys, if ref.Str? then ref.s else "");
  }

  lemma {:induction false} CanonStr(a: Json, b: Json)
    requires Same(a, b)
    ensures a.Str? || b.Str? ==> a == b
  {
  }

  /** Two artifacts whose stamped forms are the same value. */
  lemma {:induction false} StampedAlike(
      a: Json, sid: string, xs: seq<Info>, b: Json, sid': string, ys: seq<Info>)
    requires WellFormed(StampArtifact(a, sid, ZERO_SHA256, xs)) && WellFormed(StampArtifact(b, sid', ZERO_SHA256, ys))
    requires Same(StampArtifact(a, sid, ZERO_SHA256, xs), StampArtifact(b, sid', ZERO_SHA256, ys))
    requires a.Obj? && b.Obj? && Get(a, "id").Str? && Get(b, "id").Str?
    requires RawSha(xs, IdOf(a)).Some? && RawSha(ys, IdOf(b)).Some?
    ensures Alike(a, b)
    ensures IdOf(a) != sid && IdOf(b) != sid' ==> RawSha(xs, IdOf(a)) == RawSha(ys, IdOf(b))
  {
    var x, y := StampArtifact(a, sid, ZERO_SHA256, xs), StampArtifact(b, sid', ZERO_SHA256, ys);
    StampKeeps(a, sid, ZERO_SHA256, xs, "id");
    StampKeeps(b, sid', ZERO_SHA256, ys, "id");
    StampKeeps(a, sid, ZERO_SHA256, xs, "kind");
    StampKeeps(b, sid', ZERO_SHA256, ys, "kind");
    StampGet(a, sid, ZERO_SHA256, xs);
    StampGet(b, sid', ZERO_SHA256, ys);
    CanonGet(x, "id");
    CanonGet(y, "id");
    CanonGet(x, "kind");
    CanonGet(y, "kind");
    CanonGet(x, "sha256");
    CanonGet(y, "sha256");
    CanonStr(Get(a, "kind"), Get(b, "kind"));
  }

  lemma {:induction false} AllHaveRawSha(env: Env, files: Files, arts: seq<Json>, sid: string, infos: seq<Info>, i: nat)
    requires ReadAll(env, files, Sort(arts, IdLe), sid) == Ok(infos) && i < |arts|
    ensures env.at(IdOf(arts[i])) in files && RawSha(infos, IdOf(arts[i])) == Some(env.hash(files[env.at(IdOf(arts[i]))]))
  {
    assert HasId(arts, IdOf(arts[i]));
    SortedHasId(arts, IdOf(arts[i]));
    InfoReads(env, files, Sort(arts, IdLe), sid, IdOf(arts[i]));
  }

  /** One successful computation over well-formed input. */
  ghost predicate Computed(env: Env, files: Files, m: Json, c: Computation) {
    && WellFormed(m) && Stampable(m)
    && forall read {:trigger Compute(env, files, read)} :: read == m ==> Compute(env, files, read) == Ok(c)
  }

  lemma {:induction false} ComputedParts(env: Env, files: Files, m: Json, c: Computation)
    requires Computed(env, files, m, c)
    ensures Stampable(m) && DistinctIds(ArtifactsOf(m))
    ensures StrictId(Get(m, "strictVerifier"), ArtifactsOf(m)) == Ok(c.strictId)
    ensures ReadAll(env, files, Sort(ArtifactsOf(m), IdLe), c.strictId) == Ok(c.infos)
    ensures c.target == env.hash(Canonical(Normalized(m, c.strictId, c.infos)))
  {
    assert Compute(env, files, m) == Ok(c);
    ComputeParts(env, files, m);
    ByIdParts(m);
    AcceptedIdsDistinct(ArtifactsOf(m));
  }

  lemma {:induction false} NormalArtifacts(m: Json, sid: string, infos: seq<Info>)
    requires Stampable(m) && WellFormed(m)
    ensures var n := Normalized(m, sid, infos);
      && WellFormed(n)
      && Get(Canon(n), "artifacts") == Arr(CanonItems(StampAll(ArtifactsOf(m), sid, ZERO_SHA256, infos)))
      && Get(Get(Canon(n), "strictVerifier"), "evidenceRef") == Canon(Get(Get(m, "strictVerifier"), "evidenceRef"))
  {
    StampWellFormed(m, ZERO_SHA256, ZERO_SHA256, sid, ZERO_SHA256, infos);
    StampShape(m, ZERO_SHA256, ZERO_SHA256, sid, ZERO_SHA256, infos);
    var n := Normalized(m, sid, infos);
    CanonGet(n, "artifacts");
    CanonGet(n, "strictVerifier");
    GetWellFormed(n, "strictVerifier");
    CanonGet(Get(n, "strictVerifier"), "evidenceRef");
    SetDigestsGet(Get(m, "strictVerifier").fields, ZERO_SHA256, ZERO_SHA256, "evidenceRef");
  }

  lemma {:induction false} NormalArtifactsWellFormed(m: Json, c: Computation, i: nat)
    requires Stampable(m) && WellFormed(Normalized(m, c.strictId, c.infos)) && i < |ArtifactsOf(m)|
    ensures WellFormed(StampArtifact(ArtifactsOf(m)[i], c.strictId, ZERO_SHA256, c.infos))
  {
    StampShape(m, ZERO_SHA256, ZERO_SHA256, c.strictId, ZERO_SHA256, c.infos);
    GetWellFormed(Normalized(m, c.strictId, c.infos), "artifacts");
    assert StampAll(ArtifactsOf(m), c.strictId, ZERO_SHA256, c.infos)[i]
        == StampArtifact(ArtifactsOf(m)[i], c.strictId, ZERO_SHA256, c.infos);
  }

  /** Equal target-evidence digests: the manifests list the same ids in the same order, with the same
      strict artifact, and every other body is byte for byte the same file content, wherever each side keeps its files. */
  lemma {:induction false} TargetDigestMeaning(
      env: Env, files: Files, m: Json, c: Computation, env': Env, files': Files, m': Json, c': Computation)
    requires Computed(env, files, m, c) && Computed(env', files', m', c') && env.hash == env'.hash && c.target == c'.target
    requires TellsApart(env.hash, {Canonical(Normalized(m, c.strictId, c.infos)), Canonical(Normalized(m', c'.strictId, c'.infos))})
    ensures |ArtifactsOf(m)| == |ArtifactsOf(m')| && c.strictId == c'.strictId
    ensures forall i :: 0 <= i < |ArtifactsOf(m)| ==> var id := IdOf(ArtifactsOf(m)[i]);
      && IdOf(ArtifactsOf(m')[i]) == id && env.at(id) in files && env'.at(id) in files'
      && (id != c.strictId && TellsApart(env.hash, {files[env.at(id)], files'[env'.at(id)]}) ==>
            files[env.at(id)] == files'[env'.at(id)])
  {
    ComputedParts(env, files, m, c);
    ComputedParts(env', files', m', c');
    CanonicalInjective(Normalized(m, c.strictId, c.infos), Normalized(m', c'.strictId, c'.infos));
    NormalListings(m, c.strictId, c.infos, m', c'.strictId, c'.infos);
    forall i | 0 <= i < |ArtifactsOf(m)|
      ensures var a, b := ArtifactsOf(m)[i], ArtifactsOf(m')[i];
        && Alike(a, b) && env.at(IdOf(a)) in files && env'.at(IdOf(b)) in files'
        && (IdOf(a) != c.strictId && IdOf(b) != c'.strictId ==>
              env.hash(files[env.at(IdOf(a))]) == env.hash(files'[env'.at(IdOf(b))]))
    {
      AlikeAt(env, files, m, c, env', files', m', c', i);
    }
    SameStrictId(Get(m, "strictVerifier"), Get(m', "strictVerifier"), ArtifactsOf(m), ArtifactsOf(m'));
  }

  /** Normalised manifests that are the same value list the same number of artifacts, pairwise the same. */
  lemma {:induction false} NormalListings(m: Json, sid: string, xs: seq<Info>, m': Json, sid': string, ys: seq<Info>)
    requires Stampable(m) && WellFormed(m) && Stampable(m') && WellFormed(m')
    requires Same(Normalized(m, sid, xs), Normalized(m', sid', ys))
    ensures |ArtifactsOf(m)| == |ArtifactsOf(m')|
    ensures forall i :: 0 <= i < |ArtifactsOf(m)| ==>
      Same(StampArtifact(ArtifactsOf(m)[i], sid, ZERO_SHA256, xs), StampArtifact(ArtifactsOf(m')[i], sid', ZERO_SHA256, ys))
    ensures Same(Get(Get(m, "strictVerifier"), "evidenceRef"), Get(Get(m', "strictVerifier"), "evidenceRef"))
  {
    NormalArtifacts(m, sid, xs);
    NormalArtifacts(m', sid', ys);
    var zs, ws := StampAll(ArtifactsOf(m), sid, ZERO_SHA256, xs), StampAll(ArtifactsOf(m'), sid', ZERO_SHA256, ys);
    assert CanonItems(zs) == CanonItems(ws) && |CanonItems(zs)| == |CanonItems(ws)|;
    forall i | 0 <= i < |zs| ensures Same(zs[i], ws[i]) {
      assert CanonItems(zs)[i] == CanonItems(ws)[i];
    }
  }

  lemma {:induction false} AlikeAt(
      env: Env, files: Files, m: Json, c: Computation, env': Env, files': Files, m': Json, c': Computation, i: nat)
    requires Computed(env, files, m, c) && Computed(env', files', m', c') && env.hash == env'.hash
    requires i < |ArtifactsOf(m)| && i < |ArtifactsOf(m')|
    requires Same(StampArtifact(ArtifactsOf(m)[i], c.strictId, ZERO_SHA256, c.infos),
                  StampArtifact(ArtifactsOf(m')[i], c'.strictId, ZERO_SHA256, c'.infos))
    ensures var a, b := ArtifactsOf(m)[i], ArtifactsOf(m')[i];
      && Alike(a, b) && env.at(IdOf(a)) in files && env'.at(IdOf(b)) in files'
      && (IdOf(a) != c.strictId && IdOf(b) != c'.strictId ==>
            env.hash(files[env.at(IdOf(a))]) == env.hash(files'[env'.at(IdOf(b))]))
  {
    ComputedParts(env, files, m, c);
    ComputedParts(env', files', m', c');
    AllHaveRawSha(env, files, ArtifactsOf(m), c.strictId, c.infos, i);
    AllHaveRawSha(env', files', ArtifactsOf(m'), c'.strictId, c'.infos, i);
    StampWellFormed(m, ZERO_SHA256, ZERO_SHA256, c.strictId, ZERO_SHA256, c.infos);
    StampWellFormed(m', ZERO_SHA256, ZERO_SHA256, c'.strictId, ZERO_SHA256, c'.infos);
    NormalArtifactsWellFormed(m, c, i);
    NormalArtifactsWellFormed(m', c', i);
    StampedAlike(ArtifactsOf(m)[i], c.strictId, c.infos, ArtifactsOf(m')[i], c'.strictId, c'.infos);
  }
}
