/** What the release projection says about a contract, told from the contract's JSON alone. */
module PayloadMeaning {
  import opened Sorting
  import opened Text
  import Orders
  import opened JsonValues
  import opened Distinctness
  import opened ReleaseProjection

  // ---------------------------------------------------------------- which contracts are accepted

  function ItemsUnder(contract: Json, key: string): seq<Json> {
    if Get(contract, key).Arr? then Get(contract, key).items else []
  }

  /** Every row is a dict with a non-empty id of its own. */
  predicate HaveIds(rows: seq<Json>) {
    && (forall i :: 0 <= i < |rows| ==> rows[i].Obj? && Get(rows[i], "id").Str? && Get(rows[i], "id").s != "")
    && forall i, j :: 0 <= i < j < |rows| ==> Get(rows[i], "id") != Get(rows[j], "id")
  }

  predicate CommitmentGiven(row: Json) {
    Get(row, "commitment") == Str("committed") || Get(row, "commitment") == Str("conditional") || Get(row, "commitment") == Str("excluded")
  }

  /** Some row has the id. */
  predicate IdAmong(rows: seq<Json>, id: Json) { exists i :: 0 <= i < |rows| && Get(rows[i], "id") == id }

  /** The capability ids of a surface are a list of different strings, each the id of a capability. */
  predicate NamesCapabilities(row: Json, capabilities: seq<Json>) {
    var ids := Get(row, "capabilityIds");
    && ids.Arr? && (forall i :: 0 <= i < |ids.items| ==> ids.items[i].Str? && IdAmong(capabilities, ids.items[i]))
    && forall i, j :: 0 <= i < j < |ids.items| ==> ids.items[i] != ids.items[j]
  }

  /** The contract that the frontend verifier accepts. */
  predicate Acceptable(contract: Json) {
    var capabilities, surfaces := ItemsUnder(contract, "capabilities"), ItemsUnder(contract, "surfaceReferences");
    && Get(contract, "schemaVersion") == Str("contract/v1") && Get(contract, "defaultProfile") == Str("monolith")
    && capabilities != [] && HaveIds(capabilities) && (forall i :: 0 <= i < |capabilities| ==> CommitmentGiven(capabilities[i]))
    && surfaces != [] && HaveIds(surfaces) && forall i :: 0 <= i < |surfaces| ==> NamesCapabilities(surfaces[i], capabilities)
  }

  lemma {:induction false} CapabilityOkExactly(v: Json)
    ensures CapabilityOk(v) <==> v.Obj? && Get(v, "id").Str? && Get(v, "id").s != "" && CommitmentGiven(v)
  {
  }

  lemma {:induction false} KnownExactly(capabilities: seq<Json>, id: string)
    requires HaveIds(capabilities)
    ensures id in Known(capabilities) <==> IdAmong(capabilities, Str(id))
  {
    if id in Known(capabilities) {
      var i :| 0 <= i < |capabilities| && Ids(capabilities)[i] == id;
      assert Get(capabilities[i], "id") == Str(id);
    }
    if i :| 0 <= i < |capabilities| && Get(capabilities[i], "id") == Str(id) {
      assert Ids(capabilities)[i] == id;
    }
  }

  lemma {:induction false} SurfaceOkExactly(v: Json, capabilities: seq<Json>)
    requires HaveIds(capabilities)
    ensures SurfaceOk(v, Known(capabilities)) <==>
      v.Obj? && Get(v, "id").Str? && Get(v, "id").s != "" && NamesCapabilities(v, capabilities)
  {
    var ids := Get(v, "capabilityIds");
    if ids.Arr? {
      forall i | 0 <= i < |ids.items| && ids.items[i].Str?
        ensures TextOf(ids.items[i]) in Known(capabilities) <==> IdAmong(capabilities, ids.items[i])
      {
        KnownExactly(capabilities, ids.items[i].s);
      }
      if AllText(ids) {
        TextsApart(ids.items);
      }
    }
  }

  lemma {:induction false} TextsApart(items: seq<Json>)
    requires forall i :: 0 <= i < |items| ==> items[i].Str?
    ensures NoDuplicates(Texts(items)) <==> forall i, j :: 0 <= i < j < |items| ==> items[i] != items[j]
  {
    if NoDuplicates(Texts(items)) {
      forall i, j | 0 <= i < j < |items| ensures items[i] != items[j] {
        assert Texts(items)[i] != Texts(items)[j];
      }
    }
  }

  lemma {:induction false} IdsApartExactly(rows: seq<Json>)
    requires forall i :: 0 <= i < |rows| ==> Get(rows[i], "id").Str?
    ensures NoDuplicates(Ids(rows)) <==> forall i, j :: 0 <= i < j < |rows| ==> Get(rows[i], "id") != Get(rows[j], "id")
  {
    if NoDuplicates(Ids(rows)) {
      forall i, j | 0 <= i < j < |rows| ensures Get(rows[i], "id") != Get(rows[j], "id") {
        assert Ids(rows)[i] != Ids(rows)[j];
      }
    }
  }

  lemma {:induction false} CapabilityRowsExactly(rows: seq<Json>)
    ensures RowsOk(rows, CapabilityOk) <==> HaveIds(rows) && forall i :: 0 <= i < |rows| ==> CommitmentGiven(rows[i])
  {
    forall i | 0 <= i < |rows|
      ensures CapabilityOk(rows[i]) <==>
        rows[i].Obj? && Get(rows[i], "id").Str? && Get(rows[i], "id").s != "" && CommitmentGiven(rows[i])
    {
      CapabilityOkExactly(rows[i]);
    }
    if forall i :: 0 <= i < |rows| ==> Get(rows[i], "id").Str? {
      IdsApartExactly(rows);
    }
  }

  lemma {:induction false} SurfaceRowsExactly(rows: seq<Json>, capabilities: seq<Json>)
    requires HaveIds(capabilities)
    ensures RowsOk(rows, v => SurfaceOk(v, Known(capabilities))) <==>
      HaveIds(rows) && forall i :: 0 <= i < |rows| ==> NamesCapabilities(rows[i], capabilities)
  {
    var ok := v => SurfaceOk(v, Known(capabilities));
    forall i | 0 <= i < |rows|
      ensures ok(rows[i]) <==>
        rows[i].Obj? && Get(rows[i], "id").Str? && Get(rows[i], "id").s != "" && NamesCapabilities(rows[i], capabilities)
    {
      SurfaceOkExactly(rows[i], capabilities);
    }
    if forall i :: 0 <= i < |rows| ==> Get(rows[i], "id").Str? {
      IdsApartExactly(rows);
    }
  }

  /** The frontend verifier accepts exactly these contracts. */
  lemma {:induction false} AcceptedExactly(contract: Json)
    ensures ContractOk(contract) <==> Acceptable(contract)
  {
    var capabilities, surfaces := ItemsUnder(contract, "capabilities"), ItemsUnder(contract, "surfaceReferences");
    CapabilityRowsExactly(capabilities);
    if HaveIds(capabilities) {
      SurfaceRowsExactly(surfaces, capabilities);
    }
  }

  // ---------------------------------------------------------------- what the payload shows

  /** A level stands for a commitment. */
  predicate StandsForCommitment(l: Level, commitment: Json) {
    && (l == Committed <==> commitment == Str("committed"))
    && (l == Conditional <==> commitment == Str("conditional"))
  }

  /** What the payload says of a capability row: its commitment as it is and as a navigation level, and its reason. */
  predicate ShowsCapability(row: Json, x: CapabilityOut) {
    && Get(row, "id") == Str(x.id) && x.disposition == Get(row, "commitment") && x.reason == Get(row, "reasonCode")
    && StandsForCommitment(x.navigation, Get(row, "commitment"))
  }

  /** Some capability row that the surface lists has the commitment. */
  predicate ListsCommitment(capabilities: seq<Json>, surface: Json, commitment: string) {
    exists i, k :: 0 <= i < |capabilities| && 0 <= k < |ItemsUnder(surface, "capabilityIds")|
      && Get(capabilities[i], "id") == ItemsUnder(surface, "capabilityIds")[k]
      && Get(capabilities[i], "commitment") == Str(commitment)
  }

  /** The ids in order, each as often as it is listed. */
  ghost predicate SortedTexts(ids: seq<string>, items: seq<Json>) {
    && multiset(ids) == multiset(Texts(items))
    && forall i, j :: 0 <= i < j < |ids| ==> StrLe(ids[i], ids[j])
  }

  /** What the payload says of a surface row: committed if some capability it lists is committed, otherwise conditional if one
      is conditional, otherwise excluded. */
  ghost predicate ShowsSurface(capabilities: seq<Json>, row: Json, s: SurfaceOut) {
    && Get(row, "id") == Str(s.id) && s.source == Get(row, "canonicalSource") && s.consumer == Get(row, "consumer")
    && SortedTexts(s.capabilityIds, ItemsUnder(row, "capabilityIds"))
    && (s.disposition == Committed <==> ListsCommitment(capabilities, row, "committed"))
    && (s.disposition == Conditional <==>
          !ListsCommitment(capabilities, row, "committed") && ListsCommitment(capabilities, row, "conditional"))
  }

  lemma {:induction false} CapabilityShown(row: Json)
    requires Get(row, "id").Str?
    ensures forall x :: ShowsCapability(row, x) <==> x == ProjectCapability(RowEntry(row))
  {
    forall x | ShowsCapability(row, x) ensures x == ProjectCapability(RowEntry(row)) {
      LevelDetermined(x.navigation, LevelOf(Get(row, "commitment")), Get(row, "commitment"));
    }
  }

  lemma {:induction false} LevelDetermined(l: Level, k: Level, commitment: Json)
    requires StandsForCommitment(l, commitment) && StandsForCommitment(k, commitment)
    ensures l == k
  {
  }

  lemma {:induction false} LookupExactly(capabilities: seq<Json>, id: string, commitment: string)
    requires HaveIds(capabilities)
    ensures var found := Find(Map(capabilities, RowEntry), id);
      found.Some? && Get(found.value, "commitment") == Str(commitment) <==>
      exists i :: 0 <= i < |capabilities| && Get(capabilities[i], "id") == Str(id)
        && Get(capabilities[i], "commitment") == Str(commitment)
  {
    var table := Map(capabilities, RowEntry);
    forall i | 0 <= i < |capabilities| ensures table[i] == Field(Get(capabilities[i], "id").s, capabilities[i]) {
    }
    if i :| 0 <= i < |capabilities| && Get(capabilities[i], "id") == Str(id) && Get(capabilities[i], "commitment") == Str(commitment) {
      FindFirst(table, i);
    }
    if Find(table, id).Some? {
      FoundEntry(table, id);
    }
  }

  lemma {:induction false} FoundEntry(fs: seq<Field>, key: string)
    requires Find(fs, key).Some?
    ensures exists i :: 0 <= i < |fs| && fs[i] == Field(key, Find(fs, key).value)
  {
    if fs[0].key == key {
      assert fs[0] == Field(key, Find(fs, key).value);
    } else {
      FoundEntry(fs[1..], key);
      var i :| 0 <= i < |fs[1..]| && fs[1..][i] == Field(key, Find(fs, key).value);
      assert fs[i + 1] == fs[1..][i];
    }
  }

  lemma {:induction false} LevelListed(capabilities: seq<Json>, row: Json, l: Level, commitment: string)
    requires HaveIds(capabilities) && NamesCapabilities(row, capabilities) && StandsForCommitment(l, Str(commitment)) && l != Excluded
    ensures l in Levels(CapabilityIds(row), Map(capabilities, RowEntry)) <==> ListsCommitment(capabilities, row, commitment)
  {
    var table, ids, items := Map(capabilities, RowEntry), CapabilityIds(row), ItemsUnder(row, "capabilityIds");
    assert ids == Texts(items);
    if l in Levels(ids, table) {
      var id :| id in ids && Find(table, id).Some? && LevelOf(Get(Find(table, id).value, "commitment")) == l;
      var k :| 0 <= k < |ids| && ids[k] == id;
      LookupExactly(capabilities, id, commitment);
      var i :| 0 <= i < |capabilities| && Get(capabilities[i], "id") == Str(id) && Get(capabilities[i], "commitment") == Str(commitment);
      assert items[k] == Str(id);
    }
    if ListsCommitment(capabilities, row, commitment) {
      var i, k :| 0 <= i < |capabilities| && 0 <= k < |items|
        && Get(capabilities[i], "id") == items[k] && Get(capabilities[i], "commitment") == Str(commitment);
      LookupExactly(capabilities, ids[k], commitment);
      assert ids[k] in ids;
    }
  }

  lemma {:induction false} SurfaceShown(capabilities: seq<Json>, row: Json)
    requires HaveIds(capabilities) && NamesCapabilities(row, capabilities) && Get(row, "id").Str?
    ensures ShowsSurface(capabilities, row, Surface(row, Map(capabilities, RowEntry)))
  {
    LevelListed(capabilities, row, Committed, "committed");
    LevelListed(capabilities, row, Conditional, "conditional");
    Orders.StrOrder();
    SortOrdered(CapabilityIds(row), StrLe);
  }

  lemma {:induction false} SortedMembers<R, T(!new)>(rows: seq<R>, f: R -> T, le: (T, T) -> bool)
    ensures forall t :: t in Sort(Map(rows, f), le) <==> exists i :: 0 <= i < |rows| && f(rows[i]) == t
  {
    forall i | 0 <= i < |rows| ensures Map(rows, f)[i] == f(rows[i]) {
    }
  }

  lemma {:induction false} CapabilitiesShown(capabilities: seq<Json>)
    requires HaveIds(capabilities)
    ensures ShowsCapabilities(capabilities, Sort(Map(Map(capabilities, RowEntry), ProjectCapability), OutLe))
  {
    var table := Map(capabilities, RowEntry);
    SortedMembers(table, ProjectCapability, OutLe);
    OutPreorder();
    SortOrdered(Map(table, ProjectCapability), OutLe);
    forall x, i | 0 <= i < |capabilities|
      ensures ShowsCapability(capabilities[i], x) <==> ProjectCapability(table[i]) == x
    {
      CapabilityShown(capabilities[i]);
    }
  }

  /** Every entry is about a surface row. */
  ghost predicate OnlyRows(capabilities: seq<Json>, surfaces: seq<Json>, ss: seq<SurfaceOut>) {
    forall s :: s in ss ==> exists i :: 0 <= i < |surfaces| && ShowsSurface(capabilities, surfaces[i], s)
  }

  /** Every surface row has an entry. */
  ghost predicate AllRows(capabilities: seq<Json>, surfaces: seq<Json>, ss: seq<SurfaceOut>) {
    forall i :: 0 <= i < |surfaces| ==> exists s :: s in ss && ShowsSurface(capabilities, surfaces[i], s)
  }

  /** The surface rows are shown, each by one entry, in the order of their ids. */
  ghost predicate ShowsSurfaces(capabilities: seq<Json>, surfaces: seq<Json>, ss: seq<SurfaceOut>) {
    && |ss| == |surfaces| && OnlyRows(capabilities, surfaces, ss) && AllRows(capabilities, surfaces, ss)
    && forall i, j :: 0 <= i < j < |ss| ==> StrLe(ss[i].id, ss[j].id)
  }

  lemma {:induction false} SurfacesOrdered(surfaces: seq<Json>, f: Json -> SurfaceOut)
    ensures var ss := Sort(Map(surfaces, f), SurfaceOutLe); forall i, j :: 0 <= i < j < |ss| ==> StrLe(ss[i].id, ss[j].id)
  {
    OutPreorder();
    SortOrdered(Map(surfaces, f), SurfaceOutLe);
  }

  lemma {:induction false} OnlyShown(capabilities: seq<Json>, surfaces: seq<Json>, f: Json -> SurfaceOut)
    requires forall i :: 0 <= i < |surfaces| ==> ShowsSurface(capabilities, surfaces[i], f(surfaces[i]))
    ensures OnlyRows(capabilities, surfaces, Sort(Map(surfaces, f), SurfaceOutLe))
  {
    SortedMembers(surfaces, f, SurfaceOutLe);
  }

  lemma {:induction false} AllShown(capabilities: seq<Json>, surfaces: seq<Json>, f: Json -> SurfaceOut)
    requires forall i :: 0 <= i < |surfaces| ==> ShowsSurface(capabilities, surfaces[i], f(surfaces[i]))
    ensures AllRows(capabilities, surfaces, Sort(Map(surfaces, f), SurfaceOutLe))
  {
    var ss := Sort(Map(surfaces, f), SurfaceOutLe);
    forall i | 0 <= i < |surfaces| ensures f(surfaces[i]) in ss {
      assert Map(surfaces, f)[i] == f(surfaces[i]);
    }
  }

  lemma {:induction false} EachShown(capabilities: seq<Json>, surfaces: seq<Json>, f: Json -> SurfaceOut)
    requires HaveIds(capabilities) && HaveIds(surfaces)
    requires forall i :: 0 <= i < |surfaces| ==> NamesCapabilities(surfaces[i], capabilities)
    requires forall v {:trigger Surface(v, Map(capabilities, RowEntry))} :: f(v) == Surface(v, Map(capabilities, RowEntry))
    ensures forall i :: 0 <= i < |surfaces| ==> ShowsSurface(capabilities, surfaces[i], f(surfaces[i]))
  {
    forall i | 0 <= i < |surfaces| ensures ShowsSurface(capabilities, surfaces[i], f(surfaces[i])) {
      SurfaceShown(capabilities, surfaces[i]);
    }
  }

  lemma {:induction false} AllSurfacesShown(capabilities: seq<Json>, surfaces: seq<Json>, f: Json -> SurfaceOut)
    requires HaveIds(capabilities) && HaveIds(surfaces)
    requires forall i :: 0 <= i < |surfaces| ==> NamesCapabilities(surfaces[i], capabilities)
    requires forall v {:trigger Surface(v, Map(capabilities, RowEntry))} :: f(v) == Surface(v, Map(capabilities, RowEntry))
    ensures ShowsSurfaces(capabilities, surfaces, Sort(Map(surfaces, f), SurfaceOutLe))
  {
    EachShown(capabilities, surfaces, f);
    assert OnlyRows(capabilities, surfaces, Sort(Map(surfaces, f), SurfaceOutLe)) by {
      OnlyShown(capabilities, surfaces, f);
    }
    assert AllRows(capabilities, surfaces, Sort(Map(surfaces, f), SurfaceOutLe)) by {
      AllShown(capabilities, surfaces, f);
    }
    SurfacesOrdered(surfaces, f);
  }

  /** The capability rows are shown, each by one entry, in the order of their ids. */
  ghost predicate ShowsCapabilities(capabilities: seq<Json>, xs: seq<CapabilityOut>) {
    && |xs| == |capabilities|
    && (forall x :: x in xs <==> exists i :: 0 <= i < |capabilities| && ShowsCapability(capabilities[i], x))
    && forall i, j :: 0 <= i < j < |xs| ==> StrLe(xs[i].id, xs[j].id)
  }

  /** In the payload of an accepted contract every capability row and every surface row is shown, once and in the order of
      ids, with the commitments that the contract gives. */
  lemma {:induction false} PayloadExactly(contract: Json)
    requires ContractOk(contract)
    ensures var capabilities, surfaces := ItemsUnder(contract, "capabilities"), ItemsUnder(contract, "surfaceReferences");
      var p := FrontendPayload(Rows(contract, "capabilities"), Rows(contract, "surfaceReferences"));
      ShowsCapabilities(capabilities, p.capabilities) && ShowsSurfaces(capabilities, surfaces, p.surfaces)
  {
    AcceptedExactly(contract);
    CapabilitiesShown(ItemsUnder(contract, "capabilities"));
    AllSurfacesShown(ItemsUnder(contract, "capabilities"), ItemsUnder(contract, "surfaceReferences"),
                     v => Surface(v, Map(ItemsUnder(contract, "capabilities"), RowEntry)));
  }

  // ---------------------------------------------------------------- raising commitments

  /** No capability of both contracts has a weaker commitment in the second. */
  ghost predicate Raised(before: seq<Json>, after: seq<Json>) {
    forall i, j :: 0 <= i < |before| && 0 <= j < |after| && Get(before[i], "id") == Get(after[j], "id") ==>
      && (Get(before[i], "commitment") == Str("committed") ==> Get(after[j], "commitment") == Str("committed"))
      && (Get(before[i], "commitment") == Str("conditional") ==> Get(after[j], "commitment") != Str("excluded"))
  }

  lemma {:induction false} ListedId(items: seq<Json>, ids: seq<string>, k: nat)
    requires SortedTexts(ids, items) && k < |items| && items[k].Str?
    ensures items[k].s in ids
  {
    assert Texts(items)[k] in Texts(items);
    assert items[k].s in multiset(Texts(items));
  }

  lemma {:induction false} IdListed(items: seq<Json>, ids: seq<string>, id: string) returns (k: nat)
    requires SortedTexts(ids, items) && id in ids && forall i :: 0 <= i < |items| ==> items[i].Str?
    ensures k < |items| && items[k] == Str(id)
  {
    assert id in multiset(ids);
    assert id in Texts(items);
    k :| 0 <= k < |items| && Texts(items)[k] == id;
  }

  /** A listed commitment is found again, at least as strong, with a surface that lists the same capabilities and more. */
  lemma {:induction false} ListedAgain(
      before: seq<Json>, row: Json, s: SurfaceOut, after: seq<Json>, row': Json, t: SurfaceOut, commitment: string)
      returns (j: nat, k: nat)
    requires NamesCapabilities(row, before) && NamesCapabilities(row', after) && ListsCommitment(before, row, commitment)
    requires ShowsSurface(before, row, s) && ShowsSurface(after, row', t) && forall id :: id in s.capabilityIds ==> id in t.capabilityIds
    ensures j < |after| && k < |ItemsUnder(row', "capabilityIds")| && Get(after[j], "id") == ItemsUnder(row', "capabilityIds")[k]
    ensures exists i :: 0 <= i < |before| && Get(before[i], "id") == Get(after[j], "id")
              && Get(before[i], "commitment") == Str(commitment)
  {
    var items := ItemsUnder(row, "capabilityIds");
    var i, n :| 0 <= i < |before| && 0 <= n < |items| && Get(before[i], "id") == items[n]
      && Get(before[i], "commitment") == Str(commitment);
    ListedId(items, s.capabilityIds, n);
    k := IdListed(ItemsUnder(row', "capabilityIds"), t.capabilityIds, items[n].s);
    j :| 0 <= j < |after| && Get(after[j], "id") == ItemsUnder(row', "capabilityIds")[k];
  }

  /** Raising commitments, or listing more capabilities, lowers no surface: what was committed stays committed, and what was
      not excluded is not excluded. */
  lemma {:induction false} RaisingLowersNothing(
      before: seq<Json>, row: Json, s: SurfaceOut, after: seq<Json>, row': Json, t: SurfaceOut)
    requires NamesCapabilities(row, before) && NamesCapabilities(row', after) && Raised(before, after)
    requires forall j :: 0 <= j < |after| ==> CommitmentGiven(after[j])
    requires ShowsSurface(before, row, s) && ShowsSurface(after, row', t) && forall id :: id in s.capabilityIds ==> id in t.capabilityIds
    ensures s.disposition == Committed ==> t.disposition == Committed
    ensures s.disposition != Excluded ==> t.disposition != Excluded
  {
    if s.disposition == Committed {
      var j, k := ListedAgain(before, row, s, after, row', t, "committed");
      assert Get(after[j], "commitment") == Str("committed");
      assert ListsCommitment(after, row', "committed");
    } else if s.disposition == Conditional {
      var j, k := ListedAgain(before, row, s, after, row', t, "conditional");
      assert Get(after[j], "commitment") != Str("excluded");
      assert ListsCommitment(after, row', "committed") || ListsCommitment(after, row', "conditional");
    }
  }
}
