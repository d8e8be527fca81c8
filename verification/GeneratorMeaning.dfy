/** What the TypeScript generator says about any contract it reads, accepted by the frontend verifier or not. */
module GeneratorMeaning {
  import opened Sorting
  import opened Text
  import Orders
  import opened JsonValues
  import opened ReleaseProjection
  import opened PayloadMeaning

  /** The row has a string id, and no later row has the same. */
  ghost predicate LastOfItsId(rows: seq<Json>, i: int) {
    && 0 <= i < |rows| && Get(rows[i], "id").Str?
    && forall j :: i < j < |rows| ==> Get(rows[j], "id") != Get(rows[i], "id")
  }

  /** The table answers for an id with the last row that has it. */
  ghost predicate AnswersLast(table: seq<Field>, rows: seq<Json>, id: string) {
    && (Find(table, id).Some? <==> IdAmong(rows, Str(id)))
    && (Find(table, id).Some? ==> exists i :: LastOfItsId(rows, i) && Get(rows[i], "id") == Str(id) && Find(table, id).value == rows[i])
  }

  lemma {:induction false} AmongSnoc(init: seq<Json>, v: Json, id: Json)
    ensures IdAmong(init + [v], id) <==> IdAmong(init, id) || Get(v, "id") == id
  {
    var rows := init + [v];
    assert rows[|init|] == v;
    if i :| 0 <= i < |init| && Get(init[i], "id") == id {
      assert rows[i] == init[i];
    }
  }

  lemma {:induction false} LastSnoc(init: seq<Json>, v: Json, i: int)
    ensures Get(v, "id").Str? ==> LastOfItsId(init + [v], |init|)
    ensures LastOfItsId(init, i) && Get(init[i], "id") != Get(v, "id") ==> LastOfItsId(init + [v], i) && (init + [v])[i] == init[i]
  {
    var rows := init + [v];
    assert rows[|init|] == v;
    if LastOfItsId(init, i) && Get(init[i], "id") != Get(v, "id") {
      forall j | i < j < |rows| ensures Get(rows[j], "id") != Get(rows[i], "id") {
        assert j < |init| ==> rows[j] == init[j];
      }
    }
  }

  lemma {:induction false} TableAnswers(rows: seq<Json>, id: string)
    ensures UniqueKeys(TableOf(rows)) && AnswersLast(TableOf(rows), rows, id)
  {
    if rows == [] {
    } else {
      var n := |rows| - 1;
      var init, v := rows[..n], rows[n];
      assert rows == init + [v];
      TableAnswers(init, id);
      OneMoreRow(TableOf(init), init, v, id);
    }
  }

  lemma {:induction false} OneMoreRow(table: seq<Field>, init: seq<Json>, v: Json, id: string)
    requires UniqueKeys(table) && AnswersLast(table, init, id)
    ensures UniqueKeys(AddCapability(table, v)) && AnswersLast(AddCapability(table, v), init + [v], id)
  {
    AmongSnoc(init, v, Str(id));
    if Get(v, "id").Str? {
      FindSet(table, SurfaceId(v), v, id);
      SetKeys(table, SurfaceId(v), v);
    }
    if Get(v, "id") == Str(id) {
      LastSnoc(init, v, 0);
      assert (init + [v])[|init|] == v;
    } else if Find(table, id).Some? {
      var i :| LastOfItsId(init, i) && Get(init[i], "id") == Str(id) && Find(table, id).value == init[i];
      LastSnoc(init, v, i);
    }
  }

  /** The generator lists, under every id that some row has, the last row that has it. */
  lemma {:induction false} CapabilitiesOfLast(rows: seq<Json>, x: CapabilityOut)
    ensures x in Map(Sort(TableOf(rows), FieldLe), ProjectCapability) <==>
      exists i :: LastOfItsId(rows, i) && ShowsCapability(rows[i], x)
  {
    var table := TableOf(rows);
    var sorted := Sort(table, FieldLe);
    TableAnswers(rows, x.id);
    FindMember(table, x.id);
    if x in Map(sorted, ProjectCapability) {
      var k :| 0 <= k < |sorted| && Map(sorted, ProjectCapability)[k] == x;
      assert sorted[k] in table && sorted[k] == Field(x.id, sorted[k].value);
      var i :| LastOfItsId(rows, i) && Get(rows[i], "id") == Str(x.id) && Find(table, x.id).value == rows[i];
      CapabilityShown(rows[i]);
    }
    if i :| LastOfItsId(rows, i) && ShowsCapability(rows[i], x) {
      var j :| LastOfItsId(rows, j) && Get(rows[j], "id") == Str(x.id) && Find(table, x.id).value == rows[j];
      assert i == j;
      CapabilityShown(rows[i]);
      assert Field(x.id, rows[i]) in sorted;
      var k :| 0 <= k < |sorted| && sorted[k] == Field(x.id, rows[i]);
      assert Map(sorted, ProjectCapability)[k] == x;
    }
  }

  /** The last row of some listed id has the commitment. */
  ghost predicate LastListed(rows: seq<Json>, surface: Json, commitment: string) {
    exists i, k :: LastOfItsId(rows, i) && 0 <= k < |ItemsUnder(surface, "capabilityIds")|
      && Get(rows[i], "id") == ItemsUnder(surface, "capabilityIds")[k] && Get(rows[i], "commitment") == Str(commitment)
  }

  lemma {:induction false} LevelOfLast(rows: seq<Json>, surface: Json, ids: seq<string>, l: Level, commitment: string)
    requires forall k :: 0 <= k < |ItemsUnder(surface, "capabilityIds")| ==> ItemsUnder(surface, "capabilityIds")[k].Str?
    requires forall id :: id in ids <==> id in Texts(ItemsUnder(surface, "capabilityIds"))
    requires StandsForCommitment(l, Str(commitment)) && l != Excluded
    ensures l in Levels(ids, TableOf(rows)) <==> LastListed(rows, surface, commitment)
  {
    var items, table := ItemsUnder(surface, "capabilityIds"), TableOf(rows);
    if l in Levels(ids, table) {
      var id :| id in ids && Find(table, id).Some? && LevelOf(Get(Find(table, id).value, "commitment")) == l;
      TableAnswers(rows, id);
      var k :| 0 <= k < |items| && Texts(items)[k] == id;
      assert items[k] == Str(id);
    }
    if LastListed(rows, surface, commitment) {
      var i, k :| LastOfItsId(rows, i) && 0 <= k < |items| && Get(rows[i], "id") == items[k]
        && Get(rows[i], "commitment") == Str(commitment);
      TableAnswers(rows, items[k].s);
      assert Texts(items)[k] in ids;
    }
  }

  /** What the generator says of a surface row, with the last row of every id it lists. */
  ghost predicate GeneratesSurface(rows: seq<Json>, row: Json, s: SurfaceOut) {
    && Get(row, "id") == Str(s.id) && s.source == Get(row, "canonicalSource") && s.consumer == Get(row, "consumer")
    && SortedTexts(s.capabilityIds, ItemsUnder(row, "capabilityIds"))
    && (s.disposition == Committed <==> LastListed(rows, row, "committed"))
    && (s.disposition == Conditional <==> !LastListed(rows, row, "committed") && LastListed(rows, row, "conditional"))
  }

  lemma {:induction false} SurfaceGenerated(rows: seq<Json>, row: Json)
    requires SurfaceReadable(row, TableOf(rows))
    ensures GeneratesSurface(rows, row, GeneratedSurface(row, TableOf(rows)))
  {
    var ids := CapabilityIds(row);
    FindOrNot(row);
    Orders.StrOrder();
    SortOrdered(ids, StrLe);
    LevelOfLast(rows, row, Sort(ids, StrLe), Committed, "committed");
    LevelOfLast(rows, row, Sort(ids, StrLe), Conditional, "conditional");
  }

  lemma {:induction false} FindOrNot(row: Json)
    ensures !Has(row, "capabilityIds") ==> ItemsUnder(row, "capabilityIds") == []
    ensures CapabilityIds(row) == Texts(ItemsUnder(row, "capabilityIds"))
  {
  }

  lemma {:induction false} SurfacesGenerated(rows: seq<Json>, surfaces: seq<Json>, s: SurfaceOut)
    requires forall i :: 0 <= i < |surfaces| ==> SurfaceReadable(surfaces[i], TableOf(rows))
    requires s in Map(Sort(surfaces, SurfaceLe), v => GeneratedSurface(v, TableOf(rows)))
    ensures exists i :: 0 <= i < |surfaces| && GeneratesSurface(rows, surfaces[i], s)
  {
    var f, sorted := v => GeneratedSurface(v, TableOf(rows)), Sort(surfaces, SurfaceLe);
    var k :| 0 <= k < |sorted| && Map(sorted, f)[k] == s;
    assert sorted[k] in surfaces;
    var i :| 0 <= i < |surfaces| && surfaces[i] == sorted[k];
    SurfaceGenerated(rows, surfaces[i]);
  }

  /** The payload that the generator builds from lists of rows: the last row of every id, and every surface row. */
  lemma {:induction false} GeneratedExactly(contract: Json)
    requires Get(contract, "capabilities").Arr? && Get(contract, "surfaceReferences").Arr? && GeneratedPayload(contract).Some?
    ensures var p, rows, surfaces := GeneratedPayload(contract).value,
        ItemsUnder(contract, "capabilities"), ItemsUnder(contract, "surfaceReferences");
      && (forall x :: x in p.capabilities <==> exists i :: LastOfItsId(rows, i) && ShowsCapability(rows[i], x))
      && |p.surfaces| == |surfaces|
      && forall s :: s in p.surfaces ==> exists i :: 0 <= i < |surfaces| && GeneratesSurface(rows, surfaces[i], s)
  {
    var rows, surfaces := ItemsUnder(contract, "capabilities"), ItemsUnder(contract, "surfaceReferences");
    var p := GeneratedPayload(contract).value;
    assert p.capabilities == Map(Sort(TableOf(rows), FieldLe), ProjectCapability);
    forall x ensures x in p.capabilities <==> exists i :: LastOfItsId(rows, i) && ShowsCapability(rows[i], x) {
      CapabilitiesOfLast(rows, x);
    }
    forall s | s in p.surfaces ensures exists i :: 0 <= i < |surfaces| && GeneratesSurface(rows, surfaces[i], s) {
      SurfacesGenerated(rows, surfaces, s);
    }
  }
}
