/** JSON documents as Python holds them: dicts keep insertion order, and equality ignores it. */
module JsonValues {
  import opened Sorting
  import opened Text

  datatype Option<+T> = None | Some(value: T)

  datatype Field = Field(key: string, value: Json)

  datatype Json =
    | Null
    | Bool(b: bool)
    | Num(n: int)
    | Str(s: string)
    | Arr(items: seq<Json>)
    | Obj(fields: seq<Field>)

  // ---------------------------------------------------------------- dict access

  /** `d[key]`, or None where Python raises KeyError. */
  function Find(fs: seq<Field>, key: string): Option<Json> {
    if fs == [] then None
    else if fs[0].key == key then Some(fs[0].value)
    else Find(fs[1..], key)
  }

  /** `d.get(key)`, which is None both for a missing key and for a null value. */
  function GetField(fs: seq<Field>, key: string): Json {
    var found := Find(fs, key);
    if found.Some? then found.value else Null
  }

  /** `d.get(key)` on a value that may not be a dict; a non-dict answers null. */
  function Get(j: Json, key: string): Json {
    if j.Obj? then GetField(j.fields, key) else Null
  }

  function Has(j: Json, key: string): bool {
    j.Obj? && Find(j.fields, key).Some?
  }

  /** The text of a string, and nothing for any other value. */
  function TextOf(v: Json): string { if v.Str? then v.s else "" }

  function Texts(items: seq<Json>): (r: seq<string>)
    ensures |r| == |items| && forall i :: 0 <= i < |items| ==> r[i] == TextOf(items[i])
  {
    seq(|items|, i requires 0 <= i < |items| => TextOf(items[i]))
  }

  /** `d[key] = value`: an existing key keeps its place, a new one goes last. */
  function SetField(fs: seq<Field>, key: string, value: Json): seq<Field> {
    if fs == [] then [Field(key, value)]
    else if fs[0].key == key then [Field(key, value)] + fs[1..]
    else [fs[0]] + SetField(fs[1..], key, value)
  }

  function Keys(fs: seq<Field>): set<string> {
    set f | f in fs :: f.key
  }

  predicate UniqueKeys(fs: seq<Field>) {
    forall i, j :: 0 <= i < j < |fs| ==> fs[i].key != fs[j].key
  }

  /** No dict in the document repeats a key. */
  predicate WellFormed(j: Json) {
    match j
    case Arr(items) => forall i :: 0 <= i < |items| ==> WellFormed(items[i])
    case Obj(fs) => UniqueKeys(fs) && forall i :: 0 <= i < |fs| ==> WellFormed(fs[i].value)
    case _ => true
  }

  /** The first field with a key answers for it. */
  lemma {:induction false} FindFirst(fs: seq<Field>, i: nat)
    requires i < |fs| && forall k :: 0 <= k < i ==> fs[k].key != fs[i].key
    ensures Find(fs, fs[i].key) == Some(fs[i].value)
    decreases i
  {
    if i > 0 {
      assert fs[0].key != fs[i].key;
      assert forall k :: 0 <= k < i - 1 ==> fs[1..][k] == fs[k + 1];
      FindFirst(fs[1..], i - 1);
    }
  }

  /** A dict written down with different keys holds under each key what stands beside it. */
  lemma {:induction false} FindEach(fs: seq<Field>, keys: seq<string>)
    requires |keys| == |fs| && forall i :: 0 <= i < |fs| ==> fs[i].key == keys[i]
    requires forall i, j :: 0 <= i < j < |keys| ==> keys[i] != keys[j]
    ensures UniqueKeys(fs) && Keys(fs) == set k | k in keys
    ensures forall i :: 0 <= i < |fs| ==> Find(fs, keys[i]) == Some(fs[i].value)
  {
    forall i | 0 <= i < |fs| ensures Find(fs, keys[i]) == Some(fs[i].value) && fs[i] in fs {
      FindFirst(fs, i);
    }
  }

  lemma {:induction false} FindAbsent(fs: seq<Field>, key: string)
    requires forall i :: 0 <= i < |fs| ==> fs[i].key != key
    ensures Find(fs, key) == None
  {
    if fs == [] {
    } else {
      FindAbsent(fs[1..], key);
    }
  }

  lemma {:induction false} KeyPresent(v: Json, key: string)
    ensures Has(v, key) <==> v.Obj? && key in Keys(v.fields)
  {
    if v.Obj? {
      FoundExactly(v.fields, key);
    }
  }

  lemma {:induction false} FoundExactly(fs: seq<Field>, key: string)
    ensures Find(fs, key).Some? <==> key in Keys(fs)
  {
    if fs == [] {
    } else {
      FoundExactly(fs[1..], key);
      assert fs == [fs[0]] + fs[1..];
    }
  }

  lemma {:induction false} FindMember(fs: seq<Field>, key: string)
    requires UniqueKeys(fs)
    ensures Find(fs, key).Some? <==> key in Keys(fs)
    ensures forall v :: Find(fs, key) == Some(v) <==> Field(key, v) in fs
  {
    if fs == [] {
    } else {
      FindMember(fs[1..], key);
      assert fs == [fs[0]] + fs[1..];
    }
  }

  lemma {:induction false} FindSet(fs: seq<Field>, key: string, value: Json, other: string)
    ensures Find(SetField(fs, key, value), other) == if other == key then Some(value) else Find(fs, other)
  {
    if fs != [] && fs[0].key != key {
      FindSet(fs[1..], key, value, other);
    }
  }

  lemma {:induction false} ConsKeys(f: Field, fs: seq<Field>)
    ensures Keys([f] + fs) == {f.key} + Keys(fs)
    ensures UniqueKeys([f] + fs) <==> UniqueKeys(fs) && f.key !in Keys(fs)
  {
    var all := [f] + fs;
    assert forall i :: 0 <= i < |fs| ==> all[i + 1] == fs[i];
    if UniqueKeys(all) {
      forall i, j | 0 <= i < j < |fs| ensures fs[i].key != fs[j].key {
        assert all[i + 1] == fs[i] && all[j + 1] == fs[j];
      }
      forall i | 0 <= i < |fs| ensures fs[i].key != f.key {
        assert all[0] == f && all[i + 1] == fs[i];
      }
    }
    if UniqueKeys(fs) && f.key !in Keys(fs) {
      forall i, j | 0 <= i < j < |all| ensures all[i].key != all[j].key {
        assert all[j] == fs[j - 1];
      }
    }
  }

  lemma {:induction false} SetKeys(fs: seq<Field>, key: string, value: Json)
    requires UniqueKeys(fs)
    ensures UniqueKeys(SetField(fs, key, value))
    ensures Keys(SetField(fs, key, value)) == Keys(fs) + {key}
  {
    if fs == [] {
      ConsKeys(Field(key, value), []);
    } else {
      assert fs == [fs[0]] + fs[1..];
      ConsKeys(fs[0], fs[1..]);
      if fs[0].key == key {
        ConsKeys(Field(key, value), fs[1..]);
      } else {
        SetKeys(fs[1..], key, value);
        ConsKeys(fs[0], SetField(fs[1..], key, value));
      }
    }
  }

  /** Assigning twice to one key keeps only the last value. */
  lemma {:induction false} SetSet(fs: seq<Field>, key: string, v: Json, w: Json)
    ensures SetField(SetField(fs, key, v), key, w) == SetField(fs, key, w)
  {
    if fs != [] && fs[0].key != key {
      SetSet(fs[1..], key, v, w);
    }
  }

  /** Assignments to two keys commute once both are present. */
  lemma {:induction false} SetCommutes(fs: seq<Field>, k: string, v: Json, l: string, w: Json)
    requires k != l && Find(fs, k).Some?
    ensures SetField(SetField(fs, k, v), l, w) == SetField(SetField(fs, l, w), k, v)
  {
    if fs[0].key != k && fs[0].key != l {
      SetCommutes(fs[1..], k, v, l, w);
    }
  }

  lemma {:induction false} SetWellFormed(fs: seq<Field>, key: string, value: Json)
    requires WellFormed(Obj(fs)) && WellFormed(value)
    ensures WellFormed(Obj(SetField(fs, key, value)))
  {
    SetKeys(fs, key, value);
    SetMembers(fs, key, value);
    var r := SetField(fs, key, value);
    forall i | 0 <= i < |r| ensures WellFormed(r[i].value) {
      assert r[i] in fs || r[i] == Field(key, value);
    }
  }

  lemma {:induction false} ConsWellFormed(f: Field, fs: seq<Field>)
    requires WellFormed(Obj(fs)) && WellFormed(f.value) && Find(fs, f.key).None?
    ensures WellFormed(Obj([f] + fs))
  {
    FindMember(fs, f.key);
    ConsKeys(f, fs);
    var all := [f] + fs;
    forall i | 0 <= i < |all| ensures WellFormed(all[i].value) {
      assert i > 0 ==> all[i] == fs[i - 1];
    }
  }

  lemma {:induction false} FindCons(f: Field, fs: seq<Field>, key: string)
    ensures Find([f] + fs, key) == if f.key == key then Some(f.value) else Find(fs, key)
  {
    assert ([f] + fs)[1..] == fs;
  }

  lemma {:induction false} SetMembers(fs: seq<Field>, key: string, value: Json)
    ensures forall f :: f in SetField(fs, key, value) ==> f in fs || f == Field(key, value)
  {
    if fs != [] && fs[0].key != key {
      SetMembers(fs[1..], key, value);
    }
  }

  lemma {:induction false} FindWellFormed(fs: seq<Field>, key: string)
    requires forall i :: 0 <= i < |fs| ==> WellFormed(fs[i].value)
    ensures WellFormed(GetField(fs, key))
  {
    if fs != [] && fs[0].key != key {
      FindWellFormed(fs[1..], key);
    }
  }

  lemma {:induction false} GetWellFormed(j: Json, key: string)
    requires WellFormed(j)
    ensures WellFormed(Get(j, key))
  {
    if j.Obj? {
      FindWellFormed(j.fields, key);
    }
  }

  // ---------------------------------------------------------------- key order

  predicate FieldLe(f: Field, g: Field) { StrLe(f.key, g.key) }

  lemma {:induction false} FieldPreorder()
    ensures Preorder(FieldLe)
  {
    forall f, g ensures FieldLe(f, g) || FieldLe(g, f) {
      StrLeTotal(f.key, g.key);
    }
    forall f, g, h | FieldLe(f, g) && FieldLe(g, h) ensures FieldLe(f, h) {
      StrLeTransitive(f.key, g.key, h.key);
    }
  }

  lemma {:induction false} FieldsNoTies(fs: seq<Field>)
    requires UniqueKeys(fs)
    ensures NoTies(fs, FieldLe)
  {
    forall f, g | f in fs && g in fs && FieldLe(f, g) && FieldLe(g, f) ensures f == g {
      StrLeAntisymmetric(f.key, g.key);
    }
  }

  /** The document with the keys of every dict in sorted order, as `sort_keys=True` prints it. */
  function Canon(j: Json): Json
    decreases j, 0
  {
    match j
    case Arr(items) => Arr(CanonItems(items))
    case Obj(fs) => Obj(Sort(CanonFields(fs), FieldLe))
    case _ => j
  }

  function CanonItems(items: seq<Json>): (r: seq<Json>)
    ensures |r| == |items|
    ensures forall i :: 0 <= i < |r| ==> r[i] == Canon(items[i])
    decreases items, 1
  {
    if items == [] then [] else [Canon(items[0])] + CanonItems(items[1..])
  }

  function CanonFields(fs: seq<Field>): (r: seq<Field>)
    ensures |r| == |fs|
    ensures forall i :: 0 <= i < |r| ==> r[i] == Field(fs[i].key, Canon(fs[i].value))
    decreases fs, 1
  {
    if fs == [] then [] else [Field(fs[0].key, Canon(fs[0].value))] + CanonFields(fs[1..])
  }

  /** Equality of JSON values up to key order: dicts compare as mappings, lists position by position, and a boolean is
      never a number. */
  ghost predicate Same(a: Json, b: Json) { Canon(a) == Canon(b) }

  lemma {:induction false} CanonFind(fs: seq<Field>, key: string)
    ensures Find(CanonFields(fs), key) == (var r := Find(fs, key); if r.Some? then Some(Canon(r.value)) else None)
  {
    if fs == [] {
    } else {
      CanonFind(fs[1..], key);
      assert CanonFields(fs)[1..] == CanonFields(fs[1..]);
    }
  }

  lemma {:induction false} InsertKeys(f: Field, fs: seq<Field>)
    ensures Keys(Insert(f, fs, FieldLe)) == Keys(fs) + {f.key}
  {
    ConsKeys(f, fs);
    if fs != [] && !FieldLe(f, fs[0]) {
      assert fs == [fs[0]] + fs[1..];
      ConsKeys(fs[0], fs[1..]);
      InsertKeys(f, fs[1..]);
      ConsKeys(fs[0], Insert(f, fs[1..], FieldLe));
    }
  }

  lemma {:induction false} InsertUnique(f: Field, fs: seq<Field>)
    requires UniqueKeys(fs) && f.key !in Keys(fs)
    ensures UniqueKeys(Insert(f, fs, FieldLe))
  {
    ConsKeys(f, fs);
    if fs != [] && !FieldLe(f, fs[0]) {
      assert fs == [fs[0]] + fs[1..];
      ConsKeys(fs[0], fs[1..]);
      InsertUnique(f, fs[1..]);
      InsertKeys(f, fs[1..]);
      ConsKeys(fs[0], Insert(f, fs[1..], FieldLe));
    }
  }

  lemma {:induction false} SortUnique(fs: seq<Field>)
    requires UniqueKeys(fs)
    ensures UniqueKeys(Sort(fs, FieldLe))
    ensures Keys(Sort(fs, FieldLe)) == Keys(fs)
  {
    if fs == [] {
    } else {
      assert fs == [fs[0]] + fs[1..];
      SortUnique(fs[1..]);
      assert fs[0].key !in Keys(fs[1..]);
      InsertUnique(fs[0], Sort(fs[1..], FieldLe));
      InsertKeys(fs[0], Sort(fs[1..], FieldLe));
    }
  }

  lemma {:induction false} SortFind(fs: seq<Field>, key: string)
    requires UniqueKeys(fs)
    ensures Find(Sort(fs, FieldLe), key) == Find(fs, key)
  {
    SortUnique(fs);
    FindMember(fs, key);
    FindMember(Sort(fs, FieldLe), key);
    var a, b := Find(Sort(fs, FieldLe), key), Find(fs, key);
    if a.Some? {
      assert Field(key, a.value) in fs;
    }
  }

  /** Looking a key up commutes with sorting the document. */
  lemma {:induction false} CanonGet(j: Json, key: string)
    requires WellFormed(j)
    ensures Get(Canon(j), key) == Canon(Get(j, key))
    ensures Has(Canon(j), key) == Has(j, key)
  {
    if j.Obj? {
      SortFind(CanonFields(j.fields), key);
      CanonFind(j.fields, key);
    }
  }

  lemma {:induction false} UniqueMultiset(fs: seq<Field>, f: Field)
    requires UniqueKeys(fs)
    ensures multiset(fs)[f] == if f in fs then 1 else 0
  {
    if fs == [] {
    } else {
      assert fs == [fs[0]] + fs[1..];
      UniqueMultiset(fs[1..], f);
      if f == fs[0] {
        assert f !in fs[1..];
      }
    }
  }

  /** Dicts that answer every lookup alike are the same once sorted. */
  lemma {:induction false} SortedByLookups(fs: seq<Field>, gs: seq<Field>)
    requires UniqueKeys(fs) && UniqueKeys(gs)
    requires forall k :: Find(fs, k) == Find(gs, k)
    ensures Sort(fs, FieldLe) == Sort(gs, FieldLe)
  {
    forall f ensures multiset(fs)[f] == multiset(gs)[f] {
      UniqueMultiset(fs, f);
      UniqueMultiset(gs, f);
      FindMember(fs, f.key);
      FindMember(gs, f.key);
      assert f in fs <==> Find(fs, f.key) == Some(f.value) by { assert f == Field(f.key, f.value); }
      assert f in gs <==> Find(gs, f.key) == Some(f.value) by { assert f == Field(f.key, f.value); }
    }
    assert multiset(fs) == multiset(gs);
    FieldPreorder();
    FieldsNoTies(fs);
    SortPermutation(fs, gs, FieldLe);
  }

  lemma {:induction false} CanonWellFormed(j: Json)
    requires WellFormed(j)
    ensures WellFormed(Canon(j))
  {
    match j
    case Arr(items) =>
      forall i | 0 <= i < |items| ensures WellFormed(Canon(items[i])) {
        CanonWellFormed(items[i]);
      }
    case Obj(fs) =>
      var cs := CanonFields(fs);
      forall i | 0 <= i < |fs| ensures WellFormed(cs[i].value) {
        CanonWellFormed(fs[i].value);
      }
      SortUnique(cs);
      var r := Sort(cs, FieldLe);
      forall i | 0 <= i < |r| ensures WellFormed(r[i].value) {
        assert r[i] in cs;
      }
    case _ =>
  }

  lemma {:induction false} CanonIdempotent(j: Json)
    requires WellFormed(j)
    ensures Canon(Canon(j)) == Canon(j)
  {
    match j
    case Arr(items) =>
      forall i | 0 <= i < |items| ensures Canon(Canon(items[i])) == Canon(items[i]) {
        CanonIdempotent(items[i]);
      }
      assert CanonItems(CanonItems(items)) == CanonItems(items);
    case Obj(fs) =>
      var cs := CanonFields(fs);
      var r := Sort(cs, FieldLe);
      forall i | 0 <= i < |r| ensures Field(r[i].key, Canon(r[i].value)) == r[i] {
        assert r[i] in cs;
        var k :| 0 <= k < |cs| && cs[k] == r[i];
        CanonIdempotent(fs[k].value);
      }
      assert CanonFields(r) == r;
      FieldPreorder();
      SortOrdered(cs, FieldLe);
      SortUnique(cs);
      FieldsNoTies(r);
      SortFixed(r, FieldLe);
    case _ =>
  }

  /** Assigning a field before or after sorting gives the same sorted dict. */
  lemma {:induction false} CanonSet(fs: seq<Field>, gs: seq<Field>, key: string, v: Json)
    requires UniqueKeys(fs) && UniqueKeys(gs) && Same(Obj(fs), Obj(gs))
    ensures Same(Obj(SetField(fs, key, v)), Obj(SetField(gs, key, v)))
  {
    SetKeys(fs, key, v);
    SetKeys(gs, key, v);
    var a, b := CanonFields(SetField(fs, key, v)), CanonFields(SetField(gs, key, v));
    forall k ensures Find(a, k) == Find(b, k) {
      CanonSetFind(fs, key, v, k);
      CanonSetFind(gs, key, v, k);
      SameFind(fs, gs, k);
    }
    SortedByLookups(a, b);
  }

  lemma {:induction false} SameFind(fs: seq<Field>, gs: seq<Field>, k: string)
    requires UniqueKeys(fs) && UniqueKeys(gs) && Same(Obj(fs), Obj(gs))
    ensures Find(CanonFields(fs), k) == Find(CanonFields(gs), k)
  {
    SortFind(CanonFields(fs), k);
    SortFind(CanonFields(gs), k);
  }

  lemma {:induction false} CanonSetFind(fs: seq<Field>, key: string, v: Json, k: string)
    ensures Find(CanonFields(SetField(fs, key, v)), k) == if k == key then Some(Canon(v)) else Find(CanonFields(fs), k)
  {
    CanonFind(SetField(fs, key, v), k);
    FindSet(fs, key, v, k);
    CanonFind(fs, k);
  }
}
