/** Flattening a JSON value to a dict from dotted names to leaves. */
module Flattening {
  import opened Sorting
  import opened Text
  import opened JsonValues
  import opened JsonPositions

  type Flat = map<string, Json>

  function Extended(prefix: string, key: string): string {
    if prefix == "" then key else prefix + "." + key
  }

  function Indexed(prefix: string, i: nat): string {
    prefix + "[" + NatText(i) + "]"
  }

  /** `_flatten`. Later entries overwrite earlier ones of the same name, as `dict.update` does. */
  function Flatten(v: Json, prefix: string): Flat
    decreases Size(v), 0
  {
    match v
    case Obj(fs) => FieldSizes(fs); FlattenFields(Sort(fs, FieldLe), prefix)
    case Arr(items) => if items == [] then map[prefix := Arr([])] else FlattenItems(items, 0, prefix)
    case _ => map[prefix := v]
  }

  function FlattenFields(fs: seq<Field>, prefix: string): Flat
    decreases SizeOfFields(fs), 1
  {
    if fs == [] then map[] else Flatten(fs[0].value, Extended(prefix, fs[0].key)) + FlattenFields(fs[1..], prefix)
  }

  function FlattenItems(items: seq<Json>, from: nat, prefix: string): Flat
    decreases SizeOfItems(items), 1
  {
    if items == [] then map[] else Flatten(items[0], Indexed(prefix, from)) + FlattenItems(items[1..], from + 1, prefix)
  }

  // ---------------------------------------------------------------- a size that sorting keeps

  ghost function Size(v: Json): nat
    decreases v, 0
  {
    match v
    case Obj(fs) => 1 + SizeOfFields(fs)
    case Arr(items) => 1 + SizeOfItems(items)
    case _ => 1
  }

  ghost function SizeOfItems(items: seq<Json>): nat
    decreases items, 1
  {
    if items == [] then 0 else 1 + Size(items[0]) + SizeOfItems(items[1..])
  }

  ghost function SizeOfFields(fs: seq<Field>): nat
    decreases fs, 1
  {
    if fs == [] then 0 else 1 + Size(fs[0].value) + SizeOfFields(fs[1..])
  }

  lemma {:induction false} InsertSize(f: Field, fs: seq<Field>)
    ensures SizeOfFields(Insert(f, fs, FieldLe)) == SizeOfFields(fs) + 1 + Size(f.value)
  {
    if fs != [] && !FieldLe(f, fs[0]) {
      InsertSize(f, fs[1..]);
    }
  }

  lemma {:induction false} FieldSizes(fs: seq<Field>)
    ensures SizeOfFields(Sort(fs, FieldLe)) == SizeOfFields(fs)
  {
    if fs == [] {
    } else {
      FieldSizes(fs[1..]);
      InsertSize(fs[0], Sort(fs[1..], FieldLe));
    }
  }

  // ---------------------------------------------------------------- names of positions

  predicate PlainKey(k: string) {
    k != "" && forall i :: 0 <= i < |k| ==> k[i] != '.' && k[i] != '['
  }

  /** All keys are plain: names of positions can then be taken apart again. */
  predicate Plain(v: Json)
    decreases v, 0
  {
    match v
    case Obj(fs) => forall i :: 0 <= i < |fs| ==> PlainKey(fs[i].key) && Plain(fs[i].value)
    case Arr(items) => forall i :: 0 <= i < |items| ==> Plain(items[i])
    case _ => true
  }

  predicate PlainPath(path: Path) {
    forall i :: 0 <= i < |path| ==> path[i].Key? ==> PlainKey(path[i].key)
  }

  /** A plain position below a dict. */
  predicate RootedPath(path: Path) {
    PlainPath(path) && path != [] && path[0].Key?
  }

  /** The name of a position below a named value. */
  function Suffix(path: Path): string
    decreases path
  {
    if path == [] then ""
    else
      (match path[0] case Key(k) => "." + k case Index(i) => "[" + NatText(i) + "]") + Suffix(path[1..])
  }

  /** The name of a position in a dict. */
  function Name(path: Path): string {
    if path != [] && path[0].Key? then path[0].key + Suffix(path[1..]) else Suffix(path)
  }

  ghost predicate EndsKey(r: string) { r == "" || r[0] == '.' || r[0] == '[' }

  lemma {:induction false} KeyDecodes(k: string, l: string, r: string, s: string)
    requires forall i :: 0 <= i < |k| ==> k[i] != '.' && k[i] != '['
    requires forall i :: 0 <= i < |l| ==> l[i] != '.' && l[i] != '['
    requires EndsKey(r) && EndsKey(s) && k + r == l + s
    ensures k == l && r == s
  {
    if k == "" || l == "" {
      assert k == "" ==> k + r == r;
      assert l == "" ==> l + s == s;
    } else {
      assert (k + r)[1..] == k[1..] + r && (l + s)[1..] == l[1..] + s;
      assert k[0] == (k + r)[0] == (l + s)[0] == l[0];
      KeyDecodes(k[1..], l[1..], r, s);
      assert k == [k[0]] + k[1..] && l == [l[0]] + l[1..];
    }
  }

  lemma {:induction false} SuffixEndsKey(path: Path)
    ensures EndsKey(Suffix(path)) && (Suffix(path) == "" <==> path == [])
    ensures path != [] ==> Suffix(path)[0] == if path[0].Key? then '.' else '['
  {
  }

  lemma {:induction false} SuffixParts(path: Path)
    requires path != []
    ensures path[0].Key? ==> Suffix(path)[1..] == path[0].key + Suffix(path[1..])
    ensures path[0].Index? ==> Suffix(path)[1..] == NatText(path[0].index) + ("]" + Suffix(path[1..]))
  {
    var rest := Suffix(path[1..]);
    match path[0]
    case Key(k) => assert "." + k + rest == "." + (k + rest);
    case Index(i) => assert "[" + NatText(i) + "]" + rest == "[" + (NatText(i) + ("]" + rest));
  }

  /** Names of positions are unambiguous. */
  lemma {:induction false} SuffixInjective(a: Path, b: Path)
    requires PlainPath(a) && PlainPath(b) && Suffix(a) == Suffix(b)
    ensures a == b
    decreases a
  {
    SuffixEndsKey(a);
    SuffixEndsKey(b);
    if a != [] {
      SuffixParts(a);
      SuffixParts(b);
      SuffixEndsKey(a[1..]);
      SuffixEndsKey(b[1..]);
      if a[0].Key? {
        KeyDecodes(a[0].key, b[0].key, Suffix(a[1..]), Suffix(b[1..]));
      } else {
        var x, y := "]" + Suffix(a[1..]), "]" + Suffix(b[1..]);
        DigitRunUnique(NatText(a[0].index), NatText(b[0].index), x, y);
        NatTextInjective(a[0].index, b[0].index);
        assert x[1..] == Suffix(a[1..]) && y[1..] == Suffix(b[1..]);
      }
      SuffixInjective(a[1..], b[1..]);
      assert a == [a[0]] + a[1..] && b == [b[0]] + b[1..];
    }
  }

  lemma {:induction false} NameInjective(a: Path, b: Path)
    requires PlainPath(a) && PlainPath(b) && Name(a) == Name(b)
    requires a != [] && a[0].Key? && b != [] && b[0].Key?
    ensures a == b
  {
    SuffixEndsKey(a[1..]);
    SuffixEndsKey(b[1..]);
    KeyDecodes(a[0].key, b[0].key, Suffix(a[1..]), Suffix(b[1..]));
    SuffixInjective(a[1..], b[1..]);
    assert a == [a[0]] + a[1..] && b == [b[0]] + b[1..];
  }

  /** Going one step down moves that step from the suffix to the prefix. */
  lemma {:induction false} SuffixStep(prefix: string, path: Path)
    requires prefix != "" && path != []
    ensures prefix + Suffix(path) ==
      (match path[0] case Key(k) => Extended(prefix, k) case Index(i) => Indexed(prefix, i)) + Suffix(path[1..])
  {
    var rest := Suffix(path[1..]);
    match path[0]
    case Key(k) => assert prefix + "." + k + rest == prefix + ("." + k + rest);
    case Index(i) => assert prefix + "[" + NatText(i) + "]" + rest == prefix + ("[" + NatText(i) + "]" + rest);
  }

  // ---------------------------------------------------------------- what flattening keeps

  /** A value that flattening records: a scalar or an empty list. */
  predicate IsLeaf(v: Json) { !v.Obj? && (v.Arr? ==> v.items == []) }

  /** The leaf at a position, if the position holds one. */
  function LeafAt(v: Json, path: Path): Option<Json> {
    var x := At(v, path);
    if x.Some? && IsLeaf(x.value) then x else None
  }

  /** Some position below holds the value recorded under this name. */
  ghost predicate Recorded(v: Json, path: Path, x: Json) {
    PlainPath(path) && LeafAt(v, path) == Some(x)
  }

  lemma {:induction false} RecordedBelow(v: Json, s: Step, child: Json, path: Path, x: Json)
    requires Child(v, s) == Some(child) && Recorded(child, path, x) && (s.Key? ==> PlainKey(s.key))
    ensures Recorded(v, [s] + path, x)
  {
    assert ([s] + path)[1..] == path;
  }

  /** Every recorded entry below a named value comes from a position, and its name is the position's. */
  lemma {:induction false} EntryHasPosition(v: Json, prefix: string, name: string) returns (path: Path)
    requires prefix != "" && WellFormed(v) && Plain(v) && name in Flatten(v, prefix)
    ensures Recorded(v, path, Flatten(v, prefix)[name]) && name == prefix + Suffix(path)
    decreases Size(v), 0
  {
    match v
    case Obj(fs) =>
      FieldSizes(fs);
      SortUnique(fs);
      path := FieldEntryHasPosition(v, Sort(fs, FieldLe), prefix, name);
    case Arr(items) =>
      path := [];
      if items != [] {
        path := ItemEntryHasPosition(v, items, 0, prefix, name);
      }
    case _ => path := [];
  }

  lemma {:induction false} FieldEntryHasPosition(v: Json, fs: seq<Field>, prefix: string, name: string) returns (path: Path)
    requires v.Obj? && WellFormed(v) && Plain(v) && UniqueKeys(fs) && forall f :: f in fs ==> f in v.fields
    requires prefix != "" && name in FlattenFields(fs, prefix)
    ensures Recorded(v, path, FlattenFields(fs, prefix)[name]) && name == prefix + Suffix(path)
    ensures path != [] && path[0].Key? && exists f :: f in fs && f.key == path[0].key
    decreases SizeOfFields(fs), 1
  {
    if name in FlattenFields(fs[1..], prefix) {
      path := FieldEntryHasPosition(v, fs[1..], prefix, name);
      assert forall f :: f in fs[1..] ==> f in fs;
    } else {
      var f := fs[0];
      assert f in v.fields && Find(v.fields, f.key) == Some(f.value) by {
        assert f == Field(f.key, f.value);
        FindMember(v.fields, f.key);
      }
      var below := EntryHasPosition(f.value, Extended(prefix, f.key), name);
      path := [Key(f.key)] + below;
      RecordedBelow(v, Key(f.key), f.value, below, FlattenFields(fs, prefix)[name]);
      assert path[1..] == below;
      SuffixStep(prefix, path);
    }
  }

  lemma {:induction false} ItemEntryHasPosition(v: Json, items: seq<Json>, from: nat, prefix: string, name: string) returns (path: Path)
    requires v.Arr? && WellFormed(v) && Plain(v) && from <= |v.items| && items == v.items[from..]
    requires prefix != "" && name in FlattenItems(items, from, prefix)
    ensures Recorded(v, path, FlattenItems(items, from, prefix)[name]) && name == prefix + Suffix(path)
    decreases SizeOfItems(items), 1
  {
    if name in FlattenItems(items[1..], from + 1, prefix) {
      path := ItemEntryHasPosition(v, items[1..], from + 1, prefix, name);
    } else {
      var below := EntryHasPosition(items[0], Indexed(prefix, from), name);
      path := [Index(from)] + below;
      RecordedBelow(v, Index(from), items[0], below, FlattenItems(items, from, prefix)[name]);
      assert path[1..] == below;
      SuffixStep(prefix, path);
    }
  }

  /** Every leaf below a named value has an entry. */
  lemma {:induction false} LeafHasEntry(v: Json, prefix: string, path: Path)
    requires prefix != "" && WellFormed(v) && LeafAt(v, path).Some?
    ensures prefix + Suffix(path) in Flatten(v, prefix)
    decreases path
  {
    if path == [] {
      assert prefix + "" == prefix;
    } else {
      var child := Child(v, path[0]).value;
      SuffixStep(prefix, path);
      match path[0]
      case Key(k) =>
        FindWellFormed(v.fields, k);
        LeafHasEntry(child, Extended(prefix, k), path[1..]);
        DictHasEntry(v, prefix, k, prefix + Suffix(path));
      case Index(i) =>
        LeafHasEntry(child, Indexed(prefix, i), path[1..]);
        ItemHasEntry(v.items, 0, prefix, i, prefix + Suffix(path));
    }
  }

  lemma {:induction false} DictHasEntry(v: Json, prefix: string, k: string, name: string)
    requires v.Obj? && UniqueKeys(v.fields) && Find(v.fields, k).Some?
    requires name in Flatten(Find(v.fields, k).value, Extended(prefix, k))
    ensures name in Flatten(v, prefix)
  {
    SortUnique(v.fields);
    SortFind(v.fields, k);
    FindMember(Sort(v.fields, FieldLe), k);
    FieldHasEntry(Sort(v.fields, FieldLe), prefix, Field(k, Find(v.fields, k).value), name);
  }

  lemma {:induction false} FieldHasEntry(fs: seq<Field>, prefix: string, f: Field, name: string)
    requires f in fs && name in Flatten(f.value, Extended(prefix, f.key))
    ensures name in FlattenFields(fs, prefix)
  {
    if fs[0] != f {
      FieldHasEntry(fs[1..], prefix, f, name);
    }
  }

  lemma {:induction false} ItemHasEntry(items: seq<Json>, from: nat, prefix: string, i: nat, name: string)
    requires i < |items| && name in Flatten(items[i], Indexed(prefix, from + i))
    ensures name in FlattenItems(items, from, prefix)
  {
    if i > 0 {
      ItemHasEntry(items[1..], from + 1, prefix, i - 1, name);
    }
  }

  /** `flat.get(name)`. */
  function GetFlat(m: Flat, name: string): Json { if name in m then m[name] else Null }

  function LeafOrNull(v: Json, path: Path): Json {
    var x := LeafAt(v, path);
    if x.Some? then x.value else Null
  }

  /** A dict flattens to exactly its leaves: the entry under the name of a position is the leaf there,
      and every entry is under such a name. */
  lemma {:induction false} FlattenedDict(v: Json, path: Path)
    requires v.Obj? && WellFormed(v) && Plain(v) && RootedPath(path)
    ensures GetFlat(Flatten(v, ""), Name(path)) == LeafOrNull(v, path)
    ensures Name(path) in Flatten(v, "") <==> LeafAt(v, path).Some?
  {
    var flat := Flatten(v, "");
    FieldSizes(v.fields);
    SortUnique(v.fields);
    var sorted := Sort(v.fields, FieldLe);
    if LeafAt(v, path).Some? {
      var k := path[0].key;
      FindWellFormed(v.fields, k);
      FindMember(v.fields, k);
      var child := Child(v, path[0]).value;
      assert Field(k, child) in v.fields;
      LeafHasEntry(child, k, path[1..]);
      FieldHasEntry(sorted, "", Field(k, child), Name(path));
    }
    if Name(path) in flat {
      var other := TopEntryHasPosition(v, sorted, Name(path));
      NameInjective(path, other);
    }
  }

  lemma {:induction false} TopEntryHasPosition(v: Json, fs: seq<Field>, name: string) returns (path: Path)
    requires v.Obj? && WellFormed(v) && Plain(v) && UniqueKeys(fs) && forall f :: f in fs ==> f in v.fields
    requires name in FlattenFields(fs, "")
    ensures Recorded(v, path, FlattenFields(fs, "")[name]) && name == Name(path)
    ensures path != [] && path[0].Key?
    decreases |fs|
  {
    if name in FlattenFields(fs[1..], "") {
      path := TopEntryHasPosition(v, fs[1..], name);
    } else {
      var f := fs[0];
      assert f in v.fields && Find(v.fields, f.key) == Some(f.value) by {
        assert f == Field(f.key, f.value);
        FindMember(v.fields, f.key);
      }
      assert PlainKey(f.key);
      var below := EntryHasPosition(f.value, f.key, name);
      path := [Key(f.key)] + below;
      RecordedBelow(v, Key(f.key), f.value, below, FlattenFields(fs, "")[name]);
      assert path[1..] == below;
    }
  }

  ghost predicate FlatAlike(v: Json, w: Json) {
    forall name :: GetFlat(Flatten(v, ""), name) == GetFlat(Flatten(w, ""), name)
  }

  ghost predicate LeavesAlike(v: Json, w: Json) {
    forall path: Path :: RootedPath(path) ==> LeafOrNull(v, path) == LeafOrNull(w, path)
  }

  /** Two dicts flatten to mappings that answer every `get` alike exactly when they have the same leaf, or none
      or null, at every position. */
  lemma {:induction false} FlatAgreement(v: Json, w: Json)
    requires v.Obj? && WellFormed(v) && Plain(v) && w.Obj? && WellFormed(w) && Plain(w)
    ensures FlatAlike(v, w) <==> LeavesAlike(v, w)
  {
    if FlatAlike(v, w) {
      forall path: Path | RootedPath(path) ensures LeafOrNull(v, path) == LeafOrNull(w, path) {
        FlattenedDict(v, path);
        FlattenedDict(w, path);
        assert GetFlat(Flatten(v, ""), Name(path)) == GetFlat(Flatten(w, ""), Name(path));
      }
    }
    if LeavesAlike(v, w) {
      forall name ensures GetFlat(Flatten(v, ""), name) == GetFlat(Flatten(w, ""), name) {
        if name in Flatten(v, "") || name in Flatten(w, "") {
          SameEntry(v, w, name);
        }
      }
    }
  }

  lemma {:induction false} SameEntry(v: Json, w: Json, name: string)
    requires v.Obj? && WellFormed(v) && Plain(v) && w.Obj? && WellFormed(w) && Plain(w)
    requires LeavesAlike(v, w)
    requires name in Flatten(v, "") || name in Flatten(w, "")
    ensures GetFlat(Flatten(v, ""), name) == GetFlat(Flatten(w, ""), name)
  {
    var x := if name in Flatten(v, "") then v else w;
    FieldSizes(x.fields);
    SortUnique(x.fields);
    var path := TopEntryHasPosition(x, Sort(x.fields, FieldLe), name);
    FlattenedDict(v, path);
    FlattenedDict(w, path);
  }
}
