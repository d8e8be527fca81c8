/** Redaction of a report before it is published. */
module Redaction {
  import opened JsonValues
  import opened JsonPositions

  const REDACTED := "[REDACTED]"
  const REDACTED_URL := "[REDACTED_URL]"

  /** The string classifiers: sensitive key names, claims of release readiness, secrets and DSNs,
      network addresses, and the public form of a path under the given key (None: leave it). */
  datatype Policy = Policy(
    sensitive: string -> bool,
    claim: string -> bool,
    secret: string -> bool,
    address: string -> bool,
    path: (Option<string>, string) -> Option<string>)

  datatype Leaf = Keep | Replace(text: string) | Reject

  function Classify(p: Policy, key: Option<string>, s: string): Leaf {
    if p.claim(s) then Reject
    else if p.secret(s) then Replace(REDACTED)
    else if p.address(s) then Replace(REDACTED_URL)
    else
      var path := p.path(key, s);
      if path.Some? && path.value != s then Replace(path.value) else Keep
  }

  predicate Sensitive(p: Policy, key: Option<string>) {
    key.Some? && p.sensitive(key.value)
  }

  /** The redacted value and the number of replacements; None when a claim raises. */
  function Redact(p: Policy, v: Json, key: Option<string>): Option<(Json, nat)>
    decreases v, 0
  {
    if Sensitive(p, key) then Some((Str(REDACTED), 1))
    else
      match v
      case Obj(fs) =>
        var r := RedactFields(p, fs);
        if r.None? then None else Some((Obj(r.value.0), r.value.1))
      case Arr(items) =>
        var r := RedactItems(p, items, key);
        if r.None? then None else Some((Arr(r.value.0), r.value.1))
      case Str(s) =>
        (match Classify(p, key, s)
         case Keep => Some((v, 0))
         case Replace(t) => Some((Str(t), 1))
         case Reject => None)
      case _ => Some((v, 0))
  }

  function RedactFields(p: Policy, fs: seq<Field>): Option<(seq<Field>, nat)>
    decreases fs, 1
  {
    if fs == [] then Some(([], 0))
    else
      var head := Redact(p, fs[0].value, Some(fs[0].key));
      if head.None? then None
      else
        var tail := RedactFields(p, fs[1..]);
        if tail.None? then None
        else Some(([Field(fs[0].key, head.value.0)] + tail.value.0, head.value.1 + tail.value.1))
  }

  function RedactItems(p: Policy, items: seq<Json>, key: Option<string>): Option<(seq<Json>, nat)>
    decreases items, 1
  {
    if items == [] then Some(([], 0))
    else
      var head := Redact(p, items[0], key);
      if head.None? then None
      else
        var tail := RedactItems(p, items[1..], key);
        if tail.None? then None else Some(([head.value.0] + tail.value.0, head.value.1 + tail.value.1))
  }

  function JoinedFields(out: seq<Field>, count: nat, rest: Option<(seq<Field>, nat)>): Option<(seq<Field>, nat)> {
    if rest.None? then None else Some((out + rest.value.0, count + rest.value.1))
  }

  function JoinedItems(out: seq<Json>, count: nat, rest: Option<(seq<Json>, nat)>): Option<(seq<Json>, nat)> {
    if rest.None? then None else Some((out + rest.value.0, count + rest.value.1))
  }

  lemma {:induction false} FieldsStep(p: Policy, out: seq<Field>, count: nat, fs: seq<Field>)
    requires fs != []
    ensures var head := Redact(p, fs[0].value, Some(fs[0].key));
      JoinedFields(out, count, RedactFields(p, fs)) ==
      if head.None? then None
      else JoinedFields(out + [Field(fs[0].key, head.value.0)], count + head.value.1, RedactFields(p, fs[1..]))
  {
    var head, tail := Redact(p, fs[0].value, Some(fs[0].key)), RedactFields(p, fs[1..]);
    if head.Some? && tail.Some? {
      assert out + ([Field(fs[0].key, head.value.0)] + tail.value.0) == out + [Field(fs[0].key, head.value.0)] + tail.value.0;
    }
  }

  lemma {:induction false} ItemsStep(p: Policy, out: seq<Json>, count: nat, items: seq<Json>, key: Option<string>)
    requires items != []
    ensures var head := Redact(p, items[0], key);
      JoinedItems(out, count, RedactItems(p, items, key)) ==
      if head.None? then None
      else JoinedItems(out + [head.value.0], count + head.value.1, RedactItems(p, items[1..], key))
  {
    var head, tail := Redact(p, items[0], key), RedactItems(p, items[1..], key);
    if head.Some? && tail.Some? {
      assert out + ([head.value.0] + tail.value.0) == out + [head.value.0] + tail.value.0;
    }
  }

  lemma {:induction false} JoinedEnds(p: Policy, fs: seq<Field>, items: seq<Json>, key: Option<string>)
    ensures JoinedFields([], 0, RedactFields(p, fs)) == RedactFields(p, fs)
    ensures JoinedItems([], 0, RedactItems(p, items, key)) == RedactItems(p, items, key)
  {
    var r, t := RedactFields(p, fs), RedactItems(p, items, key);
    assert r.Some? ==> [] + r.value.0 == r.value.0;
    assert t.Some? ==> [] + t.value.0 == t.value.0;
  }

  /** `redact`, the local function of `redact_for_public_output`. */
  method RedactValue(p: Policy, v: Json, key: Option<string>) returns (r: Option<(Json, nat)>)
    ensures r == Redact(p, v, key)
    decreases v, 0
  {
    if Sensitive(p, key) {
      return Some((Str(REDACTED), 1));
    }
    match v
    case Obj(fs) =>
      var out := RedactDict(p, fs);
      return if out.None? then None else Some((Obj(out.value.0), out.value.1));
    case Arr(items) =>
      var out := RedactList(p, items, key);
      return if out.None? then None else Some((Arr(out.value.0), out.value.1));
    case Str(s) =>
      match Classify(p, key, s) {
        case Keep => return Some((v, 0));
        case Replace(t) => return Some((Str(t), 1));
        case Reject => return None;
      }
    case _ => return Some((v, 0));
  }

  /** The loop over a dict. */
  method RedactDict(p: Policy, fs: seq<Field>) returns (r: Option<(seq<Field>, nat)>)
    ensures r == RedactFields(p, fs)
    decreases fs, 1
  {
    var out, count := [], 0;
    JoinedEnds(p, fs, [], None);
    for i := 0 to |fs|
      invariant RedactFields(p, fs) == JoinedFields(out, count, RedactFields(p, fs[i..]))
    {
      FieldsStep(p, out, count, fs[i..]);
      var child := RedactValue(p, fs[i].value, Some(fs[i].key));
      if child.None? {
        return None;
      }
      out, count := out + [Field(fs[i].key, child.value.0)], count + child.value.1;
      assert fs[i..][1..] == fs[i + 1..];
    }
    assert out + [] == out;
    return Some((out, count));
  }

  /** The loop over a list, whose items inherit its key. */
  method RedactList(p: Policy, items: seq<Json>, key: Option<string>) returns (r: Option<(seq<Json>, nat)>)
    ensures r == RedactItems(p, items, key)
    decreases items, 1
  {
    var out, count := [], 0;
    JoinedEnds(p, [], items, key);
    for i := 0 to |items|
      invariant RedactItems(p, items, key) == JoinedItems(out, count, RedactItems(p, items[i..], key))
    {
      ItemsStep(p, out, count, items[i..], key);
      var child := RedactValue(p, items[i], key);
      if child.None? {
        return None;
      }
      out, count := out + [child.value.0], count + child.value.1;
      assert items[i..][1..] == items[i + 1..];
    }
    assert out + [] == out;
    return Some((out, count));
  }

  // ---------------------------------------------------------------- positions in a document

  /** The key under which a child is redacted: list items inherit the key of their list. */
  function KeyOf(key: Option<string>, s: Step): Option<string> {
    match s case Key(k) => Some(k) case Index(_) => key
  }

  function KeyAt(key: Option<string>, path: Path): Option<string>
    decreases path
  {
    if path == [] then key else KeyAt(KeyOf(key, path[0]), path[1..])
  }

  /** No sensitive key strictly above the position. */
  predicate Exposed(p: Policy, key: Option<string>, path: Path)
    decreases path
  {
    path == [] || (!Sensitive(p, key) && Exposed(p, KeyOf(key, path[0]), path[1..]))
  }

  /** The position is not below a sensitive key, exactly when no key on the way to it is sensitive. */
  lemma {:induction false} ExposedExactly(p: Policy, path: Path)
    ensures Exposed(p, None, path) <==> forall i :: 0 <= i < |path| - 1 && path[i].Key? ==> !p.sensitive(path[i].key)
  {
    ExposedBelow(p, None, path);
  }

  lemma {:induction false} ExposedBelow(p: Policy, key: Option<string>, path: Path)
    ensures Exposed(p, key, path) <==>
      path == [] || (!Sensitive(p, key) && forall i :: 0 <= i < |path| - 1 && path[i].Key? ==> !p.sensitive(path[i].key))
    decreases path
  {
    if path != [] {
      ExposedBelow(p, KeyOf(key, path[0]), path[1..]);
      forall i | 0 < i < |path| ensures path[i] == path[1..][i - 1] {
      }
    }
  }

  /** The key of a position is the last key on the way to it. */
  lemma {:induction false} KeyIsLast(key: Option<string>, path: Path, s: Step)
    ensures KeyAt(key, path + [s]) == if s.Key? then Some(s.key) else KeyAt(key, path)
    decreases path
  {
    if path != [] {
      assert (path + [s])[1..] == path[1..] + [s];
      KeyIsLast(KeyOf(key, path[0]), path[1..], s);
    } else {
      assert (path + [s])[1..] == [];
    }
  }

  // ---------------------------------------------------------------- what the policy asks of a string

  /** A string that is not published: a secret, an address, or a path with another public form. */
  predicate Private(p: Policy, key: Option<string>, s: string) {
    p.secret(s) || p.address(s) || (p.path(key, s).Some? && p.path(key, s) != Some(s))
  }

  /** A string is published as `t`: no claim; a secret as its placeholder, any other address as its own, and anything else
      in its public form if it has one. */
  predicate ShownAs(p: Policy, key: Option<string>, s: string, t: string) {
    && !p.claim(s)
    && (p.secret(s) ==> t == "[REDACTED]")
    && (!p.secret(s) && p.address(s) ==> t == "[REDACTED_URL]")
    && (!p.secret(s) && !p.address(s) && p.path(key, s).Some? ==> p.path(key, s) == Some(t))
    && (!p.secret(s) && !p.address(s) && p.path(key, s).None? ==> t == s)
  }

  lemma {:induction false} ClassifiedByPolicy(p: Policy, key: Option<string>, s: string)
    ensures Classify(p, key, s).Reject? <==> p.claim(s)
    ensures Classify(p, key, s).Replace? <==> !p.claim(s) && Private(p, key, s)
    ensures Classify(p, key, s).Keep? ==> ShownAs(p, key, s, s)
    ensures Classify(p, key, s).Replace? ==> ShownAs(p, key, s, Classify(p, key, s).text)
  {
  }

  /** A position that is replaced: an outermost sensitive one, or an exposed string that must not be shown. */
  ghost predicate IsHit(p: Policy, v: Json, key: Option<string>, path: Path) {
    var x := At(v, path);
    && x.Some? && Exposed(p, key, path)
    && (Sensitive(p, KeyAt(key, path)) || (x.value.Str? && !p.claim(x.value.s) && Private(p, KeyAt(key, path), x.value.s)))
  }

  /** An exposed string that inflates a claim. */
  ghost predicate IsClaim(p: Policy, v: Json, key: Option<string>, path: Path) {
    var x := At(v, path);
    && x.Some? && Exposed(p, key, path) && !Sensitive(p, KeyAt(key, path))
    && x.value.Str? && p.claim(x.value.s)
  }

  // ---------------------------------------------------------------- redaction position by position

  lemma {:induction false} RedactFieldsFind(p: Policy, fs: seq<Field>, k: string)
    requires RedactFields(p, fs).Some?
    ensures var out := RedactFields(p, fs).value.0;
      && |out| == |fs| && (forall i :: 0 <= i < |fs| ==> out[i].key == fs[i].key)
      && (Find(fs, k).None? ==> Find(out, k).None?)
      && (Find(fs, k).Some? ==>
            && Redact(p, Find(fs, k).value, Some(k)).Some?
            && Find(out, k) == Some(Redact(p, Find(fs, k).value, Some(k)).value.0))
  {
    if fs == [] {
    } else {
      RedactFieldsFind(p, fs[1..], k);
      assert RedactFields(p, fs).value.0[1..] == RedactFields(p, fs[1..]).value.0;
    }
  }

  lemma {:induction false} RedactItemsAt(p: Policy, items: seq<Json>, key: Option<string>)
    requires RedactItems(p, items, key).Some?
    ensures var out := RedactItems(p, items, key).value.0;
      |out| == |items| && forall i :: 0 <= i < |items| ==>
        Redact(p, items[i], key).Some? && out[i] == Redact(p, items[i], key).value.0
  {
    if items == [] {
    } else {
      RedactItemsAt(p, items[1..], key);
    }
  }

  lemma {:induction false} RedactChild(p: Policy, v: Json, key: Option<string>, s: Step)
    requires Redact(p, v, key).Some?
    ensures var out := Redact(p, v, key).value.0;
      && (Sensitive(p, key) || Child(v, s).None? ==> Child(out, s).None?)
      && (!Sensitive(p, key) && Child(v, s).Some? ==>
            && Redact(p, Child(v, s).value, KeyOf(key, s)).Some?
            && Child(out, s) == Some(Redact(p, Child(v, s).value, KeyOf(key, s)).value.0))
  {
    if !Sensitive(p, key) {
      match v
      case Obj(fs) =>
        if s.Key? {
          RedactFieldsFind(p, fs, s.key);
        }
      case Arr(items) => RedactItemsAt(p, items, key);
      case _ =>
    }
  }

  /** Redaction commutes with looking inside: at every exposed position the result holds the redaction of what
      was there, and the result has no position that was not exposed before. */
  lemma {:induction false} RedactAt(p: Policy, v: Json, key: Option<string>, path: Path)
    requires Redact(p, v, key).Some?
    ensures var out := Redact(p, v, key).value.0;
      && (At(out, path).Some? <==> At(v, path).Some? && Exposed(p, key, path))
      && (At(out, path).Some? ==>
            && Redact(p, At(v, path).value, KeyAt(key, path)).Some?
            && At(out, path).value == Redact(p, At(v, path).value, KeyAt(key, path)).value.0)
    decreases path
  {
    if path == [] {
    } else {
      RedactChild(p, v, key, path[0]);
      if !Sensitive(p, key) && Child(v, path[0]).Some? {
        RedactAt(p, Child(v, path[0]).value, KeyOf(key, path[0]), path[1..]);
      }
    }
  }

  /** The kind of a value and the names and number of its children. */
  ghost predicate SameShape(a: Json, b: Json) {
    match a
    case Obj(fs) => b.Obj? && |b.fields| == |fs| && forall i :: 0 <= i < |fs| ==> b.fields[i].key == fs[i].key
    case Arr(items) => b.Arr? && |b.items| == |items|
    case Str(_) => b.Str?
    case _ => a == b
  }

  /** What is published: outside sensitive keys the shape is untouched, scalars are as they were, and every string is shown
      as the policy asks; a sensitive key holds the placeholder and nothing below. */
  lemma {:induction false} Published(p: Policy, v: Json, path: Path)
    requires Redact(p, v, None).Some? && At(Redact(p, v, None).value.0, path).Some?
    ensures At(v, path).Some? && Exposed(p, None, path)
    ensures var x, y, key := At(v, path).value, At(Redact(p, v, None).value.0, path).value, KeyAt(None, path);
      if Sensitive(p, key) then y == Str("[REDACTED]")
      else
        && SameShape(x, y)
        && (x.Str? ==> y.Str? && ShownAs(p, key, x.s, y.s))
  {
    RedactAt(p, v, None, path);
    var x, key := At(v, path).value, KeyAt(None, path);
    if !Sensitive(p, key) {
      if x.Obj? {
        RedactFieldsFind(p, x.fields, "");
      } else if x.Arr? {
        RedactItemsAt(p, x.items, key);
      } else if x.Str? {
        ClassifiedByPolicy(p, key, x.s);
      }
    }
  }

  /** A string outside sensitive keys comes out unchanged only if it is no secret and no address, up to a placeholder that
      was there already. */
  lemma {:induction false} UnchangedIsPublic(p: Policy, v: Json, path: Path)
    requires Redact(p, v, None).Some? && At(Redact(p, v, None).value.0, path).Some?
    requires At(v, path).Some? && At(v, path).value.Str? && !Sensitive(p, KeyAt(None, path))
    ensures var s := At(v, path).value.s;
      At(Redact(p, v, None).value.0, path) == At(v, path) <==>
        ((p.secret(s) ==> s == "[REDACTED]") && (!p.secret(s) && p.address(s) ==> s == "[REDACTED_URL]")
         && (!p.secret(s) && !p.address(s) ==> p.path(KeyAt(None, path), s) in {None, Some(s)}))
  {
    Published(p, v, path);
  }

  // ---------------------------------------------------------------- rejection

  lemma {:induction false} ClaimPrefixed(p: Policy, v: Json, key: Option<string>, s: Step, path: Path)
    requires !Sensitive(p, key) && Child(v, s).Some? && IsClaim(p, Child(v, s).value, KeyOf(key, s), path)
    ensures IsClaim(p, v, key, [s] + path)
  {
    assert ([s] + path)[1..] == path;
  }

  /** A claim anywhere outside sensitive keys raises, and nothing else does. */
  lemma {:induction false} RejectedExactlyOnClaims(p: Policy, v: Json, key: Option<string>)
    requires WellFormed(v)
    ensures Redact(p, v, key).None? <==> exists path :: IsClaim(p, v, key, path)
    decreases v, 0
  {
    if path :| IsClaim(p, v, key, path) {
      ClaimRejects(p, v, key, path);
    }
    if Redact(p, v, key).None? {
      match v
      case Obj(fs) =>
        var i := FailingField(p, fs);
        RejectedExactlyOnClaims(p, fs[i].value, Some(fs[i].key));
        var path :| IsClaim(p, fs[i].value, Some(fs[i].key), path);
        FindMember(fs, fs[i].key);
        assert fs[i] == Field(fs[i].key, fs[i].value);
        ClaimPrefixed(p, v, key, Key(fs[i].key), path);
      case Arr(items) =>
        var i := FailingItem(p, items, key);
        RejectedExactlyOnClaims(p, items[i], key);
        var path :| IsClaim(p, items[i], key, path);
        ClaimPrefixed(p, v, key, Index(i), path);
      case Str(_) =>
        assert IsClaim(p, v, key, []);
      case _ =>
    }
  }

  lemma {:induction false} ClaimRejects(p: Policy, v: Json, key: Option<string>, path: Path)
    requires IsClaim(p, v, key, path)
    ensures Redact(p, v, key).None?
  {
    if Redact(p, v, key).Some? {
      RedactAt(p, v, key, path);
    }
  }

  lemma {:induction false} FailingField(p: Policy, fs: seq<Field>) returns (i: nat)
    requires RedactFields(p, fs).None?
    ensures i < |fs| && Redact(p, fs[i].value, Some(fs[i].key)).None?
  {
    if Redact(p, fs[0].value, Some(fs[0].key)).None? {
      return 0;
    }
    var k := FailingField(p, fs[1..]);
    return k + 1;
  }

  lemma {:induction false} FailingItem(p: Policy, items: seq<Json>, key: Option<string>) returns (i: nat)
    requires RedactItems(p, items, key).None?
    ensures i < |items| && Redact(p, items[i], key).None?
  {
    if Redact(p, items[0], key).None? {
      return 0;
    }
    var k := FailingItem(p, items[1..], key);
    return k + 1;
  }

  // ---------------------------------------------------------------- the count

  ghost function Prefixed(s: Step, paths: set<Path>): set<Path> {
    set q | q in paths :: [s] + q
  }

  lemma {:induction false} PrefixedSize(s: Step, paths: set<Path>)
    ensures |Prefixed(s, paths)| == |paths|
    decreases paths
  {
    if paths != {} {
      var q :| q in paths;
      PrefixedSize(s, paths - {q});
      assert [s] + q !in Prefixed(s, paths - {q}) by {
        forall r | r in paths - {q} ensures [s] + r != [s] + q {
          assert ([s] + r)[1..] == r && ([s] + q)[1..] == q;
        }
      }
      assert Prefixed(s, paths) == Prefixed(s, paths - {q}) + {[s] + q};
    }
  }

  /** All positions that are replaced, when nothing is rejected. */
  ghost function Hits(p: Policy, v: Json, key: Option<string>): set<Path>
    decreases v, 0
  {
    if Sensitive(p, key) then {[]}
    else
      match v
      case Obj(fs) => FieldHits(p, fs)
      case Arr(items) => ItemHits(p, items, 0, key)
      case Str(s) => if !p.claim(s) && Private(p, key, s) then {[]} else {}
      case _ => {}
  }

  ghost function FieldHits(p: Policy, fs: seq<Field>): set<Path>
    decreases fs, 1
  {
    if fs == [] then {} else Prefixed(Key(fs[0].key), Hits(p, fs[0].value, Some(fs[0].key))) + FieldHits(p, fs[1..])
  }

  ghost function ItemHits(p: Policy, items: seq<Json>, from: nat, key: Option<string>): set<Path>
    decreases items, 1
  {
    if items == [] then {} else Prefixed(Index(from), Hits(p, items[0], key)) + ItemHits(p, items[1..], from + 1, key)
  }

  lemma {:induction false} FieldHitsMembers(p: Policy, fs: seq<Field>, path: Path)
    requires UniqueKeys(fs)
    ensures path in FieldHits(p, fs) <==>
      (path != [] && path[0].Key? && Find(fs, path[0].key).Some?
       && path[1..] in Hits(p, Find(fs, path[0].key).value, Some(path[0].key)))
  {
    if fs == [] {
    } else {
      FieldHitsMembers(p, fs[1..], path);
      assert fs == [fs[0]] + fs[1..];
      ConsKeys(fs[0], fs[1..]);
      FindMember(fs[1..], fs[0].key);
      PrefixedMember(Key(fs[0].key), Hits(p, fs[0].value, Some(fs[0].key)), path);
    }
  }

  lemma {:induction false} PrefixedMember(s: Step, paths: set<Path>, path: Path)
    ensures path in Prefixed(s, paths) <==> path != [] && path[0] == s && path[1..] in paths
  {
    if path != [] && path[0] == s && path[1..] in paths {
      assert path == [s] + path[1..];
    }
    if path in Prefixed(s, paths) {
      var q :| q in paths && path == [s] + q;
      assert path[1..] == q;
    }
  }

  lemma {:induction false} ItemHitsMembers(p: Policy, items: seq<Json>, from: nat, key: Option<string>, path: Path)
    ensures path in ItemHits(p, items, from, key) <==>
      (path != [] && path[0].Index? && from <= path[0].index < from + |items|
       && path[1..] in Hits(p, items[path[0].index - from], key))
  {
    if items == [] {
    } else {
      ItemHitsMembers(p, items[1..], from + 1, key, path);
      PrefixedMember(Index(from), Hits(p, items[0], key), path);
    }
  }

  lemma {:induction false} HitsAreHits(p: Policy, v: Json, key: Option<string>, path: Path)
    requires WellFormed(v)
    ensures path in Hits(p, v, key) <==> IsHit(p, v, key, path)
    decreases path
  {
    if !Sensitive(p, key) {
      match v
      case Obj(fs) =>
        FieldHitsMembers(p, fs, path);
        if path != [] && path[0].Key? && Find(fs, path[0].key).Some? {
          FindWellFormed(fs, path[0].key);
          HitsAreHits(p, Find(fs, path[0].key).value, Some(path[0].key), path[1..]);
        }
      case Arr(items) =>
        ItemHitsMembers(p, items, 0, key, path);
        if path != [] && path[0].Index? && path[0].index < |items| {
          HitsAreHits(p, items[path[0].index], key, path[1..]);
        }
      case _ =>
    }
  }

  lemma {:induction false} FieldCount(p: Policy, fs: seq<Field>)
    requires UniqueKeys(fs) && RedactFields(p, fs).Some?
    requires forall i :: 0 <= i < |fs| ==> WellFormed(fs[i].value)
    ensures RedactFields(p, fs).value.1 == |FieldHits(p, fs)|
    decreases fs, 1
  {
    if fs == [] {
    } else {
      var first, rest := Prefixed(Key(fs[0].key), Hits(p, fs[0].value, Some(fs[0].key))), FieldHits(p, fs[1..]);
      HitCount(p, fs[0].value, Some(fs[0].key));
      FieldCount(p, fs[1..]);
      PrefixedSize(Key(fs[0].key), Hits(p, fs[0].value, Some(fs[0].key)));
      forall q ensures !(q in first && q in rest) {
        FieldHitsMembers(p, fs[1..], q);
        PrefixedMember(Key(fs[0].key), Hits(p, fs[0].value, Some(fs[0].key)), q);
        assert fs == [fs[0]] + fs[1..];
        ConsKeys(fs[0], fs[1..]);
        FindMember(fs[1..], fs[0].key);
      }
      assert first !! rest;
    }
  }

  lemma {:induction false} ItemCount(p: Policy, items: seq<Json>, from: nat, key: Option<string>)
    requires RedactItems(p, items, key).Some?
    requires forall i :: 0 <= i < |items| ==> WellFormed(items[i])
    ensures RedactItems(p, items, key).value.1 == |ItemHits(p, items, from, key)|
    decreases items, 1
  {
    if items == [] {
    } else {
      var first, rest := Prefixed(Index(from), Hits(p, items[0], key)), ItemHits(p, items[1..], from + 1, key);
      HitCount(p, items[0], key);
      ItemCount(p, items[1..], from + 1, key);
      PrefixedSize(Index(from), Hits(p, items[0], key));
      forall q ensures !(q in first && q in rest) {
        ItemHitsMembers(p, items[1..], from + 1, key, q);
        PrefixedMember(Index(from), Hits(p, items[0], key), q);
      }
      assert first !! rest;
    }
  }

  lemma {:induction false} HitCount(p: Policy, v: Json, key: Option<string>)
    requires WellFormed(v) && Redact(p, v, key).Some?
    ensures Redact(p, v, key).value.1 == |Hits(p, v, key)|
    decreases v, 0
  {
    if !Sensitive(p, key) {
      match v
      case Obj(fs) => FieldCount(p, fs);
      case Arr(items) => ItemCount(p, items, 0, key);
      case Str(s) => ClassifiedByPolicy(p, key, s);
      case _ =>
    }
  }

  /** The reported number is the number of replaced positions: the outermost sensitive ones and the replaced strings. */
  lemma {:induction false} CountIsExact(p: Policy, v: Json) returns (hits: set<Path>)
    requires WellFormed(v) && Redact(p, v, None).Some?
    ensures forall path :: path in hits <==> IsHit(p, v, None, path)
    ensures Redact(p, v, None).value.1 == |hits|
  {
    hits := Hits(p, v, None);
    HitCount(p, v, None);
    forall path ensures path in hits <==> IsHit(p, v, None, path) {
      HitsAreHits(p, v, None, path);
    }
  }

  // ---------------------------------------------------------------- publishing twice

  /** A string that is not published is shown as one that is shown as it is. */
  ghost predicate Settled(p: Policy, key: Option<string>, s: string) {
    Private(p, key, s) ==> forall t :: ShownAs(p, key, s, t) ==> ShownAs(p, key, t, t)
  }

  ghost predicate AllSettled(p: Policy, v: Json, key: Option<string>) {
    forall path :: At(v, path).Some? && Exposed(p, key, path) && !Sensitive(p, KeyAt(key, path)) && At(v, path).value.Str? ==>
      Settled(p, KeyAt(key, path), At(v, path).value.s)
  }

  lemma {:induction false} SettledChild(p: Policy, v: Json, key: Option<string>, s: Step)
    requires AllSettled(p, v, key) && !Sensitive(p, key) && Child(v, s).Some?
    ensures AllSettled(p, Child(v, s).value, KeyOf(key, s))
  {
    var child, k := Child(v, s).value, KeyOf(key, s);
    forall path | At(child, path).Some? && Exposed(p, k, path) && !Sensitive(p, KeyAt(k, path)) && At(child, path).value.Str?
      ensures Settled(p, KeyAt(k, path), At(child, path).value.s)
    {
      assert ([s] + path)[1..] == path;
      assert At(v, [s] + path) == At(child, path) && KeyAt(key, [s] + path) == KeyAt(k, path);
      assert Exposed(p, key, [s] + path);
    }
  }

  lemma {:induction false} RedactTwice(p: Policy, v: Json, key: Option<string>)
    requires WellFormed(v) && Redact(p, v, key).Some? && AllSettled(p, v, key)
    ensures var out := Redact(p, v, key).value.0;
      Redact(p, out, key).Some? && Redact(p, out, key).value.0 == out
    decreases v, 0
  {
    if !Sensitive(p, key) {
      match v
      case Obj(fs) =>
        forall i | 0 <= i < |fs| ensures AllSettled(p, fs[i].value, Some(fs[i].key)) {
          FindMember(fs, fs[i].key);
          assert fs[i] == Field(fs[i].key, fs[i].value);
          SettledChild(p, v, key, Key(fs[i].key));
        }
        FieldsTwice(p, fs);
      case Arr(items) =>
        forall i | 0 <= i < |items| ensures AllSettled(p, items[i], key) {
          SettledChild(p, v, key, Index(i));
        }
        ItemsTwice(p, items, key);
      case Str(s) =>
        assert At(v, []) == Some(v) && Exposed(p, key, []) && KeyAt(key, []) == key;
        assert Settled(p, key, s);
        ClassifiedByPolicy(p, key, s);
        if Classify(p, key, s).Replace? {
          ClassifiedByPolicy(p, key, Classify(p, key, s).text);
        }
      case _ =>
    }
  }

  lemma {:induction false} FieldsTwice(p: Policy, fs: seq<Field>)
    requires RedactFields(p, fs).Some?
    requires forall i :: 0 <= i < |fs| ==> WellFormed(fs[i].value) && AllSettled(p, fs[i].value, Some(fs[i].key))
    ensures var out := RedactFields(p, fs).value.0;
      RedactFields(p, out).Some? && RedactFields(p, out).value.0 == out
    decreases fs, 1
  {
    if fs == [] {
    } else {
      RedactTwice(p, fs[0].value, Some(fs[0].key));
      FieldsTwice(p, fs[1..]);
      assert RedactFields(p, fs).value.0[1..] == RedactFields(p, fs[1..]).value.0;
    }
  }

  lemma {:induction false} ItemsTwice(p: Policy, items: seq<Json>, key: Option<string>)
    requires RedactItems(p, items, key).Some?
    requires forall i :: 0 <= i < |items| ==> WellFormed(items[i]) && AllSettled(p, items[i], key)
    ensures var out := RedactItems(p, items, key).value.0;
      RedactItems(p, out, key).Some? && RedactItems(p, out, key).value.0 == out
    decreases items, 1
  {
    if items == [] {
    } else {
      RedactTwice(p, items[0], key);
      ItemsTwice(p, items[1..], key);
      assert RedactItems(p, items, key).value.0[1..] == RedactItems(p, items[1..], key).value.0;
    }
  }

  /** Redacting a published value changes nothing, exactly when the classifiers leave every replacement
      in it as it is. */
  lemma {:induction false} PublishedIsFixed(p: Policy, v: Json)
    requires WellFormed(v) && Redact(p, v, None).Some?
    ensures var out := Redact(p, v, None).value.0;
      (Redact(p, out, None).Some? && Redact(p, out, None).value.0 == out) <==> AllSettled(p, v, None)
  {
    var out := Redact(p, v, None).value.0;
    if AllSettled(p, v, None) {
      RedactTwice(p, v, None);
    }
    if Redact(p, out, None).Some? && Redact(p, out, None).value.0 == out {
      forall path | At(v, path).Some? && Exposed(p, None, path) && !Sensitive(p, KeyAt(None, path)) && At(v, path).value.Str?
        ensures Settled(p, KeyAt(None, path), At(v, path).value.s)
      {
        var s, key := At(v, path).value.s, KeyAt(None, path);
        Published(p, v, path) by {
          RedactAt(p, v, None, path);
        }
        Published(p, out, path) by {
          RedactAt(p, v, None, path);
        }
      }
    }
  }

  // ---------------------------------------------------------------- replacements that are replaced again

  const REDACTED_PATH := "[REDACTED_PATH]"

  predicate IsLetter(c: char) { 'A' <= c <= 'Z' || 'a' <= c <= 'z' }

  predicate WindowsAbsolute(s: string) { |s| >= 3 && IsLetter(s[0]) && s[1] == ':' && (s[2] == '\\' || s[2] == '/') }

  /** A path that is relative to another directory, below a home directory, on a share or on a drive. */
  predicate LeadsElsewhere(s: string) {
    "../" <= s || "./" <= s || "~/" <= s || "\\\\" <= s || WindowsAbsolute(s)
  }

  /** `_path_redaction` for keys that do not speak of endpoints, in a repository where resolving a path changes nothing. */
  function PublicPath(root: string, s: string): Option<string> {
    if LeadsElsewhere(s) then Some(REDACTED_PATH)
    else if !("/" <= s) then None
    else if s == root then Some(".")
    else if root + "/" <= s then Some(s[|root| + 1..])
    else Some(REDACTED_PATH)
  }

  lemma {:induction false} AbsoluteLeadsNowhereElse(s: string)
    requires s != "" && s[0] == '/'
    ensures !LeadsElsewhere(s) && "/" <= s
  {
  }

  lemma {:induction false} InRepository(root: string, s: string)
    requires "/" <= root
    ensures PublicPath(root, root + "/" + s) == Some(s)
  {
    var t := root + "/" + s;
    assert t[0] == '/' && root + "/" <= t && t[|root| + 1..] == s && |t| > |root|;
    AbsoluteLeadsNowhereElse(t);
  }

  /** An absolute path is published relative to the repository, one that leads elsewhere by its placeholder, and any other
      string has no public form. */
  lemma {:induction false} PathExactly(root: string, s: string)
    requires "/" <= root
    ensures PublicPath(root, s).None? <==> !("/" <= s) && !LeadsElsewhere(s)
    ensures forall t :: t !in {".", "[REDACTED_PATH]"} ==> (PublicPath(root, s) == Some(t) <==> s == root + "/" + t)
    ensures PublicPath(root, root) == Some(".")
    ensures LeadsElsewhere(s) || ("/" <= s && s != root && forall t :: s != root + "/" + t) ==> PublicPath(root, s) == Some("[REDACTED_PATH]")
  {
    AbsoluteLeadsNowhereElse(root);
    forall t ensures PublicPath(root, root + "/" + t) == Some(t) {
      InRepository(root, t);
    }
    if "/" <= s {
      AbsoluteLeadsNowhereElse(s);
      if root + "/" <= s {
        assert s == root + "/" + s[|root| + 1..];
      }
    }
  }

  function OnlyPaths(path: (Option<string>, string) -> Option<string>): Policy {
    Policy(_ => false, _ => false, _ => false, _ => false, path)
  }

  lemma {:induction false} OnlyPathsRedact(path: (Option<string>, string) -> Option<string>, s: string, t: string)
    requires path(None, s) == Some(t) && t != s
    ensures Redact(OnlyPaths(path), Str(s), None) == Some((Str(t), 1))
  {
  }

  /** Not every published value is a fixed point: a file below a directory named `~` in the repository is published as a
      relative path, which looks like one below the home directory when it is redacted again. */
  lemma {:induction false} PublishedNotFixed(root: string)
    requires "/" <= root
    ensures var p := OnlyPaths((_, s) => PublicPath(root, s));
      && Redact(p, Str(root + "/" + "~/x"), None) == Some((Str("~/x"), 1))
      && Redact(p, Str("~/x"), None) == Some((Str(REDACTED_PATH), 1))
  {
    var path := (key: Option<string>, s: string) => PublicPath(root, s);
    InRepository(root, "~/x");
    assert "~/" <= "~/x" && LeadsElsewhere("~/x");
    assert |root + "/" + "~/x"| != |"~/x"| && |REDACTED_PATH| != |"~/x"|;
    OnlyPathsRedact(path, root + "/" + "~/x", "~/x");
    OnlyPathsRedact(path, "~/x", REDACTED_PATH);
  }
}
