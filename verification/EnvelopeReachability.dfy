/** What the envelope search decides: plain reachability in the document graph. */
module EnvelopeReachability {
  import opened JsonValues
  import opened JsonPositions
  import opened JsonPointer
  import opened EnvelopeSearch

  // ---------------------------------------------------------------- the document graph

  /** One step of the graph: a reference leads to its target only; otherwise a list leads to its
      items and a dict to its values. Following only references is the graph of responses. */
  ghost predicate Edge(spec: Json, a: Json, b: Json, refsOnly: bool) {
    if IsRef(a) then Get(a, "$ref").Str? && Resolve(spec, Get(a, "$ref").s) == Some(b)
    else !refsOnly && ((a.Arr? && b in a.items) || (a.Obj? && exists f :: f in a.fields && f.value == b))
  }

  ghost predicate IsPath(spec: Json, p: seq<Json>, refsOnly: bool) {
    p != [] && forall i :: 0 <= i < |p| - 1 ==> Edge(spec, p[i], p[i + 1], refsOnly)
  }

  /** Envelope: the wanted reference. Broken: a reference the schema search cannot follow.
      BrokenLink: a reference a response cannot follow. End: the given value, itself no reference. */
  datatype Goal = Envelope | Broken | BrokenLink | End(value: Json)

  ghost predicate Unresolved(spec: Json, j: Json) {
    IsRef(j) && (Get(j, "$ref").Str? ==> Resolve(spec, Get(j, "$ref").s).None?)
  }

  ghost predicate Meets(spec: Json, j: Json, goal: Goal) {
    match goal
    case Envelope => Get(j, "$ref") == Str(ENVELOPE)
    case Broken => Unresolved(spec, j) && Get(j, "$ref") != Str(ENVELOPE)
    case BrokenLink => Unresolved(spec, j)
    case End(t) => !IsRef(j) && j == t
  }

  /** `j` is a reference whose name is in `marks`. */
  ghost predicate Marked(j: Json, marks: set<string>) {
    IsRef(j) && Get(j, "$ref").Str? && Get(j, "$ref").s in marks
  }

  ghost predicate Witness(spec: Json, p: seq<Json>, goal: Goal, refsOnly: bool, avoid: set<string>) {
    && IsPath(spec, p, refsOnly)
    && Meets(spec, p[|p| - 1], goal)
    && forall i :: 0 <= i < |p| - 1 ==> !Marked(p[i], avoid)
  }

  /** Some path from `j` to the goal follows no reference in `avoid`. */
  ghost predicate Reaches(spec: Json, j: Json, goal: Goal, refsOnly: bool, avoid: set<string>) {
    exists p :: Witness(spec, p, goal, refsOnly, avoid) && p[0] == j
  }

  ghost predicate Reachable(spec: Json, j: Json, goal: Goal) {
    Reaches(spec, j, goal, false, {})
  }

  // ---------------------------------------------------------------- paths

  lemma {:induction false} ReachedAtOnce(spec: Json, j: Json, goal: Goal, refsOnly: bool, avoid: set<string>)
    requires Meets(spec, j, goal)
    ensures Reaches(spec, j, goal, refsOnly, avoid)
  {
    assert Witness(spec, [j], goal, refsOnly, avoid);
  }

  lemma {:induction false} Prepend(spec: Json, a: Json, b: Json, goal: Goal, refsOnly: bool, avoid: set<string>)
    requires Edge(spec, a, b, refsOnly) && !Marked(a, avoid) && Reaches(spec, b, goal, refsOnly, avoid)
    ensures Reaches(spec, a, goal, refsOnly, avoid)
  {
    var p :| Witness(spec, p, goal, refsOnly, avoid) && p[0] == b;
    var q := [a] + p;
    forall i | 0 <= i < |q| - 1 ensures Edge(spec, q[i], q[i + 1], refsOnly) && !Marked(q[i], avoid) {
      if i > 0 {
        assert q[i] == p[i - 1] && q[i + 1] == p[i];
      }
    }
    assert Witness(spec, q, goal, refsOnly, avoid);
  }

  lemma {:induction false} FirstStep(spec: Json, j: Json, goal: Goal, refsOnly: bool, avoid: set<string>) returns (next: Json)
    requires Reaches(spec, j, goal, refsOnly, avoid) && !Meets(spec, j, goal)
    ensures Edge(spec, j, next, refsOnly) && !Marked(j, avoid) && Reaches(spec, next, goal, refsOnly, avoid)
  {
    var p :| Witness(spec, p, goal, refsOnly, avoid) && p[0] == j;
    next := p[1];
    assert Edge(spec, p[0], p[1], refsOnly);
    assert Witness(spec, p[1..], goal, refsOnly, avoid) by {
      forall i | 0 <= i < |p[1..]| - 1
        ensures Edge(spec, p[1..][i], p[1..][i + 1], refsOnly) && !Marked(p[1..][i], avoid)
      {
        assert p[1..][i] == p[i + 1] && p[1..][i + 1] == p[i + 2];
      }
    }
  }

  lemma {:induction false} AvoidLess(spec: Json, j: Json, goal: Goal, refsOnly: bool, less: set<string>, more: set<string>)
    requires less <= more && Reaches(spec, j, goal, refsOnly, more)
    ensures Reaches(spec, j, goal, refsOnly, less)
  {
    var p :| Witness(spec, p, goal, refsOnly, more) && p[0] == j;
    assert Witness(spec, p, goal, refsOnly, less);
  }

  /** `ref` resolves to a value from which the goal is reached without following `avoid`. */
  ghost predicate Live(spec: Json, ref: string, goal: Goal, refsOnly: bool, avoid: set<string>) {
    Resolve(spec, ref).Some? && Reaches(spec, Resolve(spec, ref).value, goal, refsOnly, avoid)
  }

  /** Cutting a path at its last marked reference: either the path follows no new mark,
      or the target of some new mark reaches the goal without following any mark. */
  lemma {:induction false} CutAtLastMark(spec: Json, j: Json, goal: Goal, refsOnly: bool, avoid: set<string>, marks: set<string>)
    requires avoid <= marks && Reaches(spec, j, goal, refsOnly, avoid)
    ensures Reaches(spec, j, goal, refsOnly, marks)
         || exists r :: r in marks - avoid && Live(spec, r, goal, refsOnly, marks)
  {
    var p :| Witness(spec, p, goal, refsOnly, avoid) && p[0] == j;
    CutPath(spec, p, goal, refsOnly, avoid, marks);
  }

  lemma {:induction false} CutPath(
      spec: Json, p: seq<Json>, goal: Goal, refsOnly: bool, avoid: set<string>, marks: set<string>)
    requires avoid <= marks && Witness(spec, p, goal, refsOnly, avoid)
    ensures Reaches(spec, p[0], goal, refsOnly, marks)
         || exists r :: r in marks - avoid && Live(spec, r, goal, refsOnly, marks)
    decreases |p|
  {
    if |p| == 1 {
      ReachedAtOnce(spec, p[0], goal, refsOnly, marks);
    } else {
      var q := p[1..];
      assert Edge(spec, p[0], p[1], refsOnly);
      forall i | 0 <= i < |q| - 1 ensures Edge(spec, q[i], q[i + 1], refsOnly) && !Marked(q[i], avoid) {
        assert q[i] == p[i + 1] && q[i + 1] == p[i + 2];
      }
      CutPath(spec, q, goal, refsOnly, avoid, marks);
      if Reaches(spec, q[0], goal, refsOnly, marks) {
        if Marked(p[0], marks) {
          assert Live(spec, Get(p[0], "$ref").s, goal, refsOnly, marks);
        } else {
          Prepend(spec, p[0], p[1], goal, refsOnly, marks);
        }
      }
    }
  }

  // ---------------------------------------------------------------- what a verdict means

  /** No reference marked since `before` leads to the goal without following `before`. */
  ghost predicate Exhausted(spec: Json, goal: Goal, refsOnly: bool, before: set<string>, after: set<string>) {
    forall r :: r in after - before ==> !Live(spec, r, goal, refsOnly, before)
  }

  /** Avoiding exhausted references costs nothing. */
  lemma {:induction false} ExhaustedUnneeded(spec: Json, j: Json, goal: Goal, refsOnly: bool, before: set<string>, after: set<string>)
    requires before <= after && Exhausted(spec, goal, refsOnly, before, after)
    requires Reaches(spec, j, goal, refsOnly, before)
    ensures Reaches(spec, j, goal, refsOnly, after)
  {
    forall r | r in after - before ensures !Live(spec, r, goal, refsOnly, after) {
      if Live(spec, r, goal, refsOnly, after) {
        AvoidLess(spec, Resolve(spec, r).value, goal, refsOnly, before, after);
      }
    }
    CutAtLastMark(spec, j, goal, refsOnly, before, after);
  }

  lemma {:induction false} ExhaustedChain(spec: Json, goal: Goal, refsOnly: bool, a: set<string>, b: set<string>, c: set<string>)
    requires a <= b <= c
    requires Exhausted(spec, goal, refsOnly, a, b) && Exhausted(spec, goal, refsOnly, b, c)
    ensures Exhausted(spec, goal, refsOnly, a, c)
  {
    forall r | r in c - a ensures !Live(spec, r, goal, refsOnly, a) {
      assert r in b - a || r in c - b;
      if r !in b && Live(spec, r, goal, refsOnly, a) {
        ExhaustedUnneeded(spec, Resolve(spec, r).value, goal, refsOnly, a, b);
      }
    }
  }

  /** Following one reference: if its target fails with the reference marked, the reference is exhausted. */
  lemma {:induction false} ExhaustedVisit(spec: Json, ref: string, goal: Goal, refsOnly: bool, seen: set<string>)
    requires ref !in seen && !Live(spec, ref, goal, refsOnly, seen + {ref})
    ensures Exhausted(spec, goal, refsOnly, seen, seen + {ref})
  {
    if Live(spec, ref, goal, refsOnly, seen) {
      CutAtLastMark(spec, Resolve(spec, ref).value, goal, refsOnly, seen, seen + {ref});
    }
  }

  /** Yes finds a path, No excludes every path that respects `seen`, Crash meets a broken reference. */
  ghost predicate Explained(spec: Json, j: Json, seen: set<string>, verdict: Verdict, after: set<string>) {
    && (verdict == Yes ==> Reachable(spec, j, Envelope))
    && (verdict == Crash ==> Reachable(spec, j, Broken))
    && (verdict == No ==> !Reaches(spec, j, Envelope, false, seen) && Exhausted(spec, Envelope, false, seen, after))
  }

  lemma {:induction false} SearchMeaning(spec: Json, j: Json, seen: set<string>)
    ensures Explained(spec, j, seen, Search(spec, j, seen).0, Search(spec, j, seen).1)
    decreases Unseen(spec, Refs(j), seen), j, 1
  {
    var (verdict, after) := Search(spec, j, seen);
    if j.Arr? {
      ItemsMeaning(spec, j, j.items, seen);
    } else if j.Obj? && IsRef(j) {
      RefMeaning(spec, j, seen);
    } else if j.Obj? {
      ValuesMeaning(spec, j, j.fields, seen);
      if verdict == No && Reaches(spec, j, Envelope, false, seen) {
        var next := FirstStep(spec, j, Envelope, false, seen);
      }
    } else if Reaches(spec, j, Envelope, false, seen) {
      var next := FirstStep(spec, j, Envelope, false, seen);
    }
    if j.Arr? && verdict == No && Reaches(spec, j, Envelope, false, seen) {
      var next := FirstStep(spec, j, Envelope, false, seen);
    }
  }

  lemma {:induction false} RefMeaning(spec: Json, j: Json, seen: set<string>)
    requires j.Obj? && IsRef(j)
    ensures Explained(spec, j, seen, Search(spec, j, seen).0, Search(spec, j, seen).1)
    decreases Unseen(spec, Refs(j), seen), j, 0
  {
    var ref := Get(j, "$ref");
    if !ref.Str? {
      ReachedAtOnce(spec, j, Broken, false, {});
    } else if ref.s == ENVELOPE {
      ReachedAtOnce(spec, j, Envelope, false, {});
    } else if ref.s in seen {
      if Reaches(spec, j, Envelope, false, seen) {
        var next := FirstStep(spec, j, Envelope, false, seen);
      }
    } else if Resolve(spec, ref.s).None? {
      ReachedAtOnce(spec, j, Broken, false, {});
    } else {
      var target, marked := Resolve(spec, ref.s).value, seen + {ref.s};
      var (verdict, after) := Search(spec, target, marked);
      UnseenVisit(spec, j, ref.s, seen);
      SearchMeaning(spec, target, marked);
      if verdict == No {
        ExhaustedVisit(spec, ref.s, Envelope, false, seen);
        ExhaustedChain(spec, Envelope, false, seen, marked, after);
        assert ref.s in after - seen;
        if Reaches(spec, j, Envelope, false, seen) {
          var next := FirstStep(spec, j, Envelope, false, seen);
        }
      } else {
        Prepend(spec, j, target, if verdict == Yes then Envelope else Broken, false, {});
      }
    }
  }

  lemma {:induction false} ItemsMeaning(spec: Json, list: Json, items: seq<Json>, seen: set<string>)
    requires list.Arr? && forall x :: x in items ==> x in list.items
    ensures var (verdict, after) := SearchItems(spec, items, seen);
      && (verdict == Yes ==> Reachable(spec, list, Envelope))
      && (verdict == Crash ==> Reachable(spec, list, Broken))
      && (verdict == No ==> Exhausted(spec, Envelope, false, seen, after))
      && (verdict == No ==> forall x :: x in items ==> !Reaches(spec, x, Envelope, false, seen))
    decreases Unseen(spec, RefsOfItems(items), seen), items, 1
  {
    if items == [] {
    } else {
      var (verdict, after) := Search(spec, items[0], seen);
      UnseenShrinks(spec, Refs(items[0]), RefsOfItems(items), seen, seen);
      SearchMeaning(spec, items[0], seen);
      if verdict == No {
        UnseenShrinks(spec, RefsOfItems(items[1..]), RefsOfItems(items), seen, after);
        ItemsMeaning(spec, list, items[1..], after);
        var (rest, last) := SearchItems(spec, items[1..], after);
        if rest == No {
          ExhaustedChain(spec, Envelope, false, seen, after, last);
          forall x | x in items ensures !Reaches(spec, x, Envelope, false, seen) {
            if x in items[1..] && Reaches(spec, x, Envelope, false, seen) {
              ExhaustedUnneeded(spec, x, Envelope, false, seen, after);
            }
          }
        }
      } else {
        Prepend(spec, list, items[0], if verdict == Yes then Envelope else Broken, false, {});
      }
    }
  }

  lemma {:induction false} ValuesMeaning(spec: Json, dict: Json, fs: seq<Field>, seen: set<string>)
    requires dict.Obj? && !IsRef(dict) && forall f :: f in fs ==> f in dict.fields
    ensures var verdict := SearchValues(spec, fs, seen);
      && (verdict == Yes ==> Reachable(spec, dict, Envelope))
      && (verdict == Crash ==> Reachable(spec, dict, Broken))
      && (verdict == No ==> forall f :: f in fs ==> !Reaches(spec, f.value, Envelope, false, seen))
    decreases Unseen(spec, RefsOfFields(fs), seen), fs, 1
  {
    if fs == [] {
    } else {
      UnseenShrinks(spec, Refs(fs[0].value), RefsOfFields(fs), seen, seen);
      SearchMeaning(spec, fs[0].value, seen);
      var verdict := Search(spec, fs[0].value, seen).0;
      if verdict == No {
        UnseenShrinks(spec, RefsOfFields(fs[1..]), RefsOfFields(fs), seen, seen);
        ValuesMeaning(spec, dict, fs[1..], seen);
      } else {
        assert fs[0] in dict.fields;
        Prepend(spec, dict, fs[0].value, if verdict == Yes then Envelope else Broken, false, {});
      }
    }
  }

  /** The search of a schema decides reachability of the Envelope, whatever cycles the document has.
      It can only raise when some reference it may follow is broken. */
  lemma {:induction false} SearchDecidesReachability(spec: Json, schema: Json)
    ensures var verdict := Search(spec, schema, {}).0;
      && (verdict == Yes ==> Reachable(spec, schema, Envelope))
      && (verdict == No ==> !Reachable(spec, schema, Envelope))
      && (verdict == Crash ==> Reachable(spec, schema, Broken))
      && (!Reachable(spec, schema, Broken) ==> (verdict == Yes <==> Reachable(spec, schema, Envelope)))
  {
    SearchMeaning(spec, schema, {});
  }

  // ---------------------------------------------------------------- responses

  /** The response that a chain of references ends in. */
  ghost predicate EndsIn(spec: Json, response: Json, t: Json, seen: set<string>) {
    Reaches(spec, response, End(t), true, seen)
  }

  /** What a response offers as JSON, by its position. */
  ghost function MediaAt(t: Json): Option<Json> { At(t, [Key("content"), Key("application/json")]) }

  lemma {:induction false} MediaPosition(t: Json)
    ensures JsonContent(t) == if MediaAt(t).Some? then MediaAt(t).value else Null
  {
    assert [Key("content"), Key("application/json")][1..] == [Key("application/json")];
  }

  /** What the rule asks of a response: its chain of references ends in a dict that has no JSON content,
      or whose JSON schema leads to the Envelope. A chain that loops ends nowhere. */
  ghost predicate Conforms(spec: Json, response: Json) {
    exists t :: EndsIn(spec, response, t, {}) && t.Obj? &&
      (MediaAt(t).Some? && MediaAt(t).value.Obj? ==> Reachable(spec, Get(MediaAt(t).value, "schema"), Envelope))
  }

  /** Some reference the check of this response may follow cannot be followed. */
  ghost predicate Unsound(spec: Json, response: Json) {
    || Reaches(spec, response, BrokenLink, true, {})
    || exists t :: EndsIn(spec, response, t, {}) && MediaAt(t).Some?
         && Reachable(spec, Get(MediaAt(t).value, "schema"), Broken)
  }

  /** A chain that ends is judged by its end, although references are marked along the way. */
  lemma {:induction false} ChainJudgedByEnd(spec: Json, response: Json, t: Json, seen: set<string>)
    requires EndsIn(spec, response, t, seen)
    ensures SearchResponse(spec, response, seen) == ResponseBody(spec, t)
    decreases Unseen(spec, Refs(response), seen)
  {
    if IsRef(response) {
      var target := FirstStep(spec, response, End(t), true, seen);
      var ref := Get(response, "$ref").s;
      CutAtLastMark(spec, target, End(t), true, seen, seen + {ref});
      assert EndsIn(spec, target, t, seen + {ref});
      UnseenVisit(spec, response, ref, seen);
      ChainJudgedByEnd(spec, target, t, seen + {ref});
    } else if response != t {
      var next := FirstStep(spec, response, End(t), true, seen);
    }
  }

  /** A verdict other than No always comes from the end of the chain or from a link that cannot be followed. */
  lemma {:induction false} ChainVerdict(spec: Json, response: Json, seen: set<string>)
    requires SearchResponse(spec, response, seen) != No
    ensures (SearchResponse(spec, response, seen) == Crash && Reaches(spec, response, BrokenLink, true, {}))
         || exists t :: EndsIn(spec, response, t, {}) && ResponseBody(spec, t) == SearchResponse(spec, response, seen)
    decreases Unseen(spec, Refs(response), seen)
  {
    if !IsRef(response) {
      ReachedAtOnce(spec, response, End(response), true, {});
      assert EndsIn(spec, response, response, {});
    } else if Unresolved(spec, response) {
      ReachedAtOnce(spec, response, BrokenLink, true, {});
    } else {
      var ref := Get(response, "$ref").s;
      var target := Resolve(spec, ref).value;
      UnseenVisit(spec, response, ref, seen);
      ChainVerdict(spec, target, seen + {ref});
      if SearchResponse(spec, target, seen + {ref}) == Crash && Reaches(spec, target, BrokenLink, true, {}) {
        Prepend(spec, response, target, BrokenLink, true, {});
      } else {
        var t :| EndsIn(spec, target, t, {}) && ResponseBody(spec, t) == SearchResponse(spec, target, seen + {ref});
        Prepend(spec, response, target, End(t), true, {});
        assert EndsIn(spec, response, t, {});
      }
    }
  }

  /** The check of a response decides the rule; it can raise only on a reference that cannot be followed. */
  lemma {:induction false} ResponseDecidesRule(spec: Json, response: Json)
    ensures var verdict := SearchResponse(spec, response, {});
      && (verdict == Yes ==> Conforms(spec, response))
      && (verdict == No ==> !Conforms(spec, response))
      && (verdict == Crash ==> Unsound(spec, response))
      && (!Unsound(spec, response) ==> (verdict == Yes <==> Conforms(spec, response)))
  {
    var verdict := SearchResponse(spec, response, {});
    if verdict != No {
      ChainVerdict(spec, response, {});
      if verdict == Yes || !Reaches(spec, response, BrokenLink, true, {}) {
        var t :| EndsIn(spec, response, t, {}) && ResponseBody(spec, t) == verdict;
        MediaPosition(t);
        SearchDecidesReachability(spec, Get(JsonContent(t), "schema"));
      }
    } else if Conforms(spec, response) {
      var t :| EndsIn(spec, response, t, {}) && t.Obj? &&
        (MediaAt(t).Some? && MediaAt(t).value.Obj? ==> Reachable(spec, Get(MediaAt(t).value, "schema"), Envelope));
      MediaPosition(t);
      ChainJudgedByEnd(spec, response, t, {});
      SearchDecidesReachability(spec, Get(JsonContent(t), "schema"));
    }
  }
}
