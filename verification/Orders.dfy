/** The orders in which names and pairs of names are listed. */
module Orders {
  import opened Sorting
  import opened Text

  lemma {:induction false} StrOrder()
    ensures LinearOrder(StrLe)
  {
    forall a, b ensures StrLe(a, b) || StrLe(b, a) {
      StrLeTotal(a, b);
    }
    forall a, b, c | StrLe(a, b) && StrLe(b, c) ensures StrLe(a, c) {
      StrLeTransitive(a, b, c);
    }
    forall a, b | StrLe(a, b) && StrLe(b, a) ensures a == b {
      StrLeAntisymmetric(a, b);
    }
  }

  /** Tuples of strings compare first by their first components. */
  predicate PairLe(a: (string, string), b: (string, string)) {
    if a.0 == b.0 then StrLe(a.1, b.1) else StrLe(a.0, b.0)
  }

  lemma {:induction false} PairOrder()
    ensures LinearOrder(PairLe)
  {
    forall a, b ensures PairLe(a, b) || PairLe(b, a) {
      StrLeTotal(a.0, b.0);
      StrLeTotal(a.1, b.1);
    }
    forall a, b, c | PairLe(a, b) && PairLe(b, c) ensures PairLe(a, c) {
      PairLeTransitive(a, b, c);
    }
    forall a, b | PairLe(a, b) && PairLe(b, a) ensures a == b {
      PairLeAntisymmetric(a, b);
    }
  }

  lemma {:induction false} PairLeTotal(a: (string, string), b: (string, string))
    ensures PairLe(a, b) || PairLe(b, a)
  {
    StrLeTotal(a.0, b.0);
    StrLeTotal(a.1, b.1);
  }

  /** Comparing by a pair of names is a preorder in which only equal pairs tie. */
  lemma {:induction false} PreorderByPair<T(!new)>(key: T -> (string, string), le: (T, T) -> bool)
    requires forall x, y {:trigger le(x, y)} :: le(x, y) == PairLe(key(x), key(y))
    ensures Preorder(le) && forall x, y :: le(x, y) && le(y, x) ==> key(x) == key(y)
  {
    forall x, y ensures (le(x, y) || le(y, x)) && (le(x, y) && le(y, x) ==> key(x) == key(y)) {
      PairLeTotal(key(x), key(y));
      if PairLe(key(x), key(y)) && PairLe(key(y), key(x)) {
        PairLeAntisymmetric(key(x), key(y));
      }
    }
    forall x, y, z | le(x, y) && le(y, z) ensures le(x, z) {
      PairLeTransitive(key(x), key(y), key(z));
    }
  }

  lemma {:induction false} PairLeTransitive(a: (string, string), b: (string, string), c: (string, string))
    requires PairLe(a, b) && PairLe(b, c)
    ensures PairLe(a, c)
  {
    if a.0 == b.0 == c.0 {
      StrLeTransitive(a.1, b.1, c.1);
    } else if a.0 != b.0 && b.0 != c.0 {
      StrLeTransitive(a.0, b.0, c.0);
      if a.0 == c.0 {
        StrLeAntisymmetric(a.0, b.0);
      }
    }
  }

  lemma {:induction false} PairLeAntisymmetric(a: (string, string), b: (string, string))
    requires PairLe(a, b) && PairLe(b, a)
    ensures a == b
  {
    if a.0 == b.0 {
      StrLeAntisymmetric(a.1, b.1);
    } else {
      StrLeAntisymmetric(a.0, b.0);
    }
  }

  method SortedNames(s: set<string>) returns (r: seq<string>)
    ensures r == Listing(s, StrLe)
  {
    StrOrder();
    r := SortedSet(s, StrLe);
  }

  method SortedPairs(s: set<(string, string)>) returns (r: seq<(string, string)>)
    ensures r == Listing(s, PairLe)
  {
    PairOrder();
    r := SortedSet(s, PairLe);
  }
}
