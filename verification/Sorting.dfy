/** Stable sorting by a total preorder, as Python's `sorted` and `list.sort` do it. */
module Sorting {

  ghost predicate Preorder<T(!new)>(le: (T, T) -> bool) {
    && (forall x, y :: le(x, y) || le(y, x))
    && (forall x, y, z :: le(x, y) && le(y, z) ==> le(x, z))
  }

  /** Elements of `xs` that tie are equal, so that their sorted order is unique. */
  ghost predicate NoTies<T(!new)>(xs: seq<T>, le: (T, T) -> bool) {
    forall x, y :: x in xs && y in xs && le(x, y) && le(y, x) ==> x == y
  }

  ghost predicate Ordered<T(!new)>(xs: seq<T>, le: (T, T) -> bool) {
    forall i, j :: 0 <= i < j < |xs| ==> le(xs[i], xs[j])
  }

  function Insert<T(!new)>(x: T, xs: seq<T>, le: (T, T) -> bool): (r: seq<T>)
    ensures multiset(r) == multiset(xs) + multiset{x}
  {
    if xs == [] then [x]
    else if le(x, xs[0]) then [x] + xs
    else
      assert xs == [xs[0]] + xs[1..];
      [xs[0]] + Insert(x, xs[1..], le)
  }

  function Sort<T(!new)>(xs: seq<T>, le: (T, T) -> bool): (r: seq<T>)
    ensures multiset(r) == multiset(xs)
    ensures |r| == |xs|
    ensures forall x :: x in r <==> x in xs
  {
    if xs == [] then []
    else
      assert xs == [xs[0]] + xs[1..];
      var r := Insert(xs[0], Sort(xs[1..], le), le);
      SameMembers(r, xs);
      r
  }

  lemma {:induction false} SameMembers<T(!new)>(a: seq<T>, b: seq<T>)
    requires multiset(a) == multiset(b)
    ensures |a| == |b|
    ensures forall x :: x in a <==> x in b
  {
    assert |a| == |multiset(a)| == |multiset(b)| == |b|;
    forall x ensures x in a <==> x in b {
      assert x in a <==> x in multiset(a);
    }
  }

  lemma {:induction false} InsertOrdered<T(!new)>(x: T, xs: seq<T>, le: (T, T) -> bool)
    requires Preorder(le) && Ordered(xs, le)
    ensures Ordered(Insert(x, xs, le), le)
  {
    if xs != [] && !le(x, xs[0]) {
      var rest := Insert(x, xs[1..], le);
      InsertOrdered(x, xs[1..], le);
      forall j | 0 <= j < |rest| ensures le(xs[0], rest[j]) {
        assert rest[j] in multiset(rest);
        assert rest[j] == x || rest[j] in xs[1..];
      }
    }
  }

  lemma {:induction false} SortOrdered<T(!new)>(xs: seq<T>, le: (T, T) -> bool)
    requires Preorder(le)
    ensures Ordered(Sort(xs, le), le)
  {
    if xs == [] {
    } else {
      SortOrdered(xs[1..], le);
      InsertOrdered(xs[0], Sort(xs[1..], le), le);
    }
  }

  /** Two ordered arrangements of the same tie-free elements are the same list. */
  lemma {:induction false} OrderedUnique<T(!new)>(a: seq<T>, b: seq<T>, le: (T, T) -> bool)
    requires multiset(a) == multiset(b)
    requires Ordered(a, le) && Ordered(b, le) && NoTies(a, le)
    ensures a == b
    decreases |a|
  {
    SameMembers(a, b);
    if a != [] {
      OrderedHead(a, b, le);
      SplitHead(a);
      SplitHead(b);
      OrderedUnique(a[1..], b[1..], le);
    }
  }

  lemma {:induction false} SplitHead<T(!new)>(a: seq<T>)
    requires a != []
    ensures multiset(a[1..]) == multiset(a) - multiset{a[0]}
    ensures a == [a[0]] + a[1..]
  {
    assert a == [a[0]] + a[1..];
  }

  lemma {:induction false} OrderedHead<T(!new)>(a: seq<T>, b: seq<T>, le: (T, T) -> bool)
    requires a != [] && b != [] && a[0] in b && b[0] in a
    requires Ordered(a, le) && Ordered(b, le) && NoTies(a, le)
    ensures a[0] == b[0]
  {
    var i :| 0 <= i < |b| && b[i] == a[0];
    var j :| 0 <= j < |a| && a[j] == b[0];
    if i != 0 && j != 0 {
      assert le(b[0], b[i]) && le(a[0], a[j]);
    }
  }

  /** Sorting forgets the order of its argument whenever no two elements tie. */
  lemma {:induction false} SortPermutation<T(!new)>(a: seq<T>, b: seq<T>, le: (T, T) -> bool)
    requires Preorder(le) && multiset(a) == multiset(b) && NoTies(a, le)
    ensures Sort(a, le) == Sort(b, le)
  {
    SortOrdered(a, le);
    SortOrdered(b, le);
    OrderedUnique(Sort(a, le), Sort(b, le), le);
  }

  lemma {:induction false} SortFixed<T(!new)>(a: seq<T>, le: (T, T) -> bool)
    requires Preorder(le) && Ordered(a, le) && NoTies(a, le)
    ensures Sort(a, le) == a
  {
    SortOrdered(a, le);
    OrderedUnique(Sort(a, le), a, le);
  }

  // ---------------------------------------------------------------- sorting and mapping

  function Map<S, T>(xs: seq<S>, f: S -> T): (r: seq<T>)
    ensures |r| == |xs| && forall i :: 0 <= i < |xs| ==> r[i] == f(xs[i])
  {
    if xs == [] then [] else [f(xs[0])] + Map(xs[1..], f)
  }

  lemma {:induction false} MapInsert<S(!new), T(!new)>(x: S, xs: seq<S>, f: S -> T, le: (S, S) -> bool, le': (T, T) -> bool)
    requires forall y, z :: le'(f(y), f(z)) == le(y, z)
    ensures Map(Insert(x, xs, le), f) == Insert(f(x), Map(xs, f), le')
  {
    if xs == [] {
      assert Map([x], f) == [f(x)] + Map([], f);
    } else if le(x, xs[0]) {
      assert ([x] + xs)[1..] == xs;
    } else {
      var rest := Insert(x, xs[1..], le);
      MapInsert(x, xs[1..], f, le, le');
      assert ([xs[0]] + rest)[1..] == rest;
      assert Map(xs, f)[1..] == Map(xs[1..], f);
    }
  }

  /** Sorting by a key and then projecting is projecting and then sorting by the same key. */
  lemma {:induction false} SortMapped<S(!new), T(!new)>(xs: seq<S>, f: S -> T, le: (S, S) -> bool, le': (T, T) -> bool)
    requires forall y, z :: le'(f(y), f(z)) == le(y, z)
    ensures Sort(Map(xs, f), le') == Map(Sort(xs, le), f)
  {
    if xs == [] {
    } else {
      SortMapped(xs[1..], f, le, le');
      MapInsert(xs[0], Sort(xs[1..], le), f, le, le');
      assert Map(xs, f)[1..] == Map(xs[1..], f);
    }
  }

  lemma {:induction false} TakeOut<T>(b: seq<T>, i: nat)
    requires i < |b|
    ensures multiset(b) == multiset(b[..i] + b[i + 1..]) + multiset{b[i]}
  {
    assert b == b[..i] + [b[i]] + b[i + 1..];
  }

  lemma {:induction false} SameRest<T>(a: seq<T>, b: seq<T>, i: nat)
    requires multiset(a) == multiset(b) && a != [] && i < |b| && b[i] == a[0]
    ensures multiset(a[1..]) == multiset(b[..i] + b[i + 1..])
  {
    TakeOut(b, i);
    assert a == [a[0]] + a[1..];
    assert multiset(a) == multiset{a[0]} + multiset(a[1..]);
    assert multiset(a[1..]) == multiset(a) - multiset{a[0]};
  }

  /** Projecting permutations gives permutations. */
  lemma {:induction false} MapPermutation<S(!new), T>(a: seq<S>, b: seq<S>, f: S -> T)
    requires multiset(a) == multiset(b)
    ensures multiset(Map(a, f)) == multiset(Map(b, f))
    decreases |a|
  {
    SameMembers(a, b);
    if a != [] {
      assert a[0] in b;
      var i :| 0 <= i < |b| && b[i] == a[0];
      SameRest(a, b, i);
      MapPermutation(a[1..], b[..i] + b[i + 1..], f);
      MapTakeOut(b, i, f);
      assert Map(a, f) == [f(a[0])] + Map(a[1..], f);
    }
  }

  lemma {:induction false} MapTakeOut<S, T>(b: seq<S>, i: nat, f: S -> T)
    requires i < |b|
    ensures multiset(Map(b, f)) == multiset(Map(b[..i] + b[i + 1..], f)) + multiset{f(b[i])}
  {
    var m, n := Map(b, f), Map(b[..i] + b[i + 1..], f);
    TakeOut(m, i);
    assert n == m[..i] + m[i + 1..];
  }

  // ---------------------------------------------------------------- sorted listings of sets

  ghost predicate LinearOrder<T(!new)>(le: (T, T) -> bool) {
    Preorder(le) && forall x, y :: le(x, y) && le(y, x) ==> x == y
  }

  ghost predicate IsLeast<T(!new)>(m: T, s: set<T>, le: (T, T) -> bool) {
    m in s && forall x :: x in s ==> le(m, x)
  }

  lemma {:induction false} LeastExists<T(!new)>(s: set<T>, le: (T, T) -> bool) returns (m: T)
    requires LinearOrder(le) && s != {}
    ensures IsLeast(m, s, le)
  {
    m :| m in s;
    var rest := s - {m};
    if rest != {} {
      var n := LeastExists(rest, le);
      if !le(m, n) {
        m := n;
      }
      forall x | x in rest ensures le(m, x) {
        assert le(n, x);
      }
    }
    forall x | x in s ensures le(m, x) {
      assert le(m, m);
      assert x in rest || le(m, x);
    }
  }

  lemma {:induction false} LeastUnique<T(!new)>(m: T, n: T, s: set<T>, le: (T, T) -> bool)
    requires LinearOrder(le) && IsLeast(m, s, le) && IsLeast(n, s, le)
    ensures m == n
  {
  }

  /** The least element, where there is one. */
  ghost function Least<T(!new)>(s: set<T>, le: (T, T) -> bool): (m: T)
    requires s != {}
    ensures m in s && ((exists n :: IsLeast(n, s, le)) ==> IsLeast(m, s, le))
  {
    var any :| any in s;
    if exists n :: IsLeast(n, s, le) then
      var m :| IsLeast(m, s, le);
      m
    else
      any
  }

  /** `sorted(s)` for a set. */
  ghost function Listing<T(!new)>(s: set<T>, le: (T, T) -> bool): (r: seq<T>)
    ensures forall x :: x in r <==> x in s
    ensures |r| == |s|
  {
    if s == {} then [] else [Least(s, le)] + Listing(s - {Least(s, le)}, le)
  }

  lemma {:induction false} LeastIsLeast<T(!new)>(s: set<T>, le: (T, T) -> bool)
    requires LinearOrder(le) && s != {}
    ensures IsLeast(Least(s, le), s, le)
  {
    var m := LeastExists(s, le);
  }

  lemma {:induction false} ListingOrdered<T(!new)>(s: set<T>, le: (T, T) -> bool)
    requires LinearOrder(le)
    ensures Ordered(Listing(s, le), le)
  {
    if s != {} {
      LeastIsLeast(s, le);
      ListingOrdered(s - {Least(s, le)}, le);
    }
  }

  /** Selection of the least element: an element that no element of the set precedes. */
  method TakeLeast<T(!new,==)>(s: set<T>, le: (T, T) -> bool) returns (m: T)
    requires LinearOrder(le) && s != {}
    ensures m == Least(s, le)
  {
    m :| m in s;
    var rest := s - {m};
    while rest != {}
      invariant m in s && rest <= s && forall x :: x in s - rest ==> le(m, x)
      decreases rest
    {
      var x :| x in rest;
      if !le(m, x) {
        m := x;
      }
      rest := rest - {x};
    }
    LeastIsLeast(s, le);
    LeastUnique(m, Least(s, le), s, le);
  }

  lemma {:induction false} ListingStep<T(!new)>(done: seq<T>, s: set<T>, le: (T, T) -> bool)
    requires s != {}
    ensures done + Listing(s, le) == done + [Least(s, le)] + Listing(s - {Least(s, le)}, le)
  {
  }

  method SortedSet<T(!new,==)>(s: set<T>, le: (T, T) -> bool) returns (r: seq<T>)
    requires LinearOrder(le)
    ensures r == Listing(s, le)
  {
    var rest := s;
    r := [];
    while rest != {}
      invariant Listing(s, le) == r + Listing(rest, le)
      decreases rest
    {
      var m := TakeLeast(rest, le);
      ListingStep(r, rest, le);
      r := r + [m];
      rest := rest - {m};
    }
  }
}
