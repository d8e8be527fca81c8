/** Lists without repetition. */
module Distinctness {

  predicate NoDuplicates<T(==)>(xs: seq<T>) {
    forall i, j :: 0 <= i < j < |xs| ==> xs[i] != xs[j]
  }

  function Members<T(==)>(xs: seq<T>): set<T> { set x | x in xs }

  lemma {:induction false} SnocDistinct<T>(xs: seq<T>, x: T)
    ensures NoDuplicates(xs + [x]) <==> NoDuplicates(xs) && x !in xs
    ensures Members(xs + [x]) == Members(xs) + {x}
  {
    var ys := xs + [x];
    assert ys[|xs|] == x && forall i :: 0 <= i < |xs| ==> ys[i] == xs[i];
    if NoDuplicates(ys) {
      forall i, j | 0 <= i < j < |xs| ensures xs[i] != xs[j] {
        assert ys[i] != ys[j];
      }
      forall i | 0 <= i < |xs| ensures xs[i] != x {
        assert ys[i] != ys[|xs|];
      }
    }
  }

  lemma {:induction false} AppendDistinct<T>(xs: seq<T>, ys: seq<T>)
    ensures NoDuplicates(xs + ys) <==> NoDuplicates(xs) && NoDuplicates(ys) && Members(xs) !! Members(ys)
    ensures Members(xs + ys) == Members(xs) + Members(ys)
  {
    if ys == [] {
      assert xs + ys == xs;
    } else {
      var init, last := ys[..|ys| - 1], ys[|ys| - 1];
      assert ys == init + [last] && xs + ys == (xs + init) + [last];
      AppendDistinct(xs, init);
      SnocDistinct(init, last);
      SnocDistinct(xs + init, last);
    }
  }

  lemma {:induction false} PrefixDistinct<T>(xs: seq<T>, n: nat)
    requires n <= |xs| && NoDuplicates(xs)
    ensures NoDuplicates(xs[..n])
  {
  }

  /** `len(xs) == len(set(xs))` says that nothing repeats. */
  lemma {:induction false} SetSize<T>(xs: seq<T>)
    ensures |Members(xs)| <= |xs|
    ensures |Members(xs)| == |xs| <==> NoDuplicates(xs)
  {
    if xs == [] {
    } else {
      var init, last := xs[..|xs| - 1], xs[|xs| - 1];
      assert xs == init + [last];
      SetSize(init);
      SnocDistinct(init, last);
    }
  }

  lemma {:induction false} DistinctCounts<T(!new)>(xs: seq<T>)
    ensures NoDuplicates(xs) <==> forall x :: multiset(xs)[x] <= 1
  {
    if xs == [] {
    } else {
      var n := |xs| - 1;
      var init, last := xs[..n], xs[n];
      assert xs == init + [last];
      DistinctCounts(init);
      if NoDuplicates(xs) {
        forall x ensures multiset(xs)[x] <= 1 {
          assert x == last ==> last !in init;
        }
      }
      if forall x :: multiset(xs)[x] <= 1 {
        forall x ensures multiset(init)[x] <= 1 {
          assert multiset(init)[x] <= multiset(xs)[x];
        }
        assert multiset(xs)[last] == multiset(init)[last] + 1;
        assert last !in multiset(init);
      }
    }
  }

  /** Whether something repeats does not depend on the order of a list. */
  lemma {:induction false} DistinctPermutation<T(!new)>(a: seq<T>, b: seq<T>)
    requires multiset(a) == multiset(b)
    ensures NoDuplicates(a) <==> NoDuplicates(b)
    ensures Members(a) == Members(b)
  {
    DistinctCounts(a);
    DistinctCounts(b);
    forall x ensures x in a <==> x in b {
      assert x in a <==> x in multiset(a);
    }
  }
}
