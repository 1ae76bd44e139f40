/** Cardinality facts about finite sets that the quorum arguments share. */
module Sets {

  lemma SubsetCard<T>(a: set<T>, b: set<T>)
    requires a <= b
    ensures |a| <= |b|
  {
    if a != {} {
      var x :| x in a;
      SubsetCard(a - {x}, b - {x});
    }
  }

  /** The node identities 0, ..., n-1. */
  function Ids(n: nat): (r: set<int>)
    ensures forall i :: i in r <==> 0 <= i < n
    ensures |r| == n
  {
    if n == 0 then {} else Ids(n - 1) + {n - 1}
  }

  /** Two subsets of a universe overlap in at least the excess of their sizes. */
  lemma Overlap<T>(a: set<T>, b: set<T>, u: set<T>)
    requires a <= u && b <= u
    ensures |a * b| + |u| >= |a| + |b|
  {
    assert |a + b| == |a| + |b| - |a * b|;
    SubsetCard(a + b, u);
  }

  lemma Meet<T>(a: set<T>, b: set<T>, u: set<T>) returns (x: T)
    requires a <= u && b <= u && |a| + |b| > |u|
    ensures x in a && x in b
  {
    Overlap(a, b, u);
    x :| x in a * b;
  }

  lemma DisjointCard<T>(a: set<T>, b: set<T>, u: set<T>)
    requires a <= u && b <= u && a !! b
    ensures |a| + |b| <= |u|
  {
    assert |a + b| == |a| + |b|;
    SubsetCard(a + b, u);
  }

  /** A set with more members than a bad set has a member outside it. */
  lemma Outside<T>(a: set<T>, bad: set<T>) returns (x: T)
    requires |a| > |bad|
    ensures x in a && x !in bad
  {
    if a <= bad {
      SubsetCard(a, bad);
    }
    x :| x in a && x !in bad;
  }

  /** A function that is injective on a set keeps its size. */
  lemma {:induction false} ImageCard<S(!new), T(!new)>(f: S -> T, a: set<S>, b: set<T>)
    requires forall x, y :: x in a && y in a && f(x) == f(y) ==> x == y
    requires b == (set x | x in a :: f(x))
    ensures |b| == |a|
  {
    if a != {} {
      var x :| x in a;
      var a' := a - {x};
      var b' := set y | y in a' :: f(y);
      assert b == b' + {f(x)};
      assert f(x) !in b';
      ImageCard(f, a', b');
    }
  }

  lemma Member<T>(s: set<T>) returns (x: T)
    requires s != {}
    ensures x in s
  {
    x :| x in s;
  }

  /** Some member, in no particular order: how a Go loop ranges over a map. */
  method Pick<T>(s: set<T>) returns (x: T)
    requires s != {}
    ensures x in s
  {
    x :| x in s;
  }
}
