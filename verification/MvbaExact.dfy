/** That the election leaves nothing out: the shuffle reaches every ordering of the ids, and a node proposes 1
    in a round exactly when it has completed the broadcast of the id that the round elects. */
module MvbaExact {
  import opened Mvba

  // ------------------------------------------------------------ the shuffle

  /** Draws that are the generator's choices in 0, ..., k at every position k. */
  ghost predicate InRange(draw: nat -> nat) {
    forall k: nat :: draw(k) <= k
  }

  /** Only the draws at the positions up to i matter. */
  lemma {:induction false} DrawsBelow(s: seq<int>, i: nat, d: nat -> nat, e: nat -> nat)
    requires (i < |s| || s == []) && forall k: nat :: k <= i ==> d(k) == e(k)
    ensures Shuffled(s, i, d) == Shuffled(s, i, e)
    decreases i
  {
    if i != 0 && s != [] {
      DrawsBelow(Swapped(s, i, d(i) % (i + 1)), i - 1, d, e);
    }
  }

  lemma OneDraw(s: seq<int>, i: nat, j: nat, d: nat -> nat)
    requires 0 < i < |s| && j <= i
    ensures var e := (k: nat) => if k == i then j else d(k); Shuffled(s, i, e) == Shuffled(Swapped(s, i, j), i - 1, d)
  {
    var e := (k: nat) => if k == i then j else d(k);
    assert e(i) % (i + 1) == j;
    DrawsBelow(Swapped(s, i, j), i - 1, e, d);
  }

  /** s and t hold the same ids up to position i, each as often, and the same from there on. */
  predicate SameUpTo(s: seq<int>, t: seq<int>, i: nat) {
    i < |s| == |t| && multiset(s[..i + 1]) == multiset(t[..i + 1]) && s[i + 1..] == t[i + 1..]
  }

  lemma FindLast(s: seq<int>, t: seq<int>, i: nat) returns (j: nat)
    requires SameUpTo(s, t, i)
    ensures j <= i && s[j] == t[i]
  {
    assert t[..i + 1][i] == t[i];
    assert t[i] in multiset(t[..i + 1]);
    assert t[i] in s[..i + 1];
    j :| 0 <= j < i + 1 && s[..i + 1][j] == t[i];
  }

  lemma Cancel(a: multiset<int>, b: multiset<int>, x: int)
    requires a + multiset{x} == b + multiset{x}
    ensures a == b
  {
    assert a == (a + multiset{x}) - multiset{x};
    assert b == (b + multiset{x}) - multiset{x};
  }

  lemma PrefixMatches(s: seq<int>, t: seq<int>, i: nat, j: nat)
    requires SameUpTo(s, t, i) && j <= i && s[j] == t[i]
    ensures multiset(Swapped(s, i, j)[..i]) == multiset(t[..i])
  {
    var w := Swapped(s, i, j);
    var a, b := s[..i + 1], w[..i + 1];
    assert b == Swapped(a, i, j);
    SwapKeepsIds(a, i, j);
    assert b == w[..i] + [t[i]] && t[..i + 1] == t[..i] + [t[i]];
    hide Swapped;
    assert multiset(b) == multiset(w[..i]) + multiset{t[i]};
    assert multiset(t[..i + 1]) == multiset(t[..i]) + multiset{t[i]};
    Cancel(multiset(w[..i]), multiset(t[..i]), t[i]);
  }

  lemma SwapMatches(s: seq<int>, t: seq<int>, i: nat, j: nat)
    requires 0 < i && SameUpTo(s, t, i) && j <= i && s[j] == t[i]
    ensures SameUpTo(Swapped(s, i, j), t, i - 1)
  {
    PrefixMatches(s, t, i, j);
    var w := Swapped(s, i, j);
    assert w[i..] == [t[i]] + s[i + 1..] && t[i..] == [t[i]] + t[i + 1..];
  }

  lemma {:induction false} ReachUpTo(s: seq<int>, t: seq<int>, i: nat) returns (draw: nat -> nat)
    requires SameUpTo(s, t, i)
    ensures InRange(draw) && Shuffled(s, i, draw) == t
    decreases i
  {
    if i == 0 {
      draw := (k: nat) => 0;
      assert s[..1] == [s[0]] && t[..1] == [t[0]];
      assert s[0] in multiset(t[..1]);
      assert s == s[..1] + s[1..] && t == t[..1] + t[1..];
    } else {
      var j := FindLast(s, t, i);
      SwapMatches(s, t, i, j);
      var d := ReachUpTo(Swapped(s, i, j), t, i - 1);
      draw := (k: nat) => if k == i then j else d(k);
      OneDraw(s, i, j, d);
      hide Shuffled, Swapped, SameUpTo;
      assert forall k: nat :: draw(k) <= k;
    }
  }

  /** Every ordering of the ids is what some choices of the generator make of them, and nothing else is. */
  lemma ShuffleReaches(ids: seq<int>, t: seq<int>)
    ensures multiset(t) == multiset(ids) <==>
      exists draw: nat -> nat :: InRange(draw) && Shuffled(ids, if ids == [] then 0 else |ids| - 1, draw) == t
  {
    var i := if ids == [] then 0 else |ids| - 1;
    if multiset(t) == multiset(ids) {
      assert |t| == |multiset(t)| == |multiset(ids)| == |ids|;
      if ids == [] {
        var draw := (k: nat) => 0;
        assert InRange(draw) && Shuffled(ids, i, draw) == t;
      } else {
        assert ids[..i + 1] == ids && t[..i + 1] == t;
        var draw := ReachUpTo(ids, t, i);
      }
    }
    forall draw: nat -> nat | Shuffled(ids, i, draw) == t
      ensures multiset(t) == multiset(ids)
    {
      ShuffleKeepsIds(ids, i, draw);
    }
  }

  // ---------------------------------------------------------- the proposals

  predicate ProposesIn(p: Proposal, e: int, n: nat, r: nat, completed: bool) {
    p.instance == r + n * e && (p.value == 1 <==> completed) && (p.value == 0 <==> !completed)
  }

  lemma ProposalIs(e: int, n: nat, permutation: seq<int>, astatus: set<int>, r: nat)
    requires r < |permutation|
    ensures ProposesIn(ProposalFor(e, n, permutation, astatus, r), e, n, r, permutation[r] in astatus)
  {
  }

  /** One proposal for each round, in order, to that round's agreement of the epoch: 1 exactly when the id that
      the round elects is completed. */
  lemma {:induction false} ProposalsExactly(e: int, n: nat, permutation: seq<int>, astatus: set<int>, r: nat, k: nat)
    requires r <= k <= |permutation|
    ensures var ps := Proposals(e, n, permutation, astatus, r, k);
      |ps| == k - r && forall i :: 0 <= i < |ps| ==> ProposesIn(ps[i], e, n, r + i, permutation[r + i] in astatus)
    decreases k
  {
    hide ProposesIn, ProposalFor;
    if r < k {
      ProposalsExactly(e, n, permutation, astatus, r, k - 1);
      ProposalIs(e, n, permutation, astatus, k - 1);
    }
  }

  lemma Multiples(n: nat, x: int)
    ensures x >= 1 ==> n * x >= n
    ensures x <= -1 ==> n * x <= -(n as int)
  {
    if x >= 1 {
      assert n * (x - 1) >= 0;
    } else if x <= -1 {
      assert n * (x + 1) <= 0;
    }
  }

  /** The agreements of different rounds or epochs are different instances. */
  lemma InstancesApart(e: int, r: nat, d: int, q: nat, n: nat)
    requires r < n && q < n
    ensures GetInstanceID(n, e, r) == GetInstanceID(n, d, q) <==> r == q && e == d
  {
    var x := e - d;
    assert n * e == n * d + n * x;
    Multiples(n, x);
  }
}
