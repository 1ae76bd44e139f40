/** Plurality in a vote table (Isfrequent and Getfrequent of src/indexvaba/handler.go). */
module Frequency {
  import opened Sets
  import opened Quorum

  /** A vote table: who voted for which value. */
  type Votes = map<int, int>

  ghost function Supporters(j: Votes, v: int): set<int> {
    set k | k in j && j[k] == v
  }

  ghost function Freq(j: Votes, v: int): nat {
    |Supporters(j, v)|
  }

  ghost predicate MostFrequent(j: Votes, k: int) {
    forall v :: Freq(j, v) <= Freq(j, k)
  }

  // ------------------------------------------------------ the count loops

  /** The supporters of v among the voters counted so far. */
  ghost function SupportersIn(j: Votes, done: set<int>, v: int): set<int> {
    set k | k in done && k in j && j[k] == v
  }

  ghost function Counted(j: Votes, done: set<int>, v: int): nat {
    |SupportersIn(j, done, v)|
  }

  function CountOf(count: map<int, nat>, v: int): nat {
    if v in count then count[v] else 0
  }

  /** count and maxCount after the voters in done have been counted. */
  ghost predicate Tallied(j: Votes, done: set<int>, count: map<int, nat>, maxCount: nat) {
    && (forall v :: CountOf(count, v) == Counted(j, done, v))
    && (forall v :: v in count ==> 0 < count[v] <= maxCount)
    && (maxCount > 0 ==> exists v :: v in count && count[v] == maxCount)
    && (done != {} ==> maxCount > 0)
  }

  lemma CountOne(j: Votes, done: set<int>, k: int, v: int)
    requires k in j && k !in done
    ensures Counted(j, done + {k}, v) == Counted(j, done, v) + if j[k] == v then 1 else 0
  {
    var a, b := SupportersIn(j, done, v), SupportersIn(j, done + {k}, v);
    if j[k] == v {
      assert b == a + {k};
    } else {
      assert b == a;
    }
  }

  lemma TallyStep(j: Votes, done: set<int>, k: int, count: map<int, nat>, maxCount: nat)
    requires k in j && k !in done && Tallied(j, done, count, maxCount)
    ensures var c := CountOf(count, j[k]) + 1;
            Tallied(j, done + {k}, count[j[k] := c], if c > maxCount then c else maxCount)
  {
    var c := CountOf(count, j[k]) + 1;
    var count' := count[j[k] := c];
    forall v
      ensures CountOf(count', v) == Counted(j, done + {k}, v)
    {
      CountOne(j, done, k, v);
    }
    if c > maxCount {
      assert j[k] in count' && count'[j[k]] == c;
    } else {
      var v :| v in count && count[v] == maxCount;
      assert v in count' && (v == j[k] ==> c == maxCount + 1);
    }
  }

  /** When all voters are counted the tally is the frequency of each value, and maxCount their maximum. */
  lemma TallyDone(j: Votes, count: map<int, nat>, maxCount: nat, k: int)
    requires Tallied(j, j.Keys, count, maxCount)
    ensures CountOf(count, k) == Freq(j, k)
    ensures CountOf(count, k) == maxCount <==> MostFrequent(j, k)
  {
    forall v
      ensures CountOf(count, v) == Freq(j, v)
    {
      assert SupportersIn(j, j.Keys, v) == Supporters(j, v);
    }
    if maxCount > 0 {
      var v :| v in count && count[v] == maxCount;
      assert CountOf(count, v) == maxCount && Freq(j, v) == maxCount;
    }
  }

  lemma NoTally(j: Votes, count: map<int, nat>, maxCount: nat)
    requires Tallied(j, j.Keys, count, maxCount) && j == map[]
    ensures count.Keys == {}
  {
    forall v
      ensures v !in count
    {
      assert j.Keys == {};
      CountedNone(j, v);
    }
  }

  lemma CountedNone(j: Votes, v: int)
    ensures Counted(j, {}, v) == 0
  {
  }

  lemma TallyStart(j: Votes)
    ensures Tallied(j, {}, map[], 0)
  {
  }

  method Tally(j: Votes) returns (count: map<int, nat>, maxCount: nat)
    ensures Tallied(j, j.Keys, count, maxCount)
  {
    hide Tallied;
    count, maxCount := map[], 0;
    TallyStart(j);
    var todo := j.Keys;
    ghost var done := {};
    while todo != {}
      invariant done + todo == j.Keys && done !! todo
      invariant Tallied(j, done, count, maxCount)
      decreases |todo|
    {
      var k := Pick(todo);
      TallyStep(j, done, k, count, maxCount);
      var value := j[k];
      count := count[value := CountOf(count, value) + 1];
      if count[value] > maxCount {
        maxCount := count[value];
      }
      todo := todo - {k};
      done := done + {k};
    }
    assert done == j.Keys;
  }

  /** The loop says whether pre is a most frequent vote. */
  method Isfrequent(pre: int, justify: Votes) returns (b: bool)
    ensures b <==> MostFrequent(justify, pre)
  {
    var count, maxCount := Tally(justify);
    TallyDone(justify, count, maxCount, pre);
    b := CountOf(count, pre) == maxCount;
  }

  /** A most frequent vote, any one of them, with its number of supporters; (-1, -1) for no votes. */
  method Getfrequent(justify: Votes) returns (k: int, maxCount: int)
    ensures justify == map[] ==> k == -1 && maxCount == -1
    ensures justify != map[] ==> MostFrequent(justify, k) && maxCount == Freq(justify, k) > 0
  {
    var count, top := Tally(justify);
    var todo := count.Keys;
    if justify == map[] {
      NoTally(justify, count, top);
    } else {
      assert justify.Keys != {};
    }
    while todo != {}
      invariant todo <= count.Keys
      invariant top > 0 ==> exists v :: v in todo && count[v] == top
      decreases |todo|
    {
      var num := Pick(todo);
      if count[num] == top {
        TallyDone(justify, count, top, num);
        return num, top;
      }
      todo := todo - {num};
    }
    return -1, -1;
  }

  // ------------------------------------------------------------- the lock

  /** j and k never disagree on a voter. */
  ghost predicate Agree(j: Votes, k: Votes) {
    forall i :: i in j && i in k ==> j[i] == k[i]
  }

  /** When a quorum voted for k, k is the only most frequent vote of every table of at least a quorum
      of entries that agrees with those votes, provided 3 does not divide n. */
  lemma QuorumVoteIsLocked(n: nat, votes: Votes, k: int, j: Votes, w: int)
    requires n >= 1 && n % 3 != 0 && votes.Keys <= Ids(n) && j.Keys <= Ids(n)
    requires Freq(votes, k) >= Q(n) && Agree(votes, j) && |j.Keys| >= Q(n)
    ensures MostFrequent(j, w) <==> w == k
  {
    LockMargin(n, votes, k, j);
    forall v | v != k
      ensures Freq(j, v) < Freq(j, k)
    {
      LockedOut(n, votes, k, j, v);
    }
  }

  lemma LockMargin(n: nat, votes: Votes, k: int, j: Votes)
    requires votes.Keys <= Ids(n) && j.Keys <= Ids(n) && Agree(votes, j)
    ensures Freq(j, k) + n >= |j.Keys| + Freq(votes, k)
  {
    var s := Supporters(votes, k);
    Overlap(j.Keys, s, Ids(n));
    SubsetCard(j.Keys * s, Supporters(j, k));
  }

  lemma LockedOut(n: nat, votes: Votes, k: int, j: Votes, v: int)
    requires n >= 1 && n % 3 != 0 && votes.Keys <= Ids(n) && j.Keys <= Ids(n) && v != k
    requires Freq(votes, k) >= Q(n) && Agree(votes, j) && |j.Keys| >= Q(n)
    ensures Freq(j, v) < Freq(j, k)
  {
    QuorumArithmetic(n);
    LockMargin(n, votes, k, j);
    DisjointCard(Supporters(j, v), Supporters(votes, k), Ids(n));
  }

  /** The numbers from lo to hi-1. */
  function Range(lo: nat, hi: nat): (r: set<int>)
    requires lo <= hi
    ensures forall i :: i in r <==> lo <= i < hi
    ensures |r| == hi - lo
  {
    if lo == hi then {} else Range(lo, hi - 1) + {hi - 1}
  }

  /** The voters from lo to hi-1; those below the cut vote 1 and the others 0. */
  function Split(lo: nat, cut: nat, hi: nat): Votes
    requires lo <= cut <= hi
  {
    map i | i in Range(lo, hi) :: if i < cut then 1 else 0
  }

  lemma SplitCounts(lo: nat, cut: nat, hi: nat)
    requires lo <= cut <= hi
    ensures Split(lo, cut, hi).Keys == Range(lo, hi)
    ensures Freq(Split(lo, cut, hi), 1) == cut - lo && Freq(Split(lo, cut, hi), 0) == hi - cut
    ensures forall v :: v != 0 && v != 1 ==> Freq(Split(lo, cut, hi), v) == 0
  {
    var j := Split(lo, cut, hi);
    assert Supporters(j, 1) == Range(lo, cut);
    assert Supporters(j, 0) == Range(cut, hi);
    forall v | v != 0 && v != 1
      ensures Freq(j, v) == 0
    {
      assert Supporters(j, v) == {};
    }
  }

  /** The group size decides: when 3 divides n, a quorum of votes for 1 leaves a table of a quorum of
      entries on which 0 is just as frequent. */
  lemma LockTiesWhenThreeDivides(m: nat) returns (votes: Votes, j: Votes)
    requires m >= 1
    ensures votes.Keys <= Ids(3 * m) && j.Keys <= Ids(3 * m) && Agree(votes, j)
    ensures Freq(votes, 1) >= Q(3 * m) && |j.Keys| >= Q(3 * m)
    ensures MostFrequent(j, 0) && MostFrequent(j, 1)
  {
    var n := 3 * m;
    votes, j := Split(0, 2 * m, n), Split(m, 2 * m, n);
    SplitCounts(0, 2 * m, n);
    SplitCounts(m, 2 * m, n);
    assert F(n) == m - 1;
    assert Q(n) == 2 * m;
    hide Freq;
  }

  /** The lock holds for every vote table exactly when 3 does not divide n. */
  ghost predicate LockHolds(n: nat) {
    forall votes: Votes, k, j: Votes, w ::
      votes.Keys <= Ids(n) && j.Keys <= Ids(n) && Agree(votes, j) && Freq(votes, k) >= Q(n) && |j.Keys| >= Q(n) && MostFrequent(j, w)
      ==> w == k
  }

  lemma LockHoldsExactly(n: nat)
    requires n >= 1
    ensures LockHolds(n) <==> n % 3 != 0
  {
    if n % 3 != 0 {
      forall votes: Votes, k, j: Votes, w |
        votes.Keys <= Ids(n) && j.Keys <= Ids(n) && Agree(votes, j) && Freq(votes, k) >= Q(n) && |j.Keys| >= Q(n) && MostFrequent(j, w)
        ensures w == k
      {
        QuorumVoteIsLocked(n, votes, k, j, w);
      }
    } else {
      var m := n / 3;
      assert n == 3 * m;
      var votes, j := LockTiesWhenThreeDivides(m);
    }
  }
}
