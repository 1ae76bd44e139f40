/** The election of the constant-round agreement (src/mvba/constmvba/mvba.go). */
module Mvba {
  import opened Wrappers

  // -------------------------------------------------------------- shuffle

  function Swapped(s: seq<int>, i: nat, j: nat): (r: seq<int>)
    requires i < |s| && j < |s|
    ensures |r| == |s|
  {
    s[i := s[j]][j := s[i]]
  }

  /** rand.Shuffle from position i downwards; draw(i) is the generator's choice in 0, ..., i. */
  function Shuffled(s: seq<int>, i: nat, draw: nat -> nat): (r: seq<int>)
    requires i < |s| || s == []
    ensures |r| == |s|
    decreases i
  {
    if i == 0 || s == [] then s else Shuffled(Swapped(s, i, draw(i) % (i + 1)), i - 1, draw)
  }

  lemma SwapKeepsIds(s: seq<int>, i: nat, j: nat)
    requires i < |s| && j < |s|
    ensures multiset(Swapped(s, i, j)) == multiset(s)
  {
  }

  /** Every id stays, as often as it was there. */
  lemma {:induction false} ShuffleKeepsIds(s: seq<int>, i: nat, draw: nat -> nat)
    requires i < |s| || s == []
    ensures multiset(Shuffled(s, i, draw)) == multiset(s)
    decreases i
  {
    if i != 0 && s != [] {
      SwapKeepsIds(s, i, draw(i) % (i + 1));
      ShuffleKeepsIds(Swapped(s, i, draw(i) % (i + 1)), i - 1, draw);
    }
  }

  method Shuffle(a: array<int>, draw: nat -> nat)
    modifies a
    ensures a[..] == Shuffled(old(a[..]), if a.Length == 0 then 0 else a.Length - 1, draw)
  {
    if a.Length == 0 {
      return;
    }
    var i := a.Length - 1;
    while i > 0
      invariant 0 <= i < a.Length
      invariant Shuffled(a[..], i, draw) == Shuffled(old(a[..]), a.Length - 1, draw)
    {
      var j := draw(i) % (i + 1);
      ghost var before := a[..];
      a[i], a[j] := a[j], a[i];
      assert a[..] == Swapped(before, i, j);
      i := i - 1;
    }
  }

  // ------------------------------------------------------------- the loop

  /** The first round from r on whose binary agreement returned 1; n when there is none. */
  function FirstOne(outcome: nat -> int, r: nat, n: nat): (k: nat)
    requires r <= n
    ensures r <= k <= n
    decreases n - r
  {
    if r == n || outcome(r) == 1 then r else FirstOne(outcome, r + 1, n)
  }

  lemma {:induction false} FirstOneIsLeast(outcome: nat -> int, r: nat, n: nat)
    requires r <= n
    ensures var k := FirstOne(outcome, r, n);
            (k < n ==> outcome(k) == 1) && forall i :: r <= i < k ==> outcome(i) != 1
    decreases n - r
  {
    if r != n && outcome(r) != 1 {
      FirstOneIsLeast(outcome, r + 1, n);
    }
  }

  lemma FirstOneStep(outcome: nat -> int, r: nat, n: nat)
    requires r <= n
    ensures FirstOne(outcome, r, n) == if r == n || outcome(r) == 1 then r else FirstOne(outcome, r + 1, n)
  {
  }

  /** What the node proposes to the binary agreement of a round. */
  datatype Proposal = Proposal(instance: int, value: int)

  /** The proposals of rounds r to k, for the ids the permutation elects in them. */
  function Proposals(e: int, n: nat, permutation: seq<int>, astatus: set<int>, r: nat, k: nat): seq<Proposal>
    requires r <= k <= |permutation|
  {
    if r == k then []
    else Proposals(e, n, permutation, astatus, r, k - 1) + [ProposalFor(e, n, permutation, astatus, k - 1)]
  }

  lemma {:induction false} ProposalsFirst(e: int, n: nat, permutation: seq<int>, astatus: set<int>, r: nat, k: nat)
    requires r < k <= |permutation|
    ensures Proposals(e, n, permutation, astatus, r, k)
         == [ProposalFor(e, n, permutation, astatus, r)] + Proposals(e, n, permutation, astatus, r + 1, k)
    decreases k
  {
    if r + 1 < k {
      ProposalsFirst(e, n, permutation, astatus, r, k - 1);
    }
  }

  function GetInstanceID(n: nat, e: int, r: nat): int {
    r + n * e
  }

  lemma NoProposals(e: int, n: nat, permutation: seq<int>, astatus: set<int>, r: nat)
    requires r <= |permutation|
    ensures Proposals(e, n, permutation, astatus, r, r) == []
  {
  }

  function ProposalFor(e: int, n: nat, permutation: seq<int>, astatus: set<int>, r: nat): Proposal
    requires r < |permutation|
  {
    Proposal(GetInstanceID(n, e, r), if permutation[r] in astatus then 1 else 0)
  }

  function Min(a: nat, b: nat): nat {
    if a < b then a else b
  }

  /** What a node elects from its ids, its generator and the decisions of the binary agreements. */
  function Elected(ids: seq<int>, draw: nat -> nat, outcome: nat -> int): Option<int> {
    var permutation := Shuffled(ids, if ids == [] then 0 else |ids| - 1, draw);
    var r := FirstOne(outcome, 0, |ids|);
    if r < |ids| then Some(permutation[r]) else None
  }

  class MvbaNode {
    const n: nat
    var allids: array<int>
    var permutation: array<int>
    var astatus: set<int>
    var round: nat
    var curK: Option<int>
    var abastarted: bool
    var proposed: seq<Proposal>
    var decided: Option<int>

    constructor InitMVBA(numNodes: nat, ids: array<int>)
      requires ids.Length == numNodes
      ensures n == numNodes && allids == ids && permutation == ids && astatus == {}
      ensures round == 0 && curK == None && !abastarted && proposed == [] && decided == None
    {
      n, allids, permutation, astatus := numNodes, ids, ids, {};
      round, curK, abastarted, proposed, decided := 0, None, false, [], None;
    }

    /** The permutation is the array of ids itself, shuffled in place. */
    method GetRandomPermutation(draw: nat -> nat)
      modifies this`permutation, allids
      ensures permutation == allids
      ensures allids[..] == Shuffled(old(allids[..]), if allids.Length == 0 then 0 else allids.Length - 1, draw)
      ensures multiset(permutation[..]) == multiset(old(allids[..]))
    {
      ShuffleKeepsIds(allids[..], if allids.Length == 0 then 0 else allids.Length - 1, draw);
      permutation := allids;
      Shuffle(permutation, draw);
    }

    /** One election after the other, until a binary agreement returns 1: outcome(r) is the decision of
        round r. The recursion ends because each call that continues has raised the round. */
    method StartLoop(e: int, outcome: nat -> int)
      requires permutation.Length == n && round <= n
      modifies this`round, this`curK, this`abastarted, this`proposed, this`decided
      ensures round == FirstOne(outcome, old(round), n)
      ensures decided == if round < n then Some(permutation[round]) else old(decided)
      ensures curK == if old(round) == n then old(curK) else Some(permutation[Min(round, n - 1)])
      ensures abastarted <==> round < n && permutation[round] !in astatus
      ensures proposed == old(proposed) + Proposals(e, n, permutation[..], astatus, old(round), Min(round + 1, n))
      decreases n - round
    {
      hide Proposals, GetInstanceID, FirstOne;
      FirstOneStep(outcome, round, n);
      abastarted := false;
      var r := round;
      if r >= n {
        NoProposals(e, n, permutation[..], astatus, n);
        return;
      }
      var k := permutation[r];
      curK := Some(k);
      var abainstanceid := GetInstanceID(n, e, r);
      if k in astatus {
        proposed := proposed + [Proposal(abainstanceid, 1)];
      } else {
        abastarted := true;
        proposed := proposed + [Proposal(abainstanceid, 0)];
      }
      assert proposed == old(proposed) + [ProposalFor(e, n, permutation[..], astatus, r)];
      var value := outcome(r);
      NoProposals(e, n, permutation[..], astatus, r + 1);
      ProposalsFirst(e, n, permutation[..], astatus, r, Min(FirstOne(outcome, r, n) + 1, n));
      if value == 1 {
        decided := Some(k);
      } else {
        round := round + 1;
        StartLoop(e, outcome);
      }
    }

    /** The whole election: the permutation, then the loop. */
    method ProceedToIteration(e: int, draw: nat -> nat, outcome: nat -> int)
      requires allids.Length == n && round == 0
      modifies this`permutation, this`round, this`curK, this`abastarted, this`proposed, this`decided, allids
      ensures decided == if Elected(old(allids[..]), draw, outcome).Some? then Elected(old(allids[..]), draw, outcome) else old(decided)
      ensures round == FirstOne(outcome, 0, n) && permutation == allids
      ensures proposed == old(proposed) + Proposals(e, n, allids[..], astatus, 0, Min(round + 1, n))
      ensures allids[..] == Shuffled(old(allids[..]), if n == 0 then 0 else n - 1, draw)
    {
      GetRandomPermutation(draw);
      StartLoop(e, outcome);
    }

    /** One pass of MonitorWRBCStatus over a completed broadcast. The monitoring ends where the loop begins,
        so there is no current id yet and nothing is proposed. */
    method OnCompleted(instanceid: int, e: int)
      modifies this`astatus, this`proposed
      ensures astatus == old(astatus) + {instanceid}
      ensures proposed == old(proposed) + if curK == Some(instanceid) && abastarted then [Proposal(GetInstanceID(n, e, round), 1)] else []
    {
      astatus := astatus + {instanceid};
      RabaReprop(instanceid, e);
    }

    /** Once a late broadcast of the elected id completes, the node proposes 1 after all. */
    method RabaReprop(instanceid: int, e: int)
      modifies this`proposed
      ensures proposed == old(proposed) + if curK == Some(instanceid) && abastarted then [Proposal(GetInstanceID(n, e, round), 1)] else []
    {
      if curK == None || instanceid != curK.value {
        return;
      }
      if abastarted {
        proposed := proposed + [Proposal(GetInstanceID(n, e, round), 1)];
      }
    }
  }

  /** A proposal of 1 for a round is for an id whose broadcast the node had completed. */
  lemma {:induction false} OneIsCompleted(e: int, n: nat, permutation: seq<int>, astatus: set<int>, k: nat, r: nat)
    requires k <= |permutation| && Proposal(GetInstanceID(n, e, r), 1) in Proposals(e, n, permutation, astatus, 0, k)
    ensures r < k && permutation[r] in astatus
  {
    if k > 0 && Proposal(GetInstanceID(n, e, r), 1) != ProposalFor(e, n, permutation, astatus, k - 1) {
      OneIsCompleted(e, n, permutation, astatus, k - 1, r);
    }
  }

  // ----------------------------------------------------------- the result

  /** The election fails exactly when no binary agreement returned 1, and otherwise returns one of the
      ids, the one that the shuffle puts at the least round that did. */
  lemma ElectionIsLeastRound(ids: seq<int>, draw: nat -> nat, outcome: nat -> int)
    ensures Elected(ids, draw, outcome) == None <==> forall r: nat :: r < |ids| ==> outcome(r) != 1
    ensures Elected(ids, draw, outcome).Some? ==> exists r: nat :: LeastRound(outcome, r, |ids|) && Elected(ids, draw, outcome).value == Shuffled(ids, |ids| - 1, draw)[r]
    ensures Elected(ids, draw, outcome).Some? ==> Elected(ids, draw, outcome).value in ids
  {
    FirstOneIsLeast(outcome, 0, |ids|);
    var r := FirstOne(outcome, 0, |ids|);
    if r < |ids| {
      assert LeastRound(outcome, r, |ids|);
      ShuffledMember(ids, draw, r);
    }
  }

  predicate LeastRound(outcome: nat -> int, r: nat, n: nat) {
    r < n && outcome(r) == 1 && forall i: nat :: i < r ==> outcome(i) != 1
  }

  lemma ShuffledMember(ids: seq<int>, draw: nat -> nat, r: nat)
    requires r < |ids|
    ensures Shuffled(ids, |ids| - 1, draw)[r] in ids
  {
    hide Shuffled;
    ShuffleKeepsIds(ids, |ids| - 1, draw);
    SameMembers(Shuffled(ids, |ids| - 1, draw), ids, r);
  }

  lemma SameMembers(p: seq<int>, ids: seq<int>, r: nat)
    requires multiset(p) == multiset(ids) && r < |p|
    ensures p[r] in ids
  {
    assert p[r] in multiset(p);
    assert p[r] in multiset(ids);
  }
}
