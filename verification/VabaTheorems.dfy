/** What the index agreement and the common subset guarantee over whole runs. */
module VabaTheorems {
  import opened Wrappers
  import opened Sets
  import opened Quorum
  import opened Frequency
  import opened Vaba
  import opened VabaSystem

  ghost predicate AllPropose(s: Sys, v: int, k: int) {
    forall i :: i in ProposalsAt(s, v) ==> ProposalsAt(s, v)[i].pre == k
  }

  ghost predicate AllVote(s: Sys, v: int, k: int) {
    forall i :: i in VotesAt(s.votes, v) ==> VotesAt(s.votes, v)[i] == k
  }

  lemma JustifyIsVoted(n: nat, s: Sys, v: int, i: int)
    requires Inv(n, s) && i in ProposalsAt(s, v) && v > 0
    ensures var j := ProposalsAt(s, v)[i].justify;
      (j.Keys <= Ids(n) && VotesAt(s.votes, v - 1).Keys <= Ids(n) && Agree(VotesAt(s.votes, v - 1), j) && |j.Keys| >= Q(n))
    ensures MostFrequent(ProposalsAt(s, v)[i].justify, ProposalsAt(s, v)[i].pre)
    ensures Backed(s.votes, v - 1, ProposalsAt(s, v)[i].justify)
  {
    assert ProposalOk(n, s, v, ProposalsAt(s, v)[i]);
    hide NodeOk, Proposed, Good, MostFrequent;
  }

  /** A quorum for k settles the proposals of the next view. */
  lemma LockedNext(n: nat, s: Sys, v: int, k: int)
    requires Inv(n, s) && n >= 1 && n % 3 != 0 && Freq(VotesAt(s.votes, v), k) >= Q(n) && v + 1 > 0
    ensures AllPropose(s, v + 1, k)
  {
    var w := v + 1;
    forall i | i in ProposalsAt(s, w)
      ensures ProposalsAt(s, w)[i].pre == k
    {
      JustifyIsVoted(n, s, w, i);
      var p := ProposalsAt(s, w)[i];
      QuorumVoteIsLocked(n, VotesAt(s.votes, v), k, p.justify, p.pre);
    }
  }

  lemma ProposalsDecideVotes(n: nat, s: Sys, v: int, k: int)
    requires Inv(n, s) && AllPropose(s, v, k)
    ensures AllVote(s, v, k)
  {
  }

  lemma VotesDecideProposals(n: nat, s: Sys, v: int, k: int)
    requires Inv(n, s) && n >= 1 && AllVote(s, v, k) && v + 1 > 0
    ensures AllPropose(s, v + 1, k)
  {
    var w := v + 1;
    forall i | i in ProposalsAt(s, w)
      ensures ProposalsAt(s, w)[i].pre == k
    {
      JustifyIsVoted(n, s, w, i);
      var p := ProposalsAt(s, w)[i];
      assert |p.justify| == |p.justify.Keys|;
      FrequentIsVoted(n, p.justify, p.pre);
      var l :| l in p.justify && p.justify[l] == p.pre;
      assert VotesAt(s.votes, v)[l] == k;
    }
  }

  /** The lock carries from view to view: after a quorum for k in view v, every proposal and every
      vote of every later view is k. */
  lemma {:induction false} LockCarries(n: nat, s: Sys, v: int, k: int, w: int)
    requires Inv(n, s) && n >= 1 && n % 3 != 0 && Freq(VotesAt(s.votes, v), k) >= Q(n) && 0 <= v < w
    ensures AllPropose(s, w, k) && AllVote(s, w, k)
    decreases w
  {
    hide Inv, AllPropose, AllVote;
    if w == v + 1 {
      LockedNext(n, s, v, k);
    } else {
      LockCarries(n, s, v, k, w - 1);
      VotesDecideProposals(n, s, w - 1, k);
    }
    ProposalsDecideVotes(n, s, w, k);
  }

  lemma {:induction false} RunGrows(n: nat, tr: seq<Sys>, i: nat, j: nat)
    requires Run(n, tr) && i <= j < |tr|
    ensures Grows(tr[i], tr[j])
    decreases j
  {
    hide *;
    if i < j {
      RunGrows(n, tr, i, j - 1);
      RunKeeps(n, tr, j);
      GrowsTrans(tr[i], tr[j - 1], tr[j]);
    } else {
      GrowsRefl(tr[i]);
    }
  }

  lemma GrowsRefl(a: Sys)
    ensures Grows(a, a)
  {
  }

  lemma GrowsTrans(a: Sys, b: Sys, c: Sys)
    requires Grows(a, b) && Grows(b, c)
    ensures Grows(a, c)
  {
  }

  /** The lock over a run: once a quorum has voted for k in view v, from then on every vote cast and
      every proposal made in a later view is k. */
  lemma LockOverRun(n: nat, tr: seq<Sys>, i: nat, v: nat, k: int, j: nat, w: nat)
    requires n >= 1 && n % 3 != 0 && Run(n, tr) && i <= j < |tr| && v < w
    requires Freq(VotesAt(tr[i].votes, v), k) >= Q(n)
    ensures AllPropose(tr[j], w, k) && AllVote(tr[j], w, k)
  {
    RunGrows(n, tr, i, j);
    FreqGrows(VotesAt(tr[i].votes, v), VotesAt(tr[j].votes, v), k);
    RunKeeps(n, tr, j);
    LockCarries(n, tr[j], v, k, w);
  }

  /** Two quorums of votes, in whatever views, are for the same index. */
  lemma LocksAgree(n: nat, s: Sys, v: int, k: int, w: int, l: int)
    requires n >= 1 && n % 3 != 0 && Inv(n, s) && v <= w
    requires Freq(VotesAt(s.votes, v), k) >= Q(n) && Freq(VotesAt(s.votes, w), l) >= Q(n)
    ensures k == l
  {
    QuorumArithmetic(n);
    var a, b := Supporters(VotesAt(s.votes, v), k), Supporters(VotesAt(s.votes, w), l);
    VotersOk(n, s, v, k);
    VotersOk(n, s, w, l);
    if v == w {
      var x := Meet(a, b, Ids(n));
    } else {
      LockCarries(n, s, v, k, w);
      var x := Member(b);
      assert VotesAt(s.votes, w)[x] == k;
    }
  }

  lemma VotersOk(n: nat, s: Sys, v: int, k: int)
    requires Inv(n, s)
    ensures Supporters(VotesAt(s.votes, v), k) <= Ids(n)
    ensures Supporters(VotesAt(s.votes, v), k) != {} ==> v >= 0
  {
  }

  lemma LockedAgree(n: nat, s: Sys, k: int, l: int)
    requires n >= 1 && n % 3 != 0 && Inv(n, s) && Locked(n, s, k) && Locked(n, s, l)
    ensures k == l
  {
    var v :| Freq(VotesAt(s.votes, v), k) >= Q(n);
    var w :| Freq(VotesAt(s.votes, w), l) >= Q(n);
    hide Inv;
    if v <= w {
      LocksAgree(n, s, v, k, w, l);
    } else {
      LocksAgree(n, s, w, l, v, k);
    }
  }

  /** One input to the final agreement: whatever views they come from, and at whatever moments of a
      run, any two nodes hand the same index on. */
  lemma OneInput(n: nat, tr: seq<Sys>, i: nat, x: nat, j: nat, y: nat)
    requires n >= 1 && n % 3 != 0 && Run(n, tr) && i <= j < |tr| && x < |tr[i].nodes| && y < |tr[j].nodes|
    requires tr[i].nodes[x].ra.Some? && tr[j].nodes[y].ra.Some?
    ensures tr[i].nodes[x].ra == tr[j].nodes[y].ra
  {
    RunKeeps(n, tr, j);
    RunGrows(n, tr, i, j);
    assert NodeGrows(tr[i].nodes[x], tr[j].nodes[x]);
    assert NodeOk(n, tr[j], tr[j].nodes[x]) && NodeOk(n, tr[j], tr[j].nodes[y]);
    hide Inv;
    LockedAgree(n, tr[j], tr[i].nodes[x].ra.value, tr[j].nodes[y].ra.value);
  }

  /** The size and frequency tests of views 2 and later never reject what a node of the run proposed, so
      no node is ever left holding the lock. */
  lemma FrequencyTestPasses(n: nat, tr: seq<Sys>, t: nat)
    requires Run(n, tr) && t < |tr|
    ensures forall v, i :: i in ProposalsAt(tr[t], v) ==> FrequentEnough(n, v, ProposalsAt(tr[t], v)[i])
    ensures forall x :: 0 <= x < |tr[t].nodes| ==> !tr[t].nodes[x].llock
  {
    RunKeeps(n, tr, t);
    forall v, i | i in ProposalsAt(tr[t], v)
      ensures FrequentEnough(n, v, ProposalsAt(tr[t], v)[i])
    {
      assert ProposalOk(n, tr[t], v, ProposalsAt(tr[t], v)[i]);
      assert |ProposalsAt(tr[t], v)[i].justify| == |ProposalsAt(tr[t], v)[i].justify.Keys|;
    }
    forall x | 0 <= x < |tr[t].nodes|
      ensures !tr[t].nodes[x].llock
    {
      assert NodeOk(n, tr[t], tr[t].nodes[x]);
    }
  }

  // --------------------------------------------------- the common subset

  /** What is decided goes back to the first index some node accepted. */
  lemma LockedIsGood(n: nat, s: Sys, k: int)
    requires n >= 1 && Inv(n, s) && Locked(n, s, k)
    ensures Good(n, s, k)
  {
    QuorumArithmetic(n);
    var v :| Freq(VotesAt(s.votes, v), k) >= Q(n);
    var x := Member(Supporters(VotesAt(s.votes, v), k));
    assert Proposed(s, v, k);
    var l :| l in ProposalsAt(s, v) && ProposalsAt(s, v)[l].pre == k;
    assert ProposalOk(n, s, v, ProposalsAt(s, v)[l]);
  }

  lemma DecidedIsLocked(n: nat, s: Sys, x: nat)
    requires Inv(n, s) && x < n && s.nodes[x].decided.Some?
    ensures Locked(n, s, s.nodes[x].decided.value)
  {
  }

  /** External validity, for every group size and through every view: the decided index is the first
      index that some node y accepted, and the output vector has a quorum of ones, each of them a
      broadcast that y had completed. */
  lemma ExternalValidity(n: nat, tr: seq<Sys>, i: nat, x: nat) returns (y: int)
    requires n >= 1 && Run(n, tr) && i < |tr| && x < |tr[i].nodes| && tr[i].nodes[x].output.Some?
    ensures 0 <= y < |tr[i].nodes| && tr[i].nodes[y].firstpre == tr[i].nodes[x].decided
    ensures var vec := tr[i].nodes[x].output.value; |Ones(vec)| >= Q(n) && Ones(vec) <= tr[i].nodes[y].completed
  {
    var s := tr[i];
    RunKeeps(n, tr, i);
    assert NodeOk(n, s, s.nodes[x]);
    var k := s.nodes[x].decided.value;
    DecidedIsLocked(n, s, x);
    LockedIsGood(n, s, k);
    y :| 0 <= y < |s.nodes| && s.nodes[y].firstpre == Some(k) && GoodAt(n, s, y, k);
  }

  /** Agreement of the common subset: all outputs are the same vector. */
  lemma SubsetAgreement(n: nat, tr: seq<Sys>, i: nat, x: nat, j: nat, y: nat)
    requires n >= 1 && n % 3 != 0 && Run(n, tr) && i <= j < |tr| && x < |tr[i].nodes| && y < |tr[j].nodes|
    requires tr[i].nodes[x].output.Some? && tr[j].nodes[y].output.Some?
    ensures tr[i].nodes[x].output == tr[j].nodes[y].output
  {
    RunKeeps(n, tr, i);
    RunKeeps(n, tr, j);
    RunGrows(n, tr, i, j);
    assert NodeOk(n, tr[i], tr[i].nodes[x]) && NodeOk(n, tr[j], tr[j].nodes[y]);
    assert NodeGrows(tr[i].nodes[x], tr[j].nodes[x]);
    DecidedIsLocked(n, tr[j], x);
    DecidedIsLocked(n, tr[j], y);
    hide Inv;
    LockedAgree(n, tr[j], tr[i].nodes[x].decided.value, tr[j].nodes[y].decided.value);
  }
}
