/** What the index agreement admits: exactly the indices, proposals and votes that pass the tests of the
    code, at one pass of each handler and over whole runs. */
module VabaExact {
  import opened Wrappers
  import opened Quorum
  import opened Frequency
  import opened Vaba
  import opened VabaSystem

  // ------------------------------------------------------------- one pass

  /** An index is accepted exactly when every broadcast its vector reports is completed and it reports a
      quorum; the first one accepted is kept. */
  lemma IndexExactly(s: State, i: int, vec: seq<int>)
    ensures var t := AcceptIndex(s, i, vec);
      i in t.valid <==>
        i in s.valid || ((forall j :: 0 <= j < |vec| && vec[j] == 1 ==> j in s.completed) && |set j | 0 <= j < |vec| && vec[j] == 1| >= Q(s.n))
    ensures var t := AcceptIndex(s, i, vec); i in t.valid && i !in s.valid ==> t.firstpre == if s.firstpre == None then Some(i) else s.firstpre
    ensures forall j :: j != i ==> (j in AcceptIndex(s, i, vec).valid <==> j in s.valid)
  {
    assert Ones(vec) == set j | 0 <= j < |vec| && vec[j] == 1;
  }

  /** The node has admitted the votes that the proposal is justified by; -1 stands for no vote. */
  predicate VotesAdmitted(table: map<int, Votes>, v: nat, p: Prejustify) {
    v > 0 ==> forall j :: j in p.justify ==>
      p.justify[j] == if v - 1 in table && j in table[v - 1] then table[v - 1][j] else -1
  }

  /** No value has more supporters than k. */
  ghost predicate Leads(j: Votes, k: int) {
    forall w :: |Supporters(j, w)| <= |Supporters(j, k)|
  }

  /** From view 2 on the justification is a quorum of votes, of which none is cast more often than the
      proposed one. */
  ghost predicate Frequent(n: nat, v: nat, p: Prejustify) {
    v > 1 ==> |p.justify| >= Q(n) && Leads(p.justify, p.pre)
  }

  /** A proposal is admitted exactly when its index is valid, the votes that justify it are admitted, and
      it is frequent; with the first two alone the lock is left held. */
  lemma ProposalExactly(s: State, v: nat, i: int, p: Prejustify)
    requires i !in At(s.accepted, v) && !s.llock
    ensures var t := AcceptPre(s, v, i, p);
      i in At(t.accepted, v) <==> p.pre in s.valid && VotesAdmitted(s.table, v, p) && Frequent(s.n, v, p)
    ensures var t := AcceptPre(s, v, i, p);
      t.llock <==> p.pre in s.valid && VotesAdmitted(s.table, v, p) && !Frequent(s.n, v, p)
    ensures var t := AcceptPre(s, v, i, p); t.igvalid == if i in At(t.accepted, v) then s.igvalid + {i} else s.igvalid
  {
    assert JustifiedBy(p.justify, v - 1, s.table) <==> forall j :: j in p.justify ==> p.justify[j] == Recorded(s.table, v - 1, j);
    assert Acceptable(s, v, p) <==> p.pre in s.valid && VotesAdmitted(s.table, v, p);
    FrequentIsEnough(s.n, v, p);
  }

  lemma FrequentIsEnough(n: nat, v: nat, p: Prejustify)
    ensures FrequentEnough(n, v, p) <==> Frequent(n, v, p)
  {
    assert forall w :: Freq(p.justify, w) == |Supporters(p.justify, w)|;
    if MostFrequent(p.justify, p.pre) {
      forall w
        ensures |Supporters(p.justify, w)| <= |Supporters(p.justify, p.pre)|
      {
        assert Freq(p.justify, w) <= Freq(p.justify, p.pre);
      }
    }
  }

  /** A vote enters the table of its view exactly when a proposal of the node it names is admitted. */
  lemma VoteExactly(s: State, v: int, i: int, vote: int)
    ensures var t := AcceptVote(s, v, i, vote);
      t.table == if vote in s.igvalid then s.table[v := (if v in s.table then s.table[v] else map[])[i := vote]] else s.table
  {
  }

  // -------------------------------------------------------------- the runs

  /** What node x has settled stays: valid indices and the votes it has admitted. */
  ghost predicate Settles(p: State, q: State) {
    && p.valid <= q.valid
    && forall v, j :: j in VotesAt(p.table, v) ==> j in VotesAt(q.table, v) && VotesAt(q.table, v)[j] == VotesAt(p.table, v)[j]
  }

  /** Proposal i of view v, as node p has admitted it. */
  ghost predicate AdmittedAt(n: nat, s: Sys, p: State, v: nat, i: int) {
    && i in ProposalsAt(s, v)
    && var q := ProposalsAt(s, v)[i];
    && q.pre in p.valid
    && (v > 0 ==> forall j :: j in q.justify ==> j in VotesAt(p.table, v - 1) && VotesAt(p.table, v - 1)[j] == q.justify[j])
    && Frequent(n, v, q)
  }

  ghost predicate AllAdmittedAt(n: nat, s: Sys, p: State) {
    forall v: nat, i :: i in At(p.accepted, v) ==> AdmittedAt(n, s, p, v, i)
  }

  /** What is admitted for voting is what has been accepted in some view. */
  ghost predicate Reached(p: State, i: int) {
    exists v: nat :: i in At(p.accepted, v)
  }

  ghost predicate VotableOk(p: State) {
    forall i :: i in p.igvalid <==> Reached(p, i)
  }

  ghost predicate ExactInv(n: nat, s: Sys) {
    && |s.nodes| == n
    && (forall k :: k in s.inputs ==> 0 <= k < n)
    && (forall x :: 0 <= x < n ==> AllAdmittedAt(n, s, s.nodes[x]) && VotableOk(s.nodes[x]))
  }

  lemma AdmittedMono(n: nat, s: Sys, s': Sys, p: State, q: State, v: nat, i: int)
    requires AdmittedAt(n, s, p, v, i) && ProposalsGrow(s, s') && Settles(p, q)
    ensures AdmittedAt(n, s', q, v, i)
  {
    hide Frequent;
  }

  lemma SettlesSame(p: State, q: State)
    requires q.valid == p.valid && q.table == p.table
    ensures Settles(p, q)
  {
  }

  /** A vote that is counted again is the same vote. */
  lemma VoteSettles(s: Sys, p: State, v: nat, i: int)
    requires TableOk(s.votes, p.table) && i in VotesAt(s.votes, v)
    ensures Settles(p, AcceptVote(p, v, i, VotesAt(s.votes, v)[i]))
  {
    var q := AcceptVote(p, v, i, VotesAt(s.votes, v)[i]);
    assert Backed(s.votes, v, VotesAt(p.table, v));
    forall w, j | j in VotesAt(p.table, w)
      ensures j in VotesAt(q.table, w) && VotesAt(q.table, w)[j] == VotesAt(p.table, w)[j]
    {
      if w == v && j == i {
        assert VotesAt(p.table, v)[i] == VotesAt(s.votes, v)[i];
      }
    }
  }

  lemma QuietSettles(n: nat, s: Sys, e: Event)
    requires Enabled(n, s, e) && !e.Vote?
    ensures Settles(s.nodes[e.x], Next(n, s, e).nodes[e.x])
  {
    hide MostFrequent, Highest, Gathered, Acceptable, FrequentEnough, Settles, Ones, Q;
    var p, q := s.nodes[e.x], Next(n, s, e).nodes[e.x];
    assert q.table == p.table && p.valid <= q.valid;
    SettlesTable(p, q);
  }

  lemma SettlesTable(p: State, q: State)
    requires q.table == p.table && p.valid <= q.valid
    ensures Settles(p, q)
  {
  }

  lemma TableIsOk(n: nat, s: Sys, x: int)
    requires Inv(n, s) && 0 <= x < n
    ensures |s.nodes| == n && TableOk(s.votes, s.nodes[x].table)
  {
    assert NodeOk(n, s, s.nodes[x]);
  }

  lemma VoteNext(n: nat, s: Sys, x: int, v: nat, i: int)
    requires Enabled(n, s, Vote(x, v, i))
    ensures i in VotesAt(s.votes, v) && Next(n, s, Vote(x, v, i)).nodes[x] == AcceptVote(s.nodes[x], v, i, VotesAt(s.votes, v)[i])
  {
  }

  lemma ActorSettles(n: nat, s: Sys, e: Event)
    requires Inv(n, s) && Enabled(n, s, e)
    ensures Settles(s.nodes[e.x], Next(n, s, e).nodes[e.x])
  {
    if e.Vote? {
      VoteNext(n, s, e.x, e.v, e.i);
      TableIsOk(n, s, e.x);
      hide *;
      VoteSettles(s, s.nodes[e.x], e.v, e.i);
    } else {
      QuietSettles(n, s, e);
    }
  }

  /** Only Propose adds to what is admitted. */
  lemma OnlyPropose(n: nat, s: Sys, e: Event)
    requires Enabled(n, s, e)
    ensures var p, q := s.nodes[e.x], Next(n, s, e).nodes[e.x];
      e.Propose? || (q.accepted == p.accepted && q.igvalid == p.igvalid)
  {
    hide MostFrequent, Highest, Gathered, Acceptable, FrequentEnough, Ones, Q;
  }

  /** The votes of a justification are real ones. */
  lemma JustifiedVotes(n: nat, s: Sys, v: nat, i: int)
    requires Inv(n, s) && ExactInv(n, s) && i in ProposalsAt(s, v) && v > 0
    ensures forall j :: j in ProposalsAt(s, v)[i].justify ==> ProposalsAt(s, v)[i].justify[j] >= 0
  {
    var p := ProposalsAt(s, v)[i];
    assert ProposalOk(n, s, v, p);
    forall j | j in p.justify
      ensures p.justify[j] >= 0
    {
      var k := p.justify[j];
      assert j in VotesAt(s.votes, v - 1) && VotesAt(s.votes, v - 1)[j] == k;
      assert Proposed(s, v - 1, k);
      var l :| l in ProposalsAt(s, v - 1) && ProposalsAt(s, v - 1)[l].pre == k;
      assert ProposalOk(n, s, v - 1, ProposalsAt(s, v - 1)[l]);
      var y :| 0 <= y < |s.nodes| && s.nodes[y].firstpre == Some(k) && GoodAt(n, s, y, k);
    }
  }

  lemma ProposeAdmits(n: nat, s: Sys, x: int, v: nat, i: int)
    requires Inv(n, s) && ExactInv(n, s) && Enabled(n, s, Propose(x, v, i))
    ensures var t := AcceptPre(s.nodes[x], v, i, ProposalsAt(s, v)[i]);
      forall w: nat, j :: j in At(t.accepted, w) ==> AdmittedAt(n, s, t, w, j)
  {
    var p, q := s.nodes[x], ProposalsAt(s, v)[i];
    var t := AcceptPre(p, v, i, q);
    assert NodeOk(n, s, p);
    if v > 0 {
      JustifiedVotes(n, s, v, i);
    }
    hide Inv;
    forall w: nat, j | j in At(t.accepted, w)
      ensures AdmittedAt(n, s, t, w, j)
    {
      if j in At(p.accepted, w) {
        SettlesSame(p, t);
        AdmittedMono(n, s, s, p, t, w, j);
      } else {
        assert w == v && j == i;
        ProposalExactly(p, v, i, q);
      }
    }
  }

  lemma ProposeVotable(s: State, v: nat, i: int, p: Prejustify)
    requires VotableOk(s) && !s.llock
    ensures VotableOk(AcceptPre(s, v, i, p))
  {
    var t := AcceptPre(s, v, i, p);
    hide Acceptable, FrequentEnough;
    forall j
      ensures j in t.igvalid <==> Reached(t, j)
    {
      if t.accepted != s.accepted {
        assert j in At(t.accepted, v) <==> j in At(s.accepted, v) || j == i;
        if Reached(s, j) {
          var w: nat :| j in At(s.accepted, w);
          assert j in At(t.accepted, w);
        }
        if Reached(t, j) {
          var w: nat :| j in At(t.accepted, w);
          assert j in At(s.accepted, w) || j == i;
        }
      }
    }
  }

  lemma ActorExact(n: nat, s: Sys, e: Event)
    requires Inv(n, s) && ExactInv(n, s) && Enabled(n, s, e)
    ensures var s' := Next(n, s, e); AllAdmittedAt(n, s', s'.nodes[e.x]) && VotableOk(s'.nodes[e.x])
  {
    var s' := Next(n, s, e);
    var p, q := s.nodes[e.x], s'.nodes[e.x];
    StepGrows(n, s, e);
    assert AllAdmittedAt(n, s, p) && VotableOk(p);
    if e.Propose? {
      ProposeAdmits(n, s, e.x, e.v, e.i);
      ProposeVotable(p, e.v, e.i, ProposalsAt(s, e.v)[e.i]);
      assert q == AcceptPre(p, e.v, e.i, ProposalsAt(s, e.v)[e.i]);
      hide Inv, AcceptPre, Grows, VotableOk;
      forall w: nat, j | j in At(q.accepted, w)
        ensures AdmittedAt(n, s', q, w, j)
      {
        assert AdmittedAt(n, s, q, w, j);
        assert s'.proposals == s.proposals;
      }
    } else {
      OnlyPropose(n, s, e);
      ActorSettles(n, s, e);
      hide Inv, Next, Enabled, Settles, AdmittedAt;
      forall w: nat, j | j in At(q.accepted, w)
        ensures AdmittedAt(n, s', q, w, j)
      {
        AdmittedMono(n, s, s', p, q, w, j);
      }
      VotableSame(p, q);
    }
  }

  lemma VotableSame(p: State, q: State)
    requires VotableOk(p) && q.accepted == p.accepted && q.igvalid == p.igvalid
    ensures VotableOk(q)
  {
    assert forall i :: Reached(q, i) <==> Reached(p, i);
  }

  lemma StepKeepsExact(n: nat, s: Sys, e: Event)
    requires Inv(n, s) && ExactInv(n, s) && Enabled(n, s, e)
    ensures ExactInv(n, Next(n, s, e))
  {
    var s' := Next(n, s, e);
    ActorExact(n, s, e);
    OthersSame(n, s, e);
    StepGrows(n, s, e);
    InputsStay(n, s, e);
    hide Inv, Next, Enabled, AdmittedAt, VotableOk;
    forall x | 0 <= x < n
      ensures AllAdmittedAt(n, s', s'.nodes[x]) && VotableOk(s'.nodes[x])
    {
      if x != e.x {
        forall w: nat, j | j in At(s.nodes[x].accepted, w)
          ensures AdmittedAt(n, s', s.nodes[x], w, j)
        {
          SettlesSame(s.nodes[x], s.nodes[x]);
          AdmittedMono(n, s, s', s.nodes[x], s.nodes[x], w, j);
        }
      }
    }
  }

  lemma InputsStay(n: nat, s: Sys, e: Event)
    requires Enabled(n, s, e) && forall k :: k in s.inputs ==> 0 <= k < n
    ensures forall k :: k in Next(n, s, e).inputs ==> 0 <= k < n
  {
    hide MostFrequent, Highest, Gathered, Acceptable, FrequentEnough, Ones, Q;
  }

  lemma {:induction false} RunKeepsExact(n: nat, tr: seq<Sys>, t: nat)
    requires Run(n, tr) && t < |tr|
    ensures ExactInv(n, tr[t])
  {
    if t > 0 {
      hide ExactInv, Inv, Next, Enabled;
      RunKeepsExact(n, tr, t - 1);
      RunKeeps(n, tr, t - 1);
      assert Step(n, tr[t - 1], tr[t - 1 + 1]);
      var e :| Enabled(n, tr[t - 1], e) && tr[t] == Next(n, tr[t - 1], e);
      StepKeepsExact(n, tr[t - 1], e);
    }
  }

  lemma AdmittedIndex(n: nat, s: Sys, p: State)
    requires AllAdmittedAt(n, s, p)
    ensures forall v: nat, i :: i in At(p.accepted, v) ==> i in ProposalsAt(s, v) && ProposalsAt(s, v)[i].pre in p.valid
  {
    hide Frequent;
  }

  lemma AdmittedVotes(n: nat, s: Sys, p: State)
    requires AllAdmittedAt(n, s, p)
    ensures forall v: nat, i, j :: i in At(p.accepted, v) && v > 0 && i in ProposalsAt(s, v) && j in ProposalsAt(s, v)[i].justify ==>
      (j in VotesAt(p.table, v - 1) && VotesAt(p.table, v - 1)[j] == ProposalsAt(s, v)[i].justify[j])
  {
    hide Frequent;
  }

  lemma AdmittedFrequent(n: nat, s: Sys, p: State)
    requires AllAdmittedAt(n, s, p)
    ensures forall v: nat, i :: i in At(p.accepted, v) && v > 1 && i in ProposalsAt(s, v) ==>
      (|ProposalsAt(s, v)[i].justify| >= Q(n) && Leads(ProposalsAt(s, v)[i].justify, ProposalsAt(s, v)[i].pre))
  {
    hide Leads, Q;
  }

  lemma AdmittedVotable(p: State)
    requires VotableOk(p)
    ensures forall i :: i in p.igvalid <==> exists v: nat :: i in At(p.accepted, v)
  {
    assert forall i :: Reached(p, i) <==> exists v: nat :: i in At(p.accepted, v);
  }

  /** Over every run, whatever a node has admitted in view v satisfies the tests of the code, and goes on
      satisfying them: the index is one it has accepted, every vote that justifies it is in its own table
      of the view before, and from view 2 on these votes are a quorum and none is more frequent. A vote for
      a node counts exactly when some proposal of that node has been admitted. */
  lemma AdmittedProposals(n: nat, tr: seq<Sys>, t: nat, x: nat)
    requires Run(n, tr) && t < |tr| && x < |tr[t].nodes|
    ensures var s, p := tr[t], tr[t].nodes[x];
      forall v: nat, i :: i in At(p.accepted, v) ==> i in ProposalsAt(s, v) && ProposalsAt(s, v)[i].pre in p.valid
    ensures var s, p := tr[t], tr[t].nodes[x];
      forall v: nat, i, j :: i in At(p.accepted, v) && v > 0 && j in ProposalsAt(s, v)[i].justify ==>
        (j in VotesAt(p.table, v - 1) && VotesAt(p.table, v - 1)[j] == ProposalsAt(s, v)[i].justify[j])
    ensures var s, p := tr[t], tr[t].nodes[x];
      forall v: nat, i :: i in At(p.accepted, v) && v > 1 ==>
        (|ProposalsAt(s, v)[i].justify| >= Q(n) && Leads(ProposalsAt(s, v)[i].justify, ProposalsAt(s, v)[i].pre))
    ensures var p := tr[t].nodes[x]; forall i :: i in p.igvalid <==> exists v: nat :: i in At(p.accepted, v)
  {
    RunKeepsExact(n, tr, t);
    RunKeeps(n, tr, t);
    var s, p := tr[t], tr[t].nodes[x];
    assert AllAdmittedAt(n, s, p) && VotableOk(p);
    hide *;
    AdmittedIndex(n, s, p);
    AdmittedVotes(n, s, p);
    AdmittedFrequent(n, s, p);
    AdmittedVotable(p);
  }
}
