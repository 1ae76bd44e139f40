/** Index agreement and the common subset built on it, as a system: n nodes that follow the code and
    may stop or lose messages at any point. Reliable broadcast is used as the function its own
    validity gives under crash faults: what is delivered for a node is what that node broadcast. */
module VabaSystem {
  import opened Wrappers
  import opened Sets
  import opened Quorum
  import opened Frequency
  import opened Vaba

  /** `inputs[i]` is the vector node i broadcast, `proposals[v][i]` and `votes[v][i]` what it
      broadcast first and second in view v. */
  datatype Sys = Sys(
    nodes: seq<State>,
    inputs: map<int, seq<int>>,
    proposals: map<int, map<int, Prejustify>>,
    votes: map<int, Votes>)

  function Init(n: nat): Sys {
    Sys(seq(n, x => Initial(x, n)), map[], map[], map[])
  }

  datatype Event =
    | Complete(x: int, j: int)
    | Input(x: int, vec: seq<int>)
    | Index(x: int, i: int)
    | Start(x: int)
    | Propose(x: int, v: nat, i: int)
    | Gather(x: int, v: nat, val: seq<int>, l: int)
    | Vote(x: int, v: nat, i: int)
    | Advance(x: int, k: int)
    | Lock(x: int, v: nat, k: int)
    | Agreed(x: int, y: int)
    | Finish(x: int)

  function ProposalsAt(s: Sys, v: int): map<int, Prejustify> {
    if v in s.proposals then s.proposals[v] else map[]
  }

  /** The nodes that have handed an index to the final agreement. */
  function Starters(s: Sys): set<int> {
    set y | 0 <= y < |s.nodes| && s.nodes[y].ra.Some?
  }

  function Members(val: seq<int>): set<int> {
    set i | i in val
  }

  /** What node x knows of a result of its gather of view v: it names a quorum of distinct nodes, each of
      which has proposed in the view, has admitted a quorum of proposals, and has prepared a vector that x
      has admitted as well. */
  ghost predicate Gathered(n: nat, s: Sys, x: int, v: int, val: seq<int>)
    requires 0 <= x < n == |s.nodes|
  {
    && |Members(val)| >= Q(n)
    && forall i :: i in val ==>
         && 0 <= i < n && i in ProposalsAt(s, v) && |At(s.nodes[i].accepted, v)| >= Q(n)
         && |s.nodes[i].igvalid * s.nodes[x].igvalid| >= Q(n)
  }

  /** Complete: a broadcast of the layer above completes. Input: x broadcasts its vector, once.
      Index, Propose, Vote: x looks at what was delivered for node i. Gather: the gather of view v
      returns val, whose highest member is l. Advance: x proposes in the next view.
      Lock: x finds a quorum for k in a view it has left. Agreed: a quorum of nodes has
      started the final agreement, which returns the input of some node y. Finish: the agreed index selects the output. */
  ghost predicate Enabled(n: nat, s: Sys, e: Event) {
    0 <= e.x < n == |s.nodes| &&
    var p := s.nodes[e.x];
    match e
    case Complete(x, j) => 0 <= j < n
    case Input(x, vec) => x !in s.inputs && |vec| == n
    case Index(x, i) => i in s.inputs
    case Start(x) => !p.started && |p.valid| >= Q(n) && p.firstpre.Some?
    case Propose(x, v, i) => p.started && v <= p.view && i in ProposalsAt(s, v) && !p.llock
    case Gather(x, v, val, l) =>
      && x in ProposalsAt(s, v) && x !in VotesAt(s.votes, v) && |At(p.accepted, v)| >= Q(n)
      && Gathered(n, s, x, v, val) && Highest(val, l)
    case Vote(x, v, i) => x in VotesAt(s.votes, v) && i in VotesAt(s.votes, v)
    case Advance(x, k) =>
      p.started && |VotesAt(p.table, p.view)| >= Q(n) && MostFrequent(VotesAt(p.table, p.view), k)
    case Lock(x, v, k) => v < p.view && p.ra == None && MostFrequent(VotesAt(p.table, v), k) && Freq(VotesAt(p.table, v), k) >= Q(n)
    case Agreed(x, y) => p.decided == None && y in Starters(s) && |Starters(s)| >= Q(n)
    case Finish(x) => p.decided.Some? && p.decided.value in s.inputs
  }

  function Broadcast(s: Sys, v: int, x: int, p: Prejustify): Sys {
    s.(proposals := s.proposals[v := ProposalsAt(s, v)[x := p]])
  }

  function Put(s: Sys, x: int, t: State): Sys
    requires 0 <= x < |s.nodes|
  {
    s.(nodes := s.nodes[x := t])
  }

  ghost function Next(n: nat, s: Sys, e: Event): Sys
    requires Enabled(n, s, e)
  {
    var p := s.nodes[e.x];
    match e
    case Complete(x, j) => Put(s, x, p.(completed := p.completed + {j}))
    case Input(x, vec) => s.(inputs := s.inputs[x := vec])
    case Index(x, i) => Put(s, x, AcceptIndex(p, i, s.inputs[i]))
    case Start(x) => Broadcast(Put(s, x, p.(started := true)), 0, x, Prejustify(p.firstpre.value, map[]))
    case Propose(x, v, i) => Put(s, x, AcceptPre(p, v, i, ProposalsAt(s, v)[i]))
    case Gather(x, v, _, l) => s.(votes := s.votes[v := VotesAt(s.votes, v)[x := ProposalsAt(s, v)[l].pre]])
    case Vote(x, v, i) => Put(s, x, AcceptVote(p, v, i, VotesAt(s.votes, v)[i]))
    case Advance(x, k) =>
      var t := Put(s, x, p.(view := p.view + 1));
      if p.view + 1 >= n then t else Broadcast(t, p.view + 1, x, Prejustify(k, VotesAt(p.table, p.view)))
    case Lock(x, v, k) => Put(s, x, p.(ra := Some(k)))
    case Agreed(x, y) => Put(s, x, p.(decided := s.nodes[y].ra))
    case Finish(x) => Put(s, x, p.(output := Some(s.inputs[p.decided.value])))
  }

  ghost predicate Step(n: nat, s: Sys, s': Sys) {
    exists e :: Enabled(n, s, e) && s' == Next(n, s, e)
  }

  ghost predicate Run(n: nat, tr: seq<Sys>) {
    && |tr| > 0 && tr[0] == Init(n)
    && forall i :: 0 <= i < |tr| - 1 ==> Step(n, tr[i], tr[i + 1])
  }

  // -------------------------------------------------------- the invariant

  /** The votes admitted by a node were cast. */
  ghost predicate Backed(votes: map<int, Votes>, v: int, t: Votes) {
    forall i :: i in t ==> i in VotesAt(votes, v) && VotesAt(votes, v)[i] == t[i]
  }

  /** k is the first index that some node accepted: a quorum of completed broadcasts of that node. */
  ghost predicate Good(n: nat, s: Sys, k: int) {
    exists y :: 0 <= y < |s.nodes| && s.nodes[y].firstpre == Some(k) && GoodAt(n, s, y, k)
  }

  ghost predicate GoodAt(n: nat, s: Sys, y: int, k: int)
    requires 0 <= y < |s.nodes|
  {
    k in s.inputs && |Ones(s.inputs[k])| >= Q(n) && Ones(s.inputs[k]) <= s.nodes[y].completed
  }

  /** A proposal of a later view carries a quorum of votes of the view before it. */
  ghost predicate ProposalOk(n: nat, s: Sys, v: int, p: Prejustify) {
    && Good(n, s, p.pre)
    && (v > 0 ==> Backed(s.votes, v - 1, p.justify) && |p.justify.Keys| >= Q(n) && MostFrequent(p.justify, p.pre))
  }

  /** A node proposes in the views it has entered. */
  ghost predicate Own(s: Sys, v: int, i: int) {
    0 <= i < |s.nodes| && s.nodes[i].started && 0 <= v <= s.nodes[i].view
  }

  ghost predicate Proposed(s: Sys, v: int, k: int) {
    exists l :: l in ProposalsAt(s, v) && ProposalsAt(s, v)[l].pre == k
  }

  ghost predicate Locked(n: nat, s: Sys, k: int) {
    exists v :: Freq(VotesAt(s.votes, v), k) >= Q(n)
  }

  ghost predicate TableOk(votes: map<int, Votes>, table: map<int, Votes>) {
    forall v :: Backed(votes, v, VotesAt(table, v))
  }

  ghost predicate DecidedOk(s: Sys, k: int) {
    exists y :: 0 <= y < |s.nodes| && s.nodes[y].ra == Some(k)
  }

  predicate OutputOk(s: Sys, k: int, vec: seq<int>) {
    k in s.inputs && vec == s.inputs[k]
  }

  ghost predicate NodeOk(n: nat, s: Sys, p: State) {
    && p.n == n && !p.llock
    && TableOk(s.votes, p.table)
    && (p.firstpre.Some? ==> Good(n, s, p.firstpre.value))
    && (p.ra.Some? ==> Locked(n, s, p.ra.value))
    && (p.decided.Some? ==> DecidedOk(s, p.decided.value))
    && (p.output.Some? ==> p.decided.Some? && OutputOk(s, p.decided.value, p.output.value))
  }

  ghost predicate Inv(n: nat, s: Sys) {
    && |s.nodes| == n
    && (forall x :: 0 <= x < n ==> NodeOk(n, s, s.nodes[x]))
    && (forall v, i :: i in ProposalsAt(s, v) ==> ProposalOk(n, s, v, ProposalsAt(s, v)[i]) && Own(s, v, i))
    && (forall v, i :: i in VotesAt(s.votes, v) ==> 0 <= i < n && Proposed(s, v, VotesAt(s.votes, v)[i]))
  }

  // ---------------------------------------------- what a step leaves alone

  ghost predicate VotesGrow(a: map<int, Votes>, b: map<int, Votes>) {
    forall v, i :: i in VotesAt(a, v) ==> i in VotesAt(b, v) && VotesAt(b, v)[i] == VotesAt(a, v)[i]
  }

  predicate NodeGrows(p: State, q: State) {
    && p.completed <= q.completed && p.view <= q.view && (p.started ==> q.started)
    && (p.firstpre.Some? ==> q.firstpre == p.firstpre)
    && (p.ra.Some? ==> q.ra == p.ra)
    && (p.decided.Some? ==> q.decided == p.decided)
  }

  predicate NodesGrow(a: seq<State>, b: seq<State>) {
    && |a| == |b|
    && forall x :: 0 <= x < |a| ==> NodeGrows(a[x], b[x])
  }

  predicate InputsGrow(s: Sys, s': Sys) {
    forall i :: i in s.inputs ==> i in s'.inputs && s'.inputs[i] == s.inputs[i]
  }

  ghost predicate ProposalsGrow(s: Sys, s': Sys) {
    forall v, i :: i in ProposalsAt(s, v) ==> i in ProposalsAt(s', v) && ProposalsAt(s', v)[i] == ProposalsAt(s, v)[i]
  }

  /** History only grows: broadcasts are made once, and a node never revokes what it has settled. */
  ghost predicate Grows(s: Sys, s': Sys) {
    && NodesGrow(s.nodes, s'.nodes)
    && InputsGrow(s, s')
    && ProposalsGrow(s, s')
    && VotesGrow(s.votes, s'.votes)
  }

  /** A node that has not entered a view has not proposed in it. */
  lemma NotYetProposed(n: nat, s: Sys, x: int, v: int)
    requires Inv(n, s) && 0 <= x < n
    requires !s.nodes[x].started || v > s.nodes[x].view
    ensures x !in ProposalsAt(s, v)
  {
  }

  lemma BroadcastGrows(s: Sys, v: int, x: int, p: Prejustify)
    requires x !in ProposalsAt(s, v)
    ensures ProposalsGrow(s, Broadcast(s, v, x, p))
  {
  }

  lemma CastGrows(votes: map<int, Votes>, v: int, x: int, k: int)
    requires x !in VotesAt(votes, v)
    ensures VotesGrow(votes, votes[v := VotesAt(votes, v)[x := k]])
  {
  }

  /** The acting node revokes nothing. */
  lemma ActorGrows(n: nat, s: Sys, e: Event)
    requires Inv(n, s) && Enabled(n, s, e)
    ensures NodesGrow(s.nodes, Next(n, s, e).nodes)
  {
    hide Inv;
    var p := s.nodes[e.x];
    var s' := Next(n, s, e);
    assert s'.nodes == s.nodes[e.x := s'.nodes[e.x]];
    assert NodeGrows(p, s'.nodes[e.x]);
  }

  lemma InputsStep(n: nat, s: Sys, e: Event)
    requires Enabled(n, s, e)
    ensures InputsGrow(s, Next(n, s, e))
  {
  }

  lemma VotesStep(n: nat, s: Sys, e: Event)
    requires Enabled(n, s, e)
    ensures VotesGrow(s.votes, Next(n, s, e).votes)
  {
    if e.Gather? {
      CastGrows(s.votes, e.v, e.x, ProposalsAt(s, e.v)[e.l].pre);
    } else {
      hide VotesGrow;
      SameVotes(s.votes);
    }
  }

  lemma FreshProposals(n: nat, s: Sys, e: Event)
    requires Enabled(n, s, e)
    requires e.Start? ==> e.x !in ProposalsAt(s, 0)
    requires e.Advance? ==> e.x !in ProposalsAt(s, s.nodes[e.x].view + 1)
    ensures ProposalsGrow(s, Next(n, s, e))
  {
    hide MostFrequent, Highest, Ones, Q, Acceptable;
    var p, s' := s.nodes[e.x], Next(n, s, e);
    if e.Start? {
      BroadcastGrows(s, 0, e.x, Prejustify(p.firstpre.value, map[]));
    } else if e.Advance? {
      BroadcastGrows(s, p.view + 1, e.x, Prejustify(e.k, VotesAt(p.table, p.view)));
    } else {
      assert s'.proposals == s.proposals;
    }
  }

  lemma ProposalsStep(n: nat, s: Sys, e: Event)
    requires Inv(n, s) && Enabled(n, s, e)
    ensures ProposalsGrow(s, Next(n, s, e))
  {
    if e.Start? {
      NotYetProposed(n, s, e.x, 0);
    } else if e.Advance? {
      NotYetProposed(n, s, e.x, s.nodes[e.x].view + 1);
    }
    hide Inv, Next, ProposalsGrow;
    FreshProposals(n, s, e);
  }

  lemma StepGrows(n: nat, s: Sys, e: Event)
    requires Inv(n, s) && Enabled(n, s, e)
    ensures Grows(s, Next(n, s, e))
  {
    ActorGrows(n, s, e);
    InputsStep(n, s, e);
    ProposalsStep(n, s, e);
    VotesStep(n, s, e);
    hide NodesGrow, InputsGrow, ProposalsGrow, VotesGrow, Inv, Next, Enabled;
  }

  lemma SameVotes(votes: map<int, Votes>)
    ensures VotesGrow(votes, votes)
  {
  }

  lemma FreqGrows(a: Votes, b: Votes, k: int)
    requires forall i :: i in a ==> i in b && b[i] == a[i]
    ensures Freq(a, k) <= Freq(b, k)
  {
    forall i | i in Supporters(a, k)
      ensures i in Supporters(b, k)
    {
      assert a[i] == k;
    }
    SubsetCard(Supporters(a, k), Supporters(b, k));
  }

  lemma GoodMono(n: nat, s: Sys, s': Sys, k: int)
    requires Good(n, s, k) && Grows(s, s')
    ensures Good(n, s', k)
  {
  }

  lemma LockedMono(n: nat, s: Sys, s': Sys, k: int)
    requires Locked(n, s, k) && Grows(s, s')
    ensures Locked(n, s', k)
  {
    var v :| Freq(VotesAt(s.votes, v), k) >= Q(n);
    FreqGrows(VotesAt(s.votes, v), VotesAt(s'.votes, v), k);
  }

  lemma DecidedMono(s: Sys, s': Sys, k: int)
    requires DecidedOk(s, k) && Grows(s, s')
    ensures DecidedOk(s', k)
  {
  }

  lemma NodeOkMono(n: nat, s: Sys, s': Sys, p: State)
    requires NodeOk(n, s, p) && Grows(s, s')
    ensures NodeOk(n, s', p)
  {
    forall v
      ensures Backed(s'.votes, v, VotesAt(p.table, v))
    {
      assert Backed(s.votes, v, VotesAt(p.table, v));
    }
    if p.firstpre.Some? {
      GoodMono(n, s, s', p.firstpre.value);
    }
    if p.ra.Some? {
      LockedMono(n, s, s', p.ra.value);
    }
    if p.decided.Some? {
      DecidedMono(s, s', p.decided.value);
    }
  }

  lemma ProposalOkMono(n: nat, s: Sys, s': Sys, v: int, p: Prejustify)
    requires ProposalOk(n, s, v, p) && Grows(s, s')
    ensures ProposalOk(n, s', v, p)
  {
  }

  lemma ProposedMono(s: Sys, s': Sys, v: int, k: int)
    requires Proposed(s, v, k) && Grows(s, s')
    ensures Proposed(s', v, k)
  {
  }

  // ------------------------------------------------- what a step may change

  /** Steps that settle nothing and admit no vote. */
  lemma QuietOk(n: nat, s: Sys, e: Event)
    requires Enabled(n, s, e) && NodeOk(n, Next(n, s, e), s.nodes[e.x])
    requires !e.Index? && !e.Propose? && !e.Vote? && !e.Lock? && !e.Agreed?
    ensures var s' := Next(n, s, e); NodeOk(n, s', s'.nodes[e.x])
  {
    hide Good, Locked, DecidedOk, TableOk, Acceptable, MostFrequent, Highest, Ones, Q;
  }

  lemma NodeStaysOk(n: nat, s: Sys, e: Event)
    requires Inv(n, s) && Enabled(n, s, e)
    ensures NodeOk(n, Next(n, s, e), s.nodes[e.x])
  {
    StepGrows(n, s, e);
    assert NodeOk(n, s, s.nodes[e.x]);
    hide *;
    NodeOkMono(n, s, Next(n, s, e), s.nodes[e.x]);
  }

  /** The acting node is in order after its step. */
  lemma ActorOk(n: nat, s: Sys, e: Event)
    requires Inv(n, s) && Enabled(n, s, e)
    ensures var s' := Next(n, s, e); NodeOk(n, s', s'.nodes[e.x])
  {
    NodeStaysOk(n, s, e);
    hide *;
    match e
    case Index(x, i) => IndexOk(n, s, x, i);
    case Propose(x, v, i) => ProposeOk(n, s, x, v, i);
    case Vote(x, v, i) => VoteOk(n, s, x, v, i);
    case Lock(x, v, k) => LockOk(n, s, x, v, k);
    case Agreed(x, y) => AgreedOk(n, s, x, y);
    case _ => QuietOk(n, s, e);
  }

  lemma IndexOk(n: nat, s: Sys, x: int, i: int)
    requires Inv(n, s) && Enabled(n, s, Index(x, i)) && NodeOk(n, Next(n, s, Index(x, i)), s.nodes[x])
    ensures var s' := Next(n, s, Index(x, i)); NodeOk(n, s', s'.nodes[x])
  {
  }

  /** What a node of the run proposes passes the frequency test, so the lock is released. */
  lemma ProposeOk(n: nat, s: Sys, x: int, v: nat, i: int)
    requires Inv(n, s) && Enabled(n, s, Propose(x, v, i)) && NodeOk(n, Next(n, s, Propose(x, v, i)), s.nodes[x])
    ensures var s' := Next(n, s, Propose(x, v, i)); NodeOk(n, s', s'.nodes[x])
  {
    var p := ProposalsAt(s, v)[i];
    assert ProposalOk(n, s, v, p);
    assert |p.justify| == |p.justify.Keys|;
    assert NodeOk(n, s, s.nodes[x]);
    assert FrequentEnough(n, v, p);
    hide Inv, Good, Locked, DecidedOk, TableOk, MostFrequent, Acceptable, FrequentEnough;
  }

  lemma AdmitOk(votes: map<int, Votes>, table: map<int, Votes>, v: nat, i: int)
    requires TableOk(votes, table) && i in VotesAt(votes, v)
    ensures TableOk(votes, table[v := VotesAt(table, v)[i := VotesAt(votes, v)[i]]])
  {
    var table' := table[v := VotesAt(table, v)[i := VotesAt(votes, v)[i]]];
    forall w
      ensures Backed(votes, w, VotesAt(table', w))
    {
      assert Backed(votes, w, VotesAt(table, w));
    }
  }

  lemma VoteOk(n: nat, s: Sys, x: int, v: nat, i: int)
    requires Inv(n, s) && Enabled(n, s, Vote(x, v, i)) && NodeOk(n, Next(n, s, Vote(x, v, i)), s.nodes[x])
    ensures var s' := Next(n, s, Vote(x, v, i)); NodeOk(n, s', s'.nodes[x])
  {
    var s' := Next(n, s, Vote(x, v, i));
    var p := s.nodes[x];
    assert s'.votes == s.votes && TableOk(s.votes, p.table);
    AdmitOk(s.votes, p.table, v, i);
    hide Inv, Good, Locked, DecidedOk, TableOk;
    assert s'.nodes[x] == p || s'.nodes[x] == p.(table := p.table[v := VotesAt(p.table, v)[i := VotesAt(s.votes, v)[i]]]);
  }

  lemma LockOk(n: nat, s: Sys, x: int, v: nat, k: int)
    requires Inv(n, s) && Enabled(n, s, Lock(x, v, k)) && NodeOk(n, Next(n, s, Lock(x, v, k)), s.nodes[x])
    ensures var s' := Next(n, s, Lock(x, v, k)); NodeOk(n, s', s'.nodes[x])
  {
    var s' := Next(n, s, Lock(x, v, k));
    assert NodeOk(n, s, s.nodes[x]) && Backed(s.votes, v, VotesAt(s.nodes[x].table, v));
    FreqGrows(VotesAt(s.nodes[x].table, v), VotesAt(s.votes, v), k);
    assert Freq(VotesAt(s'.votes, v), k) >= Q(n);
  }

  lemma AgreedOk(n: nat, s: Sys, x: int, y: int)
    requires Inv(n, s) && Enabled(n, s, Agreed(x, y)) && NodeOk(n, Next(n, s, Agreed(x, y)), s.nodes[x])
    ensures var s' := Next(n, s, Agreed(x, y)); NodeOk(n, s', s'.nodes[x])
  {
    var s' := Next(n, s, Agreed(x, y));
    assert s'.nodes[y].ra == s.nodes[y].ra == s'.nodes[x].decided;
  }

  /** Where a proposal that was not there before comes from. */
  lemma FreshProposal(n: nat, s: Sys, e: Event, v: int, i: int)
    requires Enabled(n, s, e) && i in ProposalsAt(Next(n, s, e), v) && i !in ProposalsAt(s, v)
    ensures Own(Next(n, s, e), v, i)
    ensures var p, q := s.nodes[e.x], ProposalsAt(Next(n, s, e), v)[i];
      (e.Start? && v == 0 && q == Prejustify(p.firstpre.value, map[]))
      || (e.Advance? && v == p.view + 1 && q == Prejustify(e.k, VotesAt(p.table, p.view)))
  {
    hide MostFrequent, Highest, Ones, Q, Acceptable;
  }

  lemma FreshOk(n: nat, s: Sys, e: Event, v: int, i: int)
    requires Inv(n, s) && Enabled(n, s, e) && i in ProposalsAt(Next(n, s, e), v) && i !in ProposalsAt(s, v)
    ensures ProposalOk(n, Next(n, s, e), v, ProposalsAt(Next(n, s, e), v)[i])
  {
    FreshProposal(n, s, e, v, i);
    if e.Start? {
      StepGrows(n, s, e);
      StartOk(n, s, Next(n, s, e), e.x);
    } else {
      AdvanceOk(n, s, e.x, e.k);
    }
  }

  lemma ProposalsOk(n: nat, s: Sys, e: Event, v: int, i: int)
    requires Inv(n, s) && Enabled(n, s, e) && i in ProposalsAt(Next(n, s, e), v)
    ensures var s' := Next(n, s, e); ProposalOk(n, s', v, ProposalsAt(s', v)[i]) && Own(s', v, i)
  {
    hide *;
    if i in ProposalsAt(s, v) {
      StepGrows(n, s, e);
      ProposalKept(n, s, Next(n, s, e), v, i);
    } else {
      FreshProposal(n, s, e, v, i);
      FreshOk(n, s, e, v, i);
    }
  }

  lemma ProposalKept(n: nat, s: Sys, s': Sys, v: int, i: int)
    requires Inv(n, s) && Grows(s, s') && i in ProposalsAt(s, v)
    ensures i in ProposalsAt(s', v) && ProposalOk(n, s', v, ProposalsAt(s', v)[i]) && Own(s', v, i)
  {
    assert ProposalOk(n, s, v, ProposalsAt(s, v)[i]);
    assert Own(s, v, i) && NodeGrows(s.nodes[i], s'.nodes[i]);
    ProposalOkMono(n, s, s', v, ProposalsAt(s, v)[i]);
  }

  lemma StartOk(n: nat, s: Sys, s': Sys, x: int)
    requires Inv(n, s) && Grows(s, s') && 0 <= x < n && s.nodes[x].firstpre.Some?
    ensures ProposalOk(n, s', 0, Prejustify(s.nodes[x].firstpre.value, map[]))
  {
    assert NodeOk(n, s, s.nodes[x]);
    GoodMono(n, s, s', s.nodes[x].firstpre.value);
  }

  lemma AdvanceOk(n: nat, s: Sys, x: int, k: int)
    requires Inv(n, s) && Enabled(n, s, Advance(x, k))
    ensures var s' := Next(n, s, Advance(x, k));
      ProposalOk(n, s', s.nodes[x].view + 1, Prejustify(k, VotesAt(s.nodes[x].table, s.nodes[x].view)))
  {
    var s' := Next(n, s, Advance(x, k));
    var p := s.nodes[x];
    var t := VotesAt(p.table, p.view);
    assert NodeOk(n, s, p) && Backed(s.votes, p.view, t);
    StepGrows(n, s, Advance(x, k));
    FrequentIsVoted(n, t, k);
    var i :| i in t && t[i] == k;
    assert i in VotesAt(s.votes, p.view) && VotesAt(s.votes, p.view)[i] == k;
    assert Proposed(s, p.view, k);
    var l :| l in ProposalsAt(s, p.view) && ProposalsAt(s, p.view)[l].pre == k;
    assert ProposalOk(n, s, p.view, ProposalsAt(s, p.view)[l]);
    GoodMono(n, s, s', k);
  }

  /** A most frequent vote of a table that is not empty is a vote somebody cast. */
  lemma FrequentIsVoted(n: nat, t: Votes, k: int)
    requires n >= 1 && |t| >= Q(n) && MostFrequent(t, k)
    ensures exists i :: i in t && t[i] == k
  {
    QuorumArithmetic(n);
    assert |t.Keys| == |t|;
    var i := Member(t.Keys);
    assert i in Supporters(t, t[i]);
    assert Freq(t, t[i]) > 0;
    assert |Supporters(t, k)| > 0;
    var j := Member(Supporters(t, k));
    assert j in t && t[j] == k;
  }

  lemma VotesOk(n: nat, s: Sys, e: Event, v: int, i: int)
    requires Inv(n, s) && Enabled(n, s, e) && i in VotesAt(Next(n, s, e).votes, v)
    ensures var s' := Next(n, s, e); 0 <= i < n && Proposed(s', v, VotesAt(s'.votes, v)[i])
  {
    var s' := Next(n, s, e);
    StepGrows(n, s, e);
    if i in VotesAt(s.votes, v) {
      ProposedMono(s, s', v, VotesAt(s.votes, v)[i]);
    } else {
      assert e.Gather? && e.x == i && e.v == v;
      assert e.l in ProposalsAt(s', v);
    }
  }

  lemma OthersSame(n: nat, s: Sys, e: Event)
    requires Enabled(n, s, e)
    ensures var s' := Next(n, s, e); |s'.nodes| == n && forall x :: 0 <= x < n && x != e.x ==> s'.nodes[x] == s.nodes[x]
  {
    hide MostFrequent, Highest, Ones, Q, Acceptable;
  }

  lemma StepKeeps(n: nat, s: Sys, e: Event)
    requires Inv(n, s) && Enabled(n, s, e)
    ensures Inv(n, Next(n, s, e)) && Grows(s, Next(n, s, e))
  {
    var s' := Next(n, s, e);
    StepGrows(n, s, e);
    ActorOk(n, s, e);
    OthersSame(n, s, e);
    hide Next, Enabled, NodeOk, ProposalOk, Proposed, Own, Grows;
    forall x | 0 <= x < n
      ensures NodeOk(n, s', s'.nodes[x])
    {
      if x != e.x {
        NodeOkMono(n, s, s', s.nodes[x]);
      }
    }
    forall v, i | i in ProposalsAt(s', v)
      ensures ProposalOk(n, s', v, ProposalsAt(s', v)[i]) && Own(s', v, i)
    {
      ProposalsOk(n, s, e, v, i);
    }
    forall v, i | i in VotesAt(s'.votes, v)
      ensures 0 <= i < n && Proposed(s', v, VotesAt(s'.votes, v)[i])
    {
      VotesOk(n, s, e, v, i);
    }
  }

  lemma {:induction false} RunKeeps(n: nat, tr: seq<Sys>, i: nat)
    requires Run(n, tr) && i < |tr|
    ensures Inv(n, tr[i])
    ensures i > 0 ==> Grows(tr[i - 1], tr[i])
  {
    if i > 0 {
      hide Inv, Next, Grows;
      RunKeeps(n, tr, i - 1);
      assert Step(n, tr[i - 1], tr[i - 1 + 1]);
      var e :| Enabled(n, tr[i - 1], e) && tr[i] == Next(n, tr[i - 1], e);
      StepKeeps(n, tr[i - 1], e);
    }
  }
}
