/** Where the lock ends: for every group size that 3 divides there is a run in which every node follows
    the code and two nodes hand different indices to the final agreement. */
module VabaLimits {
  import opened Wrappers
  import opened Sets
  import opened Quorum
  import opened Frequency
  import opened Vaba
  import opened VabaSystem
  import opened VabaTheorems

  // --------------------------------------------------------- reachability

  ghost predicate Reached(n: nat, s: Sys) {
    exists tr :: Run(n, tr) && tr[|tr| - 1] == s
  }

  lemma ReachInit(n: nat)
    ensures Reached(n, Init(n))
  {
    assert Run(n, [Init(n)]);
  }

  lemma ReachStep(n: nat, s: Sys, e: Event)
    requires Reached(n, s) && Enabled(n, s, e)
    ensures Reached(n, Next(n, s, e))
  {
    hide Next, Enabled;
    var tr :| Run(n, tr) && tr[|tr| - 1] == s;
    var longer := tr + [Next(n, s, e)];
    assert Step(n, s, Next(n, s, e));
    forall i | 0 <= i < |longer| - 1
      ensures Step(n, longer[i], longer[i + 1])
    {
      assert i < |tr| - 1 ==> Step(n, tr[i], tr[i + 1]);
    }
    assert Run(n, longer);
  }

  lemma ReachedKeeps(n: nat, s: Sys)
    requires Reached(n, s)
    ensures Inv(n, s) && |s.nodes| == n
  {
    var tr :| Run(n, tr) && tr[|tr| - 1] == s;
    hide Run, Inv;
    RunKeeps(n, tr, |tr| - 1);
    InvSize(n, s);
  }

  lemma InvSize(n: nat, s: Sys)
    requires Inv(n, s)
    ensures |s.nodes| == n
  {
  }

  /** Only node x changes, and only x may have voted. */
  ghost predicate Alone(s: Sys, t: Sys, x: int) {
    && |t.nodes| == |s.nodes| && t.inputs == s.inputs
    && (forall y :: 0 <= y < |s.nodes| && y != x ==> t.nodes[y] == s.nodes[y])
    && (forall v, y :: y != x && y in VotesAt(t.votes, v) ==> y in VotesAt(s.votes, v))
  }

  /** The run goes on from s to t with steps of node x alone. */
  ghost predicate Moves(n: nat, s: Sys, t: Sys, x: int) {
    Reached(n, t) && Grows(s, t) && Alone(s, t, x)
  }

  lemma Stay(n: nat, s: Sys, x: int)
    requires Reached(n, s)
    ensures Moves(n, s, s, x)
  {
    GrowsRefl(s);
  }

  lemma AloneTrans(a: Sys, b: Sys, c: Sys, x: int)
    requires Alone(a, b, x) && Alone(b, c, x)
    ensures Alone(a, c, x)
  {
  }

  lemma MovesTrans(n: nat, a: Sys, b: Sys, c: Sys, x: int)
    requires Moves(n, a, b, x) && Moves(n, b, c, x)
    ensures Moves(n, a, c, x)
  {
    hide Grows, Alone, Reached;
    GrowsTrans(a, b, c);
    AloneTrans(a, b, c, x);
  }

  lemma EventIsAlone(n: nat, s: Sys, e: Event)
    requires Enabled(n, s, e) && !e.Input?
    ensures Alone(s, Next(n, s, e), e.x)
  {
    hide MostFrequent, Highest, Freq, Ones, Q;
  }

  lemma Move(n: nat, s: Sys, e: Event)
    requires Reached(n, s) && Enabled(n, s, e) && !e.Input?
    ensures Moves(n, s, Next(n, s, e), e.x)
  {
    hide *;
    ReachedKeeps(n, s);
    ReachStep(n, s, e);
    StepGrows(n, s, e);
    EventIsAlone(n, s, e);
    Together(n, s, Next(n, s, e), e.x);
  }

  lemma Together(n: nat, s: Sys, t: Sys, x: int)
    requires Reached(n, t) && Grows(s, t) && Alone(s, t, x)
    ensures Moves(n, s, t, x)
  {
  }

  // ------------------------------------------------------------- the run

  /** Every node reports all broadcasts but node 1, which leaves out the last. */
  function VectorOf(n: nat, i: int): seq<int> {
    seq(n, j => if i == 1 && j == n - 1 then 0 else 1)
  }

  lemma OnesOf(n: nat, i: int)
    requires n >= 1
    ensures Ones(VectorOf(n, i)) <= Ids(n) && |Ones(VectorOf(n, i))| >= n - 1
  {
    assert Ids(n - 1) <= Ones(VectorOf(n, i));
    SubsetCard(Ids(n - 1), Ones(VectorOf(n, i)));
  }

  lemma Sizes(m: nat)
    requires m >= 1
    ensures Q(3 * m) == 2 * m
  {
    assert F(3 * m) == m - 1;
  }

  predicate VectorsIn(s: Sys, k: nat) {
    forall i :: 0 <= i < k ==> i in s.inputs && s.inputs[i] == VectorOf(|s.nodes|, i)
  }

  /** The nodes below k have broadcast their vectors, and nothing else has happened. */
  predicate InputsDone(n: nat, s: Sys, k: nat) {
    s == Init(n).(inputs := s.inputs) && VectorsIn(s, k) && forall i :: i in s.inputs ==> 0 <= i < k
  }

  lemma Inputs(n: nat, s: Sys, x: nat)
    requires Reached(n, s) && InputsDone(n, s, x) && x < n
    ensures var t := s.(inputs := s.inputs[x := VectorOf(n, x)]);
      Reached(n, t) && InputsDone(n, t, x + 1)
  {
    ReachStep(n, s, Input(x, VectorOf(n, x)));
    hide Reached, VectorOf;
  }

  lemma {:induction false} InputAll(n: nat, k: nat) returns (s: Sys)
    requires k <= n
    ensures Reached(n, s) && InputsDone(n, s, k)
  {
    if k == 0 {
      ReachInit(n);
      s := Init(n);
    } else {
      hide *;
      var u := InputAll(n, k - 1);
      Inputs(n, u, k - 1);
      s := u.(inputs := u.inputs[k - 1 := VectorOf(n, k - 1)]);
    }
  }

  // ------------------------------------------------- events of one node

  lemma Completes(n: nat, s: Sys, x: nat, j: nat)
    requires Reached(n, s) && x < n == |s.nodes| && j < n
    ensures var t := Put(s, x, s.nodes[x].(completed := s.nodes[x].completed + {j}));
      Moves(n, s, t, x)
  {
    Move(n, s, Complete(x, j));
  }

  lemma {:induction false} CompleteAll(n: nat, s: Sys, x: nat, k: nat) returns (t: Sys)
    requires Reached(n, s) && x < n == |s.nodes| && k <= n
    ensures Moves(n, s, t, x) && t.votes == s.votes
    ensures x < |t.nodes| && t.nodes[x] == s.nodes[x].(completed := t.nodes[x].completed) && Ids(k) <= t.nodes[x].completed
  {
    if k == 0 {
      t := s;
      Stay(n, s, x);
    } else {
      var u := CompleteAll(n, s, x, k - 1);
      hide Reached, Grows;
      Completes(n, u, x, k - 1);
      t := Put(u, x, u.nodes[x].(completed := u.nodes[x].completed + {k - 1}));
      MovesTrans(n, s, u, t, x);
    }
  }

  /** The vector of node i is accepted by a node that has completed everything. */
  lemma Indexes(n: nat, s: Sys, x: nat, i: int)
    requires Reached(n, s) && x < n == |s.nodes| && s.nodes[x].n == n
    requires 0 <= i < n && Q(n) < n && VectorsIn(s, n) && Ids(n) <= s.nodes[x].completed
    ensures var p := s.nodes[x];
      Moves(n, s, Put(s, x, p.(firstpre := if p.firstpre == None then Some(i) else p.firstpre, valid := p.valid + {i})), x)
  {
    OnesOf(n, i);
    Move(n, s, Index(x, i));
    hide Moves, VectorOf, Ones, Q;
  }

  lemma Starts(n: nat, s: Sys, x: nat)
    requires Reached(n, s) && x < n == |s.nodes| && !s.nodes[x].started && s.nodes[x].firstpre.Some? && |s.nodes[x].valid| >= Q(n)
    ensures Moves(n, s, Broadcast(Put(s, x, s.nodes[x].(started := true)), 0, x, Prejustify(s.nodes[x].firstpre.value, map[])), x)
  {
    Move(n, s, Start(x));
  }

  lemma VectorsStill(s: Sys, t: Sys, n: nat, x: nat)
    requires VectorsIn(s, n) && Alone(s, t, x)
    ensures VectorsIn(t, n)
  {
  }

  /** From s to t node x has accepted the vectors of the nodes below k. */
  predicate Indexed(s: Sys, t: Sys, x: nat, k: nat) {
    && x < |s.nodes| && x < |t.nodes| && t.votes == s.votes
    && t.nodes[x] == s.nodes[x].(valid := t.nodes[x].valid) && Ids(k) <= t.nodes[x].valid
  }

  predicate Ready(n: nat, s: Sys, x: nat) {
    && x < n == |s.nodes| && s.nodes[x].n == n && Q(n) < n && VectorsIn(s, n)
    && Ids(n) <= s.nodes[x].completed && s.nodes[x].firstpre.Some?
  }

  lemma IndexOneMore(n: nat, s: Sys, u: Sys, x: nat, k: nat) returns (t: Sys)
    requires Ready(n, s, x) && Moves(n, s, u, x) && Indexed(s, u, x, k) && k < n
    ensures Moves(n, s, t, x) && Indexed(s, t, x, k + 1)
  {
    hide Reached, Grows, VectorsIn, AcceptIndex;
    VectorsStill(s, u, n, x);
    Indexes(n, u, x, k);
    t := Put(u, x, u.nodes[x].(valid := u.nodes[x].valid + {k}));
    MovesTrans(n, s, u, t, x);
  }

  lemma {:induction false} IndexAll(n: nat, s: Sys, x: nat, k: nat) returns (t: Sys)
    requires Reached(n, s) && Ready(n, s, x) && k <= n
    ensures Moves(n, s, t, x) && Indexed(s, t, x, k)
  {
    if k == 0 {
      t := s;
      Stay(n, s, x);
    } else {
      hide *;
      var u := IndexAll(n, s, x, k - 1);
      t := IndexOneMore(n, s, u, x, k - 1);
    }
  }

  /** Every proposal of view v is acceptable to p. */
  ghost predicate AcceptsAll(s: Sys, n: nat, v: nat, p: State) {
    v <= 1 && forall i :: 0 <= i < n ==> i in ProposalsAt(s, v) && Acceptable(p, v, ProposalsAt(s, v)[i])
  }

  lemma AcceptsStill(s: Sys, t: Sys, n: nat, v: nat, p: State, q: State)
    requires AcceptsAll(s, n, v, p) && Grows(s, t) && q.valid == p.valid && q.table == p.table
    ensures AcceptsAll(t, n, v, q)
  {
  }

  lemma Proposes(n: nat, s: Sys, x: nat, v: nat, i: nat)
    requires Reached(n, s) && x < n == |s.nodes| && i < n && AcceptsAll(s, n, v, s.nodes[x])
    requires s.nodes[x].started && v <= s.nodes[x].view && !s.nodes[x].llock
    ensures var p := s.nodes[x];
      Moves(n, s, Put(s, x, p.(accepted := Insert(p.accepted, v, i), igvalid := p.igvalid + {i})), x)
  {
    assert Acceptable(s.nodes[x], v, ProposalsAt(s, v)[i]);
    Move(n, s, Propose(x, v, i));
    hide Moves, Acceptable, MostFrequent;
  }

  lemma InsertAt(c: Counter<int>, v: int, i: int)
    ensures At(Insert(c, v, i), v) == At(c, v) + {i}
  {
  }

  lemma {:induction false} ProposeAll(n: nat, s: Sys, x: nat, v: nat, k: nat) returns (t: Sys)
    requires Reached(n, s) && x < n == |s.nodes| && k <= n && AcceptsAll(s, n, v, s.nodes[x])
    requires s.nodes[x].started && v <= s.nodes[x].view && !s.nodes[x].llock
    ensures Moves(n, s, t, x) && x < |t.nodes| && t.votes == s.votes
    ensures t.nodes[x] == s.nodes[x].(accepted := t.nodes[x].accepted, igvalid := t.nodes[x].igvalid)
    ensures Ids(k) <= At(t.nodes[x].accepted, v) && Ids(k) <= t.nodes[x].igvalid
  {
    if k == 0 {
      t := s;
      Stay(n, s, x);
    } else {
      var u := ProposeAll(n, s, x, v, k - 1);
      hide Reached, Grows, AcceptsAll, Insert, At;
      AcceptsStill(s, u, n, v, s.nodes[x], u.nodes[x]);
      Proposes(n, u, x, v, k - 1);
      var p := u.nodes[x];
      InsertAt(p.accepted, v, k - 1);
      t := Put(u, x, p.(accepted := Insert(p.accepted, v, k - 1), igvalid := p.igvalid + {k - 1}));
      MovesTrans(n, s, u, t, x);
    }
  }

  /** In view 0 the first 2m nodes vote for 1; all other votes are for 0. */
  function VoteOf(m: nat, v: nat, i: int): int {
    if v == 0 && i < 2 * m then 1 else 0
  }

  /** The votes of the nodes from lo on. */
  function Table(m: nat, v: nat, lo: nat): Votes
    requires lo <= 3 * m
  {
    map i | i in Range(lo, 3 * m) :: VoteOf(m, v, i)
  }

  lemma TableGrows(m: nat, v: nat, lo: nat)
    requires 0 < lo <= 3 * m
    ensures Table(m, v, lo - 1) == Table(m, v, lo)[lo - 1 := VoteOf(m, v, lo - 1)]
  {
  }

  lemma TableIsEmpty(m: nat, v: nat)
    ensures Table(m, v, 3 * m) == map[]
  {
  }

  lemma TableIsSplit(m: nat, lo: nat)
    requires lo <= 2 * m
    ensures Table(m, 0, lo) == Split(lo, 2 * m, 3 * m) && Table(m, 1, 0) == Split(0, 0, 3 * m)
  {
  }

  predicate Voted(s: Sys, m: nat, v: nat, i: int) {
    i in VotesAt(s.votes, v) && VotesAt(s.votes, v)[i] == VoteOf(m, v, i)
  }

  predicate AllVoted(s: Sys, m: nat, v: nat) {
    forall i :: 0 <= i < 3 * m ==> Voted(s, m, v, i)
  }

  lemma VotedStill(s: Sys, t: Sys, m: nat, v: nat)
    requires AllVoted(s, m, v) && Grows(s, t)
    ensures AllVoted(t, m, v)
  {
    hide NodesGrow, InputsGrow, ProposalsGrow;
    forall i | 0 <= i < 3 * m
      ensures Voted(t, m, v, i)
    {
      assert Voted(s, m, v, i);
    }
  }

  lemma Counts(m: nat, s: Sys, x: nat, v: nat, i: nat)
    requires Reached(3 * m, s) && x < 3 * m == |s.nodes| && i < 3 * m && AllVoted(s, m, v) && Ids(3 * m) <= s.nodes[x].igvalid
    ensures var p := s.nodes[x];
      Moves(3 * m, s, Put(s, x, p.(table := p.table[v := VotesAt(p.table, v)[i := VoteOf(m, v, i)]])), x)
  {
    assert Voted(s, m, v, i) && Voted(s, m, v, x);
    assert m >= 1;
    Move(3 * m, s, Vote(x, v, i));
    hide Moves;
  }

  /** Node x admits the votes of view v from node hi-1 down to node lo. */
  lemma {:induction false} CountDown(m: nat, s: Sys, x: nat, v: nat, hi: nat, lo: nat) returns (t: Sys)
    requires Reached(3 * m, s) && x < 3 * m == |s.nodes| && lo <= hi <= 3 * m && AllVoted(s, m, v)
    requires Ids(3 * m) <= s.nodes[x].igvalid && VotesAt(s.nodes[x].table, v) == Table(m, v, hi)
    ensures Moves(3 * m, s, t, x) && x < |t.nodes| && t.votes == s.votes
    ensures t.nodes[x] == s.nodes[x].(table := t.nodes[x].table) && VotesAt(t.nodes[x].table, v) == Table(m, v, lo)
    ensures forall u :: u != v ==> VotesAt(t.nodes[x].table, u) == VotesAt(s.nodes[x].table, u)
    decreases hi - lo
  {
    if lo == hi {
      t := s;
      Stay(3 * m, s, x);
    } else {
      var u := CountDown(m, s, x, v, hi, lo + 1);
      hide Reached, Grows, AllVoted, Table, VoteOf;
      VotedStill(s, u, m, v);
      Counts(m, u, x, v, lo);
      var p := u.nodes[x];
      TableGrows(m, v, lo + 1);
      t := Put(u, x, p.(table := p.table[v := VotesAt(p.table, v)[lo := VoteOf(m, v, lo)]]));
      MovesTrans(3 * m, s, u, t, x);
    }
  }

  /** The node has admitted everyone's proposal of view v. */
  predicate Admitted(p: State, n: nat, v: nat) {
    Ids(n) <= p.igvalid && Ids(n) <= At(p.accepted, v)
  }

  ghost predicate AllAdmitted(s: Sys, n: nat, v: nat) {
    |s.nodes| == n && forall i :: 0 <= i < n ==> i in ProposalsAt(s, v) && Admitted(s.nodes[i], n, v)
  }

  lemma AdmittedCounts(p: State, q: State, n: nat, v: nat)
    requires Admitted(p, n, v) && Admitted(q, n, v)
    ensures |At(p.accepted, v)| >= n && |p.igvalid * q.igvalid| >= n
  {
    SubsetCard(Ids(n), At(p.accepted, v));
    SubsetCard(Ids(n), p.igvalid * q.igvalid);
  }

  /** The gather result that names the nodes 0, ..., l. */
  function UpTo(l: nat): seq<int> {
    seq(l + 1, i => i)
  }

  lemma UpToMembers(l: nat)
    ensures Highest(UpTo(l), l) && |Members(UpTo(l))| == l + 1 && forall i :: i in UpTo(l) ==> 0 <= i <= l
  {
    forall i | 0 <= i <= l
      ensures i in UpTo(l)
    {
      assert UpTo(l)[i] == i;
    }
    assert Members(UpTo(l)) == Ids(l + 1);
  }

  lemma UpToGathered(n: nat, s: Sys, x: nat, v: nat, l: nat)
    requires x < n && AllAdmitted(s, n, v) && Q(n) <= l + 1 <= n
    ensures Gathered(n, s, x, v, UpTo(l)) && |At(s.nodes[x].accepted, v)| >= Q(n)
  {
    UpToMembers(l);
    hide Q, Ids, Admitted, At, Members, UpTo, Highest;
    forall i | 0 <= i < n
      ensures |At(s.nodes[i].accepted, v)| >= n && |s.nodes[i].igvalid * s.nodes[x].igvalid| >= n
    {
      AdmittedCounts(s.nodes[i], s.nodes[x], n, v);
    }
  }

  lemma Gathers(n: nat, s: Sys, x: nat, v: nat, l: nat)
    requires Reached(n, s) && x < n && x !in VotesAt(s.votes, v) && AllAdmitted(s, n, v) && Q(n) <= l + 1 <= n
    ensures Moves(n, s, s.(votes := s.votes[v := VotesAt(s.votes, v)[x := ProposalsAt(s, v)[l].pre]]), x)
  {
    assert x in ProposalsAt(s, v) && l in ProposalsAt(s, v);
    UpToGathered(n, s, x, v, l);
    UpToMembers(l);
    hide Gathered, Highest, UpTo, Q, AllAdmitted, Reached, Moves;
    Move(n, s, Event.Gather(x, v, UpTo(l), l));
  }

  lemma Advances(n: nat, s: Sys, x: nat, k: int)
    requires Reached(n, s) && x < n == |s.nodes| && s.nodes[x].started && s.nodes[x].view + 1 < n
    requires |VotesAt(s.nodes[x].table, s.nodes[x].view)| >= Q(n) && MostFrequent(VotesAt(s.nodes[x].table, s.nodes[x].view), k)
    ensures var p := s.nodes[x];
      Moves(n, s, Broadcast(Put(s, x, p.(view := p.view + 1)), p.view + 1, x, Prejustify(k, VotesAt(p.table, p.view))), x)
  {
    Move(n, s, Advance(x, k));
    hide Moves, MostFrequent;
  }

  lemma Locks(n: nat, s: Sys, x: nat, v: nat, k: int)
    requires Reached(n, s) && x < n == |s.nodes| && v < s.nodes[x].view && s.nodes[x].ra == None
    requires MostFrequent(VotesAt(s.nodes[x].table, v), k) && Freq(VotesAt(s.nodes[x].table, v), k) >= Q(n)
    ensures Moves(n, s, Put(s, x, s.nodes[x].(ra := Some(k))), x)
  {
    Move(n, s, Event.Lock(x, v, k));
    hide Moves, MostFrequent;
  }

  // ------------------------------------------------------------ the sweeps

  /** Node 2m-1 first accepts index 1, all others index 0. */
  function First(m: nat, x: int): int {
    if x == 2 * m - 1 then 1 else 0
  }

  /** A node of view v that follows the code and has handed nothing on. */
  predicate Live(p: State, n: nat, v: nat) {
    p.n == n && p.started && !p.llock && p.ra == None && p.decided == None && Ids(n) <= p.valid && p.view == v
  }

  /** Node 0 hands on 1, all others 0. */
  function HandedOn(x: int): int {
    if x == 0 then 1 else 0
  }

  /** What node x is after sweep w: it starts, admits the proposals of view 0, votes, enters view 1 with
      the votes of the nodes from m on, admits the proposals of view 1, votes, and hands an index on. */
  predicate Stage(p: State, m: nat, x: int, w: nat) {
    if w == 0 then p == Initial(x, 3 * m)
    else if w <= 3 then Live(p, 3 * m, 0) && p.table == map[] && (w >= 2 ==> Admitted(p, 3 * m, 0))
    else if w == 7 then p.ra == Some(HandedOn(x)) && p.decided == None
    else
      && Live(p, 3 * m, 1) && Ids(3 * m) <= p.igvalid && (w >= 5 ==> Admitted(p, 3 * m, 1))
      && VotesAt(p.table, 0) == Table(m, 0, m) && VotesAt(p.table, 1) == map[]
  }

  predicate Said(s: Sys, v: nat, x: int, p: Prejustify) {
    x in ProposalsAt(s, v) && ProposalsAt(s, v)[x] == p
  }

  /** What sweep w makes node x broadcast. */
  predicate Cast(s: Sys, m: nat, x: int, w: nat) {
    match w
    case 1 => Said(s, 0, x, Prejustify(First(m, x), map[]))
    case 3 => Voted(s, m, 0, x)
    case 4 => Said(s, 1, x, Prejustify(0, Table(m, 0, m)))
    case 6 => Voted(s, m, 1, x)
    case _ => true
  }

  lemma CastStill(s: Sys, t: Sys, m: nat, x: int, w: nat)
    requires Cast(s, m, x, w) && Grows(s, t)
    ensures Cast(t, m, x, w)
  {
    hide NodesGrow, InputsGrow, Table, First, VoteOf;
  }

  /** Node x completes everything and accepts its first index. */
  lemma Prepare(m: nat, s: Sys, x: nat) returns (t: Sys)
    requires m >= 1 && Reached(3 * m, s) && x < 3 * m == |s.nodes| && VectorsIn(s, 3 * m) && Stage(s.nodes[x], m, x, 0)
    ensures Moves(3 * m, s, t, x) && Ready(3 * m, t, x) && t.votes == s.votes
    ensures t.nodes[x] == s.nodes[x].(completed := t.nodes[x].completed, firstpre := Some(First(m, x)), valid := t.nodes[x].valid)
  {
    var n := 3 * m;
    Sizes(m);
    hide Reached, Grows, VectorsIn, Q;
    var a := CompleteAll(n, s, x, n);
    VectorsStill(s, a, n, x);
    Indexes(n, a, x, First(m, x));
    var p := a.nodes[x];
    t := Put(a, x, p.(firstpre := Some(First(m, x)), valid := p.valid + {First(m, x)}));
    MovesTrans(n, s, a, t, x);
    VectorsStill(s, t, n, x);
  }

  lemma Begin(m: nat, s: Sys, x: nat) returns (t: Sys)
    requires m >= 1 && Reached(3 * m, s) && x < 3 * m == |s.nodes| && VectorsIn(s, 3 * m) && Stage(s.nodes[x], m, x, 0)
    ensures Moves(3 * m, s, t, x) && x < |t.nodes| && Stage(t.nodes[x], m, x, 1) && Cast(t, m, x, 1) && t.votes == s.votes
  {
    var n := 3 * m;
    Sizes(m);
    var b := Prepare(m, s, x);
    hide Reached, Grows, VectorsIn, Q;
    var c := IndexAll(n, b, x, n);
    MovesTrans(n, s, b, c, x);
    SubsetCard(Ids(n), c.nodes[x].valid);
    Starts(n, c, x);
    t := Broadcast(Put(c, x, c.nodes[x].(started := true)), 0, x, Prejustify(First(m, x), map[]));
    MovesTrans(n, s, c, t, x);
  }

  /** Node x votes for the proposal of node l, the highest of the nodes 0, ..., l that its gather names. */
  lemma VoteIn(m: nat, s: Sys, x: nat, v: nat, l: nat) returns (t: Sys)
    requires m >= 1 && Reached(3 * m, s) && x < 3 * m && 2 * m <= l + 1 <= 3 * m && AllAdmitted(s, 3 * m, v)
    requires x !in VotesAt(s.votes, v) && l in ProposalsAt(s, v) && ProposalsAt(s, v)[l].pre == VoteOf(m, v, x)
    ensures Moves(3 * m, s, t, x) && t.nodes == s.nodes && Voted(t, m, v, x)
    ensures forall u :: u != v ==> VotesAt(t.votes, u) == VotesAt(s.votes, u)
  {
    Sizes(m);
    Gathers(3 * m, s, x, v, l);
    hide Moves, Q, AllAdmitted;
    t := s.(votes := s.votes[v := VotesAt(s.votes, v)[x := ProposalsAt(s, v)[l].pre]]);
  }

  lemma FirstAdmit(m: nat, s: Sys, x: nat) returns (t: Sys)
    requires m >= 1 && Reached(3 * m, s) && x < 3 * m == |s.nodes| && Stage(s.nodes[x], m, x, 1)
    requires forall i :: 0 <= i < 3 * m ==> Cast(s, m, i, 1)
    ensures Moves(3 * m, s, t, x) && x < |t.nodes| && Stage(t.nodes[x], m, x, 2) && Cast(t, m, x, 2) && t.votes == s.votes
  {
    forall i | 0 <= i < 3 * m
      ensures i in ProposalsAt(s, 0) && Acceptable(s.nodes[x], 0, ProposalsAt(s, 0)[i])
    {
      assert Cast(s, m, i, 1);
    }
    hide Reached, Grows, Acceptable;
    t := ProposeAll(3 * m, s, x, 0, 3 * m);
  }

  /** Everyone has admitted the proposals of view v once the sweep that votes there has begun. */
  lemma StagesAdmitted(m: nat, s: Sys, w: nat, x: nat, v: nat)
    requires (w == 3 && v == 0) || (w == 6 && v == 1)
    requires Stages(s, m, w, x) && forall i :: 0 <= i < 3 * m ==> i in ProposalsAt(s, v)
    ensures AllAdmitted(s, 3 * m, v)
  {
    hide Live, Table;
    forall i | 0 <= i < 3 * m
      ensures Admitted(s.nodes[i], 3 * m, v)
    {
      assert Stage(s.nodes[i], m, i, if i < x then w else w - 1);
    }
  }

  /** The first 2m nodes are told of the nodes 0, ..., 2m-1 and vote 1, the others of all and vote 0. */
  lemma FirstVote(m: nat, s: Sys, x: nat) returns (t: Sys)
    requires m >= 1 && Reached(3 * m, s) && x < 3 * m && Stages(s, m, 3, x) && x !in VotesAt(s.votes, 0)
    requires forall i :: 0 <= i < 3 * m ==> Cast(s, m, i, 1)
    ensures Moves(3 * m, s, t, x) && t.nodes == s.nodes && |s.nodes| == 3 * m && Stage(t.nodes[x], m, x, 3) && Cast(t, m, x, 3)
    ensures VotesAt(t.votes, 1) == VotesAt(s.votes, 1)
  {
    var l := if x < 2 * m then 2 * m - 1 else 3 * m - 1;
    forall i | 0 <= i < 3 * m
      ensures i in ProposalsAt(s, 0) && ProposalsAt(s, 0)[i].pre == First(m, i)
    {
      assert Cast(s, m, i, 1);
    }
    assert Stage(s.nodes[x], m, x, 2);
    StagesAdmitted(m, s, 3, x, 0);
    hide Reached, Moves, AllAdmitted, Stages;
    t := VoteIn(m, s, x, 0, l);
  }

  lemma TieIsFrequent(m: nat)
    requires m >= 1
    ensures |Table(m, 0, m)| >= Q(3 * m) && MostFrequent(Table(m, 0, m), 0) && MostFrequent(Table(m, 0, m), 1)
  {
    Sizes(m);
    TableIsSplit(m, m);
    SplitCounts(m, 2 * m, 3 * m);
    assert |Table(m, 0, m)| == |Table(m, 0, m).Keys|;
    hide Freq;
  }

  /** With the votes of the nodes from m on, 0 is as good a choice as 1. */
  lemma EnterView(m: nat, s: Sys, x: nat) returns (t: Sys)
    requires m >= 1 && Reached(3 * m, s) && x < 3 * m == |s.nodes| && Stage(s.nodes[x], m, x, 3) && AllVoted(s, m, 0)
    ensures Moves(3 * m, s, t, x) && x < |t.nodes| && Said(t, 1, x, Prejustify(0, Table(m, 0, m))) && t.votes == s.votes
    ensures t.nodes[x] == s.nodes[x].(view := 1, table := t.nodes[x].table)
    ensures VotesAt(t.nodes[x].table, 0) == Table(m, 0, m) && VotesAt(t.nodes[x].table, 1) == map[]
  {
    TableIsEmpty(m, 0);
    TieIsFrequent(m);
    hide Reached, Grows, MostFrequent, Table, AllVoted, Q;
    var a := CountDown(m, s, x, 0, 3 * m, m);
    Advances(3 * m, a, x, 0);
    var p := a.nodes[x];
    t := Broadcast(Put(a, x, p.(view := 1)), 1, x, Prejustify(0, VotesAt(p.table, 0)));
    MovesTrans(3 * m, s, a, t, x);
  }

  lemma CastsAreVotes(m: nat, s: Sys, w: nat, v: nat)
    requires (w == 3 && v == 0) || (w == 6 && v == 1)
    requires forall i :: 0 <= i < 3 * m ==> Cast(s, m, i, w)
    ensures AllVoted(s, m, v)
  {
    forall i | 0 <= i < 3 * m
      ensures Voted(s, m, v, i)
    {
      assert Cast(s, m, i, w);
    }
  }

  lemma NextView(m: nat, s: Sys, x: nat) returns (t: Sys)
    requires m >= 1 && Reached(3 * m, s) && x < 3 * m == |s.nodes| && Stage(s.nodes[x], m, x, 3)
    requires forall i :: 0 <= i < 3 * m ==> Cast(s, m, i, 3)
    ensures Moves(3 * m, s, t, x) && x < |t.nodes| && Stage(t.nodes[x], m, x, 4) && Cast(t, m, x, 4) && t.votes == s.votes
  {
    CastsAreVotes(m, s, 3, 0);
    hide Moves, Reached, Table, AllVoted;
    t := EnterView(m, s, x);
  }

  lemma OwnJustified(t: Votes, v: nat, p: State)
    requires VotesAt(p.table, v) == t
    ensures JustifiedBy(t, v, p.table)
  {
  }

  lemma SecondAdmit(m: nat, s: Sys, x: nat) returns (t: Sys)
    requires m >= 1 && Reached(3 * m, s) && x < 3 * m == |s.nodes| && Stage(s.nodes[x], m, x, 4)
    requires forall i :: 0 <= i < 3 * m ==> Cast(s, m, i, 4)
    ensures Moves(3 * m, s, t, x) && x < |t.nodes| && Stage(t.nodes[x], m, x, 5) && Cast(t, m, x, 5) && t.votes == s.votes
  {
    OwnJustified(Table(m, 0, m), 0, s.nodes[x]);
    forall i | 0 <= i < 3 * m
      ensures i in ProposalsAt(s, 1) && Acceptable(s.nodes[x], 1, ProposalsAt(s, 1)[i])
    {
      assert Cast(s, m, i, 4);
    }
    hide Reached, Grows, Acceptable, Table;
    t := ProposeAll(3 * m, s, x, 1, 3 * m);
  }

  /** In view 1 everyone proposes 0. */
  lemma SecondVote(m: nat, s: Sys, x: nat) returns (t: Sys)
    requires m >= 1 && Reached(3 * m, s) && x < 3 * m && Stages(s, m, 6, x) && x !in VotesAt(s.votes, 1)
    requires forall i :: 0 <= i < 3 * m ==> Cast(s, m, i, 4)
    ensures Moves(3 * m, s, t, x) && t.nodes == s.nodes && |s.nodes| == 3 * m && Stage(t.nodes[x], m, x, 6) && Cast(t, m, x, 6)
  {
    forall i | 0 <= i < 3 * m
      ensures i in ProposalsAt(s, 1) && ProposalsAt(s, 1)[i].pre == 0
    {
      assert Cast(s, m, i, 4);
    }
    assert Stage(s.nodes[x], m, x, 5);
    StagesAdmitted(m, s, 6, x, 1);
    hide Reached, Moves, AllAdmitted, Stages, Table;
    t := VoteIn(m, s, x, 1, 3 * m - 1);
  }

  /** Node 0 admits the other votes of view 0 as well and finds the quorum for 1. */
  lemma LocksOne(m: nat, s: Sys) returns (t: Sys)
    requires m >= 1 && Reached(3 * m, s) && |s.nodes| == 3 * m && Stage(s.nodes[0], m, 0, 6) && AllVoted(s, m, 0)
    ensures Moves(3 * m, s, t, 0) && |t.nodes| == 3 * m && Stage(t.nodes[0], m, 0, 7) && t.votes == s.votes
  {
    Sizes(m);
    TableIsSplit(m, 0);
    SplitCounts(0, 2 * m, 3 * m);
    hide Reached, Grows, Freq, Table, Split, AllVoted;
    var a := CountDown(m, s, 0, 0, m, 0);
    Locks(3 * m, a, 0, 0, 1);
    t := Put(a, 0, a.nodes[0].(ra := Some(1)));
    MovesTrans(3 * m, s, a, t, 0);
  }

  lemma ZerosWin(m: nat)
    requires m >= 1
    ensures var t := Table(m, 1, 0); |t| >= Q(3 * m) && MostFrequent(t, 0) && Freq(t, 0) >= Q(3 * m)
  {
    Sizes(m);
    TableIsSplit(m, 0);
    SplitCounts(0, 0, 3 * m);
    assert |Table(m, 1, 0)| == |Table(m, 1, 0).Keys|;
    hide Freq, Table;
  }

  lemma CountsZeros(m: nat, s: Sys, x: nat) returns (t: Sys)
    requires m >= 1 && Reached(3 * m, s) && 0 < x < 3 * m == |s.nodes| && Stage(s.nodes[x], m, x, 6) && AllVoted(s, m, 1)
    ensures Moves(3 * m, s, t, x) && |t.nodes| == 3 * m && t.votes == s.votes
    ensures t.nodes[x] == s.nodes[x].(view := 2, table := t.nodes[x].table) && VotesAt(t.nodes[x].table, 1) == Table(m, 1, 0)
  {
    ZerosWin(m);
    TableIsEmpty(m, 1);
    hide Reached, Grows, MostFrequent, Table, AllVoted, Q;
    var a := CountDown(m, s, x, 1, 3 * m, 0);
    Advances(3 * m, a, x, 0);
    var p := a.nodes[x];
    t := Broadcast(Put(a, x, p.(view := 2)), 2, x, Prejustify(0, VotesAt(p.table, 1)));
    MovesTrans(3 * m, s, a, t, x);
  }

  /** Every other node finds the quorum for 0 in view 1. */
  lemma LocksZero(m: nat, s: Sys, x: nat) returns (t: Sys)
    requires m >= 1 && Reached(3 * m, s) && 0 < x < 3 * m == |s.nodes| && Stage(s.nodes[x], m, x, 6) && AllVoted(s, m, 1)
    ensures Moves(3 * m, s, t, x) && |t.nodes| == 3 * m && Stage(t.nodes[x], m, x, 7) && t.votes == s.votes
  {
    ZerosWin(m);
    hide Reached, Grows, MostFrequent, Table, AllVoted, Q;
    var b := CountsZeros(m, s, x);
    Locks(3 * m, b, x, 1, 0);
    t := Put(b, x, b.nodes[x].(ra := Some(0)));
    MovesTrans(3 * m, s, b, t, x);
  }

  lemma HandOn(m: nat, s: Sys, x: nat) returns (t: Sys)
    requires m >= 1 && Reached(3 * m, s) && x < 3 * m == |s.nodes| && Stage(s.nodes[x], m, x, 6)
    requires forall i :: 0 <= i < 3 * m ==> Cast(s, m, i, 3) && Cast(s, m, i, 6)
    ensures Moves(3 * m, s, t, x) && x < |t.nodes| && Stage(t.nodes[x], m, x, 7) && Cast(t, m, x, 7) && t.votes == s.votes
  {
    CastsAreVotes(m, s, 3, 0);
    CastsAreVotes(m, s, 6, 1);
    hide Moves, Reached, Stage, AllVoted;
    if x == 0 {
      t := LocksOne(m, s);
    } else {
      t := LocksZero(m, s, x);
    }
  }

  /** Nobody votes ahead of the sweeps. */
  predicate NoVotesAhead(s: Sys, w: nat, j: nat) {
    && (forall y :: y in VotesAt(s.votes, 0) ==> w > 3 || (w == 3 && y < j))
    && (forall y :: y in VotesAt(s.votes, 1) ==> w > 6 || (w == 6 && y < j))
  }

  ghost predicate Stages(s: Sys, m: nat, w: nat, j: nat) {
    |s.nodes| == 3 * m && forall y :: 0 <= y < 3 * m ==> Stage(s.nodes[y], m, y, if y < j || w == 0 then w else w - 1)
  }

  ghost predicate Casts(s: Sys, m: nat, w: nat, j: nat) {
    && (forall u, y :: 1 <= u < w && 0 <= y < 3 * m ==> Cast(s, m, y, u))
    && (forall y :: 0 <= y < j ==> Cast(s, m, y, w))
  }

  /** Sweep w has passed the nodes below j. */
  ghost predicate World(s: Sys, m: nat, w: nat, j: nat) {
    Reached(3 * m, s) && VectorsIn(s, 3 * m) && Stages(s, m, w, j) && Casts(s, m, w, j) && NoVotesAhead(s, w, j)
  }

  lemma CastsStep(s: Sys, t: Sys, m: nat, w: nat, x: nat)
    requires Casts(s, m, w, x) && Grows(s, t) && Cast(t, m, x, w)
    ensures Casts(t, m, w, x + 1)
  {
    hide Grows, Cast;
    forall u, y | 1 <= u < w && 0 <= y < 3 * m
      ensures Cast(t, m, y, u)
    {
      CastStill(s, t, m, y, u);
    }
    forall y | 0 <= y < x
      ensures Cast(t, m, y, w)
    {
      CastStill(s, t, m, y, w);
    }
  }

  /** One step of a sweep. */
  lemma WorldStep(s: Sys, t: Sys, m: nat, w: nat, x: nat)
    requires World(s, m, w, x) && x < 3 * m && 1 <= w && Moves(3 * m, s, t, x) && x < |t.nodes|
    requires Stage(t.nodes[x], m, x, w) && Cast(t, m, x, w) && NoVotesAhead(t, w, x + 1)
    ensures World(t, m, w, x + 1)
  {
    hide Grows, Cast, Casts, Stage, NoVotesAhead, Reached, VectorOf;
    CastsStep(s, t, m, w, x);
  }

  lemma VotesOfX(s: Sys, t: Sys, x: nat, v: int, y: int)
    requires Alone(s, t, x) && y in VotesAt(t.votes, v) && y != x
    ensures y in VotesAt(s.votes, v)
  {
  }

  lemma SweepOne(m: nat, w: nat, s: Sys, x: nat) returns (t: Sys)
    requires m >= 1 && 1 <= w <= 7 && x < 3 * m && World(s, m, w, x)
    ensures World(t, m, w, x + 1)
  {
    hide Reached, Grows, Stage, Cast, VectorOf;
    assert Stage(s.nodes[x], m, x, w - 1);
    match w {
      case 1 => t := Begin(m, s, x);
      case 2 => t := FirstAdmit(m, s, x);
      case 3 => t := FirstVote(m, s, x);
      case 4 => t := NextView(m, s, x);
      case 5 => t := SecondAdmit(m, s, x);
      case 6 => t := SecondVote(m, s, x);
      case 7 => t := HandOn(m, s, x);
    }
    forall y, v | y in VotesAt(t.votes, v) && y != x
      ensures y in VotesAt(s.votes, v)
    {
      VotesOfX(s, t, x, v, y);
    }
    WorldStep(s, t, m, w, x);
  }

  lemma NextSweep(s: Sys, m: nat, w: nat)
    requires World(s, m, w, 3 * m) && w < 7
    ensures World(s, m, w + 1, 0)
  {
    hide Reached, VectorsIn, Stage, Cast;
  }

  lemma {:induction false} Sweep(m: nat, w: nat, j: nat) returns (s: Sys)
    requires m >= 1 && w <= 7 && j <= 3 * m && (w == 0 ==> j == 3 * m)
    ensures World(s, m, w, j)
    decreases w, j
  {
    hide World;
    if w == 0 {
      s := Before(m);
    } else if j == 0 {
      s := Sweep(m, w - 1, 3 * m);
      NextSweep(s, m, w - 1);
    } else {
      var u := Sweep(m, w, j - 1);
      s := SweepOne(m, w, u, j - 1);
    }
  }

  lemma Before(m: nat) returns (s: Sys)
    requires m >= 1
    ensures World(s, m, 0, 3 * m)
  {
    s := InputAll(3 * m, 3 * m);
    hide Reached, VectorOf;
  }

  // ---------------------------------------------------- the disagreement

  lemma AllStarted(n: nat, s: Sys)
    requires n >= 1 && |s.nodes| == n && forall y :: 0 <= y < n ==> s.nodes[y].ra.Some?
    ensures Starters(s) == Ids(n) && |Starters(s)| >= Q(n)
  {
    QuorumArithmetic(n);
  }

  lemma TakesBack(n: nat, s: Sys, x: nat)
    requires Reached(n, s) && x < n == |s.nodes| && s.nodes[x].decided == None && forall y :: 0 <= y < n ==> s.nodes[y].ra.Some?
    ensures Moves(n, s, Put(s, x, s.nodes[x].(decided := s.nodes[x].ra)), x)
  {
    AllStarted(n, s);
    assert Enabled(n, s, Agreed(x, x));
    Move(n, s, Agreed(x, x));
    hide Moves;
  }

  lemma Finishes(n: nat, s: Sys, x: nat)
    requires Reached(n, s) && x < n == |s.nodes| && s.nodes[x].decided.Some? && s.nodes[x].decided.value in s.inputs
    ensures Moves(n, s, Put(s, x, s.nodes[x].(output := Some(s.inputs[s.nodes[x].decided.value]))), x)
  {
    assert Enabled(n, s, Finish(x));
    Move(n, s, Finish(x));
    hide Moves;
  }

  /** Node x takes its own input back from the final agreement, and outputs the vector it selects. */
  lemma Outputs(n: nat, s: Sys, x: nat) returns (t: Sys)
    requires Reached(n, s) && x < n == |s.nodes| && s.nodes[x].ra.Some? && s.nodes[x].decided == None
    requires s.nodes[x].ra.value in s.inputs && (forall y :: 0 <= y < n ==> s.nodes[y].ra.Some?)
    ensures Moves(n, s, t, x) && |t.nodes| == n && (forall y :: 0 <= y < n ==> t.nodes[y].ra == s.nodes[y].ra)
    ensures t.nodes[x].output == Some(s.inputs[s.nodes[x].ra.value])
  {
    var p := s.nodes[x];
    var a := Put(s, x, p.(decided := p.ra));
    TakesBack(n, s, x);
    hide Reached, Grows;
    Finishes(n, a, x);
    t := Put(a, x, a.nodes[x].(output := Some(s.inputs[p.ra.value])));
    MovesTrans(n, s, a, t, x);
  }

  lemma Disagree(m: nat) returns (t: Sys)
    requires m >= 1
    ensures Reached(3 * m, t) && |t.nodes| == 3 * m && t.nodes[0].ra == Some(1) && t.nodes[1].ra == Some(0)
    ensures t.nodes[0].output == Some(VectorOf(3 * m, 1)) && t.nodes[1].output == Some(VectorOf(3 * m, 0))
  {
    var n := 3 * m;
    var b := Sweep(m, 7, n);
    forall y | 0 <= y < n
      ensures b.nodes[y].ra == Some(HandedOn(y)) && b.nodes[y].decided == None
    {
      assert Stage(b.nodes[y], m, y, 7);
    }
    assert VectorsIn(b, n);
    hide Reached, Grows, Stage, VectorOf, World;
    assert forall i :: 0 <= i < 2 ==> i in b.inputs && b.inputs[i] == VectorOf(n, i);
    var c := Outputs(n, b, 0);
    t := Outputs(n, c, 1);
  }

  /** For every group size n = 3m there is a run in which node 0 hands on 1 and node 1 hands on 0, and
      their outputs are different vectors. */
  lemma TwoOutputs(m: nat) returns (tr: seq<Sys>, u: seq<int>, v: seq<int>)
    requires m >= 1
    ensures Run(3 * m, tr) && |tr| > 0
    ensures HandsOn(tr[|tr| - 1], 0, 1) && HandsOn(tr[|tr| - 1], 1, 0)
    ensures u != v && Outputted(tr[|tr| - 1], 0, u) && Outputted(tr[|tr| - 1], 1, v)
  {
    var t := Disagree(m);
    tr :| Run(3 * m, tr) && |tr| > 0 && tr[|tr| - 1] == t;
    u, v := VectorOf(3 * m, 1), VectorOf(3 * m, 0);
    assert u[3 * m - 1] != v[3 * m - 1];
  }

  predicate HandsOn(s: Sys, x: int, k: int) {
    0 <= x < |s.nodes| && s.nodes[x].ra == Some(k)
  }

  predicate Outputted(s: Sys, x: int, vec: seq<int>) {
    0 <= x < |s.nodes| && s.nodes[x].output == Some(vec)
  }

  /** In every run, whatever is handed on at any moment is the same index. */
  ghost predicate OneInputHolds(n: nat) {
    forall tr: seq<Sys>, i, x, k, j, y, l ::
      Run(n, tr) && 0 <= i < |tr| && 0 <= j < |tr| && HandsOn(tr[i], x, k) && HandsOn(tr[j], y, l) ==> k == l
  }

  /** The group size alone decides whether there is one input to the final agreement. */
  lemma OneInputExactly(n: nat)
    requires n >= 1
    ensures OneInputHolds(n) <==> n % 3 != 0
  {
    hide Run;
    if n % 3 != 0 {
      forall tr: seq<Sys>, i, x, k, j, y, l | Run(n, tr) && 0 <= i < |tr| && 0 <= j < |tr| && HandsOn(tr[i], x, k) && HandsOn(tr[j], y, l)
        ensures k == l
      {
        if i <= j {
          OneInput(n, tr, i, x, j, y);
        } else {
          OneInput(n, tr, j, y, i, x);
        }
      }
    } else {
      var m := n / 3;
      assert n == 3 * m;
      var tr, u, v := TwoOutputs(m);
    }
  }

  /** In every run all outputs are the same vector. */
  ghost predicate OneOutputHolds(n: nat) {
    forall tr: seq<Sys>, i, x, u, j, y, v ::
      Run(n, tr) && 0 <= i < |tr| && 0 <= j < |tr| && Outputted(tr[i], x, u) && Outputted(tr[j], y, v) ==> u == v
  }

  /** And whether the common subset agrees. */
  lemma SubsetAgreementExactly(n: nat)
    requires n >= 1
    ensures OneOutputHolds(n) <==> n % 3 != 0
  {
    hide Run;
    if n % 3 != 0 {
      forall tr: seq<Sys>, i, x, u, j, y, v | Run(n, tr) && 0 <= i < |tr| && 0 <= j < |tr| && Outputted(tr[i], x, u) && Outputted(tr[j], y, v)
        ensures u == v
      {
        if i <= j {
          SubsetAgreement(n, tr, i, x, j, y);
        } else {
          SubsetAgreement(n, tr, j, y, i, x);
        }
      }
    } else {
      var m := n / 3;
      assert n == 3 * m;
      var tr, u, v := TwoOutputs(m);
    }
  }
}
