/** When a node of the binary agreement decides: in every run without lying nodes, exactly when it has
    counted a quorum of votes for the value that the coin of their round shows. And where a round leads, in
    terms of the votes counted in it. */
module AbaProgress {
  import opened Quorum
  import opened Sets
  import opened Aba
  import opened AbaSystem
  import opened AbaAgreement
  import opened AbaTheorems

  // -------------------------------------------------------- one vote, one node

  /** The vote is of the node's round; what it names is in bin_values or is no preference; and past round 0
      it does not contradict itself or the node's own vote. */
  predicate Countable(p: Node, m: Msg) {
    && m.round == p.round
    && (m.maj == BOTTOM || m.maj in SetAt(p.binValues, m.round))
    && (m.value == BOTTOM || m.value in SetAt(p.binValues, m.round))
    && (p.round > 0 ==> m.maj != BOTTOM && m.value != 1 - m.maj && (IntAt(p.delta, m.round) == -1 || IntAt(p.delta, m.round) == m.value))
  }

  /** The votes, the majorities and the voters of the node's round, with m among them. */
  function VotesWith(p: Node, m: Msg): multiset<int> {
    BagAt(p.auxvals, p.round) + multiset{m.value}
  }

  function MajsWith(p: Node, m: Msg): multiset<int> {
    BagAt(p.auxmajvals, p.round) + multiset{m.maj}
  }

  function VotersWith(p: Node, m: Msg): set<int> {
    SetAt(p.auxnodes, p.round) + {m.src}
  }

  lemma BallotKeeps(p: Node, m: Msg)
    ensures var b := Ballot(p, m);
      && b.round == p.round && b.finalstatus == p.finalstatus && b.instancestatus == p.instancestatus && b.out == p.out
      && b.decidedround == p.decidedround && b.decidedvalue == p.decidedvalue && b.n == p.n && b.id == p.id && b.coinr == p.coinr
      && b.auxvals == CountIn(p.auxvals, m.round, m.value) && b.auxmajvals == CountIn(p.auxmajvals, m.round, m.maj)
      && b.auxnodes == AddTo(p.auxnodes, m.round, m.src)
  {
    CachedKeeps(p, p.round);
    hide HandleCachedMsg, CountIn, AddTo;
  }

  lemma BallotIs(p: Node, m: Msg)
    requires m.round == p.round
    ensures var b := Ballot(p, m);
      && BagAt(b.auxvals, p.round) == VotesWith(p, m) && BagAt(b.auxmajvals, p.round) == MajsWith(p, m)
      && SetAt(b.auxnodes, p.round) == VotersWith(p, m)
  {
    BallotKeeps(p, m);
    hide Ballot;
  }

  /** Where the round leads the node: to the next one, with this estimate announced under this majority;
      and decided or as decided as before. */
  ghost predicate LeavesWith(p: Node, t: Node, c: int, est: int, majr: int, decides: bool) {
    var r := p.round;
    && t.round == r + 1 && t.instancestatus == READY && IntAt(t.maj, r + 1) == majr && IntAt(t.coinr, r) == c
    && t.out == p.out + [Bval(p.id, r + 1, est, majr)]
    && (if decides then t.finalstatus == DECIDED && t.decidedround == r && t.decidedvalue == est
        else t.finalstatus == p.finalstatus && t.decidedround == p.decidedround && t.decidedvalue == p.decidedvalue)
  }

  lemma ConcludeLeaves(b: Node, o: Outcome, c: int)
    requires b.instancestatus == AUX
    ensures LeavesWith(b, Conclude(b, o, c), c, o.est, o.maj, o.decide)
  {
    var d := DecideIf(b, o);
    var e := EnterRound(d, o.maj, c);
    StartKeeps(e, o.est);
    CachedKeeps(e, e.round);
    assert StartABA(e, o.est).out == d.out + [Bval(b.id, e.round, o.est, IntAt(e.maj, e.round))];
  }

  /** The node counts the vote, and with it the votes of a quorum. */
  ghost predicate Full(p: Node, m: Msg) {
    && m.Aux? && Countable(p, m) && p.instancestatus == AUX
    && (p.finalstatus == READY || (p.finalstatus == DECIDED && p.decidedround == p.round))
    && |VotersWith(p, m)| >= Q(p.n)
  }

  lemma FullIsDue(p: Node, m: Msg)
    requires Full(p, m)
    ensures Judge(p, m) == Accepted && Due(Ballot(p, m)) && !Stops(Ballot(p, m)) && m.round == p.round && p.instancestatus == AUX
  {
    hide Ballot, VotersWith, CountIn, AddTo, Q, SetAt;
    BallotKeeps(p, m);
    BallotIs(p, m);
  }

  /** The outcome of the votes of the node's round, with m among them. */
  ghost function OutcomeWith(p: Node, m: Msg, c: int): Outcome {
    Evaluate(VotesWith(p, m), MajsWith(p, m), p.round, c, if p.round == 0 then -1 else IntAt(p.coinr, p.round - 1), Q(p.n))
  }

  lemma OutcomeIs(p: Node, m: Msg, c: int)
    requires m.round == p.round
    ensures OutcomeOf(Ballot(p, m), p.round, c) == OutcomeWith(p, m, c)
  {
    hide Ballot, VotesWith, MajsWith, VotersWith, Evaluate, Q, CountIn, AddTo, SetAt;
    BallotKeeps(p, m);
    BallotIs(p, m);
  }

  lemma BallotLeaves(p: Node, m: Msg, t: Node, c: int, est: int, majr: int, decides: bool)
    requires LeavesWith(Ballot(p, m), t, c, est, majr, decides)
    ensures LeavesWith(p, t, c, est, majr, decides)
  {
    hide Ballot, CountIn, AddTo, IntAt;
    BallotKeeps(p, m);
  }

  lemma FullProgress(p: Node, m: Msg, c: int)
    requires Judge(p, m) == Accepted && Due(Ballot(p, m)) && !Stops(Ballot(p, m))
    ensures HandleAux(p, m, c) == Conclude(Ballot(p, m), OutcomeOf(Ballot(p, m), Ballot(p, m).round, c), c)
  {
    hide Judge, Ballot, OutcomeOf, Conclude, Due, Stops;
  }

  lemma FullLeaves(p: Node, m: Msg, c: int)
    requires Full(p, m)
    ensures var o := OutcomeWith(p, m, c); LeavesWith(p, HandleAux(p, m, c), c, o.est, o.maj, o.decide)
  {
    hide *;
    FullIsDue(p, m);
    FullProgress(p, m, c);
    OutcomeIs(p, m, c);
    BallotKeeps(p, m);
    var o := OutcomeWith(p, m, c);
    ConcludeLeaves(Ballot(p, m), o, c);
    BallotLeaves(p, m, HandleAux(p, m, c), c, o.est, o.maj, o.decide);
  }

  /** Which majority goes with the coin as estimate: the coin in round 0, later the value with more than
      half a quorum of the votes. */
  predicate HalfQuorum(vals: multiset<int>, r: nat, c: int, q: int, majr: int) {
    if r == 0 then majr == c
    else if vals[0] > q / 2 then majr == 0
    else if vals[1] > q / 2 then majr == 1
    else majr == BOTTOM
  }

  lemma OneKindOnly(vals: multiset<int>, v: int)
    requires v in vals && forall w :: w in vals ==> w == v
    ensures |Kinds(vals)| == 1 && Any(Kinds(vals)) == v
  {
    forall w | w in Kinds(vals)
      ensures w == v
    {
      assert w in vals;
    }
    assert Kinds(vals) == {v};
  }

  lemma TwoKinds(vals: multiset<int>, v: int, w: int)
    requires v in vals && w in vals && v != w
    ensures |Kinds(vals)| != 1
  {
    if |Kinds(vals)| == 1 {
      SingleKind(Kinds(vals), v, w);
    }
  }

  lemma QuorumOutcome(vals: multiset<int>, majs: multiset<int>, r: nat, c: int, cr: int, q: int, v: int)
    requires (v == 0 || v == 1) && vals[v] >= q > vals[1 - v]
    ensures Evaluate(vals, majs, r, c, cr, q) == Outcome(v, v, v == c)
  {
  }

  lemma CoinOutcome(vals: multiset<int>, majs: multiset<int>, r: nat, c: int, cr: int, q: int, v: int, w: int)
    requires v in vals && w in vals && (v != w || r == 0) && vals[0] < q && vals[1] < q
    ensures var o := Evaluate(vals, majs, r, c, cr, q); HalfQuorum(vals, r, c, q, o.maj) && o.est == c && !o.decide
  {
    if v != w {
      TwoKinds(vals, v, w);
    }
    hide Kinds, Any;
  }

  lemma SingleOutcome(vals: multiset<int>, majs: multiset<int>, r: nat, c: int, cr: int, q: int, v: int)
    requires r > 0 && q > 0 && v in vals && (forall w :: w in vals ==> w == v) && (v == BOTTOM || vals[v] < q)
    ensures var o := Evaluate(vals, majs, r, c, cr, q);
      if v != BOTTOM && majs[v] >= q then o == Outcome(v, v, v == cr == c)
      else if |Kinds(majs)| == 2 then o == Outcome(cr, cr, false)
      else HalfQuorum(vals, r, c, q, o.maj) && o.est == c && !o.decide
  {
    OneKindOnly(vals, v);
    assert vals[0] > 0 ==> v == 0;
    assert vals[1] > 0 ==> v == 1;
    hide Kinds, Any;
  }

  /** A quorum of votes for v: the node goes on with v, and decides v exactly when the coin shows it. */
  lemma QuorumLeaves(p: Node, m: Msg, c: int, v: int)
    requires Full(p, m) && (v == 0 || v == 1) && VotesWith(p, m)[v] >= Q(p.n) > VotesWith(p, m)[1 - v]
    ensures LeavesWith(p, HandleAux(p, m, c), c, v, v, v == c)
  {
    hide Full, LeavesWith, HandleAux, VotesWith, MajsWith, Evaluate, Q, IntAt;
    FullLeaves(p, m, c);
    QuorumOutcome(VotesWith(p, m), MajsWith(p, m), p.round, c, if p.round == 0 then -1 else IntAt(p.coinr, p.round - 1), Q(p.n), v);
  }

  /** Votes of several kinds, or any in round 0, and no quorum for either value: the coin is the estimate,
      and nothing is decided. */
  lemma CoinLeaves(p: Node, m: Msg, c: int, v: int, w: int) returns (majr: int)
    requires Full(p, m) && v in VotesWith(p, m) && w in VotesWith(p, m) && (v != w || p.round == 0)
    requires VotesWith(p, m)[0] < Q(p.n) && VotesWith(p, m)[1] < Q(p.n)
    ensures HalfQuorum(VotesWith(p, m), p.round, c, Q(p.n), majr) && LeavesWith(p, HandleAux(p, m, c), c, c, majr, false)
  {
    hide Full, LeavesWith, HandleAux, VotesWith, MajsWith, Evaluate, Q, IntAt, HalfQuorum;
    FullLeaves(p, m, c);
    CoinOutcome(VotesWith(p, m), MajsWith(p, m), p.round, c, if p.round == 0 then -1 else IntAt(p.coinr, p.round - 1), Q(p.n), v, w);
    majr := OutcomeWith(p, m, c).maj;
  }

  /** Past round 0 all votes are of the one kind v, and no quorum for a value. If v is a value and a quorum
      reports it as their majority, the node goes on with v and decides it exactly when both this coin and
      the last one show it; else, under two majorities, the last coin is both estimate and majority; else
      the coin is the estimate. */
  lemma SingleKindLeaves(p: Node, m: Msg, c: int, v: int) returns (majr: int)
    requires Full(p, m) && p.n >= 1 && p.round > 0 && v in VotesWith(p, m) && (forall w :: w in VotesWith(p, m) ==> w == v)
    requires v == BOTTOM || VotesWith(p, m)[v] < Q(p.n)
    ensures var cr, t := IntAt(p.coinr, p.round - 1), HandleAux(p, m, c);
      if v != BOTTOM && MajsWith(p, m)[v] >= Q(p.n) then LeavesWith(p, t, c, v, v, v == cr == c)
      else if |Kinds(MajsWith(p, m))| == 2 then LeavesWith(p, t, c, cr, cr, false)
      else HalfQuorum(VotesWith(p, m), p.round, c, Q(p.n), majr) && LeavesWith(p, t, c, c, majr, false)
  {
    hide Full, LeavesWith, HandleAux, VotesWith, MajsWith, Evaluate, IntAt, HalfQuorum, Kinds, Q;
    QuorumArithmetic(p.n);
    FullLeaves(p, m, c);
    SingleOutcome(VotesWith(p, m), MajsWith(p, m), p.round, c, IntAt(p.coinr, p.round - 1), Q(p.n), v);
    majr := OutcomeWith(p, m, c).maj;
  }

  /** A node that has decided in an earlier round stops with the first vote it counts while it is voting: it
      neither sends nor moves on. */
  lemma DecidedStops(p: Node, m: Msg, c: int)
    requires m.Aux? && Countable(p, m) && p.finalstatus == DECIDED && p.decidedround != p.round && p.instancestatus == AUX
    ensures var t := HandleAux(p, m, c);
      t.finalstatus == TERMINATE && t.round == p.round && t.out == p.out && t.decidedvalue == p.decidedvalue && t.decidedround == p.decidedround
  {
    hide SetAt, IntAt, CountIn, AddTo, Ballot, HandleCachedMsg, CacheMsg, OutcomeOf, Conclude;
    BallotKeeps(p, m);
    assert Judge(p, m) == Accepted;
    hide Judge;
  }

  predicate Unmoved(p: Node, t: Node) {
    && t.finalstatus == p.finalstatus && t.round == p.round && t.out == p.out
    && t.decidedvalue == p.decidedvalue && t.decidedround == p.decidedround
  }

  lemma CacheUnmoved(p: Node, m: Msg)
    ensures Unmoved(p, CacheMsg(p, m)) && Unmoved(p, HandleCachedMsg(p, p.round)) && Unmoved(p, CacheMsg(HandleCachedMsg(p, p.round), m))
  {
    hide HandleCachedMsg, CountIn;
    CachedKeeps(p, p.round);
  }

  lemma StoppedProgress(b: Node, c: int)
    requires b.finalstatus == TERMINATE
    ensures Progress(b, c) == b
  {
  }

  /** A node that has stopped neither sends votes nor moves on nor decides anew. */
  lemma StoppedStays(p: Node, m: Msg, c: int)
    requires m.Aux? && p.finalstatus == TERMINATE
    ensures Unmoved(p, HandleAux(p, m, c))
  {
    hide Ballot, HandleCachedMsg, CacheMsg, Judge, Progress;
    CacheUnmoved(p, m);
    BallotKeeps(p, m);
    StoppedProgress(Ballot(p, m), c);
    match Judge(p, m)
    case Stale =>
    case Early =>
    case Unjustified =>
    case Invalid =>
    case Accepted =>
  }

  // ---------------------------------------------------- what waits is handed on

  /** The messages cached for the node's round are handed on, and those of later rounds stay. */
  lemma CachedSpawns(p: Node)
    requires p.finalstatus != TERMINATE
    ensures var a := HandleCachedMsg(p, p.round);
      a.spawned == p.spawned + BagAt(p.cachedMsg, p.round) && forall r: nat :: r > p.round ==> BagAt(a.cachedMsg, r) == BagAt(p.cachedMsg, r)
  {
  }

  lemma AdvanceSpawns(d: Node, o: Outcome, c: int)
    requires d.finalstatus != TERMINATE
    ensures Advance(d, o, c).spawned == d.spawned + BagAt(d.cachedMsg, d.round + 1)
  {
    var e := EnterRound(d, o.maj, c);
    CachedSpawns(e);
    hide HandleCachedMsg, BagAt;
  }

  lemma ConcludeSpawns(b: Node, o: Outcome, c: int)
    requires b.finalstatus != TERMINATE
    ensures Conclude(b, o, c).spawned == b.spawned + if b.instancestatus == AUX then BagAt(b.cachedMsg, b.round + 1) else multiset{}
  {
    hide Advance, BagAt;
    AdvanceSpawns(DecideIf(b, o), o, c);
  }

  lemma DueConcludes(b: Node, c: int)
    ensures Progress(b, c).spawned == b.spawned || (Due(b) && !Stops(b) && Progress(b, c) == Conclude(b, OutcomeOf(b, b.round, c), c))
    ensures Due(b) && !Stops(b) ==> Progress(b, c) == Conclude(b, OutcomeOf(b, b.round, c), c) && b.finalstatus != TERMINATE
  {
    hide OutcomeOf, Conclude, Stops, SetAt, Q;
  }

  lemma ProgressSpawns(b: Node, c: int)
    ensures b.spawned <= Progress(b, c).spawned
    ensures Due(b) && !Stops(b) && b.instancestatus == AUX ==> b.spawned + BagAt(b.cachedMsg, b.round + 1) <= Progress(b, c).spawned
  {
    hide *;
    DueConcludes(b, c);
    if Due(b) && !Stops(b) {
      ConcludeSpawns(b, OutcomeOf(b, b.round, c), c);
    }
  }

  lemma VoteSpawns(p: Node, m: Msg, c: int)
    requires m.Aux? && m.round == p.round
    ensures HandleCachedMsg(p, p.round).spawned <= HandleAux(p, m, c).spawned
  {
    hide HandleCachedMsg, Progress, CountIn, AddTo;
    ProgressSpawns(Ballot(p, m), c);
    match Judge(p, m)
    case Unjustified =>
    case Invalid =>
    case Accepted =>
  }

  /** A node that has not terminated hands on what it has cached for its round with the first message of that
      round that it handles. */
  lemma MessageHandsOn(p: Node, m: Msg, c: int)
    requires m.round == p.round && p.finalstatus != TERMINATE
    ensures BagAt(p.cachedMsg, p.round) <= HandleABAMsg(p, m, c).spawned
  {
    CachedSpawns(p);
    hide BagAt, HandleCachedMsg, HandleAux, HandleBval;
    if m.Bval? {
      HandleBvalCache(p, m);
    } else {
      VoteSpawns(p, m, c);
    }
  }

  lemma BallotCache(p: Node, m: Msg)
    ensures Ballot(p, m).spawned == HandleCachedMsg(p, p.round).spawned && Ballot(p, m).cachedMsg == HandleCachedMsg(p, p.round).cachedMsg
  {
    hide HandleCachedMsg, CountIn, AddTo;
  }

  lemma FullRuns(p: Node, m: Msg)
    requires Full(p, m)
    ensures p.finalstatus != TERMINATE && m.Aux?
  {
  }

  /** And with the vote that takes it to the next round, what it has cached for that one. */
  lemma FullHandsOn(p: Node, m: Msg, c: int)
    requires Full(p, m)
    ensures BagAt(p.cachedMsg, p.round) + BagAt(p.cachedMsg, p.round + 1) <= HandleAux(p, m, c).spawned
  {
    hide *;
    FullRuns(p, m);
    FullIsDue(p, m);
    BallotKeeps(p, m);
    CachedSpawns(p);
    BallotCache(p, m);
    AcceptedRound(p, m, c);
    ProgressSpawns(Ballot(p, m), c);
  }

  /** A message of a later round waits, and so does a vote that names a value not in bin_values yet. */
  lemma EarlyWaits(p: Node, m: Msg, c: int)
    requires m.round > p.round || (m.Aux? && m.round == p.round && exists v :: (v == m.maj || v == m.value) && v != BOTTOM && v !in SetAt(p.binValues, m.round))
    ensures m in BagAt(HandleABAMsg(p, m, c).cachedMsg, m.round)
  {
  }

  // ------------------------------------------------------ deciding, over runs

  /** The node has decided wherever the votes it counted and the coin tell it to. */
  ghost predicate Prompt(cfg: Config, p: Node) {
    forall r: nat :: forall v ::
      (v == 0 || v == 1) && cfg.coin(r) == v && BagAt(p.auxvals, r)[v] >= Q(p.n) ==> p.finalstatus >= DECIDED
  }

  /** A decision is not taken back. */
  lemma StaysDecided(p: Node, m: Msg, c: int)
    requires p.finalstatus >= DECIDED
    ensures HandleABAMsg(p, m, c).finalstatus >= DECIDED
  {
    if m.Bval? {
      HandleBvalKeeps(p, m);
      hide HandleBval;
    } else {
      AuxStaysDecided(p, m, c);
    }
  }

  lemma ConcludeDecided(b: Node, o: Outcome, c: int)
    requires o.decide || b.finalstatus >= DECIDED
    ensures Conclude(b, o, c).finalstatus >= DECIDED
  {
    var d := DecideIf(b, o);
    StartKeeps(EnterRound(d, o.maj, c), o.est);
    hide StartABA;
  }

  lemma CacheStatus(p: Node, m: Msg)
    ensures CacheMsg(p, m).finalstatus == p.finalstatus && HandleCachedMsg(p, p.round).finalstatus == p.finalstatus
    ensures CacheMsg(HandleCachedMsg(p, p.round), m).finalstatus == p.finalstatus
  {
    CachedKeeps(p, p.round);
    hide HandleCachedMsg;
  }

  lemma ProgressDecided(b: Node, c: int)
    requires b.finalstatus >= DECIDED
    ensures Progress(b, c).finalstatus >= DECIDED
  {
    hide Conclude, OutcomeOf, Due, Stops;
    ConcludeDecided(b, OutcomeOf(b, b.round, c), c);
  }

  lemma AuxStaysDecided(p: Node, m: Msg, c: int)
    requires p.finalstatus >= DECIDED && m.Aux?
    ensures HandleAux(p, m, c).finalstatus >= DECIDED
  {
    hide Judge, Ballot, Progress, CacheMsg, HandleCachedMsg, CountIn, AddTo;
    CacheStatus(p, m);
    BallotKeeps(p, m);
    ProgressDecided(Ballot(p, m), c);
    match Judge(p, m)
    case Stale =>
    case Early =>
    case Unjustified =>
    case Invalid =>
    case Accepted =>
  }

  lemma DueDecides(b: Node, c: int)
    requires |SetAt(b.auxnodes, b.round)| >= Q(b.n) && OutcomeOf(b, b.round, c).decide
    ensures Progress(b, c).finalstatus >= DECIDED
  {
    hide Conclude, OutcomeOf, SetAt, Q;
    ConcludeDecided(b, OutcomeOf(b, b.round, c), c);
  }

  lemma AcceptedRound(p: Node, m: Msg, c: int)
    requires m.Aux? && Judge(p, m) == Accepted
    ensures m.round == p.round && HandleAux(p, m, c) == Progress(Ballot(p, m), c)
  {
    hide Progress, Ballot;
  }

  /** Counting the vote that makes a quorum for the coin's value is deciding. */
  lemma VoteDecides(p: Node, m: Msg, c: int)
    requires m.Aux? && Judge(p, m) == Accepted && (c == 0 || c == 1)
    requires VotesWith(p, m)[c] >= Q(p.n) > VotesWith(p, m)[1 - c] && |VotersWith(p, m)| >= Q(p.n)
    ensures HandleAux(p, m, c).finalstatus >= DECIDED
  {
    hide Judge, Ballot, OutcomeOf, Evaluate, VotesWith, MajsWith, VotersWith, Q, Progress, HandleAux, CountIn, AddTo, SetAt, BagAt, IntAt;
    AcceptedRound(p, m, c);
    BallotKeeps(p, m);
    BallotIs(p, m);
    OutcomeIs(p, m, c);
    QuorumOutcome(VotesWith(p, m), MajsWith(p, m), p.round, c, if p.round == 0 then -1 else IntAt(p.coinr, p.round - 1), Q(p.n), c);
    DueDecides(Ballot(p, m), c);
  }

  // the system

  lemma DistinctSources(ms: set<Msg>, all: set<Msg>)
    requires ms <= all && forall a, b :: a in ms && b in ms && a.src == b.src ==> a == b
    ensures |ms| <= |Sources(all)|
  {
    var srcs := set m | m in ms :: m.src;
    ImageCard((m: Msg) => m.src, ms, srcs);
    assert srcs <= Sources(all);
    SubsetCard(srcs, Sources(all));
  }

  lemma VotersCounted(cfg: Config, s: Sys, x: int, r: nat, v: int)
    requires CrashInv(cfg, s) && x in Correct(cfg)
    ensures 0 <= x < |s.slots| && SetAt(s.slots[x].node.auxnodes, r) == Sources(Round(s.slots[x].accepted, r))
    ensures With(s.slots[x].accepted, r, v) <= Round(s.slots[x].accepted, r)
  {
    NodeFacts(cfg, s, x);
    hide CrashInv, Mail, NodeOk;
    assert Tally(s.slots[x].node, s.slots[x].accepted);
    hide Hist;
  }

  /** Counted votes for a value come from as many nodes. */
  lemma VotesHaveVoters(cfg: Config, s: Sys, x: int, r: nat, v: int)
    requires CrashInv(cfg, s) && x in Correct(cfg)
    ensures 0 <= x < |s.slots|
    ensures BagAt(s.slots[x].node.auxvals, r)[v] <= |SetAt(s.slots[x].node.auxnodes, r)|
  {
    hide CrashInv, With, Round, Sources, BagAt, SetAt, Correct;
    AcceptedVotes(cfg, s, x, r, v);
    VotersCounted(cfg, s, x, r, v);
    var ms := With(s.slots[x].accepted, r, v);
    forall a, b | a in ms && b in ms && a.src == b.src
      ensures a == b
    {
      OneVoteEach(cfg, s, a, b);
    }
    DistinctSources(ms, Round(s.slots[x].accepted, r));
  }

  /** Not both values have a quorum of counted votes. */
  lemma OneQuorum(cfg: Config, s: Sys, x: int, r: nat, v: int)
    requires Sound(cfg) && CrashInv(cfg, s) && x in Correct(cfg)
    ensures 0 <= x < |s.slots|
    ensures BagAt(s.slots[x].node.auxvals, r)[v] >= Q(cfg.n) ==> BagAt(s.slots[x].node.auxvals, r)[1 - v] < Q(cfg.n)
  {
    hide CrashInv, Voters, BagAt;
    QuorumArithmetic(cfg.n);
    hide Q;
    CountedVotes(cfg, s, x, r, v);
    CountedVotes(cfg, s, x, r, 1 - v);
    if v != 1 - v {
      VotersDisjoint(cfg, s, r, v, 1 - v);
    }
  }

  ghost predicate AllPrompt(cfg: Config, s: Sys) {
    forall x :: x in Correct(cfg) && 0 <= x < |s.slots| ==> Prompt(cfg, s.slots[x].node)
  }

  lemma ProgressVoters(b: Node, c: int)
    ensures Progress(b, c).auxnodes == b.auxnodes && Progress(b, c).auxmajvals == b.auxmajvals
  {
    if !Stops(b) && Due(b) {
      var o := OutcomeOf(b, b.round, c);
      DecideRecords(b, o, c);
      AdvanceRecords(DecideIf(b, o), o, c);
      hide OutcomeOf, DecideIf, Advance;
    }
  }

  /** The votes and voters on record once an accepted vote has been handled. */
  lemma AcceptedRecords(p: Node, m: Msg, c: int)
    requires m.Aux? && Judge(p, m) == Accepted
    ensures m.round == p.round
    ensures var t := HandleAux(p, m, c);
      BagAt(t.auxvals, p.round) == VotesWith(p, m) && BagAt(t.auxmajvals, p.round) == MajsWith(p, m) && SetAt(t.auxnodes, p.round) == VotersWith(p, m)
    ensures forall r: nat :: r != p.round ==> BagAt(HandleAux(p, m, c).auxvals, r) == BagAt(p.auxvals, r)
  {
    hide Judge, Ballot, Progress, HandleAux;
    AcceptedRound(p, m, c);
    BallotKeeps(p, m);
    ProgressVoters(Ballot(p, m), c);
    ProgressAuxvals(Ballot(p, m), c);
  }

  lemma PromptAccepted(cfg: Config, p: Node, t: Node, m: Msg, r: nat, v: int)
    requires Sound(cfg) && m.Aux? && Judge(p, m) == Accepted && t == HandleAux(p, m, cfg.coin(p.round)) && Prompt(cfg, p)
    requires (v == 0 || v == 1) && cfg.coin(r) == v && BagAt(t.auxvals, r)[v] >= Q(p.n) > BagAt(t.auxvals, r)[1 - v] && |SetAt(t.auxnodes, r)| >= Q(p.n)
    ensures t.finalstatus >= DECIDED
  {
    hide Judge, HandleAux, BagAt, SetAt, VotesWith, VotersWith, Q;
    var c := cfg.coin(p.round);
    AcceptedRecords(p, m, c);
    if r == p.round {
      VoteDecides(p, m, c);
    } else {
      AuxStaysDecided(p, m, c);
    }
  }

  /** A message that is not a counted vote leaves the votes as they are. */
  lemma OtherRecords(p: Node, m: Msg, c: int)
    requires !(m.Aux? && Judge(p, m) == Accepted)
    ensures HandleABAMsg(p, m, c).auxvals == p.auxvals
  {
    HandleAuxvals(p, m, c);
    hide HandleABAMsg, Judge;
  }

  lemma CountableIs(p: Node, m: Msg)
    requires m.Aux?
    ensures Judge(p, m) == Accepted <==> Countable(p, m)
  {
    hide SetAt, IntAt;
  }

  /** A vote is counted exactly when it is of the node's round, names nothing but values in bin_values or no
      preference, and past round 0 does not contradict itself or the node's own vote. */
  lemma CountsExactly(p: Node, m: Msg, c: int)
    requires m.Aux?
    ensures var t := HandleAux(p, m, c);
      if Countable(p, m)
      then BagAt(t.auxvals, p.round) == VotesWith(p, m) && BagAt(t.auxmajvals, p.round) == MajsWith(p, m) && SetAt(t.auxnodes, p.round) == VotersWith(p, m)
      else t.auxvals == p.auxvals
  {
    hide *;
    CountableIs(p, m);
    if Judge(p, m) == Accepted {
      AcceptedRecords(p, m, c);
    } else {
      AuxIsMessage(p, m, c);
      OtherRecords(p, m, c);
    }
  }

  lemma AuxIsMessage(p: Node, m: Msg, c: int)
    requires m.Aux?
    ensures HandleABAMsg(p, m, c) == HandleAux(p, m, c)
  {
  }

  lemma PromptOther(cfg: Config, p: Node, t: Node, m: Msg, r: nat, v: int)
    requires !(m.Aux? && Judge(p, m) == Accepted) && t == HandleABAMsg(p, m, cfg.coin(p.round)) && Prompt(cfg, p)
    requires (v == 0 || v == 1) && cfg.coin(r) == v && BagAt(t.auxvals, r)[v] >= Q(p.n)
    ensures t.finalstatus >= DECIDED
  {
    hide Judge, HandleABAMsg, BagAt, Q;
    OtherRecords(p, m, cfg.coin(p.round));
    StaysDecided(p, m, cfg.coin(p.round));
  }

  /** What a step does to the slots: one node handles the message, the others stay. */
  lemma HandledNode(cfg: Config, s: Sys, x: int, m: Msg)
    requires 0 <= x < |s.slots|
    ensures var p, s' := s.slots[x].node, HandleAt(cfg, s, x, m);
      && |s'.slots| == |s.slots| && s'.slots[x].node == Flush(HandleABAMsg(p, m, cfg.coin(p.round)))
      && forall y :: 0 <= y < |s.slots| && y != x ==> s'.slots[y] == s.slots[y]
  {
    hide HandleABAMsg, Entered, Counted;
  }

  lemma PromptVote(cfg: Config, s: Sys, s': Sys, x: int, m: Msg, r: nat, v: int)
    requires Sound(cfg) && x in Correct(cfg) && CrashInv(cfg, s) && CrashInv(cfg, s') && 0 <= x < |s.slots| == |s'.slots|
    requires var p := s.slots[x].node; p.n == cfg.n && Prompt(cfg, p) && s'.slots[x].node == Flush(HandleABAMsg(p, m, cfg.coin(p.round)))
    requires (v == 0 || v == 1) && cfg.coin(r) == v && BagAt(s'.slots[x].node.auxvals, r)[v] >= Q(cfg.n)
    ensures s'.slots[x].node.finalstatus >= DECIDED
  {
    hide CrashInv, HandleAux, HandleBval, Judge, BagAt, SetAt, Q, Prompt, Sound, Correct;
    var p := s.slots[x].node;
    var h := HandleABAMsg(p, m, cfg.coin(p.round));
    if m.Aux? && Judge(p, m) == Accepted {
      VotesHaveVoters(cfg, s', x, r, v);
      OneQuorum(cfg, s', x, r, v);
      PromptAccepted(cfg, p, h, m, r, v);
    } else {
      PromptOther(cfg, p, h, m, r, v);
    }
  }

  lemma PromptNode(cfg: Config, s: Sys, s': Sys, x: int, m: Msg)
    requires Sound(cfg) && x in Correct(cfg) && CrashInv(cfg, s) && CrashInv(cfg, s') && 0 <= x < |s.slots| == |s'.slots|
    requires var p := s.slots[x].node; Prompt(cfg, p) && s'.slots[x].node == Flush(HandleABAMsg(p, m, cfg.coin(p.round)))
    ensures Prompt(cfg, s'.slots[x].node)
  {
    NodeFacts(cfg, s, x);
    NodeFacts(cfg, s', x);
    hide CrashInv, HandleABAMsg, BagAt, Q, Sound, Correct, Hist, Mail, NodeOk, Flush;
    var t := s'.slots[x].node;
    forall r: nat, v | (v == 0 || v == 1) && cfg.coin(r) == v && BagAt(t.auxvals, r)[v] >= Q(cfg.n)
      ensures t.finalstatus >= DECIDED
    {
      PromptVote(cfg, s, s', x, m, r, v);
    }
  }

  lemma PromptApart(cfg: Config, s: Sys, s': Sys, x: int)
    requires AllPrompt(cfg, s) && |s'.slots| == |s.slots| && 0 <= x < |s.slots| && Prompt(cfg, s'.slots[x].node)
    requires forall y :: 0 <= y < |s.slots| && y != x ==> s'.slots[y] == s.slots[y]
    ensures AllPrompt(cfg, s')
  {
    hide Prompt, Correct;
    forall y | y in Correct(cfg) && 0 <= y < |s'.slots|
      ensures Prompt(cfg, s'.slots[y].node)
    {
      assert y != x ==> Prompt(cfg, s.slots[y].node);
    }
  }

  lemma PromptOf(cfg: Config, s: Sys, x: int)
    requires AllPrompt(cfg, s) && x in Correct(cfg) && 0 <= x < |s.slots|
    ensures Prompt(cfg, s.slots[x].node)
  {
  }

  lemma HandlePrompt(cfg: Config, s: Sys, x: int, m: Msg)
    requires Sound(cfg) && CrashInv(cfg, s) && AllPrompt(cfg, s) && x in Correct(cfg) && 0 <= x < |s.slots|
    requires CrashInv(cfg, HandleAt(cfg, s, x, m))
    ensures AllPrompt(cfg, HandleAt(cfg, s, x, m))
  {
    hide *;
    HandledNode(cfg, s, x, m);
    PromptOf(cfg, s, x);
    PromptNode(cfg, s, HandleAt(cfg, s, x, m), x, m);
    PromptApart(cfg, s, HandleAt(cfg, s, x, m), x);
  }

  lemma ProposePrompt(cfg: Config, s: Sys, x: int, input: int)
    requires AllPrompt(cfg, s) && Enabled(cfg, s, Propose(x, input))
    ensures AllPrompt(cfg, Next(cfg, s, Propose(x, input)))
  {
    var t := StartABAFromRoundZero(s.slots[x].node, input);
    ProposeKeeps(s.slots[x].node, input);
    hide StartABAFromRoundZero, BagAt, Q;
    assert Prompt(cfg, s.slots[x].node);
    assert Prompt(cfg, Flush(t));
  }

  lemma SlotPrompt(cfg: Config, s: Sys, x: int, k: Slot)
    requires AllPrompt(cfg, s) && 0 <= x < |s.slots| && k.node == s.slots[x].node
    ensures AllPrompt(cfg, s.(slots := s.slots[x := k]))
  {
    hide Prompt, Correct;
  }

  lemma StepPrompt(cfg: Config, s: Sys, e: Event)
    requires Sound(cfg) && cfg.faulty == {} && CrashInv(cfg, s) && AllPrompt(cfg, s) && Enabled(cfg, s, e)
    ensures AllPrompt(cfg, Next(cfg, s, e))
  {
    var x := e.x;
    var k := s.slots[x];
    assert Local(cfg, s.sent, s.ests, x, k);
    assert LocalOk(cfg, s.sent, s.ests, k);
    hide HandleAt, Hist, Mail, Once, Spare, NodeOk, AllPrompt;
    match e
    case Propose(_, input) => ProposePrompt(cfg, s, x, input);
    case Deliver(_, m) =>
      TakeOnce(k, m);
      SlotKeepsCrash(cfg, s, x, Take(k, m));
      SlotPrompt(cfg, s, x, Take(k, m));
      var u := s.(slots := s.slots[x := Take(k, m)]);
      HandleKeepsCrash(cfg, u, x, m);
      HandlePrompt(cfg, u, x, m);
    case Resume(_, m) =>
      assert Known(cfg, s.sent, m);
      PutAwayOnce(k, m);
      SlotKeepsCrash(cfg, s, x, PutAway(k, m));
      SlotPrompt(cfg, s, x, PutAway(k, m));
      var u := s.(slots := s.slots[x := PutAway(k, m)]);
      HandleKeepsCrash(cfg, u, x, m);
      HandlePrompt(cfg, u, x, m);
    case Inject(_, m) =>
  }

  lemma InitPrompt(cfg: Config)
    requires Sound(cfg)
    ensures AllPrompt(cfg, Init(cfg))
  {
    QuorumArithmetic(cfg.n);
    hide Q;
    forall x | 0 <= x < cfg.n
      ensures Prompt(cfg, Initial(x, cfg.n))
    {
    }
  }

  lemma LastEvent(cfg: Config, tr: seq<Sys>, i: nat) returns (e: Event)
    requires Run(cfg, tr) && i + 1 < |tr|
    ensures Enabled(cfg, tr[i], e) && tr[i + 1] == Next(cfg, tr[i], e)
  {
    hide Enabled, Next;
    assert Step(cfg, tr[i], tr[i + 1]);
    e :| Enabled(cfg, tr[i], e) && tr[i + 1] == Next(cfg, tr[i], e);
  }

  lemma FirstState(cfg: Config, tr: seq<Sys>)
    requires Run(cfg, tr)
    ensures |tr| > 0 && tr[0] == Init(cfg)
  {
  }

  lemma {:induction false} RunKeepsPrompt(cfg: Config, tr: seq<Sys>, i: nat)
    requires Sound(cfg) && cfg.faulty == {} && Run(cfg, tr) && i < |tr|
    ensures AllPrompt(cfg, tr[i])
  {
    hide *;
    if i > 0 {
      RunKeepsPrompt(cfg, tr, i - 1);
      RunKeepsCrash(cfg, tr, i - 1);
      var e := LastEvent(cfg, tr, i - 1);
      StepPrompt(cfg, tr[i - 1], e);
    } else {
      FirstState(cfg, tr);
      InitPrompt(cfg);
    }
  }

  // ------------------------------------------------------------- the theorems

  ghost predicate Backs(cfg: Config, p: Node, r: nat, v: int) {
    r <= p.round && cfg.coin(r) == v && BagAt(p.auxvals, r)[v] >= Q(cfg.n)
  }

  lemma QuorumDecides(cfg: Config, tr: seq<Sys>, i: nat, x: int, r: nat, v: int)
    requires Sound(cfg) && cfg.faulty == {} && Run(cfg, tr) && i < |tr| && x in Correct(cfg) && 0 <= x < |tr[i].slots|
    requires cfg.coin(r) == v && BagAt(tr[i].slots[x].node.auxvals, r)[v] >= Q(cfg.n)
    ensures tr[i].slots[x].node.finalstatus >= DECIDED && tr[i].slots[x].node.decidedvalue == v
  {
    var s := tr[i];
    var p := s.slots[x].node;
    RunKeepsCrash(cfg, tr, i);
    RunKeepsPrompt(cfg, tr, i);
    NodeFacts(cfg, s, x);
    assert Prompt(cfg, p);
    hide CrashInv, AllPrompt, Hist, Mail, NodeOk, Run, BagAt, Q, Voters;
    assert p.finalstatus >= DECIDED;
    var w := p.decidedvalue;
    assert Decides(p, w);
    DecisionEvidence(cfg, s, x, w);
    CountedVotes(cfg, s, x, r, v);
    assert Evidence(cfg, s.sent, r, v);
    if r <= p.decidedround {
      EvidenceAgrees(cfg, s, r, v, p.decidedround, w);
    } else {
      EvidenceAgrees(cfg, s, p.decidedround, w, r, v);
    }
  }

  /** In every run without lying nodes, a node has decided v exactly when in some round it has reached, the
      coin shows v and it has counted a quorum of votes for v. */
  lemma DecidesExactly(cfg: Config, tr: seq<Sys>, i: nat, x: int, v: int)
    requires Sound(cfg) && cfg.faulty == {} && Run(cfg, tr) && i < |tr| && x in Correct(cfg) && 0 <= x < |tr[i].slots|
    ensures var p := tr[i].slots[x].node;
      p.finalstatus >= DECIDED && p.decidedvalue == v <==> exists r: nat :: Backs(cfg, p, r, v)
  {
    var p := tr[i].slots[x].node;
    RunKeepsCrash(cfg, tr, i);
    NodeFacts(cfg, tr[i], x);
    hide CrashInv, Mail, NodeOk, Run, BagAt, Q, Correct;
    if r: nat :| Backs(cfg, p, r, v) {
      QuorumDecides(cfg, tr, i, x, r, v);
    }
    if p.finalstatus >= DECIDED && p.decidedvalue == v {
      assert Supports(cfg, p, p.decidedround, v);
      assert Backs(cfg, p, p.decidedround, v);
    }
  }

  /** A node that has left a round in which all votes are for the coin's value has decided it. */
  lemma UnanimityIsDecided(cfg: Config, tr: seq<Sys>, i: nat, x: int, r: nat, v: int)
    requires Sound(cfg) && cfg.faulty == {} && Run(cfg, tr) && i < |tr| && x in Correct(cfg) && 0 <= x < |tr[i].slots|
    requires cfg.coin(r) == v && AllVotes(tr[i].sent, r, v) && r < tr[i].slots[x].node.round
    ensures tr[i].slots[x].node.finalstatus >= DECIDED && tr[i].slots[x].node.decidedvalue == v
  {
    var s := tr[i];
    RunKeepsCrash(cfg, tr, i);
    NodeFacts(cfg, s, x);
    PassedRound(cfg, s, x, r);
    var k := s.slots[x];
    forall m | m in Round(k.accepted, r)
      ensures m.value == v
    {
    }
    hide CrashInv, AllVotes, Hist, Mail, NodeOk, Run, Round;
    OnlyKind(cfg, s, x, r, v);
    QuorumDecides(cfg, tr, i, x, r, v);
  }

  lemma ProposalsAreVotes(cfg: Config, s: Sys, v: int)
    requires CrashInv(cfg, s) && (v == 0 || v == 1) && forall e :: e in s.ests && e.round == 0 ==> e.value == v
    ensures AllVotes(s.sent, 0, v)
  {
    forall m | m in s.sent && m.Aux? && m.round == 0
      ensures m.value == v
    {
      assert MsgGood(cfg, s.sent, s.ests, m);
      assert Started(s.ests, 0, m.maj);
    }
  }

  lemma UnanimousVotes(cfg: Config, s: Sys, v: int, r: nat)
    requires Sound(cfg) && CrashInv(cfg, s) && (v == 0 || v == 1) && forall e :: e in s.ests && e.round == 0 ==> e.value == v
    ensures AllVotes(s.sent, r, v)
  {
    hide *;
    ProposalsAreVotes(cfg, s, v);
    if r > 0 {
      UnanimityLocks(cfg, s, 0, v);
      LockPersists(cfg, s, 1, v, r);
    }
  }

  /** If every proposal is v, every node past a round whose coin shows v has decided v. */
  lemma UnanimousProgress(cfg: Config, tr: seq<Sys>, i: nat, x: int, r: nat, v: int)
    requires Sound(cfg) && cfg.faulty == {} && Run(cfg, tr) && i < |tr| && x in Correct(cfg) && 0 <= x < |tr[i].slots|
    requires forall e :: e in tr[i].ests && e.round == 0 ==> e.value == v
    requires cfg.coin(r) == v && r < tr[i].slots[x].node.round
    ensures tr[i].slots[x].node.finalstatus >= DECIDED && tr[i].slots[x].node.decidedvalue == v
  {
    assert v == 0 || v == 1;
    hide *;
    RunKeepsCrash(cfg, tr, i);
    UnanimousVotes(cfg, tr[i], v, r);
    UnanimityIsDecided(cfg, tr, i, x, r, v);
  }

  /** Once a node has decided v, every node past a later round whose coin shows v has decided v too. */
  lemma DecisionSpreads(cfg: Config, tr: seq<Sys>, j: nat, y: int, i: nat, x: int, r: nat, v: int)
    requires Sound(cfg) && cfg.faulty == {} && Run(cfg, tr) && j <= i < |tr|
    requires y in Correct(cfg) && 0 <= y < |tr[j].slots| && Decides(tr[j].slots[y].node, v)
    requires x in Correct(cfg) && 0 <= x < |tr[i].slots| && tr[j].slots[y].node.decidedround < r < tr[i].slots[x].node.round && cfg.coin(r) == v
    ensures tr[i].slots[x].node.finalstatus >= DECIDED && tr[i].slots[x].node.decidedvalue == v
  {
    DecisionLocksLaterRounds(cfg, tr, j, y, v, i, r);
    UnanimityIsDecided(cfg, tr, i, x, r, v);
  }

  /** Where a node has gone from round r, in terms of the votes it had counted: a quorum for a value gives
      that value; past round 0, votes of no preference alone under two majorities give the last coin; all
      else gives this coin. */
  ghost predicate WentTo(cfg: Config, p: Node, r: nat, est: int, majr: int) {
    var vals, q, c := BagAt(p.auxvals, r), Q(cfg.n), cfg.coin(r);
    if vals[1] >= q then est == 1 && majr == 1
    else if vals[0] >= q then est == 0 && majr == 0
    else if r > 0 && vals[0] == 0 && vals[1] == 0 && |Kinds(BagAt(p.auxmajvals, r))| == 2 then est == cfg.coin(r - 1) && majr == cfg.coin(r - 1)
    else est == c && HalfQuorum(vals, r, c, q, majr)
  }

  lemma VoteKinds(cfg: Config, s: Sys, x: int, r: nat, v: int)
    requires CrashInv(cfg, s) && x in Correct(cfg) && 0 <= x < |s.slots| && v in BagAt(s.slots[x].node.auxvals, r)
    ensures v == 0 || v == 1 || v == BOTTOM
  {
    AcceptedVotes(cfg, s, x, r, v);
    var ms := With(s.slots[x].accepted, r, v);
    assert ms != {};
    var m := Member(ms);
    assert MsgGood(cfg, s.sent, s.ests, m);
  }

  lemma EvaluateWent(vals: multiset<int>, majs: multiset<int>, r: nat, c: int, cr: int, q: int)
    requires q > 0 && (exists v :: v in vals) && forall v :: v in vals ==> v == 0 || v == 1 || v == BOTTOM
    requires forall v :: v in vals && |Kinds(vals)| == 1 ==> Any(Kinds(vals)) == v && vals[v] >= q
    ensures var o := Evaluate(vals, majs, r, c, cr, q);
      if vals[1] >= q then o.est == 1 && o.maj == 1
      else if vals[0] >= q then o.est == 0 && o.maj == 0
      else if r > 0 && vals[0] == 0 && vals[1] == 0 && |Kinds(majs)| == 2 then o.est == cr && o.maj == cr
      else o.est == c && HalfQuorum(vals, r, c, q, o.maj)
  {
    var v :| v in vals;
    if vals[0] == 0 && vals[1] == 0 {
      OneKindOnly(vals, v);
    } else if |Kinds(vals)| == 1 {
      var w := if vals[0] > 0 then 0 else 1;
      assert w in vals;
    }
    hide Kinds, Any;
  }

  lemma SomeVote(cfg: Config, s: Sys, x: int, r: nat)
    requires Sound(cfg) && CrashInv(cfg, s) && x in Correct(cfg) && 0 <= x < |s.slots| && |SetAt(s.slots[x].node.auxnodes, r)| >= Q(cfg.n)
    ensures exists v :: v in BagAt(s.slots[x].node.auxvals, r)
  {
    QuorumArithmetic(cfg.n);
    NodeFacts(cfg, s, x);
    var k := s.slots[x];
    assert SetAt(k.node.auxnodes, r) == Sources(Round(k.accepted, r)) != {};
    var y := Member(Sources(Round(k.accepted, r)));
    var m :| m in Round(k.accepted, r) && m.src == y;
    AcceptedVotes(cfg, s, x, r, m.value);
    assert m in With(k.accepted, r, m.value);
    assert m.value in BagAt(k.node.auxvals, r);
  }

  lemma OutcomeWent(cfg: Config, s: Sys, x: int, r: nat)
    requires Sound(cfg) && CrashInv(cfg, s) && x in Correct(cfg) && 0 <= x < |s.slots| && r < s.slots[x].node.round
    ensures var p := s.slots[x].node; var o := OutcomeAt(cfg, p, r); WentTo(cfg, p, r, o.est, o.maj)
  {
    var p := s.slots[x].node;
    var vals := BagAt(p.auxvals, r);
    PassedRound(cfg, s, x, r);
    SomeVote(cfg, s, x, r);
    QuorumArithmetic(cfg.n);
    hide CrashInv, BagAt, Q, Kinds, Any, Evaluate, HalfQuorum, Sound, Correct;
    forall v | v in vals
      ensures v == 0 || v == 1 || v == BOTTOM
      ensures |Kinds(vals)| == 1 ==> Any(Kinds(vals)) == v && vals[v] >= Q(cfg.n)
    {
      VoteKinds(cfg, s, x, r, v);
      if |Kinds(vals)| == 1 {
        SingleKindQuorum(cfg, s, x, r, v);
      }
    }
    EvaluateWent(vals, BagAt(p.auxmajvals, r), r, cfg.coin(r), if r == 0 then -1 else cfg.coin(r - 1), Q(cfg.n));
  }

  /** In every run without lying nodes: the majority a node holds for the round after r, and the estimate it
      entered that round with, are those that the votes it counted in round r lead to. */
  lemma NextRoundExactly(cfg: Config, tr: seq<Sys>, i: nat, x: int, r: nat) returns (est: int, majr: int)
    requires Sound(cfg) && cfg.faulty == {} && Run(cfg, tr) && i < |tr| && x in Correct(cfg) && 0 <= x < |tr[i].slots|
    requires r < tr[i].slots[x].node.round
    ensures WentTo(cfg, tr[i].slots[x].node, r, est, majr) && IntAt(tr[i].slots[x].node.maj, r + 1) == majr
    ensures forall e :: e in tr[i].ests && e.node == x && e.round == r + 1 ==> e.value == est
  {
    var s := tr[i];
    var p := s.slots[x].node;
    RunKeepsCrash(cfg, tr, i);
    NodeFacts(cfg, s, x);
    PassedRound(cfg, s, x, r);
    OutcomeWent(cfg, s, x, r);
    var o := OutcomeAt(cfg, p, r);
    est, majr := o.est, o.maj;
    hide CrashInv, Run, WentTo, OutcomeAt, Mail, NodeOk;
    forall e | e in s.ests && e.node == x && e.round == r + 1
      ensures e.value == est
    {
      assert EstOk(cfg, p, e);
    }
  }
}
