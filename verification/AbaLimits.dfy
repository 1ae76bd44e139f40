/** Where biased validity ends: for every group size that 3 divides there is a run in which f+1 nodes
    propose 1 before voting, the first coin shows 1, and 0 is decided. */
module AbaLimits {
  import opened Quorum
  import opened Sets
  import opened Aba
  import opened AbaSystem
  import opened AbaTheorems

  // ---------------------------------------------- the nodes that propose 0

  /** The coin shows 1 in round 0 and 0 in every other round. */
  function OneThenZero(r: nat): int {
    if r == 0 then 1 else 0
  }

  function Group(m: nat): Config {
    Config(3 * m, {}, OneThenZero)
  }

  function BvalOf(i: int, r: nat): Msg {
    Bval(i, r, 0, if r == 0 then BOTTOM else 0)
  }

  /** In the stages 0 to 3 the nodes 0, ..., 2m-1 hear, from one another only: the BVALs of round 0, the
      AUXs of round 0, the BVALs of round 1, the AUXs of round 1. This is the message of node i. */
  function StageMsg(i: int, stage: nat): Msg {
    if stage % 2 == 0 then BvalOf(i, stage / 2) else Aux(i, stage / 2, 0, 0)
  }

  /** Nothing of round r has reached the node. */
  predicate Fresh(p: Node, r: nat) {
    && BagAt(p.auxvals, r) == multiset{} && SetAt(p.auxnodes, r) == {} && At(p.bvalMap, (r, 0)) == {}
    && SetAt(p.majs, r) == {} && IntAt(p.delta, r) == -1 && SetAt(p.bvals, r) == {}
  }

  predicate InRound(p: Node, m: nat, r: nat) {
    && p.n == 3 * m && p.round == r && p.finalstatus == READY && p.cachedMsg == map[] && p.spawned == multiset{} && p.out == []
    && SetAt(p.bvals, r) == {0} && (r == 0 ==> Fresh(p, 1))
    && (r > 0 ==> IntAt(p.coinr, r - 1) == 1 && SetAt(p.majs, r) <= {0})
  }

  /** The node has handled the BVALs of the nodes in s. */
  predicate Hearing(p: Node, m: nat, r: nat, s: set<int>) {
    && InRound(p, m, r) && p.instancestatus == READY && IntAt(p.delta, r) == -1
    && At(p.bvalMap, (r, 0)) == s && BagAt(p.auxvals, r) == multiset{} && SetAt(p.auxnodes, r) == {}
  }

  function Zeros(k: nat): multiset<int> {
    multiset{}[0 := k]
  }

  /** The node has voted and handled the AUXs of the nodes in s. */
  predicate Voting(p: Node, m: nat, r: nat, s: set<int>) {
    && InRound(p, m, r) && p.instancestatus == AUX && IntAt(p.delta, r) == 0 && 0 in SetAt(p.binValues, r)
    && BagAt(p.auxvals, r) == Zeros(|s|) && SetAt(p.auxnodes, r) == s
  }

  predicate NodeIn(p: Node, m: nat, stage: nat, s: set<int>) {
    if stage % 2 == 0 then Hearing(p, m, stage / 2, s) else Voting(p, m, stage / 2, s)
  }

  lemma Sizes(m: nat)
    requires m >= 1
    ensures Q(3 * m) == 2 * m && SQ(3 * m) == m && F(3 * m) == m - 1
  {
    assert F(3 * m) == m - 1;
  }

  lemma NoCache(p: Node)
    requires p.cachedMsg == map[] && p.spawned == multiset{}
    ensures HandleCachedMsg(p, p.round) == p
  {
    assert p.cachedMsg - {p.round} == map[];
    assert p.spawned + BagAt(p.cachedMsg, p.round) == p.spawned;
  }

  /** Recording a BVAL of round r leaves the rest of the round alone. */
  lemma RecordedRound(p: Node, m: nat, r: nat, k: int)
    requires r <= 1 && InRound(p, m, r)
    ensures InRound(RecordBval(p, BvalOf(k, r)), m, r)
    ensures RecordBval(p, BvalOf(k, r)) == p.(bvalMap := Insert(p.bvalMap, (r, 0), k), majs := RecordBval(p, BvalOf(k, r)).majs)
  {
    var u := RecordBval(p, BvalOf(k, r));
    if r == 0 {
      assert At(u.bvalMap, (1, 0)) == At(p.bvalMap, (1, 0));
      assert SetAt(u.majs, 1) == SetAt(p.majs, 1);
    } else {
      assert SetAt(u.majs, 1) == SetAt(p.majs, 1) + {0};
    }
  }

  lemma RecordOne(p: Node, m: nat, r: nat, s: set<int>, k: int)
    requires r <= 1 && Hearing(p, m, r, s)
    ensures var u := RelayBval(RecordBval(p, BvalOf(k, r)), BvalOf(k, r)); Hearing(u, m, r, s + {k}) && u.id == p.id
  {
    var u := RecordBval(p, BvalOf(k, r));
    RecordedRound(p, m, r, k);
    hide RecordBval, Fresh;
    assert At(u.bvalMap, (r, 0)) == s + {k};
    assert SendBval(u, r, 0) == u;
  }

  lemma BvalCases(p: Node, m: nat, r: nat, s: set<int>, k: int)
    requires m >= 1 && r <= 1 && k !in s && Hearing(p, m, r, s)
    ensures var u := RelayBval(RecordBval(p, BvalOf(k, r)), BvalOf(k, r));
      HandleBval(p, BvalOf(k, r)) == if |s| + 1 >= 2 * m then ProceedToAux(u, r, 0) else u
  {
    Sizes(m);
    NoCache(p);
    RecordOne(p, m, r, s, k);
    hide RelayBval, RecordBval, HandleCachedMsg, ProceedToAux, Fresh;
    var u := RelayBval(RecordBval(p, BvalOf(k, r)), BvalOf(k, r));
    assert Len(u.bvalMap, (r, 0)) == |s| + 1;
  }

  lemma HearingOut(u: Node, m: nat, r: nat, s: set<int>)
    requires Hearing(u, m, r, s)
    ensures u.spawned == multiset{} && u.out == [] && Flush(u) == u
  {
  }

  /** Handling the BVAL of node k. */
  lemma HearOne(p: Node, m: nat, r: nat, s: set<int>, k: int)
    requires m >= 1 && r <= 1 && k !in s && Hearing(p, m, r, s)
    ensures var t := HandleBval(p, BvalOf(k, r));
      && (|s| + 1 < 2 * m ==> t.spawned == multiset{} && t.out == [] && Hearing(Flush(t), m, r, s + {k}))
      && (|s| + 1 == 2 * m ==> t.spawned == multiset{} && t.out == [Aux(p.id, r, 0, 0)] && Voting(Flush(t), m, r, {}))
  {
    BvalCases(p, m, r, s, k);
    RecordOne(p, m, r, s, k);
    var u := RelayBval(RecordBval(p, BvalOf(k, r)), BvalOf(k, r));
    hide *;
    HearingOut(u, m, r, s + {k});
    HearLast(u, m, r, s + {k});
  }

  lemma HearLast(u: Node, m: nat, r: nat, s: set<int>)
    requires r <= 1 && Hearing(u, m, r, s)
    ensures var t := ProceedToAux(u, r, 0);
      t.spawned == multiset{} && t.out == [Aux(u.id, r, 0, 0)] && Voting(Flush(t), m, r, {})
  {
    var t := u.(binValues := AddTo(u.binValues, r, 0), instancestatus := AUX);
    assert Commits(t, r, 0);
    assert Zeros(0) == multiset{};
  }

  lemma VoteAccepted(p: Node, m: nat, r: nat, s: set<int>, k: int)
    requires r <= 1 && Voting(p, m, r, s)
    ensures Judge(p, Aux(k, r, 0, 0)) == Accepted
  {
  }

  lemma RecordedAux(p: Node, m: nat, r: nat, k: int)
    requires r <= 1 && InRound(p, m, r)
    ensures InRound(RecordAux(p, Aux(k, r, 0, 0)), m, r)
  {
    var u := RecordAux(p, Aux(k, r, 0, 0));
    if r == 0 {
      assert BagAt(u.auxvals, 1) == BagAt(p.auxvals, 1);
      assert SetAt(u.auxnodes, 1) == SetAt(p.auxnodes, 1);
    } else {
    }
  }

  lemma CountedAt(p: Node, r: nat, k: int)
    ensures var u := RecordAux(p, Aux(k, r, 0, 0));
      BagAt(u.auxvals, r) == BagAt(p.auxvals, r) + multiset{0} && SetAt(u.auxnodes, r) == SetAt(p.auxnodes, r) + {k}
      && u.instancestatus == p.instancestatus && u.delta == p.delta && u.binValues == p.binValues
  {
  }

  lemma VotingNext(p: Node, m: nat, r: nat, s: set<int>, k: int)
    requires r <= 1 && k !in s && Voting(p, m, r, s)
    ensures Voting(RecordAux(p, Aux(k, r, 0, 0)), m, r, s + {k})
  {
    ZerosNext(|s|);
    RecordedAux(p, m, r, k);
    CountedAt(p, r, k);
    hide Zeros, InRound, RecordAux, BagAt, SetAt, IntAt;
    assert |s + {k}| == |s| + 1;
  }

  /** Handling the AUX of node k. */
  lemma VoteOne(p: Node, m: nat, r: nat, s: set<int>, k: int)
    requires r <= 1 && k !in s && Voting(p, m, r, s)
    ensures Voting(Ballot(p, Aux(k, r, 0, 0)), m, r, s + {k}) && Ballot(p, Aux(k, r, 0, 0)).id == p.id
  {
    NoCacheIn(p, m, r);
    VotingNext(p, m, r, s, k);
    hide Zeros, HandleCachedMsg, InRound, Voting;
    assert Ballot(p, Aux(k, r, 0, 0)) == RecordAux(p, Aux(k, r, 0, 0));
  }

  lemma NoCacheIn(p: Node, m: nat, r: nat)
    requires InRound(p, m, r)
    ensures HandleCachedMsg(p, p.round) == p && p.round == r
  {
    NoCache(p);
  }

  lemma ZerosNext(k: nat)
    ensures Zeros(k) + multiset{0} == Zeros(k + 1)
  {
  }

  lemma VoteSome(p: Node, m: nat, r: nat, s: set<int>, k: int, c: int)
    requires m >= 1 && r <= 1 && k !in s && |s| + 1 < 2 * m && Voting(p, m, r, s)
    ensures var t := HandleAux(p, Aux(k, r, 0, 0), c);
      t.spawned == multiset{} && t.out == [] && Voting(Flush(t), m, r, s + {k})
  {
    Sizes(m);
    VoteAccepted(p, m, r, s, k);
    VoteOne(p, m, r, s, k);
    var u := Ballot(p, Aux(k, r, 0, 0));
    hide Ballot, Judge, OutcomeOf, Fresh;
    assert Progress(u, c) == u;
    assert Flush(u) == u;
  }

  /** The last AUX of round 0 sends the node into round 1 with 0, whatever the coin shows. */
  lemma LeaveZero(u: Node, m: nat, s: set<int>)
    requires m >= 1 && |s| == 2 * m && Voting(u, m, 0, s)
    ensures var t := Progress(u, 1);
      t.spawned == multiset{} && t.out == [BvalOf(u.id, 1)] && Hearing(Flush(t), m, 1, {})
  {
    Sizes(m);
    assert OutcomeOf(u, 0, 1) == Outcome(0, 0, false);
    var a := EnterRound(u, 0, 1);
    NoCache(a);
    var t := StartABA(a, 0);
    assert Progress(u, 1) == t.(instancestatus := READY);
    assert t.out == [Bval(u.id, 1, 0, 0)];
  }

  /** The last AUX of round 1 decides 0, which is what the coin shows. */
  lemma LeaveOne(u: Node, m: nat, s: set<int>)
    requires m >= 1 && |s| == 2 * m && Voting(u, m, 1, s)
    ensures Decides(Progress(u, 0), 0)
  {
    Sizes(m);
    var o := Outcome(0, 0, true);
    assert OutcomeOf(u, 1, 0) == o;
    var d := DecideIf(u, o);
    DecideKept(d, o, 0);
    assert Progress(u, 0) == AdvanceIf(d, o, 0);
  }

  lemma DecideKept(d: Node, o: Outcome, c: int)
    ensures AdvanceIf(d, o, c).finalstatus == d.finalstatus && AdvanceIf(d, o, c).decidedvalue == d.decidedvalue
  {
    StartKeeps(EnterRound(d, o.maj, c), o.est);
    hide StartABA;
  }

  /** What handling the message of one more node in a stage makes of a node. */
  ghost predicate Moved(p: Node, t: Node, m: nat, stage: nat, s: set<int>, k: int) {
    && t.id == p.id
    && (|s| + 1 < 2 * m ==> t.spawned == multiset{} && t.out == [] && NodeIn(Flush(t), m, stage, s + {k}))
    && (|s| + 1 == 2 * m && stage < 3 ==> t.spawned == multiset{} && t.out == [StageMsg(p.id, stage + 1)] && NodeIn(Flush(t), m, stage + 1, {}))
    && (|s| + 1 == 2 * m && stage == 3 ==> Decides(t, 0))
  }

  lemma StageShape(p: Node, m: nat, r: nat, s: set<int>, i: int)
    ensures StageMsg(i, 2 * r) == BvalOf(i, r) && StageMsg(i, 2 * r + 1) == Aux(i, r, 0, 0)
    ensures NodeIn(p, m, 2 * r, s) <==> Hearing(p, m, r, s)
    ensures NodeIn(p, m, 2 * r + 1, s) <==> Voting(p, m, r, s)
  {
    assert (2 * r) % 2 == 0 && (2 * r) / 2 == r && (2 * r + 1) % 2 == 1 && (2 * r + 1) / 2 == r;
    hide Hearing, Voting;
  }

  lemma HandleStageBval(p: Node, m: nat, r: nat, s: set<int>, k: int)
    requires m >= 1 && r <= 1 && k !in s && |s| < 2 * m && Hearing(p, m, r, s)
    ensures Moved(p, HandleABAMsg(p, BvalOf(k, r), OneThenZero(r)), m, 2 * r, s, k)
  {
    HandleKeepsId(p, BvalOf(k, r), OneThenZero(r));
    HearOne(p, m, r, s, k);
    var t := HandleABAMsg(p, BvalOf(k, r), OneThenZero(r));
    assert t == HandleBval(p, BvalOf(k, r));
    hide *;
    StageShape(Flush(t), m, r, s + {k}, p.id);
    StageShape(Flush(t), m, r, {}, p.id);
    if |s| + 1 < 2 * m {
      MovedOn(p, t, m, 2 * r, s, k);
    } else {
      MovedUp(p, t, m, 2 * r, s, k);
    }
  }

  lemma MovedOn(p: Node, t: Node, m: nat, stage: nat, s: set<int>, k: int)
    requires t.id == p.id && |s| + 1 < 2 * m && t.spawned == multiset{} && t.out == [] && NodeIn(Flush(t), m, stage, s + {k})
    ensures Moved(p, t, m, stage, s, k)
  {
  }

  lemma MovedUp(p: Node, t: Node, m: nat, stage: nat, s: set<int>, k: int)
    requires t.id == p.id && |s| + 1 == 2 * m && stage < 3
    requires t.spawned == multiset{} && t.out == [StageMsg(p.id, stage + 1)] && NodeIn(Flush(t), m, stage + 1, {})
    ensures Moved(p, t, m, stage, s, k)
  {
  }

  lemma MovedOut(p: Node, t: Node, m: nat, s: set<int>, k: int)
    requires t.id == p.id && |s| + 1 == 2 * m && Decides(t, 0)
    ensures Moved(p, t, m, 3, s, k)
  {
  }

  lemma HandleStageAux(p: Node, m: nat, r: nat, s: set<int>, k: int)
    requires m >= 1 && r <= 1 && k !in s && |s| < 2 * m && Voting(p, m, r, s)
    ensures Moved(p, HandleABAMsg(p, Aux(k, r, 0, 0), OneThenZero(r)), m, 2 * r + 1, s, k)
  {
    HandleKeepsId(p, Aux(k, r, 0, 0), OneThenZero(r));
    var t := HandleABAMsg(p, Aux(k, r, 0, 0), OneThenZero(r));
    assert t == HandleAux(p, Aux(k, r, 0, 0), OneThenZero(r));
    hide *;
    if |s| + 1 < 2 * m {
      VoteSome(p, m, r, s, k, OneThenZero(r));
      StageShape(Flush(t), m, r, s + {k}, p.id);
      MovedOn(p, t, m, 2 * r + 1, s, k);
    } else {
      VoteLast(p, m, r, s, k);
      if r == 0 {
        StageShape(Flush(t), m, 1, {}, p.id);
        MovedUp(p, t, m, 1, s, k);
      } else {
        MovedOut(p, t, m, s, k);
      }
    }
  }

  lemma HandleStage(p: Node, m: nat, stage: nat, s: set<int>, k: int)
    requires m >= 1 && stage <= 3 && k !in s && |s| < 2 * m && NodeIn(p, m, stage, s)
    ensures p.round == stage / 2
    ensures Moved(p, HandleABAMsg(p, StageMsg(k, stage), OneThenZero(p.round)), m, stage, s, k)
  {
    var r := stage / 2;
    assert stage == 2 * r || stage == 2 * r + 1;
    StageShape(p, m, r, s, k);
    StageRound(p, m, stage, s);
    hide *;
    if stage == 2 * r {
      HandleStageBval(p, m, r, s, k);
    } else {
      HandleStageAux(p, m, r, s, k);
    }
  }

  lemma StageRound(p: Node, m: nat, stage: nat, s: set<int>)
    requires NodeIn(p, m, stage, s)
    ensures p.round == stage / 2
  {
  }

  lemma VoteLast(p: Node, m: nat, r: nat, s: set<int>, k: int)
    requires m >= 1 && r <= 1 && k !in s && |s| + 1 == 2 * m && Voting(p, m, r, s)
    ensures var t := HandleAux(p, Aux(k, r, 0, 0), OneThenZero(r));
      && (r == 0 ==> t.spawned == multiset{} && t.out == [BvalOf(p.id, 1)] && Hearing(Flush(t), m, 1, {}))
      && (r == 1 ==> Decides(t, 0))
  {
    VoteAccepted(p, m, r, s, k);
    VoteOne(p, m, r, s, k);
    var u := Ballot(p, Aux(k, r, 0, 0));
    hide Ballot, Judge, Progress, Voting, Hearing, BvalOf, Decides;
    if r == 0 {
      LeaveZero(u, m, s + {k});
    } else {
      LeaveOne(u, m, s + {k});
    }
  }

  lemma HandleKeepsId(p: Node, m: Msg, c: int)
    ensures HandleABAMsg(p, m, c).id == p.id
  {
    CachedKeeps(p, p.round);
    if m.Bval? {
      HandleBvalKeeps(p, m);
    } else {
      HandleAuxId(p, m, c);
    }
  }

  lemma HandleAuxId(p: Node, m: Msg, c: int)
    requires m.Aux?
    ensures HandleAux(p, m, c).id == p.id
  {
    BallotId(p, m);
    ProgressId(Ballot(p, m), c);
    hide Judge, Ballot, CacheMsg, HandleCachedMsg, Progress;
    match Judge(p, m)
    case Stale =>
    case Early =>
    case Unjustified =>
    case Invalid =>
    case Accepted =>
  }

  lemma BallotId(p: Node, m: Msg)
    ensures Ballot(p, m).id == p.id && CacheMsg(p, m).id == p.id && HandleCachedMsg(p, p.round).id == p.id
    ensures CacheMsg(HandleCachedMsg(p, p.round), m).id == p.id
  {
    CachedKeeps(p, p.round);
    hide HandleCachedMsg, CountIn;
  }

  lemma ProgressId(p: Node, c: int)
    ensures Progress(p, c).id == p.id
  {
    if !Stops(p) && Due(p) {
      var o := OutcomeOf(p, p.round, c);
      var d := DecideIf(p, o);
      DecideRecords(p, o, c);
      StartKeeps(EnterRound(d, o.maj, c), o.est);
      hide OutcomeOf, DecideIf, StartABA;
    }
  }

  // --------------------------------------------------------------- the run

  /** Node z stands at the given stage, and the AUXs delivered to it so far are those it has handled. */
  ghost predicate AtStage(k: Slot, m: nat, z: int, stage: nat, s: set<int>) {
    && k.node.id == z && NodeIn(k.node, m, stage, s)
    && forall a :: a in k.taken ==> a.round < stage / 2 || (stage % 2 == 1 && a.round == stage / 2 && a.src in s)
  }

  /** From s to s' only node z moves, and nothing that was sent is lost. */
  predicate OnlyMoves(s: Sys, s': Sys, z: int) {
    |s.slots| == |s'.slots| && s.sent <= s'.sent && forall y :: 0 <= y < |s.slots| && y != z ==> s'.slots[y] == s.slots[y]
  }

  ghost predicate DeliveredOne(s': Sys, m: nat, z: int, stage: nat, heard: set<int>, k: int)
    requires 0 <= z < |s'.slots|
  {
    && (|heard| + 1 < 2 * m ==> AtStage(s'.slots[z], m, z, stage, heard + {k}))
    && (|heard| + 1 == 2 * m && stage < 3 ==> AtStage(s'.slots[z], m, z, stage + 1, {}) && StageMsg(z, stage + 1) in s'.sent)
    && (|heard| + 1 == 2 * m && stage == 3 ==> Decides(s'.slots[z].node, 0))
  }

  /** What a delivery leaves behind. */
  lemma DeliverShape(cfg: Config, s: Sys, x: int, b: Msg)
    requires Enabled(cfg, s, Deliver(x, b))
    ensures var s' := Next(cfg, s, Deliver(x, b));
      var t := HandleABAMsg(s.slots[x].node, b, cfg.coin(s.slots[x].node.round));
      OnlyMoves(s, s', x) && s'.slots[x].node == Flush(t) && s'.slots[x].taken == Take(s.slots[x], b).taken && s'.sent == s.sent + Outgoing(t)
  {
    hide HandleABAMsg, Entered, Counted;
  }

  lemma TakenNext(k: Slot, stage: nat, heard: set<int>, i: int)
    requires forall a :: a in k.taken ==> a.round < stage / 2 || (stage % 2 == 1 && a.round == stage / 2 && a.src in heard)
    ensures var t := Take(k, StageMsg(i, stage)).taken;
      && (forall a :: a in t ==> a.round < stage / 2 || (stage % 2 == 1 && a.round == stage / 2 && a.src in heard + {i}))
      && (forall a :: a in t ==> a.round < (stage + 1) / 2 || (stage % 2 == 0 && a.round == (stage + 1) / 2 && a.src in {}))
    ensures i !in heard ==> StageMsg(i, stage) !in k.taken
  {
  }

  lemma AtStageNext(k: Slot, k': Slot, m: nat, z: int, stage: nat, heard: set<int>, i: int)
    requires AtStage(k, m, z, stage, heard) && k'.taken == Take(k, StageMsg(i, stage)).taken && k'.node.id == z
    ensures NodeIn(k'.node, m, stage, heard + {i}) ==> AtStage(k', m, z, stage, heard + {i})
    ensures NodeIn(k'.node, m, stage + 1, {}) ==> AtStage(k', m, z, stage + 1, {})
  {
    TakenNext(k, stage, heard, i);
    hide NodeIn, StageMsg, Take;
  }

  lemma SentByLast(t: Node, s: Sys, o: Msg)
    requires t.out == [o] && Outgoing(t) <= s.sent
    ensures o in s.sent
  {
    assert o in Outgoing(t);
  }

  lemma StageDelivered(k: Slot, s': Sys, m: nat, z: int, stage: nat, heard: set<int>, i: int)
    requires 0 <= z < |s'.slots| && stage <= 3 && |heard| < 2 * m && AtStage(k, m, z, stage, heard)
    requires var t := HandleABAMsg(k.node, StageMsg(i, stage), OneThenZero(k.node.round));
      Moved(k.node, t, m, stage, heard, i) && s'.slots[z].node == Flush(t) && s'.slots[z].taken == Take(k, StageMsg(i, stage)).taken && Outgoing(t) <= s'.sent
    ensures DeliveredOne(s', m, z, stage, heard, i)
  {
    var t := HandleABAMsg(k.node, StageMsg(i, stage), OneThenZero(k.node.round));
    assert s'.slots[z].node.id == z;
    AtStageNext(k, s'.slots[z], m, z, stage, heard, i);
    hide NodeIn, HandleABAMsg, StageMsg, Take, AtStage, Outgoing;
    if |heard| + 1 == 2 * m && stage < 3 {
      SentByLast(t, s', StageMsg(z, stage + 1));
    }
  }

  lemma DeliverOne(m: nat, s: Sys, z: int, stage: nat, heard: set<int>, i: int)
    requires m >= 1 && stage <= 3 && |s.slots| == 3 * m && 0 <= z < 2 * m && AtStage(s.slots[z], m, z, stage, heard)
    requires i !in heard && |heard| < 2 * m && StageMsg(i, stage) in s.sent
    ensures Enabled(Group(m), s, Deliver(z, StageMsg(i, stage)))
    ensures var s' := Next(Group(m), s, Deliver(z, StageMsg(i, stage)));
      OnlyMoves(s, s', z) && DeliveredOne(s', m, z, stage, heard, i)
  {
    var k := s.slots[z];
    TakenNext(k, stage, heard, i);
    HandleStage(k.node, m, stage, heard, i);
    assert Group(m).coin(k.node.round) == OneThenZero(k.node.round);
    assert Enabled(Group(m), s, Deliver(z, StageMsg(i, stage)));
    DeliverShape(Group(m), s, z, StageMsg(i, stage));
    hide Next, Enabled, Moved, HandleABAMsg, StageMsg, Take, AtStage, DeliveredOne, Group;
    StageDelivered(k, Next(Group(m), s, Deliver(z, StageMsg(i, stage))), m, z, stage, heard, i);
  }

  lemma RunExtend(cfg: Config, tr: seq<Sys>, e: Event) returns (longer: seq<Sys>)
    requires Run(cfg, tr) && Enabled(cfg, tr[|tr| - 1], e)
    ensures Run(cfg, longer) && longer == tr + [Next(cfg, tr[|tr| - 1], e)]
  {
    hide Next, Enabled;
    longer := tr + [Next(cfg, tr[|tr| - 1], e)];
    assert Step(cfg, tr[|tr| - 1], Next(cfg, tr[|tr| - 1], e));
    forall i | 0 <= i < |longer| - 1
      ensures Step(cfg, longer[i], longer[i + 1])
    {
      assert i < |tr| - 1 ==> Step(cfg, tr[i], tr[i + 1]);
    }
  }

  function Last(tr: seq<Sys>): Sys
    requires tr != []
  {
    tr[|tr| - 1]
  }

  ghost predicate AllSent(s: Sys, m: nat, stage: nat, j: nat) {
    forall i :: 0 <= i < j ==> StageMsg(i, stage) in s.sent
  }

  lemma PrefixTrans(a: seq<Sys>, b: seq<Sys>, c: seq<Sys>)
    requires a <= b && b <= c
    ensures a <= c
  {
  }

  lemma OnlyMovesTrans(a: Sys, b: Sys, c: Sys, z: int)
    requires OnlyMoves(a, b, z) && OnlyMoves(b, c, z)
    ensures OnlyMoves(a, c, z)
  {
  }

  lemma AllSentMono(s: Sys, s': Sys, m: nat, stage: nat, j: nat)
    requires AllSent(s, m, stage, j) && s.sent <= s'.sent
    ensures AllSent(s', m, stage, j)
  {
  }

  lemma NextId(k: nat)
    ensures Ids(k) + {k} == Ids(k + 1)
  {
  }

  lemma DeliverNext(m: nat, tr: seq<Sys>, z: int, stage: nat, k: nat) returns (longer: seq<Sys>)
    requires m >= 1 && stage <= 3 && k < 2 * m && Run(Group(m), tr) && |Last(tr).slots| == 3 * m && 0 <= z < 2 * m
    requires AtStage(Last(tr).slots[z], m, z, stage, Ids(k)) && AllSent(Last(tr), m, stage, 2 * m)
    ensures Run(Group(m), longer) && tr <= longer && |Last(longer).slots| == 3 * m && OnlyMoves(Last(tr), Last(longer), z)
    ensures DeliveredOne(Last(longer), m, z, stage, Ids(k), k)
  {
    var s := Last(tr);
    assert StageMsg(k, stage) in s.sent;
    assert k !in Ids(k) && |Ids(k)| == k;
    hide Run, AtStage, StageMsg, Next, Enabled, Group, DeliveredOne, Ids;
    DeliverOne(m, s, z, stage, Ids(k), k);
    longer := RunExtend(Group(m), tr, Deliver(z, StageMsg(k, stage)));
  }

  lemma DeliveredCases(s': Sys, m: nat, z: int, stage: nat, k: nat)
    requires 0 <= z < |s'.slots| && k < 2 * m && stage <= 3 && DeliveredOne(s', m, z, stage, Ids(k), k)
    ensures k + 1 < 2 * m ==> AtStage(s'.slots[z], m, z, stage, Ids(k + 1))
    ensures k + 1 == 2 * m && stage < 3 ==> AtStage(s'.slots[z], m, z, stage + 1, {}) && StageMsg(z, stage + 1) in s'.sent
    ensures k + 1 == 2 * m && stage == 3 ==> Decides(s'.slots[z].node, 0)
  {
    NextId(k);
    hide AtStage, StageMsg, Decides, Ids;
  }

  /** Node z hears the rest of a stage, from node k on. */
  lemma {:induction false} DeliverAll(m: nat, tr: seq<Sys>, z: int, stage: nat, k: nat) returns (longer: seq<Sys>)
    requires m >= 1 && stage <= 3 && k < 2 * m && Run(Group(m), tr) && |Last(tr).slots| == 3 * m && 0 <= z < 2 * m
    requires AtStage(Last(tr).slots[z], m, z, stage, Ids(k)) && AllSent(Last(tr), m, stage, 2 * m)
    ensures Run(Group(m), longer) && tr <= longer && OnlyMoves(Last(tr), Last(longer), z)
    ensures stage < 3 ==> AtStage(Last(longer).slots[z], m, z, stage + 1, {}) && StageMsg(z, stage + 1) in Last(longer).sent
    ensures stage == 3 ==> Decides(Last(longer).slots[z].node, 0)
    decreases 2 * m - k
  {
    assert tr != [];
    hide *;
    longer := DeliverNext(m, tr, z, stage, k);
    assert longer != [];
    SameSlots(Last(tr), Last(longer), z);
    DeliveredCases(Last(longer), m, z, stage, k);
    if k + 1 < 2 * m {
      var mid := longer;
      AllSentMono(Last(tr), Last(mid), m, stage, 2 * m);
      longer := DeliverAll(m, mid, z, stage, k + 1);
      OnlyMovesTrans(Last(tr), Last(mid), Last(longer), z);
      SameSlots(Last(tr), Last(longer), z);
      PrefixTrans(tr, mid, longer);
    }
  }

  lemma SameSlots(a: Sys, b: Sys, z: int)
    requires OnlyMoves(a, b, z)
    ensures |a.slots| == |b.slots| && a.sent <= b.sent
  {
  }

  /** The nodes below j have finished the stage, the others have not begun it. */
  ghost predicate World(s: Sys, m: nat, stage: nat, j: nat) {
    && |s.slots| == 3 * m && AllSent(s, m, stage, 2 * m) && AllSent(s, m, stage + 1, j)
    && forall z :: 0 <= z < 2 * m ==> AtStage(s.slots[z], m, z, if z < j then stage + 1 else stage, {})
  }

  lemma {:induction false} StageAll(m: nat, tr: seq<Sys>, stage: nat, j: nat) returns (longer: seq<Sys>)
    requires m >= 1 && stage < 3 && j <= 2 * m && Run(Group(m), tr) && World(Last(tr), m, stage, j)
    ensures Run(Group(m), longer) && tr <= longer && World(Last(longer), m, stage + 1, 0)
    decreases 2 * m - j
  {
    if j == 2 * m {
      longer := tr;
    } else {
      hide Run, AtStage, StageMsg, Group;
      assert Ids(0) == {};
      longer := DeliverAll(m, tr, j, stage, 0);
      longer := StageAll(m, longer, stage, j + 1);
    }
  }

  // ------------------------------------------------------------ the opening

  /** The nodes below j have proposed: 0 the first 2m, 1 the others. */
  ghost predicate Opening(s: Sys, m: nat, j: nat) {
    && |s.slots| == 3 * m
    && (forall x :: j <= x < 3 * m ==> s.slots[x] == Slot(Initial(x, 3 * m), {}, multiset{}, {}))
    && (forall x :: 0 <= x < j && x < 2 * m ==> AtStage(s.slots[x], m, x, 0, {}) && StageMsg(x, 0) in s.sent)
  }

  lemma ProposeZero(m: nat, x: int)
    ensures var t := StartABAFromRoundZero(Initial(x, 3 * m), 0);
      t.out == [StageMsg(x, 0)] && t.spawned == multiset{} && t.id == x && NodeIn(Flush(t), m, 0, {})
  {
    NoCache(Initial(x, 3 * m));
  }

  lemma OpenOne(m: nat, s: Sys, j: nat)
    requires m >= 1 && j < 3 * m && Opening(s, m, j)
    ensures Enabled(Group(m), s, Propose(j, if j < 2 * m then 0 else 1))
    ensures Opening(Next(Group(m), s, Propose(j, if j < 2 * m then 0 else 1)), m, j + 1)
  {
    ProposeZero(m, j);
    hide StartABAFromRoundZero, NodeIn, StageMsg;
    var s' := Next(Group(m), s, Propose(j, if j < 2 * m then 0 else 1));
    if j < 2 * m {
      var t := StartABAFromRoundZero(Initial(j, 3 * m), 0);
      assert t.out[0] == StageMsg(j, 0);
      assert s'.slots[j].node == Flush(t) && s'.slots[j].taken == {};
    }
  }

  lemma EarlyStays(cfg: Config, tr: seq<Sys>, longer: seq<Sys>, y: int)
    requires tr <= longer && EverEarlyOne(cfg, tr, y)
    ensures EverEarlyOne(cfg, longer, y)
  {
    hide EarlyOne;
    var i: nat :| i < |tr| - 1 && EarlyOne(cfg, tr, i, y);
    assert longer[i] == tr[i] && longer[i + 1] == tr[i + 1];
    SameEarly(cfg, tr, longer, i, y);
  }

  lemma SameEarly(cfg: Config, tr: seq<Sys>, longer: seq<Sys>, i: nat, y: int)
    requires i < |tr| - 1 && i < |longer| - 1 && longer[i] == tr[i] && longer[i + 1] == tr[i + 1] && EarlyOne(cfg, tr, i, y)
    ensures EarlyOne(cfg, longer, i, y)
  {
    hide Next, Enabled;
  }

  lemma OpenNext(m: nat, before: seq<Sys>, j: nat) returns (tr: seq<Sys>)
    requires m >= 1 && j < 3 * m && Run(Group(m), before) && Opening(Last(before), m, j)
    ensures Run(Group(m), tr) && before <= tr && Opening(Last(tr), m, j + 1)
    ensures j >= 2 * m ==> EverEarlyOne(Group(m), tr, j)
  {
    OpenOne(m, Last(before), j);
    OpenedEarly(m, Last(before), j);
    hide Run, Opening, Next, Enabled, Group, EverEarlyOne;
    tr := RunExtend(Group(m), before, Propose(j, if j < 2 * m then 0 else 1));
    if j >= 2 * m {
      LastIsEarly(m, before, tr, j);
    }
  }

  lemma OpenNone(m: nat)
    ensures Run(Group(m), [Init(Group(m))]) && Opening(Init(Group(m)), m, 0)
  {
  }

  /** The nodes from 2m up to j have proposed 1 early. */
  ghost predicate OnesEarly(m: nat, tr: seq<Sys>, j: nat) {
    forall y :: 2 * m <= y < j ==> EverEarlyOne(Group(m), tr, y)
  }

  lemma OnesEarlyNext(m: nat, before: seq<Sys>, tr: seq<Sys>, j: nat)
    requires before <= tr && OnesEarly(m, before, j) && (j >= 2 * m ==> EverEarlyOne(Group(m), tr, j))
    ensures OnesEarly(m, tr, j + 1)
  {
    hide EverEarlyOne, Group;
    forall y | 2 * m <= y < j + 1
      ensures EverEarlyOne(Group(m), tr, y)
    {
      if y < j {
        EarlyStays(Group(m), before, tr, y);
      }
    }
  }

  lemma {:induction false} OpenAll(m: nat, j: nat) returns (tr: seq<Sys>)
    requires m >= 1 && j <= 3 * m
    ensures Run(Group(m), tr) && Opening(Last(tr), m, j) && OnesEarly(m, tr, j)
  {
    if j == 0 {
      tr := [Init(Group(m))];
      OpenNone(m);
    } else {
      hide *;
      var before := OpenAll(m, j - 1);
      tr := OpenNext(m, before, j - 1);
      OnesEarlyNext(m, before, tr, j - 1);
    }
  }

  lemma OpenedEarly(m: nat, s: Sys, j: nat)
    requires m >= 1 && j < 3 * m && Opening(s, m, j)
    ensures |s.slots| == 3 * m && s.slots[j].node.round == 0 && s.slots[j].node.instancestatus == READY
  {
  }

  lemma LastIsEarly(m: nat, before: seq<Sys>, tr: seq<Sys>, y: nat)
    requires before != [] && Enabled(Group(m), Last(before), Propose(y, 1)) && tr == before + [Next(Group(m), Last(before), Propose(y, 1))]
    requires |Last(before).slots| == 3 * m && y < 3 * m && Last(before).slots[y].node.round == 0 && Last(before).slots[y].node.instancestatus == READY
    ensures EverEarlyOne(Group(m), tr, y)
  {
    var i: nat := |before| - 1;
    assert tr[i] == Last(before) && tr[i + 1] == Next(Group(m), tr[i], Propose(y, 1));
    hide Next, Enabled;
    assert EarlyOne(Group(m), tr, i, y);
  }

  // ------------------------------------------------------------ the theorem

  ghost predicate BiasHolds(n: nat) {
    forall cfg: Config, tr: seq<Sys>, ones: set<int>, i: nat, x: int, w: int :: cfg.n == n && Biased(cfg, tr, ones) && i < |tr| && Decided(cfg, tr[i], x, w) ==> w == 1
  }

  /** A run without lying nodes, with a first coin of 1, in which f+1 nodes propose 1 before voting. */
  ghost predicate Biased(cfg: Config, tr: seq<Sys>, ones: set<int>) {
    && Sound(cfg) && cfg.faulty == {} && Run(cfg, tr) && cfg.coin(0) == 1
    && |ones| >= SQ(cfg.n) && forall y :: y in ones ==> EverEarlyOne(cfg, tr, y)
  }

  ghost predicate Decided(cfg: Config, s: Sys, x: int, w: int) {
    x in Correct(cfg) && 0 <= x < |s.slots| && Decides(s.slots[x].node, w)
  }

  lemma OpenedWorld(m: nat, s: Sys)
    requires Opening(s, m, 3 * m)
    ensures World(s, m, 0, 0)
  {
    hide AtStage, StageMsg;
  }

  /** From the opening through three stages, and the fourth at node 0. */
  lemma ZeroIsDecided(m: nat, opening: seq<Sys>) returns (tr: seq<Sys>)
    requires m >= 1 && Run(Group(m), opening) && World(Last(opening), m, 0, 0)
    ensures Run(Group(m), tr) && opening <= tr && |Last(tr).slots| == 3 * m && Decides(Last(tr).slots[0].node, 0)
  {
    assert opening != [];
    hide Run, AtStage, StageMsg, Decides, World, OnlyMoves, AllSent;
    var a := StageAll(m, opening, 0, 0);
    var b := StageAll(m, a, 1, 0);
    var c := StageAll(m, b, 2, 0);
    PrefixTrans(opening, a, b);
    PrefixTrans(opening, b, c);
    WorldAt(Last(c), m, 3);
    assert Ids(0) == {};
    tr := DeliverAll(m, c, 0, 3, 0);
    SameSlots(Last(c), Last(tr), 0);
    PrefixTrans(opening, c, tr);
  }

  lemma WorldAt(s: Sys, m: nat, stage: nat)
    requires m >= 1 && World(s, m, stage, 0)
    ensures |s.slots| == 3 * m && AtStage(s.slots[0], m, 0, stage, {}) && AllSent(s, m, stage, 2 * m)
  {
  }

  lemma OnesCount(m: nat)
    ensures |Ids(3 * m) - Ids(2 * m)| == m
  {
    assert (Ids(3 * m) - Ids(2 * m)) + Ids(2 * m) == Ids(3 * m);
  }

  lemma GroupSound(m: nat)
    requires m >= 1
    ensures Sound(Group(m)) && Group(m).faulty == {} && Group(m).coin(0) == 1 && Group(m).n == 3 * m && 0 in Correct(Group(m))
  {
    Sizes(m);
  }

  /** For every n = 3m: a run in which the m = f+1 nodes 2m, ..., 3m-1 propose 1 early, and node 0
      decides 0 in round 1. */
  lemma BiasFails(m: nat) returns (tr: seq<Sys>, ones: set<int>)
    requires m >= 1
    ensures Biased(Group(m), tr, ones) && tr != [] && Decided(Group(m), Last(tr), 0, 0)
  {
    Sizes(m);
    GroupSound(m);
    OnesCount(m);
    hide Run, EverEarlyOne, Decides, Group, Opening, World, Sound, Q, SQ, F, Correct;
    var opening := OpenAll(m, 3 * m);
    OpenedWorld(m, Last(opening));
    tr := ZeroIsDecided(m, opening);
    ones := Ids(3 * m) - Ids(2 * m);
    forall y | y in ones
      ensures EverEarlyOne(Group(m), tr, y)
    {
      EarlyStays(Group(m), opening, tr, y);
    }
  }

  /** Biased validity, exactly: it holds in every run of n nodes if and only if 3 does not divide n. */
  lemma BiasHoldsExactly(n: nat)
    requires n >= 1
    ensures BiasHolds(n) <==> n % 3 != 0
  {
    if n % 3 != 0 {
      forall cfg: Config, tr: seq<Sys>, ones: set<int>, i: nat, x: int, w: int | cfg.n == n && Biased(cfg, tr, ones) && i < |tr| && Decided(cfg, tr[i], x, w)
        ensures w == 1
      {
        BiasedValidity(cfg, tr, ones, i, x, w);
      }
    } else {
      var m := n / 3;
      assert n == 3 * m;
      var tr, ones := BiasFails(m);
      hide Biased, Decided;
      assert Decided(Group(m), tr[|tr| - 1], 0, 0);
    }
  }
}
