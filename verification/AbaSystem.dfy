/** The binary agreement as a system: n nodes, an asynchronous network, and a faulty set whose
    members may put any message of their own in front of any node at any time. Nodes outside the
    faulty set follow the handlers of module Aba; any of them may stop at any point, and any
    message may be lost, because no step is ever forced. */
module AbaSystem {
  import opened Quorum
  import opened Sets
  import opened Aba

  datatype Config = Config(n: nat, faulty: set<int>, coin: nat -> int)

  ghost predicate Sound(cfg: Config) {
    && cfg.n >= 1
    && cfg.faulty <= Ids(cfg.n) && |cfg.faulty| <= F(cfg.n)
    && forall r: nat :: cfg.coin(r) == 0 || cfg.coin(r) == 1
  }

  function Correct(cfg: Config): set<int> {
    Ids(cfg.n) - cfg.faulty
  }

  /** A node entered a round with an estimate. */
  datatype Estimate = Estimate(node: int, round: nat, value: int)

  /** A node with its surroundings: `taken` are the AUX messages the network has delivered to it,
      `todo` the messages put in front of it by faulty nodes or handed back from its own cache, and
      `accepted` the AUX messages it has counted. */
  datatype Slot = Slot(node: Node, taken: set<Msg>, todo: multiset<Msg>, accepted: set<Msg>)

  /** `sent` and `ests` record the messages broadcast by correct nodes and the estimates they
      entered rounds with. */
  datatype Sys = Sys(slots: seq<Slot>, sent: set<Msg>, ests: set<Estimate>)

  function Init(cfg: Config): Sys {
    Sys(seq(cfg.n, x => Slot(Initial(x, cfg.n), {}, multiset{}, {})), {}, {})
  }

  /** Propose: a proposal or re-proposal for round 0. Deliver: the network hands over a broadcast
      message, an AUX message at most once. Resume: a message from the todo bag is handled.
      Inject: a faulty node sends a message of its choice. */
  datatype Event =
    | Propose(x: int, input: int)
    | Deliver(x: int, m: Msg)
    | Resume(x: int, m: Msg)
    | Inject(x: int, m: Msg)

  ghost predicate Enabled(cfg: Config, s: Sys, e: Event) {
    e.x in Correct(cfg) && |s.slots| == cfg.n &&
    match e
    case Propose(x, input) => input == 0 || input == 1
    case Deliver(x, m) => m in s.sent && m !in s.slots[x].taken
    case Resume(x, m) => m in s.slots[x].todo
    case Inject(x, m) => m.src in cfg.faulty
  }

  function Outgoing(t: Node): set<Msg> {
    set m | m in t.out
  }

  function Flush(t: Node): Node {
    t.(out := [], spawned := multiset{})
  }

  /** Node x has become t: its broadcasts go out and its handed-back messages wait for it. */
  ghost function Commit(s: Sys, x: int, t: Node, es: set<Estimate>, acc: set<Msg>): Sys
    requires 0 <= x < |s.slots|
  {
    var k := s.slots[x];
    Sys(s.slots[x := Slot(Flush(t), k.taken, k.todo + t.spawned, k.accepted + acc)], s.sent + Outgoing(t), s.ests + es)
  }

  /** The estimate with which p enters the next round on handling m, if it does. */
  ghost function Entered(p: Node, m: Msg, c: int): set<Estimate> {
    if m.Aux? && Judge(p, m) == Accepted && Due(Ballot(p, m)) && p.instancestatus == AUX
    then {Estimate(p.id, p.round + 1, OutcomeOf(Ballot(p, m), p.round, c).est)}
    else {}
  }

  function Counted(p: Node, m: Msg): set<Msg> {
    if m.Aux? && Judge(p, m) == Accepted then {m} else {}
  }

  ghost function HandleAt(cfg: Config, s: Sys, x: int, m: Msg): Sys
    requires 0 <= x < |s.slots|
  {
    var p := s.slots[x].node;
    var c := cfg.coin(p.round);
    var t := HandleABAMsg(p, m, c);
    Commit(s, x, t, Entered(p, m, c), Counted(p, m))
  }

  function Take(k: Slot, m: Msg): Slot {
    if m.Aux? then k.(taken := k.taken + {m}) else k
  }

  function PutAway(k: Slot, m: Msg): Slot {
    k.(todo := k.todo - multiset{m})
  }

  ghost function Next(cfg: Config, s: Sys, e: Event): Sys
    requires Enabled(cfg, s, e)
  {
    var k := s.slots[e.x];
    match e
    case Propose(x, input) =>
      Commit(s, x, StartABAFromRoundZero(k.node, input), {Estimate(x, 0, input)}, {})
    case Deliver(x, m) => HandleAt(cfg, s.(slots := s.slots[x := Take(k, m)]), x, m)
    case Resume(x, m) => HandleAt(cfg, s.(slots := s.slots[x := PutAway(k, m)]), x, m)
    case Inject(x, m) => s.(slots := s.slots[x := k.(todo := k.todo + multiset{m})])
  }

  ghost predicate Step(cfg: Config, s: Sys, s': Sys) {
    exists e :: Enabled(cfg, s, e) && s' == Next(cfg, s, e)
  }

  /** A run: its states in order. */
  ghost predicate Run(cfg: Config, tr: seq<Sys>) {
    && |tr| > 0 && tr[0] == Init(cfg)
    && forall i :: 0 <= i < |tr| - 1 ==> Step(cfg, tr[i], tr[i + 1])
  }

  // --------------------------------------------- where bin_values come from

  /** Some correct node entered round r with estimate v. */
  ghost predicate Started(ests: set<Estimate>, r: nat, v: int) {
    exists y :: Estimate(y, r, v) in ests
  }

  ghost predicate Known(cfg: Config, sent: set<Msg>, m: Msg) {
    m.src in cfg.faulty || m in sent
  }

  ghost predicate Heard(cfg: Config, sent: set<Msg>, src: int, r: nat, v: int) {
    src in cfg.faulty || exists mj :: Bval(src, r, v, mj) in sent
  }

  ghost predicate Justified(cfg: Config, ests: set<Estimate>, m: Msg) {
    m.src in Correct(cfg) && (m.Bval? ==> Started(ests, m.round, m.value))
  }

  ghost predicate VotesHeard(cfg: Config, sent: set<Msg>, p: Node) {
    forall k, src :: src in At(p.bvalMap, k) ==> (k.1 == 0 || k.1 == 1) && Heard(cfg, sent, src, k.0, k.1)
  }

  ghost predicate CacheKnown(cfg: Config, sent: set<Msg>, p: Node) {
    && (forall r, m :: m in BagAt(p.cachedMsg, r) ==> m.round == r && Known(cfg, sent, m))
    && (forall m :: m in p.spawned ==> Known(cfg, sent, m))
  }

  ghost predicate BinStarted(ests: set<Estimate>, p: Node) {
    forall r, v :: v in SetAt(p.binValues, r) ==> Started(ests, r, v)
  }

  ghost predicate NodeOk(cfg: Config, sent: set<Msg>, ests: set<Estimate>, p: Node) {
    && p.id in Correct(cfg) && p.n == cfg.n
    && CacheKnown(cfg, sent, p) && VotesHeard(cfg, sent, p) && BinStarted(ests, p)
    && forall m :: m in p.out ==> Justified(cfg, ests, m)
  }

  /** Every value the node has on record as an AUX vote is in its bin_values, or is no preference. */
  ghost predicate AuxvalsInBin(p: Node) {
    forall r, v :: v in BagAt(p.auxvals, r) ==> v == BOTTOM || v in SetAt(p.binValues, r)
  }

  ghost predicate AuxInBin(p: Node, acc: set<Msg>) {
    AuxvalsInBin(p) &&
    forall m :: m in acc ==> (
      && m.Aux?
      && (m.value == BOTTOM || m.value in SetAt(p.binValues, m.round))
      && (m.maj == BOTTOM || m.maj in SetAt(p.binValues, m.round)))
  }

  ghost predicate TodoKnown(cfg: Config, sent: set<Msg>, todo: multiset<Msg>) {
    forall m :: m in todo ==> Known(cfg, sent, m)
  }

  /** Node x between two events. */
  ghost predicate Local(cfg: Config, sent: set<Msg>, ests: set<Estimate>, x: int, k: Slot) {
    && k.node.id == x && k.node.out == [] && k.node.spawned == multiset{}
    && NodeOk(cfg, sent, ests, k.node)
    && AuxInBin(k.node, k.accepted)
    && TodoKnown(cfg, sent, k.todo)
  }

  ghost predicate BvInv(cfg: Config, s: Sys) {
    && |s.slots| == cfg.n
    && (forall e :: e in s.ests ==> e.node in Correct(cfg))
    && (forall m :: m in s.sent ==> Justified(cfg, s.ests, m))
    && (forall x :: x in Correct(cfg) ==> Local(cfg, s.sent, s.ests, x, s.slots[x]))
  }

  /** f+1 nodes heard for a value include a correct one, which had reason to send it. */
  lemma SmallQuorumStarted(cfg: Config, sent: set<Msg>, ests: set<Estimate>, p: Node, r: nat, v: int)
    requires Sound(cfg) && VotesHeard(cfg, sent, p)
    requires forall m :: m in sent ==> Justified(cfg, ests, m)
    requires Len(p.bvalMap, (r, v)) >= SQ(cfg.n)
    ensures (v == 0 || v == 1) && Started(ests, r, v)
  {
    var src := Outside(At(p.bvalMap, (r, v)), cfg.faulty);
    assert Heard(cfg, sent, src, r, v);
    var mj :| Bval(src, r, v, mj) in sent;
    assert Justified(cfg, ests, Bval(src, r, v, mj));
  }

  lemma NodeOkMono(cfg: Config, sent: set<Msg>, ests: set<Estimate>, sent': set<Msg>, ests': set<Estimate>, p: Node)
    requires NodeOk(cfg, sent, ests, p) && sent <= sent' && ests <= ests'
    ensures NodeOk(cfg, sent', ests', p)
  {
  }

  /** The part of a node that its identity and its bin_values make up only grows. */
  ghost predicate Extends(p: Node, t: Node) {
    t.id == p.id && t.n == p.n && forall r :: SetAt(p.binValues, r) <= SetAt(t.binValues, r)
  }

  /** Changes to the rest of the state leave NodeOk alone. */
  lemma SameVotes(cfg: Config, sent: set<Msg>, ests: set<Estimate>, p: Node, t: Node)
    requires NodeOk(cfg, sent, ests, p)
    requires t.id == p.id && t.n == p.n && t.bvalMap == p.bvalMap && t.cachedMsg == p.cachedMsg && t.spawned == p.spawned
    requires BinStarted(ests, t)
    requires forall m :: m in t.out ==> Justified(cfg, ests, m)
    ensures NodeOk(cfg, sent, ests, t)
  {
  }

  lemma TakeCachedOk(cfg: Config, sent: set<Msg>, ests: set<Estimate>, p: Node, r: nat)
    requires NodeOk(cfg, sent, ests, p)
    ensures NodeOk(cfg, sent, ests, HandleCachedMsg(p, r)) && Extends(p, HandleCachedMsg(p, r))
  {
    if p.round != r || p.finalstatus == TERMINATE {
      return;
    }
    var t := HandleCachedMsg(p, r);
    forall q, m | m in BagAt(t.cachedMsg, q)
      ensures m.round == q && Known(cfg, sent, m)
    {
      assert m in BagAt(p.cachedMsg, q);
    }
    forall m | m in t.spawned
      ensures Known(cfg, sent, m)
    {
      assert m in p.spawned || m in BagAt(p.cachedMsg, r);
    }
    assert VotesHeard(cfg, sent, t) && BinStarted(ests, t);
  }

  lemma CacheOk(cfg: Config, sent: set<Msg>, ests: set<Estimate>, p: Node, m: Msg)
    requires NodeOk(cfg, sent, ests, p) && Known(cfg, sent, m)
    ensures NodeOk(cfg, sent, ests, CacheMsg(p, m)) && Extends(p, CacheMsg(p, m))
  {
    var t := CacheMsg(p, m);
    forall r, o | o in BagAt(t.cachedMsg, r)
      ensures o.round == r && Known(cfg, sent, o)
    {
      assert (o == m && r == m.round) || o in BagAt(p.cachedMsg, r);
    }
    assert VotesHeard(cfg, sent, t) && BinStarted(ests, t);
  }

  lemma AddBinOk(cfg: Config, sent: set<Msg>, ests: set<Estimate>, p: Node, r: nat, v: int)
    requires NodeOk(cfg, sent, ests, p) && Started(ests, r, v)
    ensures var t := p.(binValues := AddTo(p.binValues, r, v)); NodeOk(cfg, sent, ests, t) && Extends(p, t)
  {
    var t := p.(binValues := AddTo(p.binValues, r, v));
    forall q, w | w in SetAt(t.binValues, q)
      ensures Started(ests, q, w)
    {
      assert (q == r && w == v) || w in SetAt(p.binValues, q);
    }
    SameVotes(cfg, sent, ests, p, t);
  }

  lemma SendOk(cfg: Config, sent: set<Msg>, ests: set<Estimate>, p: Node, m: Msg)
    requires NodeOk(cfg, sent, ests, p) && Justified(cfg, ests, m)
    ensures NodeOk(cfg, sent, ests, Send(p, m)) && Extends(p, Send(p, m))
  {
  }

  lemma SendAuxOk(cfg: Config, sent: set<Msg>, ests: set<Estimate>, p: Node, r: nat, v: int)
    requires NodeOk(cfg, sent, ests, p)
    ensures NodeOk(cfg, sent, ests, SendAux(p, r, v)) && Extends(p, SendAux(p, r, v))
  {
    if Commits(p, r, v) {
      var w := p.(delta := p.delta[r := v]);
      SameVotes(cfg, sent, ests, p, w);
      SendOk(cfg, sent, ests, w, Aux(w.id, r, v, v));
      assert SendAux(p, r, v) == Send(w, Aux(w.id, r, v, v));
    } else {
      SendOk(cfg, sent, ests, p, Aux(p.id, r, BOTTOM, v));
      assert SendAux(p, r, v) == Send(p, Aux(p.id, r, BOTTOM, v));
    }
  }

  lemma ProceedOk(cfg: Config, sent: set<Msg>, ests: set<Estimate>, p: Node, r: nat, v: int)
    requires NodeOk(cfg, sent, ests, p) && Started(ests, r, v)
    ensures NodeOk(cfg, sent, ests, ProceedToAux(p, r, v)) && Extends(p, ProceedToAux(p, r, v))
  {
    var t := p.(binValues := AddTo(p.binValues, r, v));
    AddBinOk(cfg, sent, ests, p, r, v);
    var u := t.(instancestatus := AUX);
    if t.round == r && t.instancestatus < AUX {
      SameVotes(cfg, sent, ests, t, u);
      SendAuxOk(cfg, sent, ests, u, r, v);
      assert ProceedToAux(p, r, v) == SendAux(u, r, v);
    } else {
      assert ProceedToAux(p, r, v) == t;
    }
  }

  lemma SendBvalOk(cfg: Config, sent: set<Msg>, ests: set<Estimate>, p: Node, r: nat, v: int)
    requires NodeOk(cfg, sent, ests, p) && Started(ests, r, v)
    ensures NodeOk(cfg, sent, ests, SendBval(p, r, v)) && Extends(p, SendBval(p, r, v))
  {
    if v !in SetAt(p.bvals, r) {
      var t := p.(bvals := AddTo(p.bvals, r, v));
      SameVotes(cfg, sent, ests, p, t);
      SendOk(cfg, sent, ests, t, Bval(p.id, r, v, IntAt(p.maj, r)));
    }
  }

  lemma RecordBvalOk(cfg: Config, sent: set<Msg>, ests: set<Estimate>, p: Node, m: Msg)
    requires NodeOk(cfg, sent, ests, p) && m.Bval? && Known(cfg, sent, m)
    ensures NodeOk(cfg, sent, ests, RecordBval(p, m)) && Extends(p, RecordBval(p, m))
  {
    var t := RecordBval(p, m);
    forall k, src | src in At(t.bvalMap, k)
      ensures (k.1 == 0 || k.1 == 1) && Heard(cfg, sent, src, k.0, k.1)
    {
      if src !in At(p.bvalMap, k) {
        assert k == (m.round, m.value) && src == m.src;
        assert m == Bval(src, k.0, k.1, m.maj);
      }
    }
    assert CacheKnown(cfg, sent, t) && BinStarted(ests, t);
  }

  lemma RelayOk(cfg: Config, sent: set<Msg>, ests: set<Estimate>, p: Node, m: Msg)
    requires Sound(cfg) && NodeOk(cfg, sent, ests, p)
    requires forall o :: o in sent ==> Justified(cfg, ests, o)
    ensures NodeOk(cfg, sent, ests, RelayBval(p, m)) && Extends(p, RelayBval(p, m))
  {
    if Len(p.bvalMap, (m.round, m.value)) >= SQ(p.n) {
      SmallQuorumStarted(cfg, sent, ests, p, m.round, m.value);
      SendBvalOk(cfg, sent, ests, p, m.round, m.value);
      AddBinOk(cfg, sent, ests, SendBval(p, m.round, m.value), m.round, m.value);
    }
  }

  lemma HandleBvalOk(cfg: Config, sent: set<Msg>, ests: set<Estimate>, p: Node, m: Msg)
    requires Sound(cfg) && NodeOk(cfg, sent, ests, p) && m.Bval? && Known(cfg, sent, m)
    requires forall o :: o in sent ==> Justified(cfg, ests, o)
    ensures NodeOk(cfg, sent, ests, HandleBval(p, m)) && Extends(p, HandleBval(p, m))
  {
    if m.round > p.round {
      CacheOk(cfg, sent, ests, p, m);
    } else if m.round == p.round {
      TakeCachedOk(cfg, sent, ests, p, p.round);
      var a := HandleCachedMsg(p, p.round);
      RecordBvalOk(cfg, sent, ests, a, m);
      var b := RecordBval(a, m);
      RelayOk(cfg, sent, ests, b, m);
      var t := RelayBval(b, m);
      if Len(t.bvalMap, (m.round, m.value)) >= Q(p.n) {
        QuorumArithmetic(cfg.n);
        SmallQuorumStarted(cfg, sent, ests, t, m.round, m.value);
        ProceedOk(cfg, sent, ests, t, m.round, m.value);
      }
    }
  }

  lemma ProposeOk(cfg: Config, sent: set<Msg>, ests: set<Estimate>, p: Node, input: int)
    requires NodeOk(cfg, sent, ests, p) && Estimate(p.id, 0, input) in ests
    ensures NodeOk(cfg, sent, ests, StartABAFromRoundZero(p, input)) && Extends(p, StartABAFromRoundZero(p, input))
  {
    TakeCachedOk(cfg, sent, ests, p, 0);
    var t := HandleCachedMsg(p, 0);
    assert Started(ests, 0, input);
    var u := t.(bvals := AddTo(t.bvals, 0, input), maj := t.maj[0 := BOTTOM]);
    SameVotes(cfg, sent, ests, t, u);
    SendOk(cfg, sent, ests, u, Bval(u.id, 0, input, BOTTOM));
    var w := SendProposal(t, input);
    if input == 1 {
      AddBinOk(cfg, sent, ests, w, 0, 1);
      ProceedOk(cfg, sent, ests, w.(binValues := AddTo(w.binValues, 0, 1)), 0, 1);
    }
  }

  lemma StartOk(cfg: Config, sent: set<Msg>, ests: set<Estimate>, p: Node, input: int)
    requires NodeOk(cfg, sent, ests, p) && Estimate(p.id, p.round, input) in ests
    ensures NodeOk(cfg, sent, ests, StartABA(p, input)) && Extends(p, StartABA(p, input))
  {
    var r := p.round;
    TakeCachedOk(cfg, sent, ests, p, r);
    var t := HandleCachedMsg(p, r);
    var u := t.(bvals := AddTo(t.bvals, r, input));
    SameVotes(cfg, sent, ests, t, u);
    assert Started(ests, r, input);
    if r == 0 {
      SameVotes(cfg, sent, ests, u, u.(maj := u.maj[r := BOTTOM]));
      SendOk(cfg, sent, ests, u.(maj := u.maj[r := BOTTOM]), Bval(u.id, r, input, BOTTOM));
    } else {
      SendOk(cfg, sent, ests, u, Bval(u.id, r, input, IntAt(u.maj, r)));
    }
  }

  lemma AdvanceOk(cfg: Config, sent: set<Msg>, ests: set<Estimate>, p: Node, o: Outcome, c: int)
    requires NodeOk(cfg, sent, ests, p) && Estimate(p.id, p.round + 1, o.est) in ests
    ensures NodeOk(cfg, sent, ests, Advance(p, o, c)) && Extends(p, Advance(p, o, c))
  {
    var a := EnterRound(p, o.maj, c);
    SameVotes(cfg, sent, ests, p, a);
    StartOk(cfg, sent, ests, a, o.est);
    var t := StartABA(a, o.est);
    SameVotes(cfg, sent, ests, t, t.(instancestatus := READY));
  }

  /** Entering a round leaves the votes on record. */
  lemma AdvanceRecords(p: Node, o: Outcome, c: int)
    ensures var t := Advance(p, o, c);
            t.auxvals == p.auxvals && t.auxmajvals == p.auxmajvals && t.auxnodes == p.auxnodes
            && t.round == p.round + 1 && OutcomeOf(t, p.round, c) == OutcomeOf(p, p.round, c)
  {
    var a := EnterRound(p, o.maj, c);
    StartKeeps(a, o.est);
    var t := StartABA(a, o.est);
    assert p.round > 0 ==> IntAt(a.coinr, p.round - 1) == IntAt(p.coinr, p.round - 1);
    hide StartABA, Evaluate;
    assert t.auxvals == a.auxvals && t.auxmajvals == a.auxmajvals && t.coinr == a.coinr && t.n == a.n;
  }

  /** Deciding leaves the votes on record. */
  lemma DecideRecords(p: Node, o: Outcome, c: int)
    ensures var t := DecideIf(p, o);
            t.auxvals == p.auxvals && t.auxmajvals == p.auxmajvals && t.auxnodes == p.auxnodes && t.coinr == p.coinr
            && t.round == p.round && t.n == p.n && t.id == p.id && t.instancestatus == p.instancestatus
            && OutcomeOf(t, p.round, c) == OutcomeOf(p, p.round, c)
  {
  }

  lemma ConcludeOk(cfg: Config, sent: set<Msg>, ests: set<Estimate>, p: Node, o: Outcome, c: int)
    requires NodeOk(cfg, sent, ests, p)
    requires p.instancestatus == AUX ==> Estimate(p.id, p.round + 1, o.est) in ests
    ensures NodeOk(cfg, sent, ests, Conclude(p, o, c)) && Extends(p, Conclude(p, o, c))
  {
    var t := DecideIf(p, o);
    DecideRecords(p, o, c);
    if o.decide {
      SameVotes(cfg, sent, ests, p, t);
    }
    if t.instancestatus == AUX {
      AdvanceOk(cfg, sent, ests, t, o, c);
    }
  }

  lemma ProgressOk(cfg: Config, sent: set<Msg>, ests: set<Estimate>, p: Node, c: int)
    requires NodeOk(cfg, sent, ests, p)
    requires Due(p) && p.instancestatus == AUX ==> Estimate(p.id, p.round + 1, OutcomeOf(p, p.round, c).est) in ests
    ensures NodeOk(cfg, sent, ests, Progress(p, c)) && Extends(p, Progress(p, c))
  {
    if Stops(p) {
      SameVotes(cfg, sent, ests, p, p.(finalstatus := TERMINATE));
      assert Progress(p, c) == p.(finalstatus := TERMINATE);
    } else if Due(p) {
      ConcludeOk(cfg, sent, ests, p, OutcomeOf(p, p.round, c), c);
    } else {
      assert Progress(p, c) == p;
    }
  }

  lemma BallotOk(cfg: Config, sent: set<Msg>, ests: set<Estimate>, p: Node, m: Msg)
    requires NodeOk(cfg, sent, ests, p)
    ensures NodeOk(cfg, sent, ests, Ballot(p, m)) && Extends(p, Ballot(p, m))
    ensures Ballot(p, m).round == p.round && Ballot(p, m).instancestatus == p.instancestatus
  {
    TakeCachedOk(cfg, sent, ests, p, p.round);
    var a := HandleCachedMsg(p, p.round);
    CachedKeeps(p, p.round);
    SameVotes(cfg, sent, ests, a, RecordAux(a, m));
  }

  lemma HandleAuxOk(cfg: Config, sent: set<Msg>, ests: set<Estimate>, p: Node, m: Msg, c: int)
    requires NodeOk(cfg, sent, ests, p) && m.Aux? && Known(cfg, sent, m)
    requires Entered(p, m, c) <= ests
    ensures NodeOk(cfg, sent, ests, HandleAux(p, m, c)) && Extends(p, HandleAux(p, m, c))
  {
    hide NodeOk, Progress;
    match Judge(p, m)
    case Stale =>
    case Early =>
      CacheOk(cfg, sent, ests, p, m);
    case Unjustified =>
      TakeCachedOk(cfg, sent, ests, p, p.round);
      CacheOk(cfg, sent, ests, HandleCachedMsg(p, p.round), m);
    case Invalid =>
      TakeCachedOk(cfg, sent, ests, p, p.round);
    case Accepted =>
      AcceptedOk(cfg, sent, ests, p, m, c);
  }

  lemma AcceptedOk(cfg: Config, sent: set<Msg>, ests: set<Estimate>, p: Node, m: Msg, c: int)
    requires NodeOk(cfg, sent, ests, p) && m.Aux? && Judge(p, m) == Accepted
    requires Entered(p, m, c) <= ests
    ensures NodeOk(cfg, sent, ests, Progress(Ballot(p, m), c)) && Extends(p, Progress(Ballot(p, m), c))
  {
    hide NodeOk, Progress, OutcomeOf;
    BallotOk(cfg, sent, ests, p, m);
    EnteredEstimate(p, m, c);
    hide Ballot, Due, Entered, Judge;
    ProgressOk(cfg, sent, ests, Ballot(p, m), c);
  }

  lemma EnteredEstimate(p: Node, m: Msg, c: int)
    requires m.Aux? && Judge(p, m) == Accepted
    ensures var b := Ballot(p, m);
            b.id == p.id && b.round == p.round && b.binValues == p.binValues && b.n == p.n
            && (Due(b) && b.instancestatus == AUX ==> Estimate(b.id, b.round + 1, OutcomeOf(b, b.round, c).est) in Entered(p, m, c))
  {
    CachedKeeps(p, p.round);
    hide HandleCachedMsg, OutcomeOf, Due;
  }

  lemma NodeOkFlush(cfg: Config, sent: set<Msg>, ests: set<Estimate>, p: Node)
    requires NodeOk(cfg, sent, ests, p)
    ensures NodeOk(cfg, sent, ests, Flush(p))
  {
  }

  lemma TodoKnownMono(cfg: Config, sent: set<Msg>, sent': set<Msg>, todo: multiset<Msg>)
    requires TodoKnown(cfg, sent, todo) && sent <= sent'
    ensures TodoKnown(cfg, sent', todo)
  {
  }

  lemma LocalMono(cfg: Config, sent: set<Msg>, ests: set<Estimate>, sent': set<Msg>, ests': set<Estimate>, x: int, k: Slot)
    requires Local(cfg, sent, ests, x, k) && sent <= sent' && ests <= ests'
    ensures Local(cfg, sent', ests', x, k)
  {
  }

  lemma CommitKeepsBv(cfg: Config, s: Sys, x: int, t: Node, es: set<Estimate>, acc: set<Msg>)
    requires BvInv(cfg, s) && x in Correct(cfg) && t.id == x
    requires forall e :: e in es ==> e.node == x
    requires NodeOk(cfg, s.sent, s.ests + es, t)
    requires AuxInBin(t, s.slots[x].accepted + acc)
    ensures BvInv(cfg, Commit(s, x, t, es, acc))
  {
    var s' := Commit(s, x, t, es, acc);
    forall m | m in s'.sent
      ensures Justified(cfg, s'.ests, m)
    {
      assert m in s.sent ==> Justified(cfg, s.ests, m);
      assert m in t.out ==> Justified(cfg, s'.ests, m);
    }
    forall y | y in Correct(cfg)
      ensures Local(cfg, s'.sent, s'.ests, y, s'.slots[y])
    {
      assert Local(cfg, s.sent, s.ests, y, s.slots[y]);
      if y == x {
        NodeOkMono(cfg, s.sent, s'.ests, s'.sent, s'.ests, t);
        NodeOkFlush(cfg, s'.sent, s'.ests, t);
        TodoKnownMono(cfg, s.sent, s'.sent, s.slots[x].todo);
        assert AuxInBin(Flush(t), s'.slots[x].accepted);
        assert TodoKnown(cfg, s'.sent, t.spawned);
      } else {
        LocalMono(cfg, s.sent, s.ests, s'.sent, s'.ests, y, s.slots[y]);
      }
    }
  }

  lemma EnteredBySelf(p: Node, m: Msg, c: int)
    ensures forall e :: e in Entered(p, m, c) ==> e.node == p.id
  {
  }

  lemma HandleKeepsBv(cfg: Config, s: Sys, x: int, m: Msg)
    requires Sound(cfg) && BvInv(cfg, s) && x in Correct(cfg) && Known(cfg, s.sent, m)
    ensures BvInv(cfg, HandleAt(cfg, s, x, m))
  {
    var k := s.slots[x];
    var p := k.node;
    assert Local(cfg, s.sent, s.ests, x, k);
    var c := cfg.coin(p.round);
    var t := HandleABAMsg(p, m, c);
    var es, acc := Entered(p, m, c), Counted(p, m);
    NodeOkMono(cfg, s.sent, s.ests, s.sent, s.ests + es, p);
    forall o | o in s.sent
      ensures Justified(cfg, s.ests + es, o)
    {
      assert Justified(cfg, s.ests, o);
    }
    if m.Bval? {
      HandleBvalOk(cfg, s.sent, s.ests + es, p, m);
    } else {
      HandleAuxOk(cfg, s.sent, s.ests + es, p, m, c);
    }
    HandleAuxvals(p, m, c);
    EnteredBySelf(p, m, c);
    hide NodeOk, BvInv, Local, HandleABAMsg, Entered, Counted, VotesAfter, AuxInBin;
    CountedInBin(p, m, t, k.accepted);
    CommitKeepsBv(cfg, s, x, t, es, acc);
  }

  /** The AUX votes on record after the message m. */
  function VotesAfter(p: Node, m: Msg): map<nat, multiset<int>> {
    if m.Aux? && Judge(p, m) == Accepted then CountIn(p.auxvals, m.round, m.value) else p.auxvals
  }

  lemma HandleAuxvals(p: Node, m: Msg, c: int)
    ensures HandleABAMsg(p, m, c).auxvals == VotesAfter(p, m)
  {
    hide Judge, HandleBval, HandleAux;
    if m.Bval? {
      HandleBvalKeeps(p, m);
    } else {
      HandleAuxAuxvals(p, m, c);
    }
  }

  lemma BallotAuxvals(p: Node, m: Msg)
    ensures Ballot(p, m).auxvals == CountIn(p.auxvals, m.round, m.value)
  {
    CachedKeeps(p, p.round);
    hide HandleCachedMsg, CountIn;
  }

  lemma CacheAuxvals(p: Node, m: Msg)
    ensures CacheMsg(p, m).auxvals == p.auxvals && HandleCachedMsg(p, p.round).auxvals == p.auxvals
    ensures CacheMsg(HandleCachedMsg(p, p.round), m).auxvals == p.auxvals
  {
    CachedKeeps(p, p.round);
    hide HandleCachedMsg, CountIn;
  }

  lemma HandleAuxAuxvals(p: Node, m: Msg, c: int)
    requires m.Aux?
    ensures HandleAux(p, m, c).auxvals == VotesAfter(p, m)
  {
    hide Judge, Ballot, CacheMsg, HandleCachedMsg, CountIn, Progress;
    BallotAuxvals(p, m);
    CacheAuxvals(p, m);
    ProgressAuxvals(Ballot(p, m), c);
    match Judge(p, m)
    case Stale =>
    case Early =>
    case Unjustified =>
    case Invalid =>
    case Accepted =>
  }

  lemma ProgressAuxvals(p: Node, c: int)
    ensures Progress(p, c).auxvals == p.auxvals
  {
    if !Stops(p) && Due(p) {
      var o := OutcomeOf(p, p.round, c);
      DecideRecords(p, o, c);
      AdvanceRecords(DecideIf(p, o), o, c);
      hide OutcomeOf, DecideIf, Advance;
    }
  }

  lemma CountedInBin(p: Node, m: Msg, t: Node, acc: set<Msg>)
    requires Extends(p, t) && AuxInBin(p, acc) && t.auxvals == VotesAfter(p, m)
    ensures AuxInBin(t, acc + Counted(p, m))
  {
    AuxvalsStayInBin(p, m, t);
    hide AuxvalsInBin, VotesAfter;
  }

  lemma AuxvalsStayInBin(p: Node, m: Msg, t: Node)
    requires Extends(p, t) && AuxvalsInBin(p) && t.auxvals == VotesAfter(p, m)
    ensures AuxvalsInBin(t)
  {
    forall r, v | v in BagAt(t.auxvals, r)
      ensures v == BOTTOM || v in SetAt(t.binValues, r)
    {
      if v in BagAt(p.auxvals, r) {
        assert v == BOTTOM || v in SetAt(p.binValues, r);
      } else {
        assert r == m.round && v == m.value;
      }
    }
  }

  lemma SlotKeepsBv(cfg: Config, s: Sys, x: int, k: Slot)
    requires BvInv(cfg, s) && x in Correct(cfg) && Local(cfg, s.sent, s.ests, x, k)
    ensures BvInv(cfg, s.(slots := s.slots[x := k]))
  {
  }

  lemma ProposeKeepsBv(cfg: Config, s: Sys, x: int, input: int)
    requires BvInv(cfg, s) && Enabled(cfg, s, Propose(x, input))
    ensures BvInv(cfg, Next(cfg, s, Propose(x, input)))
  {
    var k := s.slots[x];
    assert Local(cfg, s.sent, s.ests, x, k);
    var es := {Estimate(x, 0, input)};
    var t := StartABAFromRoundZero(k.node, input);
    NodeOkMono(cfg, s.sent, s.ests, s.sent, s.ests + es, k.node);
    ProposeOk(cfg, s.sent, s.ests + es, k.node, input);
    ProposeKeeps(k.node, input);
    hide StartABAFromRoundZero, BvInv, NodeOk;
    CountedInBin(k.node, Bval(x, 0, input, BOTTOM), t, k.accepted);
    CommitKeepsBv(cfg, s, x, t, es, {});
  }

  lemma StepKeepsBv(cfg: Config, s: Sys, e: Event)
    requires Sound(cfg) && BvInv(cfg, s) && Enabled(cfg, s, e)
    ensures BvInv(cfg, Next(cfg, s, e))
  {
    var x := e.x;
    var k := s.slots[x];
    assert Local(cfg, s.sent, s.ests, x, k);
    match e
    case Propose(_, input) =>
      ProposeKeepsBv(cfg, s, x, input);
    case Deliver(_, m) =>
      SlotKeepsBv(cfg, s, x, Take(k, m));
      HandleKeepsBv(cfg, s.(slots := s.slots[x := Take(k, m)]), x, m);
    case Resume(_, m) =>
      assert Known(cfg, s.sent, m);
      SlotKeepsBv(cfg, s, x, PutAway(k, m));
      HandleKeepsBv(cfg, s.(slots := s.slots[x := PutAway(k, m)]), x, m);
    case Inject(_, m) =>
      SlotKeepsBv(cfg, s, x, k.(todo := k.todo + multiset{m}));
  }

  lemma {:induction false} RunKeepsBv(cfg: Config, tr: seq<Sys>, i: nat)
    requires Sound(cfg) && Run(cfg, tr) && i < |tr|
    ensures BvInv(cfg, tr[i])
  {
    if i > 0 {
      hide BvInv, Next;
      RunKeepsBv(cfg, tr, i - 1);
      assert Step(cfg, tr[i - 1], tr[i - 1 + 1]);
      var e :| Enabled(cfg, tr[i - 1], e) && tr[i] == Next(cfg, tr[i - 1], e);
      StepKeepsBv(cfg, tr[i - 1], e);
    }
  }

  /** With at most f Byzantine nodes, in every run: a value in a correct node's bin_values for a
      round is the estimate some correct node entered that round with, and every value a correct node
      has on record as an AUX vote is such a value, and in its bin_values, or is no preference. */
  lemma BvJustification(cfg: Config, tr: seq<Sys>, i: nat, x: int, r: nat, v: int)
    requires Sound(cfg) && Run(cfg, tr) && i < |tr| && x in Correct(cfg)
    ensures |tr[i].slots| == cfg.n
    ensures v in SetAt(tr[i].slots[x].node.binValues, r) ==> Started(tr[i].ests, r, v)
    ensures v in BagAt(tr[i].slots[x].node.auxvals, r) && v != BOTTOM
      ==> v in SetAt(tr[i].slots[x].node.binValues, r) && Started(tr[i].ests, r, v)
    ensures forall e :: e in tr[i].ests ==> e.node in Correct(cfg)
  {
    RunKeepsBv(cfg, tr, i);
    assert Local(cfg, tr[i].sent, tr[i].ests, x, tr[i].slots[x]);
  }
}
