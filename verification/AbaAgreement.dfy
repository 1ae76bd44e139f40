/** Agreement and validity of the binary agreement when no node lies: nodes may stop at any point
    and messages may be lost or arbitrarily late. */
module AbaAgreement {
  import opened Quorum
  import opened Aba
  import opened AbaSystem

  // --------------------------------------------------------- counted votes

  function Round(acc: set<Msg>, r: nat): set<Msg> {
    set m | m in acc && m.round == r
  }

  function With(acc: set<Msg>, r: nat, v: int): set<Msg> {
    set m | m in acc && m.round == r && m.value == v
  }

  function Sources(ms: set<Msg>): set<int> {
    set m | m in ms :: m.src
  }

  /** The counters of a node hold one entry for each vote it accepted. */
  ghost predicate Tally(p: Node, acc: set<Msg>) {
    && (forall r: nat :: SetAt(p.auxnodes, r) == Sources(Round(acc, r)))
    && (forall r: nat, v :: BagAt(p.auxvals, r)[v] == |With(acc, r, v)|)
  }

  // ------------------------------------------------- what a node remembers

  /** The outcome of a round under the common coin. */
  ghost function OutcomeAt(cfg: Config, p: Node, r: nat): Outcome {
    Evaluate(BagAt(p.auxvals, r), BagAt(p.auxmajvals, r), r, cfg.coin(r), if r == 0 then -1 else cfg.coin(r - 1), Q(p.n))
  }

  ghost predicate CoinLog(cfg: Config, p: Node) {
    forall r: nat :: r < p.round ==> IntAt(p.coinr, r) == cfg.coin(r)
  }

  /** How p came to be in round r+1. */
  ghost predicate Passed(cfg: Config, p: Node, r: nat) {
    IntAt(p.maj, r + 1) == OutcomeAt(cfg, p, r).maj && |SetAt(p.auxnodes, r)| >= Q(p.n)
  }

  ghost predicate MajLog(cfg: Config, p: Node) {
    forall r: nat :: r < p.round ==> Passed(cfg, p, r)
  }

  ghost predicate AccOk(sent: set<Msg>, p: Node, acc: set<Msg>) {
    forall m :: m in acc ==> m.Aux? && m in sent && m.round <= p.round
  }

  ghost predicate Supports(cfg: Config, p: Node, r: nat, v: int) {
    r <= p.round && cfg.coin(r) == v && BagAt(p.auxvals, r)[v] >= Q(p.n)
  }

  ghost predicate DecOk(cfg: Config, p: Node) {
    p.finalstatus >= DECIDED ==> Supports(cfg, p, p.decidedround, p.decidedvalue)
  }

  ghost predicate EstOk(cfg: Config, p: Node, e: Estimate) {
    && (e.value == 0 || e.value == 1)
    && (e.round > 0 ==> e.round <= p.round && e.value == OutcomeAt(cfg, p, e.round - 1).est)
  }

  ghost predicate EstLog(cfg: Config, ests: set<Estimate>, p: Node) {
    forall e :: e in ests && e.node == p.id ==> EstOk(cfg, p, e)
  }

  ghost predicate Hist(cfg: Config, sent: set<Msg>, ests: set<Estimate>, p: Node, acc: set<Msg>) {
    && CoinLog(cfg, p) && MajLog(cfg, p) && Tally(p, acc) && AccOk(sent, p, acc) && DecOk(cfg, p) && EstLog(cfg, ests, p)
  }

  // ------------------------------------------------------- what it has sent

  /** No preference was voted for a reason: a BVAL with a majority that stands in the way. */
  ghost predicate Excuse(c: int, w: int, r: nat, b: Msg) {
    b.Bval? && b.round == r && ((w == c && b.maj == 1 - c) || (w == 1 - c && (b.maj == c || b.maj == BOTTOM)))
  }

  ghost predicate Excused(cfg: Config, sent: set<Msg>, m: Msg) {
    m.round > 0 && exists b :: b in sent && Excuse(cfg.coin(m.round - 1), m.maj, m.round, b)
  }

  ghost predicate MsgGood(cfg: Config, sent: set<Msg>, ests: set<Estimate>, m: Msg) {
    match m
    case Bval(_, _, v, _) => v == 0 || v == 1
    case Aux(_, r, v, w) =>
      (w == 0 || w == 1) && Started(ests, r, w) && (v == w || (v == BOTTOM && Excused(cfg, sent, m)))
  }

  /** The sender's state accounts for the message. */
  ghost predicate MsgOwn(p: Node, m: Msg) {
    match m
    case Bval(_, r, _, mj) => r > 0 ==> r <= p.round && mj == IntAt(p.maj, r)
    case Aux(_, r, _, _) => r < p.round || (r == p.round && p.instancestatus == AUX)
  }

  ghost predicate MajsHeard(sent: set<Msg>, p: Node) {
    forall r, mj :: mj in SetAt(p.majs, r) ==> MajHeard(sent, r, mj)
  }

  ghost predicate MajHeard(sent: set<Msg>, r: nat, mj: int) {
    exists b: Msg :: b in sent && b.Bval? && b.round == r && b.maj == mj
  }

  /** The messages of node p, sent before or during the current event. */
  function Mine(sent: set<Msg>, p: Node): set<Msg> {
    (set m | m in sent && m.src == p.id) + Outgoing(p)
  }

  ghost predicate OneAuxPerRound(ms: set<Msg>) {
    forall a, b :: a in ms && b in ms && a.Aux? && b.Aux? && a.src == b.src && a.round == b.round ==> a == b
  }

  ghost predicate Mail(cfg: Config, sent: set<Msg>, ests: set<Estimate>, p: Node) {
    && (p.instancestatus == READY || p.instancestatus == AUX)
    && MajsHeard(sent, p)
    && OneAuxPerRound(Mine(sent, p))
    && (forall m :: m in Mine(sent, p) ==> m.src == p.id && MsgOwn(p, m))
    && (forall m :: m in p.out ==> MsgGood(cfg, sent, ests, m))
  }

  // --------------------------------------------- each vote is counted once

  ghost function Held(p: Node, m: Msg): int {
    BagAt(p.cachedMsg, m.round)[m] + p.spawned[m]
  }

  ghost function Pending(k: Slot, m: Msg): int {
    k.todo[m] + Held(k.node, m) + (if m in k.accepted then 1 else 0)
  }

  ghost predicate Once(k: Slot) {
    forall m: Msg :: m.Aux? ==> Pending(k, m) <= if m in k.taken then 1 else 0
  }

  // ---------------------------------------------------------- the invariant

  ghost predicate LocalOk(cfg: Config, sent: set<Msg>, ests: set<Estimate>, k: Slot) {
    && Hist(cfg, sent, ests, k.node, k.accepted)
    && Mail(cfg, sent, ests, k.node)
    && Once(k)
  }

  ghost predicate CrashInv(cfg: Config, s: Sys) {
    && BvInv(cfg, s)
    && (forall m :: m in s.sent ==> MsgGood(cfg, s.sent, s.ests, m))
    && (forall x :: x in Correct(cfg) ==> LocalOk(cfg, s.sent, s.ests, s.slots[x]))
  }

  // ------------------------------------------- preservation: the history

  lemma OutcomeFromLog(cfg: Config, p: Node)
    requires CoinLog(cfg, p)
    ensures OutcomeOf(p, p.round, cfg.coin(p.round)) == OutcomeAt(cfg, p, p.round)
  {
  }

  /** Nothing but these fields matters to Hist. */
  lemma SameHist(cfg: Config, sent: set<Msg>, ests: set<Estimate>, p: Node, t: Node, acc: set<Msg>)
    requires Hist(cfg, sent, ests, p, acc)
    requires t.id == p.id && t.n == p.n && t.round == p.round && t.coinr == p.coinr
    requires forall r: nat :: r > 0 ==> IntAt(t.maj, r) == IntAt(p.maj, r)
    requires t.auxvals == p.auxvals && t.auxmajvals == p.auxmajvals && t.auxnodes == p.auxnodes
    requires DecOk(cfg, t)
    ensures Hist(cfg, sent, ests, t, acc)
  {
    assert CoinLog(cfg, t);
    forall r: nat | r < t.round
      ensures Passed(cfg, t, r)
    {
      assert Passed(cfg, p, r);
    }
    forall e | e in ests && e.node == t.id
      ensures EstOk(cfg, t, e)
    {
      assert EstOk(cfg, p, e);
    }
    assert Tally(t, acc);
  }

  lemma HistMono(cfg: Config, sent: set<Msg>, ests: set<Estimate>, sent': set<Msg>, ests': set<Estimate>, p: Node, acc: set<Msg>)
    requires Hist(cfg, sent, ests, p, acc) && sent <= sent' && ests <= ests'
    requires forall e :: e in ests' - ests && e.node == p.id ==> EstOk(cfg, p, e)
    ensures Hist(cfg, sent', ests', p, acc)
  {
  }

  lemma RoundAdd(acc: set<Msg>, m: Msg, r: nat)
    ensures Round(acc + {m}, r) == if r == m.round then Round(acc, r) + {m} else Round(acc, r)
  {
  }

  lemma WithAdd(acc: set<Msg>, m: Msg, r: nat, v: int)
    ensures With(acc + {m}, r, v) == if r == m.round && v == m.value then With(acc, r, v) + {m} else With(acc, r, v)
  {
  }

  lemma SourcesAdd(ms: set<Msg>, m: Msg)
    ensures Sources(ms + {m}) == Sources(ms) + {m.src}
  {
  }

  lemma TallyAfter(p: Node, t: Node, acc: set<Msg>, m: Msg)
    requires Tally(p, acc) && m !in acc
    requires t.auxvals == CountIn(p.auxvals, m.round, m.value) && t.auxnodes == AddTo(p.auxnodes, m.round, m.src)
    ensures Tally(t, acc + {m})
  {
    forall r: nat
      ensures SetAt(t.auxnodes, r) == Sources(Round(acc + {m}, r))
    {
      assert SetAt(p.auxnodes, r) == Sources(Round(acc, r));
      RoundAdd(acc, m, r);
      SourcesAdd(Round(acc, r), m);
    }
    forall r: nat, v
      ensures BagAt(t.auxvals, r)[v] == |With(acc + {m}, r, v)|
    {
      assert BagAt(p.auxvals, r)[v] == |With(acc, r, v)|;
      WithAdd(acc, m, r, v);
    }
  }

  /** Votes of the current round do not touch what is remembered of earlier rounds. */
  lemma RecordElsewhere(cfg: Config, p: Node, m: Msg, r: nat)
    requires r != m.round
    ensures var t := RecordAux(p, m);
            OutcomeAt(cfg, t, r) == OutcomeAt(cfg, p, r) && SetAt(t.auxnodes, r) == SetAt(p.auxnodes, r)
            && t.maj == p.maj && t.n == p.n && t.id == p.id && t.round == p.round && t.coinr == p.coinr
  {
  }

  lemma RecordMajLog(cfg: Config, p: Node, m: Msg)
    requires MajLog(cfg, p) && m.round == p.round
    ensures MajLog(cfg, RecordAux(p, m))
  {
    var t := RecordAux(p, m);
    hide OutcomeAt;
    forall r: nat | r < t.round
      ensures Passed(cfg, t, r)
    {
      RecordElsewhere(cfg, p, m, r);
      assert Passed(cfg, p, r);
    }
  }

  lemma RecordEstLog(cfg: Config, ests: set<Estimate>, p: Node, m: Msg)
    requires EstLog(cfg, ests, p) && m.round == p.round
    ensures EstLog(cfg, ests, RecordAux(p, m))
  {
  }

  lemma RecordHist(cfg: Config, sent: set<Msg>, ests: set<Estimate>, p: Node, acc: set<Msg>, m: Msg)
    requires Hist(cfg, sent, ests, p, acc) && m.Aux? && m in sent && m !in acc && m.round == p.round
    ensures Hist(cfg, sent, ests, RecordAux(p, m), acc + {m})
  {
    var t := RecordAux(p, m);
    TallyAfter(p, t, acc, m);
    RecordMajLog(cfg, p, m);
    RecordEstLog(cfg, ests, p, m);
    hide MajLog, EstLog, Tally;
    assert CoinLog(cfg, t);
    if t.finalstatus >= DECIDED {
      RecordSupports(cfg, p, m, p.decidedround, p.decidedvalue);
    }
  }

  lemma RecordSupports(cfg: Config, p: Node, m: Msg, r: nat, v: int)
    requires Supports(cfg, p, r, v)
    ensures Supports(cfg, RecordAux(p, m), r, v)
  {
  }

  lemma VoteValues(cfg: Config, sent: set<Msg>, ests: set<Estimate>, p: Node, acc: set<Msg>, v: int)
    requires Hist(cfg, sent, ests, p, acc)
    requires forall m :: m in sent ==> MsgGood(cfg, sent, ests, m)
    requires v in BagAt(p.auxvals, p.round)
    ensures v == 0 || v == 1 || v == BOTTOM
    ensures exists m :: m in Round(acc, p.round) && m.value == v
  {
  }

  lemma SourcesCard(ms: set<Msg>)
    ensures |Sources(ms)| <= |ms|
  {
    if ms != {} {
      var m :| m in ms;
      SourcesCard(ms - {m});
      assert Sources(ms) == Sources(ms - {m}) + {m.src};
    }
  }

  /** With a quorum of voters of a single kind, that kind has a quorum of votes. */
  lemma OneKindHasQuorum(cfg: Config, sent: set<Msg>, ests: set<Estimate>, p: Node, acc: set<Msg>, v: int)
    requires Hist(cfg, sent, ests, p, acc)
    requires |SetAt(p.auxnodes, p.round)| >= Q(p.n)
    requires forall m :: m in Round(acc, p.round) ==> m.value == v
    ensures BagAt(p.auxvals, p.round)[v] >= Q(p.n)
  {
    assert With(acc, p.round, v) == Round(acc, p.round);
    SourcesCard(Round(acc, p.round));
    assert SetAt(p.auxnodes, p.round) == Sources(Round(acc, p.round));
    assert BagAt(p.auxvals, p.round)[v] == |With(acc, p.round, v)|;
  }

  /** What the evaluation of a round yields: a binary estimate, decided only with a quorum of votes
      for it and the coin on its side. */
  lemma OneKind(cfg: Config, sent: set<Msg>, ests: set<Estimate>, p: Node, acc: set<Msg>, v: int)
    requires Hist(cfg, sent, ests, p, acc)
    requires var kinds := Kinds(BagAt(p.auxvals, p.round)); |kinds| == 1 && v in kinds
    ensures forall m :: m in Round(acc, p.round) ==> m.value == v
  {
    var vals := BagAt(p.auxvals, p.round);
    forall m | m in Round(acc, p.round)
      ensures m.value == v
    {
      assert m in With(acc, p.round, m.value);
      assert vals[m.value] == |With(acc, p.round, m.value)| > 0;
      SingleKind(Kinds(vals), m.value, v);
    }
  }

  lemma OutcomeSound(cfg: Config, sent: set<Msg>, ests: set<Estimate>, p: Node, acc: set<Msg>)
    requires Sound(cfg) && Hist(cfg, sent, ests, p, acc)
    requires forall m :: m in sent ==> MsgGood(cfg, sent, ests, m)
    requires |SetAt(p.auxnodes, p.round)| >= Q(p.n)
    ensures var o := OutcomeAt(cfg, p, p.round);
            (o.est == 0 || o.est == 1) && (o.decide ==> Supports(cfg, p, p.round, o.est))
  {
    var vals := BagAt(p.auxvals, p.round);
    hide Hist, MsgGood, Round, With;
    var kinds := Kinds(vals);
    if |kinds| == 1 {
      assert kinds != {};
      var v :| v in kinds;
      assert Any(kinds) in kinds;
      SingleKind(kinds, v, Any(kinds));
      VoteValues(cfg, sent, ests, p, acc, v);
      OneKind(cfg, sent, ests, p, acc, v);
      OneKindHasQuorum(cfg, sent, ests, p, acc, v);
    }
  }

  lemma AdvanceHist(cfg: Config, sent: set<Msg>, ests: set<Estimate>, p: Node, acc: set<Msg>)
    requires Hist(cfg, sent, ests, p, acc)
    requires |SetAt(p.auxnodes, p.round)| >= Q(p.n)
    ensures Hist(cfg, sent, ests, EnterRound(p, OutcomeAt(cfg, p, p.round).maj, cfg.coin(p.round)), acc)
  {
    var o := OutcomeAt(cfg, p, p.round);
    var t := EnterRound(p, o.maj, cfg.coin(p.round));
    assert t.auxvals == p.auxvals && t.auxmajvals == p.auxmajvals && t.auxnodes == p.auxnodes;
    forall r: nat | r < t.round
      ensures IntAt(t.coinr, r) == cfg.coin(r)
    {
      assert r < p.round ==> IntAt(p.coinr, r) == cfg.coin(r);
    }
    forall r: nat | r < t.round
      ensures Passed(cfg, t, r)
    {
      assert OutcomeAt(cfg, t, r) == OutcomeAt(cfg, p, r);
      assert r < p.round ==> Passed(cfg, p, r);
    }
    forall e | e in ests && e.node == t.id
      ensures EstOk(cfg, t, e)
    {
      assert EstOk(cfg, p, e);
    }
    assert Tally(t, acc);
    if t.finalstatus >= DECIDED {
      assert Supports(cfg, p, p.decidedround, p.decidedvalue);
    }
  }

  lemma StartHist(cfg: Config, sent: set<Msg>, ests: set<Estimate>, p: Node, acc: set<Msg>, input: int)
    requires Hist(cfg, sent, ests, p, acc)
    ensures Hist(cfg, sent, ests, StartABA(p, input), acc)
  {
    StartKeeps(p, input);
    SameHist(cfg, sent, ests, p, StartABA(p, input), acc);
  }

  lemma ConcludeHist(cfg: Config, sent: set<Msg>, ests: set<Estimate>, p: Node, acc: set<Msg>)
    requires Sound(cfg) && Hist(cfg, sent, ests, p, acc)
    requires forall m :: m in sent ==> MsgGood(cfg, sent, ests, m)
    requires |SetAt(p.auxnodes, p.round)| >= Q(p.n)
    ensures Hist(cfg, sent, ests, Conclude(p, OutcomeAt(cfg, p, p.round), cfg.coin(p.round)), acc)
  {
    var o, c := OutcomeAt(cfg, p, p.round), cfg.coin(p.round);
    var t := DecideIf(p, o);
    OutcomeSound(cfg, sent, ests, p, acc);
    DecideRecords(p, o, c);
    assert DecOk(cfg, t) by {
      if o.decide {
        assert Supports(cfg, t, p.round, o.est);
      }
    }
    if o.decide {
      SameHist(cfg, sent, ests, p, t, acc);
    }
    if t.instancestatus == AUX {
      AdvanceHist(cfg, sent, ests, t, acc);
      var u := EnterRound(t, o.maj, c);
      StartHist(cfg, sent, ests, u, acc, o.est);
      var w := StartABA(u, o.est);
      SameHist(cfg, sent, ests, w, w.(instancestatus := READY), acc);
    }
  }

  lemma ProgressHist(cfg: Config, sent: set<Msg>, ests: set<Estimate>, p: Node, acc: set<Msg>)
    requires Sound(cfg) && Hist(cfg, sent, ests, p, acc)
    requires forall m :: m in sent ==> MsgGood(cfg, sent, ests, m)
    ensures Hist(cfg, sent, ests, Progress(p, cfg.coin(p.round)), acc)
  {
    if Stops(p) {
      SameHist(cfg, sent, ests, p, p.(finalstatus := TERMINATE), acc);
    } else if Due(p) {
      OutcomeFromLog(cfg, p);
      ConcludeHist(cfg, sent, ests, p, acc);
    }
  }

  lemma BallotHist(cfg: Config, sent: set<Msg>, ests: set<Estimate>, p: Node, acc: set<Msg>, m: Msg)
    requires Hist(cfg, sent, ests, p, acc) && m.Aux? && m in sent && m !in acc && m.round == p.round
    ensures Hist(cfg, sent, ests, Ballot(p, m), acc + {m})
    ensures Ballot(p, m).round == p.round && Ballot(p, m).id == p.id
  {
    CachedKeeps(p, p.round);
    var a := HandleCachedMsg(p, p.round);
    SameHist(cfg, sent, ests, p, a, acc);
    RecordHist(cfg, sent, ests, a, acc, m);
  }

  lemma CacheHist(cfg: Config, sent: set<Msg>, ests: set<Estimate>, p: Node, acc: set<Msg>, m: Msg)
    requires Hist(cfg, sent, ests, p, acc)
    ensures Hist(cfg, sent, ests, CacheMsg(p, m), acc)
  {
    SameHist(cfg, sent, ests, p, CacheMsg(p, m), acc);
  }

  lemma CachedHist(cfg: Config, sent: set<Msg>, ests: set<Estimate>, p: Node, acc: set<Msg>)
    requires Hist(cfg, sent, ests, p, acc)
    ensures Hist(cfg, sent, ests, HandleCachedMsg(p, p.round), acc)
  {
    CachedKeeps(p, p.round);
    SameHist(cfg, sent, ests, p, HandleCachedMsg(p, p.round), acc);
  }

  lemma RejectHist(cfg: Config, sent: set<Msg>, ests: set<Estimate>, p: Node, acc: set<Msg>, m: Msg, c: int)
    requires Hist(cfg, sent, ests, p, acc) && Judge(p, m) != Accepted
    ensures Hist(cfg, sent, ests, HandleAux(p, m, c), acc)
  {
    hide Hist;
    match Judge(p, m)
    case Stale =>
    case Early => CacheHist(cfg, sent, ests, p, acc, m);
    case Unjustified =>
      CachedHist(cfg, sent, ests, p, acc);
      CacheHist(cfg, sent, ests, HandleCachedMsg(p, p.round), acc, m);
    case Invalid => CachedHist(cfg, sent, ests, p, acc);
  }

  lemma HandleBvalHist(cfg: Config, sent: set<Msg>, ests: set<Estimate>, p: Node, acc: set<Msg>, m: Msg)
    requires Hist(cfg, sent, ests, p, acc)
    ensures Hist(cfg, sent, ests, HandleBval(p, m), acc)
  {
    HandleBvalKeeps(p, m);
    SameHist(cfg, sent, ests, p, HandleBval(p, m), acc);
  }

  lemma ProposeHist(cfg: Config, sent: set<Msg>, ests: set<Estimate>, p: Node, acc: set<Msg>, input: int)
    requires Hist(cfg, sent, ests, p, acc)
    ensures Hist(cfg, sent, ests, StartABAFromRoundZero(p, input), acc)
  {
    ProposeKeeps(p, input);
    SameHist(cfg, sent, ests, p, StartABAFromRoundZero(p, input), acc);
  }

  // ------------------------------------------ preservation: the messages

  /** Nothing but these fields matters to Mail. */
  lemma SameMail(cfg: Config, sent: set<Msg>, ests: set<Estimate>, p: Node, t: Node)
    requires Mail(cfg, sent, ests, p)
    requires t.id == p.id && t.round == p.round && t.instancestatus == p.instancestatus
    requires t.majs == p.majs && t.out == p.out
    requires forall r: nat :: r > 0 ==> IntAt(t.maj, r) == IntAt(p.maj, r)
    ensures Mail(cfg, sent, ests, t)
  {
  }

  lemma MailMono(cfg: Config, sent: set<Msg>, ests: set<Estimate>, sent': set<Msg>, ests': set<Estimate>, p: Node)
    requires Mail(cfg, sent, ests, p) && sent <= sent' && ests <= ests'
    requires forall m :: m in sent' - sent ==> m.src != p.id || m in p.out
    ensures Mail(cfg, sent', ests', p)
  {
  }

  lemma MsgGoodMono(cfg: Config, sent: set<Msg>, ests: set<Estimate>, sent': set<Msg>, ests': set<Estimate>, m: Msg)
    requires MsgGood(cfg, sent, ests, m) && sent <= sent' && ests <= ests'
    ensures MsgGood(cfg, sent', ests', m)
  {
  }

  lemma SendMail(cfg: Config, sent: set<Msg>, ests: set<Estimate>, p: Node, m: Msg)
    requires Mail(cfg, sent, ests, p) && m.src == p.id && MsgOwn(p, m) && MsgGood(cfg, sent, ests, m)
    requires m.Aux? ==> forall a :: a in Mine(sent, p) && a.Aux? ==> a.round != m.round
    ensures Mail(cfg, sent, ests, Send(p, m))
  {
  }

  lemma RecordBvalMail(cfg: Config, sent: set<Msg>, ests: set<Estimate>, p: Node, m: Msg)
    requires Mail(cfg, sent, ests, p) && m.Bval? && m in sent
    ensures Mail(cfg, sent, ests, RecordBval(p, m))
  {
  }

  /** A vote without preference has its excuse in what the node heard. */
  lemma VoteGood(cfg: Config, sent: set<Msg>, ests: set<Estimate>, p: Node, v: int)
    requires Sound(cfg) && CoinLog(cfg, p) && MajsHeard(sent, p)
    requires (v == 0 || v == 1) && Started(ests, p.round, v)
    ensures MsgGood(cfg, sent, ests, Aux(p.id, p.round, if Commits(p, p.round, v) then v else BOTTOM, v))
  {
  }

  lemma SendAuxMail(cfg: Config, sent: set<Msg>, ests: set<Estimate>, p: Node, v: int)
    requires Sound(cfg) && Mail(cfg, sent, ests, p) && CoinLog(cfg, p) && p.instancestatus == READY
    requires (v == 0 || v == 1) && Started(ests, p.round, v)
    ensures Mail(cfg, sent, ests, SendAux(p.(instancestatus := AUX), p.round, v))
  {
    var r := p.round;
    var u := p.(instancestatus := AUX);
    forall m | m in Mine(sent, p)
      ensures MsgOwn(u, m) && (m.Aux? ==> m.round != r)
    {
      assert MsgOwn(p, m);
    }
    assert Mine(sent, u) == Mine(sent, p);
    assert MajsHeard(sent, u);
    assert Mail(cfg, sent, ests, u);
    assert CoinLog(cfg, u);
    VoteGood(cfg, sent, ests, u, v);
    if Commits(u, r, v) {
      SameMail(cfg, sent, ests, u, u.(delta := u.delta[r := v]));
      SendMail(cfg, sent, ests, u.(delta := u.delta[r := v]), Aux(u.id, r, v, v));
    } else {
      SendMail(cfg, sent, ests, u, Aux(u.id, r, BOTTOM, v));
    }
  }

  lemma ProceedMail(cfg: Config, sent: set<Msg>, ests: set<Estimate>, p: Node, r: nat, v: int)
    requires Sound(cfg) && Mail(cfg, sent, ests, p) && CoinLog(cfg, p)
    requires (v == 0 || v == 1) && Started(ests, r, v)
    ensures Mail(cfg, sent, ests, ProceedToAux(p, r, v))
  {
    var t := p.(binValues := AddTo(p.binValues, r, v));
    SameMail(cfg, sent, ests, p, t);
    assert CoinLog(cfg, t);
    if t.round == r && t.instancestatus < AUX {
      SendAuxMail(cfg, sent, ests, t, v);
      assert ProceedToAux(p, r, v) == SendAux(t.(instancestatus := AUX), r, v);
    } else {
      assert ProceedToAux(p, r, v) == t;
    }
  }

  lemma SendBvalMail(cfg: Config, sent: set<Msg>, ests: set<Estimate>, p: Node, v: int)
    requires Mail(cfg, sent, ests, p) && (v == 0 || v == 1)
    ensures Mail(cfg, sent, ests, SendBval(p, p.round, v))
  {
    var r := p.round;
    if v !in SetAt(p.bvals, r) {
      var u := p.(bvals := AddTo(p.bvals, r, v));
      SameMail(cfg, sent, ests, p, u);
      SendMail(cfg, sent, ests, u, Bval(p.id, r, v, IntAt(p.maj, r)));
    }
  }

  lemma RelayMail(cfg: Config, sent: set<Msg>, ests: set<Estimate>, p: Node, m: Msg)
    requires Mail(cfg, sent, ests, p) && m.round == p.round
    requires Len(p.bvalMap, (m.round, m.value)) >= SQ(p.n) ==> m.value == 0 || m.value == 1
    ensures Mail(cfg, sent, ests, RelayBval(p, m))
  {
    if Len(p.bvalMap, (m.round, m.value)) >= SQ(p.n) {
      SendBvalMail(cfg, sent, ests, p, m.value);
      var t := SendBval(p, m.round, m.value);
      SameMail(cfg, sent, ests, t, t.(binValues := AddTo(t.binValues, m.round, m.value)));
    }
  }

  lemma HandleBvalMail(cfg: Config, sent: set<Msg>, ests: set<Estimate>, p: Node, m: Msg)
    requires Sound(cfg) && Mail(cfg, sent, ests, p) && CoinLog(cfg, p) && NodeOk(cfg, sent, ests, p)
    requires m.Bval? && m in sent
    requires forall o :: o in sent ==> Justified(cfg, ests, o)
    ensures Mail(cfg, sent, ests, HandleBval(p, m))
  {
    if m.round > p.round {
      SameMail(cfg, sent, ests, p, CacheMsg(p, m));
    } else if m.round == p.round {
      var key := (m.round, m.value);
      var a := HandleCachedMsg(p, p.round);
      CachedKeeps(p, p.round);
      SameMail(cfg, sent, ests, p, a);
      TakeCachedOk(cfg, sent, ests, p, p.round);
      RecordBvalMail(cfg, sent, ests, a, m);
      RecordBvalOk(cfg, sent, ests, a, m);
      var b := RecordBval(a, m);
      if Len(b.bvalMap, key) >= SQ(p.n) {
        SmallQuorumStarted(cfg, sent, ests, b, m.round, m.value);
      }
      RelayMail(cfg, sent, ests, b, m);
      var t := RelayBval(b, m);
      RelayKeeps(b, m);
      assert CoinLog(cfg, t);
      if Len(t.bvalMap, key) >= Q(p.n) {
        QuorumArithmetic(cfg.n);
        ProceedMail(cfg, sent, ests, t, m.round, m.value);
      }
    }
  }

  lemma ProposeMail(cfg: Config, sent: set<Msg>, ests: set<Estimate>, p: Node, input: int)
    requires Sound(cfg) && Mail(cfg, sent, ests, p) && CoinLog(cfg, p)
    requires (input == 0 || input == 1) && Estimate(p.id, 0, input) in ests
    ensures Mail(cfg, sent, ests, StartABAFromRoundZero(p, input))
  {
    CachedKeeps(p, 0);
    var a := HandleCachedMsg(p, 0);
    var u := a.(bvals := AddTo(a.bvals, 0, input), maj := a.maj[0 := BOTTOM]);
    SameMail(cfg, sent, ests, p, u);
    SendMail(cfg, sent, ests, u, Bval(u.id, 0, input, BOTTOM));
    var w := SendProposal(a, input);
    if input == 1 {
      var z := w.(binValues := AddTo(w.binValues, 0, 1));
      SameMail(cfg, sent, ests, w, z);
      assert CoinLog(cfg, z);
      assert Started(ests, 0, 1);
      ProceedMail(cfg, sent, ests, z, 0, 1);
    }
  }

  /** Leaving a round: the node is ready again, one round further, before it announces itself. */
  lemma EnterMail(cfg: Config, sent: set<Msg>, ests: set<Estimate>, p: Node, majr: int, c: int)
    requires Mail(cfg, sent, ests, p)
    ensures Mail(cfg, sent, ests, EnterRound(p, majr, c).(instancestatus := READY))
  {
  }

  lemma AdvanceMail(cfg: Config, sent: set<Msg>, ests: set<Estimate>, p: Node, o: Outcome, c: int)
    requires Mail(cfg, sent, ests, p) && (o.est == 0 || o.est == 1)
    ensures Mail(cfg, sent, ests, Advance(p, o, c))
  {
    EnterMail(cfg, sent, ests, p, o.maj, c);
    var e := EnterRound(p, o.maj, c);
    var r := e.round;
    CachedKeeps(e, r);
    var h := HandleCachedMsg(e, r);
    var u := h.(bvals := AddTo(h.bvals, r, o.est), instancestatus := READY);
    SameMail(cfg, sent, ests, e.(instancestatus := READY), u);
    SendMail(cfg, sent, ests, u, Bval(u.id, r, o.est, IntAt(u.maj, r)));
    assert Advance(p, o, c) == Send(u, Bval(u.id, r, o.est, IntAt(u.maj, r)));
  }

  lemma ProgressMail(cfg: Config, sent: set<Msg>, ests: set<Estimate>, p: Node, acc: set<Msg>)
    requires Sound(cfg) && Mail(cfg, sent, ests, p) && Hist(cfg, sent, ests, p, acc)
    requires forall m :: m in sent ==> MsgGood(cfg, sent, ests, m)
    ensures Mail(cfg, sent, ests, Progress(p, cfg.coin(p.round)))
  {
    hide Mail, Advance, OutcomeOf;
    var c := cfg.coin(p.round);
    if Stops(p) {
      SameMail(cfg, sent, ests, p, p.(finalstatus := TERMINATE));
    } else if Due(p) {
      OutcomeFromLog(cfg, p);
      OutcomeSound(cfg, sent, ests, p, acc);
      var o := OutcomeOf(p, p.round, c);
      var t := DecideIf(p, o);
      if o.decide {
        SameMail(cfg, sent, ests, p, t);
      }
      if t.instancestatus == AUX {
        AdvanceMail(cfg, sent, ests, t, o, c);
      }
    }
  }

  lemma BallotMail(cfg: Config, sent: set<Msg>, ests: set<Estimate>, p: Node, m: Msg)
    requires Mail(cfg, sent, ests, p)
    ensures Mail(cfg, sent, ests, Ballot(p, m))
  {
    CachedKeeps(p, p.round);
    SameMail(cfg, sent, ests, p, Ballot(p, m));
  }

  lemma RejectMail(cfg: Config, sent: set<Msg>, ests: set<Estimate>, p: Node, m: Msg, c: int)
    requires Mail(cfg, sent, ests, p) && Judge(p, m) != Accepted
    ensures Mail(cfg, sent, ests, HandleAux(p, m, c))
  {
    hide Mail;
    var a := HandleCachedMsg(p, p.round);
    CachedKeeps(p, p.round);
    SameMail(cfg, sent, ests, p, a);
    match Judge(p, m)
    case Stale =>
    case Early => SameMail(cfg, sent, ests, p, CacheMsg(p, m));
    case Unjustified => SameMail(cfg, sent, ests, a, CacheMsg(a, m));
    case Invalid =>
  }

  // ---------------------------------------- preservation: counted once

  lemma CachedHeld(cfg: Config, sent: set<Msg>, p: Node, r: nat, o: Msg)
    requires CacheKnown(cfg, sent, p)
    ensures Held(HandleCachedMsg(p, r), o) == Held(p, o)
  {
  }

  lemma CacheHeld(p: Node, m: Msg, o: Msg)
    ensures Held(CacheMsg(p, m), o) == Held(p, o) + if o == m then 1 else 0
  {
  }

  ghost predicate SameCache(p: Node, t: Node) {
    t.cachedMsg == p.cachedMsg && t.spawned == p.spawned
  }

  lemma SameCacheHeld(p: Node, t: Node, o: Msg)
    requires SameCache(p, t)
    ensures Held(t, o) == Held(p, o)
  {
  }

  lemma HandleBvalCache(p: Node, m: Msg)
    requires m.round == p.round
    ensures SameCache(HandleCachedMsg(p, p.round), HandleBval(p, m))
  {
    var a := HandleCachedMsg(p, p.round);
    var b := RecordBval(a, m);
    assert SameCache(a, b);
    var r := RelayBval(b, m);
    RelayKeeps(b, m);
    assert SameCache(b, r);
    if Len(r.bvalMap, (m.round, m.value)) >= Q(p.n) {
      ProceedKeeps(r, m.round, m.value);
      assert SameCache(r, HandleBval(p, m));
    } else {
      assert SameCache(r, HandleBval(p, m));
    }
  }

  lemma HandleBvalHeld(cfg: Config, sent: set<Msg>, p: Node, m: Msg, o: Msg)
    requires CacheKnown(cfg, sent, p) && m.Bval? && o.Aux?
    ensures Held(HandleBval(p, m), o) == Held(p, o)
  {
    if m.round > p.round {
      CacheHeld(p, m, o);
    } else if m.round == p.round {
      CachedHeld(cfg, sent, p, p.round, o);
      HandleBvalCache(p, m);
      SameCacheHeld(HandleCachedMsg(p, p.round), HandleBval(p, m), o);
    }
  }

  lemma ProposeCache(p: Node, input: int)
    ensures SameCache(HandleCachedMsg(p, 0), StartABAFromRoundZero(p, input))
  {
    var a := HandleCachedMsg(p, 0);
    var w := SendProposal(a, input);
    assert SameCache(a, w);
    if input == 1 {
      var z := w.(binValues := AddTo(w.binValues, 0, 1));
      ProceedKeeps(z, 0, 1);
      assert SameCache(z, ProceedToAux(z, 0, 1));
    } else {
      assert SameCache(a, StartABAFromRoundZero(p, input));
    }
  }

  lemma ProposeHeld(cfg: Config, sent: set<Msg>, p: Node, input: int, o: Msg)
    requires CacheKnown(cfg, sent, p)
    ensures Held(StartABAFromRoundZero(p, input), o) == Held(p, o)
  {
    CachedHeld(cfg, sent, p, 0, o);
    ProposeCache(p, input);
    SameCacheHeld(HandleCachedMsg(p, 0), StartABAFromRoundZero(p, input), o);
  }

  lemma AdvanceHeld(cfg: Config, sent: set<Msg>, p: Node, d: Outcome, c: int, o: Msg)
    requires CacheKnown(cfg, sent, p)
    ensures Held(Advance(p, d, c), o) == Held(p, o)
  {
    var u := EnterRound(p, d.maj, c);
    assert CacheKnown(cfg, sent, u);
    SameCacheHeld(p, u, o);
    CachedHeld(cfg, sent, u, u.round, o);
    var h := HandleCachedMsg(u, u.round);
    if u.round == 0 {
    } else {
      assert SameCache(h, Advance(p, d, c));
      SameCacheHeld(h, Advance(p, d, c), o);
    }
  }

  lemma ProgressHeld(cfg: Config, sent: set<Msg>, p: Node, c: int, o: Msg)
    requires CacheKnown(cfg, sent, p)
    ensures Held(Progress(p, c), o) == Held(p, o)
  {
    hide OutcomeOf;
    if Stops(p) {
      SameCacheHeld(p, p.(finalstatus := TERMINATE), o);
    } else if Due(p) {
      var d := OutcomeOf(p, p.round, c);
      var t := DecideIf(p, d);
      assert SameCache(p, t);
      SameCacheHeld(p, t, o);
      assert CacheKnown(cfg, sent, t);
      if t.instancestatus == AUX {
        AdvanceHeld(cfg, sent, t, d, c, o);
      }
    } else {
    }
  }

  lemma HandleAuxHeld(cfg: Config, sent: set<Msg>, ests: set<Estimate>, p: Node, m: Msg, c: int, o: Msg)
    requires NodeOk(cfg, sent, ests, p) && m.Aux?
    ensures Held(HandleAux(p, m, c), o) <= Held(p, o) + if o == m && Judge(p, m) != Accepted then 1 else 0
  {
    CachedHeld(cfg, sent, p, p.round, o);
    var a := HandleCachedMsg(p, p.round);
    match Judge(p, m)
    case Stale =>
    case Early => CacheHeld(p, m, o);
    case Unjustified => CacheHeld(a, m, o);
    case Invalid =>
    case Accepted =>
      var b := Ballot(p, m);
      BallotOk(cfg, sent, ests, p, m);
      assert SameCache(a, b);
      SameCacheHeld(a, b, o);
      ProgressHeld(cfg, sent, b, c, o);
  }

  // -------------------------------------------- preservation: the system

  lemma CommitPending(s: Sys, x: int, t: Node, es: set<Estimate>, acc: set<Msg>, o: Msg)
    requires 0 <= x < |s.slots|
    ensures var k, k' := s.slots[x], Commit(s, x, t, es, acc).slots[x];
            Pending(k', o) == k.todo[o] + Held(t, o) + if o in k.accepted + acc then 1 else 0
  {
  }

  lemma LocalOkMono(cfg: Config, sent: set<Msg>, ests: set<Estimate>, sent': set<Msg>, ests': set<Estimate>, k: Slot)
    requires LocalOk(cfg, sent, ests, k) && sent <= sent' && ests <= ests'
    requires forall m :: m in sent' - sent ==> m.src != k.node.id
    requires forall e :: e in ests' - ests ==> e.node != k.node.id
    ensures LocalOk(cfg, sent', ests', k)
  {
  }

  lemma FlushOk(cfg: Config, sent: set<Msg>, ests: set<Estimate>, p: Node, acc: set<Msg>)
    requires Hist(cfg, sent, ests, p, acc) && Mail(cfg, sent, ests, p)
    ensures Hist(cfg, sent + Outgoing(p), ests, Flush(p), acc) && Mail(cfg, sent + Outgoing(p), ests, Flush(p))
  {
    var sent' := sent + Outgoing(p);
    var t := Flush(p);
    HistMono(cfg, sent, ests, sent', ests, p, acc);
    SameHist(cfg, sent', ests, p, t, acc);
    MailMono(cfg, sent, ests, sent', ests, p);
    assert MajsHeard(sent', t);
    forall m | m in Mine(sent', t)
      ensures m.src == t.id && MsgOwn(t, m) && m in Mine(sent', p)
    {
      assert MsgOwn(p, m);
    }
  }

  /** The node has handled an event and become t: the rest of the system is not disturbed. */
  lemma CommitKeepsCrash(cfg: Config, s: Sys, x: int, t: Node, es: set<Estimate>, acc: set<Msg>)
    requires CrashInv(cfg, s) && x in Correct(cfg) && t.id == x
    requires BvInv(cfg, Commit(s, x, t, es, acc))
    requires forall e :: e in es ==> e.node == x
    requires Hist(cfg, s.sent, s.ests + es, t, s.slots[x].accepted + acc)
    requires Mail(cfg, s.sent, s.ests + es, t)
    requires Once(Commit(s, x, t, es, acc).slots[x])
    ensures CrashInv(cfg, Commit(s, x, t, es, acc))
  {
    var s' := Commit(s, x, t, es, acc);
    forall m | m in s'.sent
      ensures MsgGood(cfg, s'.sent, s'.ests, m)
    {
      if m in s.sent {
        MsgGoodMono(cfg, s.sent, s.ests, s'.sent, s'.ests, m);
      } else {
        MsgGoodMono(cfg, s.sent, s'.ests, s'.sent, s'.ests, m);
      }
    }
    forall y | y in Correct(cfg)
      ensures LocalOk(cfg, s'.sent, s'.ests, s'.slots[y])
    {
      if y == x {
        FlushOk(cfg, s.sent, s'.ests, t, s.slots[x].accepted + acc);
      } else {
        assert Local(cfg, s.sent, s.ests, y, s.slots[y]);
        assert LocalOk(cfg, s.sent, s.ests, s.slots[y]);
        forall m | m in s'.sent - s.sent
          ensures m.src == x
        {
          assert m in Mine(s.sent, t);
        }
        LocalOkMono(cfg, s.sent, s.ests, s'.sent, s'.ests, s.slots[y]);
      }
    }
  }

  /** A message about to be handled is not pending anywhere else. */
  ghost predicate Spare(k: Slot, m: Msg) {
    m.Aux? ==> Pending(k, m) == 0 && m in k.taken
  }

  lemma AcceptedEst(cfg: Config, sent: set<Msg>, ests: set<Estimate>, p: Node, acc: set<Msg>)
    requires Sound(cfg) && Hist(cfg, sent, ests, p, acc) && Due(p) && p.instancestatus == AUX
    requires forall m :: m in sent ==> MsgGood(cfg, sent, ests, m)
    ensures var c := cfg.coin(p.round);
            EstOk(cfg, Progress(p, c), Estimate(p.id, p.round + 1, OutcomeOf(p, p.round, c).est))
  {
    var c := cfg.coin(p.round);
    OutcomeFromLog(cfg, p);
    OutcomeSound(cfg, sent, ests, p, acc);
    var o := OutcomeOf(p, p.round, c);
    DecideRecords(p, o, c);
    var t := DecideIf(p, o);
    AdvanceRecords(t, o, c);
    StartKeeps(EnterRound(t, o.maj, c), o.est);
    var z := Advance(t, o, c);
    assert z.n == p.n && z.round == p.round + 1;
    assert OutcomeAt(cfg, z, p.round) == OutcomeAt(cfg, p, p.round);
  }

  lemma AcceptKeepsHist(cfg: Config, sent: set<Msg>, ests: set<Estimate>, p: Node, acc: set<Msg>, m: Msg)
    requires Sound(cfg) && Hist(cfg, sent, ests, p, acc)
    requires m in sent && m.Aux? && m !in acc && Judge(p, m) == Accepted
    requires forall o :: o in sent ==> MsgGood(cfg, sent, ests, o)
    ensures Hist(cfg, sent, ests + Entered(p, m, cfg.coin(p.round)), HandleAux(p, m, cfg.coin(p.round)), acc + {m})
  {
    hide Hist, Progress, OutcomeOf, EstOk, MsgGood;
    var c := cfg.coin(p.round);
    var b := Ballot(p, m);
    CachedKeeps(p, p.round);
    BallotHist(cfg, sent, ests, p, acc, m);
    assert Entered(p, m, c) == if Due(b) && b.instancestatus == AUX then {Estimate(b.id, b.round + 1, OutcomeOf(b, b.round, c).est)} else {};
    assert HandleAux(p, m, c) == Progress(b, c);
    hide Ballot, Judge, HandleAux, Entered, Due;
    ProgressHist(cfg, sent, ests, b, acc + {m});
    forall e | e in Entered(p, m, c)
      ensures EstOk(cfg, Progress(b, c), e)
    {
      AcceptedEst(cfg, sent, ests, b, acc + {m});
    }
    HistMono(cfg, sent, ests, sent, ests + Entered(p, m, c), Progress(b, c), acc + {m});
  }

  lemma AcceptKeepsMail(cfg: Config, sent: set<Msg>, ests: set<Estimate>, p: Node, acc: set<Msg>, m: Msg)
    requires Sound(cfg) && Hist(cfg, sent, ests, p, acc) && Mail(cfg, sent, ests, p)
    requires m in sent && m.Aux? && m !in acc && Judge(p, m) == Accepted
    requires forall o :: o in sent ==> MsgGood(cfg, sent, ests, o)
    ensures Mail(cfg, sent, ests + Entered(p, m, cfg.coin(p.round)), HandleAux(p, m, cfg.coin(p.round)))
  {
    hide Hist, Mail, Progress, Entered, MsgGood;
    var c := cfg.coin(p.round);
    var b := Ballot(p, m);
    BallotHist(cfg, sent, ests, p, acc, m);
    BallotMail(cfg, sent, ests, p, m);
    ProgressMail(cfg, sent, ests, b, acc + {m});
    MailMono(cfg, sent, ests, sent, ests + Entered(p, m, c), Progress(b, c));
  }

  /** Handling a message keeps what a node remembers and what it has sent in order. */
  lemma HandleKeepsNode(cfg: Config, sent: set<Msg>, ests: set<Estimate>, p: Node, acc: set<Msg>, m: Msg)
    requires Sound(cfg) && Hist(cfg, sent, ests, p, acc) && Mail(cfg, sent, ests, p) && NodeOk(cfg, sent, ests, p)
    requires m in sent && m !in acc
    requires forall o :: o in sent ==> MsgGood(cfg, sent, ests, o) && Justified(cfg, ests, o)
    ensures var c := cfg.coin(p.round);
            var t, ests' := HandleABAMsg(p, m, c), ests + Entered(p, m, c);
            t.id == p.id && Hist(cfg, sent, ests', t, acc + Counted(p, m)) && Mail(cfg, sent, ests', t)
  {
    assert CoinLog(cfg, p);
    hide Hist, Mail, CoinLog, NodeOk, HandleBval, HandleAux;
    var c := cfg.coin(p.round);
    NodeOkMono(cfg, sent, ests, sent, ests + Entered(p, m, c), p);
    if m.Bval? {
      HandleBvalOk(cfg, sent, ests, p, m);
      HandleBvalHist(cfg, sent, ests, p, acc, m);
      HandleBvalMail(cfg, sent, ests, p, m);
      assert ests + Entered(p, m, c) == ests && acc + Counted(p, m) == acc;
    } else if Judge(p, m) == Accepted {
      HandleAuxOk(cfg, sent, ests + Entered(p, m, c), p, m, c);
      AcceptKeepsHist(cfg, sent, ests, p, acc, m);
      AcceptKeepsMail(cfg, sent, ests, p, acc, m);
    } else {
      HandleAuxOk(cfg, sent, ests + Entered(p, m, c), p, m, c);
      RejectHist(cfg, sent, ests, p, acc, m, c);
      RejectMail(cfg, sent, ests, p, m, c);
      assert ests + Entered(p, m, c) == ests && acc + Counted(p, m) == acc;
    }
  }

  lemma HandleKeepsOnce(cfg: Config, sent: set<Msg>, ests: set<Estimate>, s: Sys, x: int, m: Msg)
    requires 0 <= x < |s.slots| && NodeOk(cfg, sent, ests, s.slots[x].node)
    requires Once(s.slots[x]) && Spare(s.slots[x], m)
    ensures Once(HandleAt(cfg, s, x, m).slots[x])
  {
    var k := s.slots[x];
    var p := k.node;
    var c := cfg.coin(p.round);
    var t := HandleABAMsg(p, m, c);
    var k' := HandleAt(cfg, s, x, m).slots[x];
    forall o: Msg | o.Aux?
      ensures Pending(k', o) <= if o in k'.taken then 1 else 0
    {
      CommitPending(s, x, t, Entered(p, m, c), Counted(p, m), o);
      assert Pending(k, o) <= if o in k.taken then 1 else 0;
      if m.Bval? {
        HandleBvalHeld(cfg, sent, p, m, o);
      } else {
        HandleAuxHeld(cfg, sent, ests, p, m, c, o);
      }
    }
  }

  lemma NotYetCounted(cfg: Config, sent: set<Msg>, ests: set<Estimate>, k: Slot, m: Msg)
    requires LocalOk(cfg, sent, ests, k) && Spare(k, m)
    ensures m !in k.accepted
  {
  }

  lemma HandleKeepsCrash(cfg: Config, s: Sys, x: int, m: Msg)
    requires Sound(cfg) && cfg.faulty == {} && CrashInv(cfg, s) && x in Correct(cfg)
    requires m in s.sent && Spare(s.slots[x], m)
    ensures CrashInv(cfg, HandleAt(cfg, s, x, m))
  {
    hide HandleABAMsg, Hist, Mail, NodeOk, Once, Entered, Counted;
    var k := s.slots[x];
    var p := k.node;
    assert Local(cfg, s.sent, s.ests, x, k);
    assert LocalOk(cfg, s.sent, s.ests, k);
    var c := cfg.coin(p.round);
    NotYetCounted(cfg, s.sent, s.ests, k, m);
    EnteredBySelf(p, m, c);
    HandleKeepsBv(cfg, s, x, m);
    HandleKeepsNode(cfg, s.sent, s.ests, p, k.accepted, m);
    HandleKeepsOnce(cfg, s.sent, s.ests, s, x, m);
    CommitKeepsCrash(cfg, s, x, HandleABAMsg(p, m, c), Entered(p, m, c), Counted(p, m));
  }

  lemma ProposeKeepsOnce(cfg: Config, sent: set<Msg>, ests: set<Estimate>, s: Sys, x: int, input: int, es: set<Estimate>)
    requires 0 <= x < |s.slots| && NodeOk(cfg, sent, ests, s.slots[x].node) && Once(s.slots[x])
    ensures Once(Commit(s, x, StartABAFromRoundZero(s.slots[x].node, input), es, {}).slots[x])
  {
    var k := s.slots[x];
    var t := StartABAFromRoundZero(k.node, input);
    var k' := Commit(s, x, t, es, {}).slots[x];
    forall o: Msg | o.Aux?
      ensures Pending(k', o) <= if o in k'.taken then 1 else 0
    {
      CommitPending(s, x, t, es, {}, o);
      ProposeHeld(cfg, sent, k.node, input, o);
      assert Pending(k, o) <= if o in k.taken then 1 else 0;
    }
  }

  lemma ProposeKeepsNode(cfg: Config, sent: set<Msg>, ests: set<Estimate>, p: Node, acc: set<Msg>, input: int)
    requires Sound(cfg) && Hist(cfg, sent, ests, p, acc) && Mail(cfg, sent, ests, p)
    requires input == 0 || input == 1
    ensures var t, ests' := StartABAFromRoundZero(p, input), ests + {Estimate(p.id, 0, input)};
            t.id == p.id && Hist(cfg, sent, ests', t, acc + {}) && Mail(cfg, sent, ests', t)
  {
    var ests' := ests + {Estimate(p.id, 0, input)};
    HistMono(cfg, sent, ests, sent, ests', p, acc);
    MailMono(cfg, sent, ests, sent, ests', p);
    assert CoinLog(cfg, p);
    assert acc + {} == acc;
    hide Hist, Mail, CoinLog;
    ProposeHist(cfg, sent, ests', p, acc, input);
    ProposeMail(cfg, sent, ests', p, input);
    ProposeKeeps(p, input);
  }

  lemma ProposeKeepsCrash(cfg: Config, s: Sys, x: int, input: int)
    requires Sound(cfg) && cfg.faulty == {} && CrashInv(cfg, s) && Enabled(cfg, s, Propose(x, input))
    ensures CrashInv(cfg, Next(cfg, s, Propose(x, input)))
  {
    hide StartABAFromRoundZero, Hist, Mail, NodeOk, Once;
    var k := s.slots[x];
    var p := k.node;
    assert Local(cfg, s.sent, s.ests, x, k);
    assert LocalOk(cfg, s.sent, s.ests, k);
    var es := {Estimate(x, 0, input)};
    StepKeepsBv(cfg, s, Propose(x, input));
    ProposeKeepsNode(cfg, s.sent, s.ests, p, k.accepted, input);
    ProposeKeepsOnce(cfg, s.sent, s.ests, s, x, input, es);
    CommitKeepsCrash(cfg, s, x, StartABAFromRoundZero(p, input), es, {});
  }

  lemma SlotKeepsCrash(cfg: Config, s: Sys, x: int, k: Slot)
    requires CrashInv(cfg, s) && x in Correct(cfg)
    requires Local(cfg, s.sent, s.ests, x, k) && LocalOk(cfg, s.sent, s.ests, k)
    ensures CrashInv(cfg, s.(slots := s.slots[x := k]))
  {
    SlotKeepsBv(cfg, s, x, k);
  }

  lemma StepKeepsCrash(cfg: Config, s: Sys, e: Event)
    requires Sound(cfg) && cfg.faulty == {} && CrashInv(cfg, s) && Enabled(cfg, s, e)
    ensures CrashInv(cfg, Next(cfg, s, e))
  {
    hide HandleAt, Hist, Mail, Once, Spare, NodeOk;
    var x := e.x;
    var k := s.slots[x];
    assert Local(cfg, s.sent, s.ests, x, k);
    assert LocalOk(cfg, s.sent, s.ests, k);
    match e
    case Propose(_, input) => ProposeKeepsCrash(cfg, s, x, input);
    case Deliver(_, m) =>
      TakeOnce(k, m);
      SlotKeepsCrash(cfg, s, x, Take(k, m));
      HandleKeepsCrash(cfg, s.(slots := s.slots[x := Take(k, m)]), x, m);
    case Resume(_, m) =>
      assert Known(cfg, s.sent, m);
      PutAwayOnce(k, m);
      SlotKeepsCrash(cfg, s, x, PutAway(k, m));
      HandleKeepsCrash(cfg, s.(slots := s.slots[x := PutAway(k, m)]), x, m);
    case Inject(_, m) =>
  }

  lemma TakeOnce(k: Slot, m: Msg)
    requires Once(k) && m !in k.taken
    ensures Once(Take(k, m)) && Spare(Take(k, m), m)
  {
  }

  lemma PutAwayOnce(k: Slot, m: Msg)
    requires Once(k) && m in k.todo
    ensures Once(PutAway(k, m)) && Spare(PutAway(k, m), m)
  {
  }

  lemma {:induction false} RunKeepsCrash(cfg: Config, tr: seq<Sys>, i: nat)
    requires Sound(cfg) && cfg.faulty == {} && Run(cfg, tr) && i < |tr|
    ensures CrashInv(cfg, tr[i])
  {
    if i > 0 {
      RunKeepsCrash(cfg, tr, i - 1);
      assert Step(cfg, tr[i - 1], tr[i - 1 + 1]);
      var e :| Enabled(cfg, tr[i - 1], e) && tr[i] == Next(cfg, tr[i - 1], e);
      StepKeepsCrash(cfg, tr[i - 1], e);
    } else {
      RunKeepsBv(cfg, tr, 0);
      forall x | x in Correct(cfg)
        ensures LocalOk(cfg, {}, {}, tr[0].slots[x])
      {
        InitialOk(cfg, x);
      }
    }
  }

  lemma InitialOk(cfg: Config, x: int)
    ensures LocalOk(cfg, {}, {}, Slot(Initial(x, cfg.n), {}, multiset{}, {}))
  {
  }
}
