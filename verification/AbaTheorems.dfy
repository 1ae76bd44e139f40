/** What the binary agreement decides, over all runs without lying nodes. */
module AbaTheorems {
  import opened Quorum
  import opened Sets
  import opened Aba
  import opened AbaSystem
  import opened AbaAgreement

  /** The nodes that sent an AUX vote for v in round r. */
  function Voters(sent: set<Msg>, r: nat, v: int): set<int> {
    set m | m in sent && m.Aux? && m.round == r && m.value == v :: m.src
  }

  ghost predicate Decides(p: Node, v: int) {
    p.finalstatus >= DECIDED && p.decidedvalue == v
  }

  /** What a decision leaves behind for good: a quorum of votes, and the coin of that round. */
  ghost predicate Evidence(cfg: Config, sent: set<Msg>, r: nat, v: int) {
    cfg.coin(r) == v && |Voters(sent, r, v)| >= Q(cfg.n)
  }

  ghost predicate AllVotes(sent: set<Msg>, r: nat, v: int) {
    forall m :: m in sent && m.Aux? && m.round == r ==> m.value == v
  }

  ghost predicate MajAllowed(c: int, v: int, mj: int) {
    if c == v then mj == v || mj == BOTTOM else mj == v
  }

  /** Every node in or beyond round r entered it with estimate v; and either the coin before that
      round showed v and the majorities are v or BOTTOM, or the majorities are all v. */
  ghost predicate Locked(cfg: Config, s: Sys, r: nat, v: int)
    requires r > 0
  {
    && (forall e :: e in s.ests && e.round == r ==> e.value == v)
    && (forall x :: x in Correct(cfg) && 0 <= x < |s.slots| && s.slots[x].node.round >= r ==>
          MajAllowed(cfg.coin(r - 1), v, IntAt(s.slots[x].node.maj, r)))
  }

  // ------------------------------------------------------------- counting

  lemma NodeFacts(cfg: Config, s: Sys, x: int)
    requires CrashInv(cfg, s) && x in Correct(cfg)
    ensures 0 <= x < |s.slots|
    ensures var k := s.slots[x];
            k.node.id == x && k.node.n == cfg.n
            && Hist(cfg, s.sent, s.ests, k.node, k.accepted) && Mail(cfg, s.sent, s.ests, k.node)
            && NodeOk(cfg, s.sent, s.ests, k.node)
  {
  }

  /** No node votes twice in a round. */
  lemma OneVoteEach(cfg: Config, s: Sys, a: Msg, b: Msg)
    requires CrashInv(cfg, s) && a in s.sent && b in s.sent && a.Aux? && b.Aux?
    requires a.src == b.src && a.round == b.round
    ensures a == b
  {
  }

  lemma VotersDisjoint(cfg: Config, s: Sys, r: nat, v: int, w: int)
    requires CrashInv(cfg, s) && v != w
    ensures Voters(s.sent, r, v) !! Voters(s.sent, r, w)
    ensures |Voters(s.sent, r, v)| + |Voters(s.sent, r, w)| <= cfg.n
  {
    forall x | x in Voters(s.sent, r, v) && x in Voters(s.sent, r, w)
      ensures false
    {
      var a :| a in s.sent && a.Aux? && a.round == r && a.value == v && a.src == x;
      var b :| b in s.sent && b.Aux? && b.round == r && b.value == w && b.src == x;
      OneVoteEach(cfg, s, a, b);
    }
    VotersAreNodes(cfg, s, r, v);
    VotersAreNodes(cfg, s, r, w);
    DisjointCard(Voters(s.sent, r, v), Voters(s.sent, r, w), Ids(cfg.n));
  }

  lemma NoVoters(sent: set<Msg>, r: nat, v: int, w: int)
    requires AllVotes(sent, r, v)
    ensures v == w || Voters(sent, r, w) == {}
  {
  }

  lemma VotersAreNodes(cfg: Config, s: Sys, r: nat, v: int)
    requires CrashInv(cfg, s)
    ensures Voters(s.sent, r, v) <= Ids(cfg.n)
  {
  }

  lemma AcceptedVotes(cfg: Config, s: Sys, x: int, r: nat, v: int)
    requires CrashInv(cfg, s) && x in Correct(cfg)
    ensures 0 <= x < |s.slots|
    ensures var k := s.slots[x];
            BagAt(k.node.auxvals, r)[v] == |With(k.accepted, r, v)|
            && forall m :: m in With(k.accepted, r, v) ==> m in s.sent && m.Aux? && m.round == r && m.value == v
  {
  }

  /** A node never counts more votes for a value than there are voters for it. */
  lemma CountedVotes(cfg: Config, s: Sys, x: int, r: nat, v: int)
    requires CrashInv(cfg, s) && x in Correct(cfg)
    ensures 0 <= x < |s.slots| && BagAt(s.slots[x].node.auxvals, r)[v] <= |Voters(s.sent, r, v)|
  {
    hide CrashInv;
    AcceptedVotes(cfg, s, x, r, v);
    var ms := With(s.slots[x].accepted, r, v);
    hide With;
    forall a, b | a in ms && b in ms && a.src == b.src
      ensures a == b
    {
      OneVoteEach(cfg, s, a, b);
    }
    var srcs := set m | m in ms :: m.src;
    ImageCard((m: Msg) => m.src, ms, srcs);
    assert srcs <= Voters(s.sent, r, v);
    SubsetCard(srcs, Voters(s.sent, r, v));
  }

  /** A node with a quorum of counted voters has counted a vote of any quorum of voters. */
  lemma SharedVote(cfg: Config, s: Sys, x: int, r: nat, v: int)
    requires Sound(cfg) && CrashInv(cfg, s) && x in Correct(cfg)
    requires |Voters(s.sent, r, v)| >= Q(cfg.n)
    requires |SetAt(s.slots[x].node.auxnodes, r)| >= Q(cfg.n)
    ensures v in BagAt(s.slots[x].node.auxvals, r)
  {
    NodeFacts(cfg, s, x);
    QuorumArithmetic(cfg.n);
    var k := s.slots[x];
    var seen := SetAt(k.node.auxnodes, r);
    assert seen == Sources(Round(k.accepted, r));
    forall y | y in seen
      ensures y in Ids(cfg.n)
    {
      var m :| m in Round(k.accepted, r) && m.src == y;
      assert Justified(cfg, s.ests, m);
    }
    VotersAreNodes(cfg, s, r, v);
    var y := Meet(seen, Voters(s.sent, r, v), Ids(cfg.n));
    var a :| a in Round(k.accepted, r) && a.src == y;
    var b :| b in s.sent && b.Aux? && b.round == r && b.value == v && b.src == y;
    OneVoteEach(cfg, s, a, b);
    assert a in With(k.accepted, r, v);
  }

  // ------------------------------------- from a decision to the next round

  /** If only v is counted by a node with a quorum of voters, v has a quorum of its votes. */
  lemma OnlyKind(cfg: Config, s: Sys, x: int, r: nat, v: int)
    requires CrashInv(cfg, s) && x in Correct(cfg)
    requires |SetAt(s.slots[x].node.auxnodes, r)| >= Q(cfg.n)
    requires forall m :: m in Round(s.slots[x].accepted, r) ==> m.value == v
    ensures BagAt(s.slots[x].node.auxvals, r)[v] >= Q(cfg.n)
  {
    NodeFacts(cfg, s, x);
    var k := s.slots[x];
    assert With(k.accepted, r, v) == Round(k.accepted, r);
    SourcesCard(Round(k.accepted, r));
    assert SetAt(k.node.auxnodes, r) == Sources(Round(k.accepted, r));
    assert BagAt(k.node.auxvals, r)[v] == |With(k.accepted, r, v)|;
  }

  lemma SingleKindQuorum(cfg: Config, s: Sys, x: int, r: nat, v: int)
    requires CrashInv(cfg, s) && x in Correct(cfg)
    requires |SetAt(s.slots[x].node.auxnodes, r)| >= Q(cfg.n)
    requires v in BagAt(s.slots[x].node.auxvals, r)
    requires |Kinds(BagAt(s.slots[x].node.auxvals, r))| == 1
    ensures Any(Kinds(BagAt(s.slots[x].node.auxvals, r))) == v
    ensures BagAt(s.slots[x].node.auxvals, r)[v] >= Q(cfg.n)
  {
    NodeFacts(cfg, s, x);
    var k := s.slots[x];
    var vals := BagAt(k.node.auxvals, r);
    assert v in Kinds(vals);
    SingleKind(Kinds(vals), v, Any(Kinds(vals)));
    forall m | m in Round(k.accepted, r)
      ensures m.value == v
    {
      assert m in With(k.accepted, r, m.value);
      assert vals[m.value] == |With(k.accepted, r, m.value)| > 0;
      assert m.value in Kinds(vals);
      SingleKind(Kinds(vals), m.value, v);
    }
    OnlyKind(cfg, s, x, r, v);
  }

  lemma EvaluateWithCoin(vals: multiset<int>, majvals: multiset<int>, r: nat, v: int, cr: int, q: int)
    requires v == 0 || v == 1
    requires vals[1 - v] < q && vals[1 - v] <= q / 2
    requires |Kinds(vals)| == 1 ==> vals[v] >= q
    ensures var o := Evaluate(vals, majvals, r, v, cr, q); o.est == v && (o.maj == v || (r > 0 && o.maj == BOTTOM))
  {
  }

  lemma FewOthers(cfg: Config, s: Sys, x: int, r: nat, v: int)
    requires CrashInv(cfg, s) && x in Correct(cfg) && cfg.n >= 1
    requires |Voters(s.sent, r, v)| >= Q(cfg.n)
    ensures 0 <= x < |s.slots|
    ensures var vals := BagAt(s.slots[x].node.auxvals, r); vals[1 - v] < Q(cfg.n) && vals[1 - v] <= Q(cfg.n) / 2
  {
    hide CrashInv, Voters, BagAt;
    QuorumArithmetic(cfg.n);
    hide Q;
    CountedVotes(cfg, s, x, r, 1 - v);
    VotersDisjoint(cfg, s, r, v, 1 - v);
  }

  lemma PassedRound(cfg: Config, s: Sys, x: int, r: nat)
    requires CrashInv(cfg, s) && x in Correct(cfg) && 0 <= x < |s.slots| && r < s.slots[x].node.round
    ensures s.slots[x].node.n == cfg.n && Passed(cfg, s.slots[x].node, r)
  {
  }

  /** A quorum of votes for the value the coin shows leaves every node that goes on with that value. */
  lemma EvidenceOutcome(cfg: Config, s: Sys, x: int, r: nat, v: int)
    requires Sound(cfg) && CrashInv(cfg, s) && x in Correct(cfg) && 0 <= x < |s.slots|
    requires Evidence(cfg, s.sent, r, v) && r < s.slots[x].node.round
    ensures var o := OutcomeAt(cfg, s.slots[x].node, r); o.est == v && (o.maj == v || (r > 0 && o.maj == BOTTOM))
  {
    hide CrashInv, Evaluate, Q, Voters, Kinds;
    var p := s.slots[x].node;
    PassedRound(cfg, s, x, r);
    SharedVote(cfg, s, x, r, v);
    FewOthers(cfg, s, x, r, v);
    var vals := BagAt(p.auxvals, r);
    if |Kinds(vals)| == 1 {
      SingleKindQuorum(cfg, s, x, r, v);
    }
    EvaluateWithCoin(vals, BagAt(p.auxmajvals, r), r, v, if r == 0 then -1 else cfg.coin(r - 1), Q(p.n));
  }

  /** If all votes of a round are for v, every node that goes on does so with v. */
  lemma UnanimousOutcome(cfg: Config, s: Sys, x: int, r: nat, v: int)
    requires Sound(cfg) && CrashInv(cfg, s) && x in Correct(cfg) && (v == 0 || v == 1)
    requires AllVotes(s.sent, r, v) && r < s.slots[x].node.round
    ensures var o := OutcomeAt(cfg, s.slots[x].node, r); o.est == v && o.maj == v
  {
    NodeFacts(cfg, s, x);
    QuorumArithmetic(cfg.n);
    var k := s.slots[x];
    assert Passed(cfg, k.node, r);
    OnlyKind(cfg, s, x, r, v);
    NoVotes(cfg, s, x, r, v, 1 - v);
  }

  lemma NoVotes(cfg: Config, s: Sys, x: int, r: nat, v: int, w: int)
    requires CrashInv(cfg, s) && x in Correct(cfg) && v != w && AllVotes(s.sent, r, v)
    ensures 0 <= x < |s.slots| && BagAt(s.slots[x].node.auxvals, r)[w] == 0
  {
  }

  /** The estimate and majority of every node that left round r being v locks round r+1. */
  lemma LockFromOutcomes(cfg: Config, s: Sys, r: nat, v: int)
    requires CrashInv(cfg, s)
    requires forall x :: x in Correct(cfg) && 0 <= x < |s.slots| && r < s.slots[x].node.round ==>
      var o := OutcomeAt(cfg, s.slots[x].node, r); o.est == v && MajAllowed(cfg.coin(r), v, o.maj)
    ensures Locked(cfg, s, r + 1, v)
  {
    forall e | e in s.ests && e.round == r + 1
      ensures e.value == v
    {
      NodeFacts(cfg, s, e.node);
      assert EstOk(cfg, s.slots[e.node].node, e);
    }
    forall x | x in Correct(cfg) && 0 <= x < |s.slots| && s.slots[x].node.round >= r + 1
      ensures MajAllowed(cfg.coin(r), v, IntAt(s.slots[x].node.maj, r + 1))
    {
      NodeFacts(cfg, s, x);
      assert Passed(cfg, s.slots[x].node, r);
    }
  }

  lemma EvidenceLocks(cfg: Config, s: Sys, r: nat, v: int)
    requires Sound(cfg) && CrashInv(cfg, s) && Evidence(cfg, s.sent, r, v)
    ensures Locked(cfg, s, r + 1, v)
  {
    forall x | x in Correct(cfg) && 0 <= x < |s.slots| && r < s.slots[x].node.round
      ensures var o := OutcomeAt(cfg, s.slots[x].node, r); o.est == v && MajAllowed(cfg.coin(r), v, o.maj)
    {
      EvidenceOutcome(cfg, s, x, r, v);
    }
    LockFromOutcomes(cfg, s, r, v);
  }

  lemma UnanimityLocks(cfg: Config, s: Sys, r: nat, v: int)
    requires Sound(cfg) && CrashInv(cfg, s) && (v == 0 || v == 1) && AllVotes(s.sent, r, v)
    ensures Locked(cfg, s, r + 1, v)
  {
    forall x | x in Correct(cfg) && 0 <= x < |s.slots| && r < s.slots[x].node.round
      ensures var o := OutcomeAt(cfg, s.slots[x].node, r); o.est == v && MajAllowed(cfg.coin(r), v, o.maj)
    {
      UnanimousOutcome(cfg, s, x, r, v);
    }
    LockFromOutcomes(cfg, s, r, v);
  }

  /** In a locked round every vote is for the locked value: nothing excuses a vote without
      preference. */
  lemma LockedVotes(cfg: Config, s: Sys, r: nat, v: int)
    requires Sound(cfg) && CrashInv(cfg, s) && r > 0 && (v == 0 || v == 1) && Locked(cfg, s, r, v)
    ensures AllVotes(s.sent, r, v)
  {
    hide CrashInv, Locked;
    forall m | m in s.sent && m.Aux? && m.round == r
      ensures m.value == v
    {
      LockedVote(cfg, s, r, v, m);
    }
  }

  /** A vote names the estimate that bin_values justified, or excuses itself with a majority heard. */
  lemma VoteIsGood(cfg: Config, s: Sys, m: Msg)
    requires CrashInv(cfg, s) && m in s.sent && m.Aux?
    ensures Started(s.ests, m.round, m.maj)
    ensures m.value == m.maj || (m.value == BOTTOM && Excused(cfg, s.sent, m))
  {
    assert MsgGood(cfg, s.sent, s.ests, m);
  }

  lemma LockedEstimate(cfg: Config, s: Sys, r: nat, v: int, w: int)
    requires r > 0 && Locked(cfg, s, r, v) && Started(s.ests, r, w)
    ensures w == v
  {
  }

  lemma LockedVote(cfg: Config, s: Sys, r: nat, v: int, m: Msg)
    requires Sound(cfg) && CrashInv(cfg, s) && r > 0 && (v == 0 || v == 1) && Locked(cfg, s, r, v)
    requires m in s.sent && m.Aux? && m.round == r
    ensures m.value == v
  {
    hide CrashInv, Locked, Started, Sound;
    VoteIsGood(cfg, s, m);
    LockedEstimate(cfg, s, r, v, m.maj);
    if m.value == BOTTOM {
      var b :| b in s.sent && Excuse(cfg.coin(r - 1), m.maj, r, b);
      LockedMajs(cfg, s, r, v, b);
    }
  }

  lemma LockedMajs(cfg: Config, s: Sys, r: nat, v: int, b: Msg)
    requires CrashInv(cfg, s) && r > 0 && Locked(cfg, s, r, v)
    requires b in s.sent && b.Bval? && b.round == r
    ensures MajAllowed(cfg.coin(r - 1), v, b.maj)
  {
    assert Justified(cfg, s.ests, b);
    NodeFacts(cfg, s, b.src);
    var p := s.slots[b.src].node;
    assert b in Mine(s.sent, p);
    assert MsgOwn(p, b);
  }

  /** A lock persists through all later rounds. */
  lemma {:induction false} LockPersists(cfg: Config, s: Sys, r: nat, v: int, q: nat)
    requires Sound(cfg) && CrashInv(cfg, s) && 0 < r <= q && (v == 0 || v == 1) && Locked(cfg, s, r, v)
    ensures Locked(cfg, s, q, v) && AllVotes(s.sent, q, v)
    decreases q - r
  {
    LockedVotes(cfg, s, r, v);
    if r < q {
      UnanimityLocks(cfg, s, r, v);
      LockPersists(cfg, s, r + 1, v, q);
    }
  }

  // ------------------------------------------------------------- decisions

  lemma DecisionEvidence(cfg: Config, s: Sys, x: int, v: int)
    requires CrashInv(cfg, s) && x in Correct(cfg) && 0 <= x < |s.slots| && Decides(s.slots[x].node, v)
    ensures Evidence(cfg, s.sent, s.slots[x].node.decidedround, v)
  {
    NodeFacts(cfg, s, x);
    CountedVotes(cfg, s, x, s.slots[x].node.decidedround, v);
  }

  lemma EvidenceAgrees(cfg: Config, s: Sys, r: nat, v: int, q: nat, w: int)
    requires Sound(cfg) && CrashInv(cfg, s) && r <= q
    requires Evidence(cfg, s.sent, r, v) && Evidence(cfg, s.sent, q, w)
    ensures v == w
  {
    if r < q {
      QuorumArithmetic(cfg.n);
      EvidenceLocks(cfg, s, r, v);
      LockPersists(cfg, s, r + 1, v, q);
      NoVoters(s.sent, q, v, w);
    }
  }

  lemma {:induction false} SentGrows(cfg: Config, tr: seq<Sys>, i: nat, j: nat)
    requires Run(cfg, tr) && i <= j < |tr|
    ensures tr[i].sent <= tr[j].sent
    decreases j - i
  {
    if i < j {
      assert Step(cfg, tr[i], tr[i + 1]);
      SentGrows(cfg, tr, i + 1, j);
    }
  }

  lemma EvidenceGrows(cfg: Config, sent: set<Msg>, sent': set<Msg>, r: nat, v: int)
    requires Evidence(cfg, sent, r, v) && sent <= sent'
    ensures Evidence(cfg, sent', r, v)
  {
    assert Voters(sent, r, v) <= Voters(sent', r, v);
    SubsetCard(Voters(sent, r, v), Voters(sent', r, v));
  }

  /** A decision seen at any time in a run leaves its evidence in every later state. */
  lemma DecisionInRun(cfg: Config, tr: seq<Sys>, i: nat, j: nat, x: int, v: int) returns (r: nat)
    requires Sound(cfg) && cfg.faulty == {} && Run(cfg, tr) && i <= j < |tr|
    requires x in Correct(cfg) && 0 <= x < |tr[i].slots| && Decides(tr[i].slots[x].node, v)
    ensures Evidence(cfg, tr[j].sent, r, v)
  {
    RunKeepsCrash(cfg, tr, i);
    DecisionEvidence(cfg, tr[i], x, v);
    r := tr[i].slots[x].node.decidedround;
    SentGrows(cfg, tr, i, j);
    EvidenceGrows(cfg, tr[i].sent, tr[j].sent, r, v);
  }

  /** Agreement: in every run without lying nodes, of any length, under any interleaving, loss and
      crash, and for any common coin, no two decisions differ, whenever and in whatever rounds they
      are taken. */
  lemma Agreement(cfg: Config, tr: seq<Sys>, i: nat, x: int, v: int, j: nat, y: int, w: int)
    requires Sound(cfg) && cfg.faulty == {} && Run(cfg, tr) && i < |tr| && j < |tr|
    requires x in Correct(cfg) && 0 <= x < |tr[i].slots| && Decides(tr[i].slots[x].node, v)
    requires y in Correct(cfg) && 0 <= y < |tr[j].slots| && Decides(tr[j].slots[y].node, w)
    ensures v == w
  {
    var last := |tr| - 1;
    var r := DecisionInRun(cfg, tr, i, last, x, v);
    var q := DecisionInRun(cfg, tr, j, last, y, w);
    RunKeepsCrash(cfg, tr, last);
    if r <= q {
      EvidenceAgrees(cfg, tr[last], r, v, q, w);
    } else {
      EvidenceAgrees(cfg, tr[last], q, w, r, v);
    }
  }

  /** A decision for v in round r forces every node that ever enters a later round to do so with
      estimate v, with majorities v (or BOTTOM, after a coin v), and to vote v there. */
  lemma DecisionLocksLaterRounds(cfg: Config, tr: seq<Sys>, i: nat, x: int, v: int, j: nat, q: nat)
    requires Sound(cfg) && cfg.faulty == {} && Run(cfg, tr) && i <= j < |tr|
    requires x in Correct(cfg) && 0 <= x < |tr[i].slots| && Decides(tr[i].slots[x].node, v)
    requires q > tr[i].slots[x].node.decidedround
    ensures Locked(cfg, tr[j], q, v) && AllVotes(tr[j].sent, q, v)
  {
    hide CrashInv, Decides, Locked, AllVotes;
    RunKeepsCrash(cfg, tr, i);
    DecisionEvidence(cfg, tr[i], x, v);
    var r := tr[i].slots[x].node.decidedround;
    SentGrows(cfg, tr, i, j);
    EvidenceGrows(cfg, tr[i].sent, tr[j].sent, r, v);
    RunKeepsCrash(cfg, tr, j);
    EvidenceLocks(cfg, tr[j], r, v);
    LockPersists(cfg, tr[j], r + 1, v, q);
  }

  // -------------------------------------------------------------- validity

  /** All votes of round r being v, nothing else is ever decided in it or after it. */
  lemma UnanimityDecides(cfg: Config, s: Sys, v: int, r: nat, w: int)
    requires Sound(cfg) && CrashInv(cfg, s) && (v == 0 || v == 1)
    requires AllVotes(s.sent, 0, v) && Evidence(cfg, s.sent, r, w)
    ensures w == v
  {
    hide CrashInv, Locked, AllVotes;
    QuorumArithmetic(cfg.n);
    if r > 0 {
      UnanimityLocks(cfg, s, 0, v);
      LockPersists(cfg, s, 1, v, r);
    }
    NoVoters(s.sent, r, v, w);
  }

  /** Validity: if every proposal made in the run is v, only v is decided. */
  lemma UnanimousValidity(cfg: Config, tr: seq<Sys>, i: nat, x: int, v: int, w: int)
    requires Sound(cfg) && cfg.faulty == {} && Run(cfg, tr) && i < |tr| && (v == 0 || v == 1)
    requires forall e :: e in tr[i].ests && e.round == 0 ==> e.value == v
    requires x in Correct(cfg) && 0 <= x < |tr[i].slots| && Decides(tr[i].slots[x].node, w)
    ensures w == v
  {
    var s := tr[i];
    RunKeepsCrash(cfg, tr, i);
    forall m | m in s.sent && m.Aux? && m.round == 0
      ensures m.value == v
    {
      assert MsgGood(cfg, s.sent, s.ests, m);
      assert Started(s.ests, 0, m.maj);
    }
    DecisionEvidence(cfg, s, x, w);
    UnanimityDecides(cfg, s, v, s.slots[x].node.decidedround, w);
  }

  /** Node x proposes 1 between tr[i] and tr[i+1], before it has voted in round 0. */
  ghost predicate EarlyOne(cfg: Config, tr: seq<Sys>, i: nat, x: int)
    requires i < |tr| - 1
  {
    && Enabled(cfg, tr[i], Propose(x, 1)) && tr[i + 1] == Next(cfg, tr[i], Propose(x, 1))
    && tr[i].slots[x].node.round == 0 && tr[i].slots[x].node.instancestatus == READY
  }

  ghost predicate EverEarlyOne(cfg: Config, tr: seq<Sys>, x: int) {
    exists i: nat :: i < |tr| - 1 && EarlyOne(cfg, tr, i, x)
  }

  lemma EarlyOneVotes(p: Node)
    requires p.round == 0 && p.instancestatus == READY
    ensures Aux(p.id, 0, 1, 1) in Outgoing(StartABAFromRoundZero(p, 1))
  {
    CachedKeeps(p, 0);
    var w := SendProposal(HandleCachedMsg(p, 0), 1);
    var z := w.(binValues := AddTo(w.binValues, 0, 1));
    var t := z.(binValues := AddTo(z.binValues, 0, 1), instancestatus := AUX);
    assert ProceedToAux(z, 0, 1) == SendAux(t, 0, 1);
    assert SendAux(t, 0, 1).out[|t.out|] == Aux(p.id, 0, 1, 1);
  }

  /** With f+1 votes for 1 in round 0, where the coin shows 1, no one leaves round 0 with 0. */
  lemma BiasLocks(cfg: Config, s: Sys)
    requires Sound(cfg) && CrashInv(cfg, s) && cfg.n % 3 != 0 && cfg.coin(0) == 1
    requires |Voters(s.sent, 0, 1)| >= SQ(cfg.n)
    ensures Locked(cfg, s, 1, 1)
  {
    hide CrashInv, Locked;
    QuorumArithmetic(cfg.n);
    forall x | x in Correct(cfg) && 0 <= x < |s.slots| && 0 < s.slots[x].node.round
      ensures var o := OutcomeAt(cfg, s.slots[x].node, 0); o.est == 1 && MajAllowed(cfg.coin(0), 1, o.maj)
    {
      NodeFacts(cfg, s, x);
      CountedVotes(cfg, s, x, 0, 0);
      VotersDisjoint(cfg, s, 0, 0, 1);
      assert BagAt(s.slots[x].node.auxvals, 0)[0] < Q(cfg.n);
    }
    LockFromOutcomes(cfg, s, 0, 1);
  }

  lemma EarlyOneSent(cfg: Config, tr: seq<Sys>, j: nat, y: int)
    requires Sound(cfg) && cfg.faulty == {} && Run(cfg, tr) && j < |tr| - 1 && EarlyOne(cfg, tr, j, y)
    ensures Aux(y, 0, 1, 1) in tr[j + 1].sent
  {
    RunKeepsCrash(cfg, tr, j);
    NodeFacts(cfg, tr[j], y);
    EarlyOneVotes(tr[j].slots[y].node);
    hide CrashInv, StartABAFromRoundZero;
  }

  lemma EarlyOnesVote(cfg: Config, tr: seq<Sys>, ones: set<int>)
    requires Sound(cfg) && cfg.faulty == {} && Run(cfg, tr)
    requires forall y :: y in ones ==> EverEarlyOne(cfg, tr, y)
    ensures |Voters(tr[|tr| - 1].sent, 0, 1)| >= |ones|
  {
    hide EarlyOne;
    var last := |tr| - 1;
    forall y | y in ones
      ensures y in Voters(tr[last].sent, 0, 1)
    {
      var j: nat :| j < |tr| - 1 && EarlyOne(cfg, tr, j, y);
      EarlyOneSent(cfg, tr, j, y);
      SentGrows(cfg, tr, j + 1, last);
      assert Aux(y, 0, 1, 1) in tr[last].sent;
    }
    SubsetCard(ones, Voters(tr[last].sent, 0, 1));
  }

  /** Biased validity: when 3 does not divide n and the first coin shows 1, as soon as f+1 nodes
      propose 1 before voting in round 0, only 1 can be decided, at any point of the run. */
  lemma BiasedValidity(cfg: Config, tr: seq<Sys>, ones: set<int>, i: nat, x: int, w: int)
    requires Sound(cfg) && cfg.faulty == {} && Run(cfg, tr) && i < |tr|
    requires cfg.n % 3 != 0 && cfg.coin(0) == 1
    requires |ones| >= SQ(cfg.n) && forall y :: y in ones ==> EverEarlyOne(cfg, tr, y)
    requires x in Correct(cfg) && 0 <= x < |tr[i].slots| && Decides(tr[i].slots[x].node, w)
    ensures w == 1
  {
    hide CrashInv, Locked, AllVotes, Run, Voters, EverEarlyOne, Decides;
    var last := |tr| - 1;
    EarlyOnesVote(cfg, tr, ones);
    RunKeepsCrash(cfg, tr, last);
    BiasLocks(cfg, tr[last]);
    var r := DecisionInRun(cfg, tr, i, last, x, w);
    if r > 0 {
      QuorumArithmetic(cfg.n);
      LockPersists(cfg, tr[last], 1, 1, r);
      NoVoters(tr[last].sent, r, 1, w);
    }
  }
}
