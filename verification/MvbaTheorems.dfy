/** The election over the binary agreements it runs: all nodes elect the same id, and it is one whose
    broadcast some node had completed. */
module MvbaTheorems {
  import opened Aba
  import opened AbaSystem
  import opened AbaTheorems
  import opened Mvba
  import Coin
  import CoinTheorems
  import Field
  import ThreshPrf

  /** The binary agreement of one round of the election: a run without lying nodes. */
  datatype Instance = Instance(cfg: Config, tr: seq<Sys>)

  ghost predicate Instances(rounds: seq<Instance>) {
    forall r :: 0 <= r < |rounds| ==> Genuine(rounds[r])
  }

  ghost predicate Genuine(a: Instance) {
    Sound(a.cfg) && a.cfg.faulty == {} && Run(a.cfg, a.tr)
  }

  /** At some moment node x has finished the agreement with v. */
  ghost predicate Returned(a: Instance, x: int, v: int) {
    exists i: nat :: i < |a.tr| && ReturnedAt(a, i, x, v)
  }

  ghost predicate ReturnedAt(a: Instance, i: nat, x: int, v: int)
    requires i < |a.tr|
  {
    x in Correct(a.cfg) && 0 <= x < |a.tr[i].slots| && Decides(a.tr[i].slots[x].node, v)
  }

  /** outcome is what node x was told by the agreements of the rounds it went through. */
  ghost predicate Observed(rounds: seq<Instance>, x: int, outcome: nat -> int) {
    forall r: nat :: r < |rounds| && r <= FirstOne(outcome, 0, |rounds|) ==> Returned(rounds[r], x, outcome(r))
  }

  // ------------------------------------------------------ the same election

  /** Agreement, for what the election sees of it. */
  lemma SameDecision(a: Instance, x: int, v: int, y: int, w: int)
    requires Genuine(a) && Returned(a, x, v) && Returned(a, y, w)
    ensures v == w
  {
    hide Run, Decides, Sound, Correct;
    var i: nat :| i < |a.tr| && ReturnedAt(a, i, x, v);
    var j: nat :| j < |a.tr| && ReturnedAt(a, j, y, w);
    Agreement(a.cfg, a.tr, i, x, v, j, y, w);
  }

  lemma NoEarlierRound(rounds: seq<Instance>, x: int, f: nat -> int, y: int, g: nat -> int)
    requires Instances(rounds) && Observed(rounds, x, f) && Observed(rounds, y, g)
    ensures FirstOne(f, 0, |rounds|) >= FirstOne(g, 0, |rounds|)
  {
    var r, q := FirstOne(f, 0, |rounds|), FirstOne(g, 0, |rounds|);
    FirstOneIsLeast(f, 0, |rounds|);
    FirstOneIsLeast(g, 0, |rounds|);
    hide FirstOne, Returned, Genuine;
    if r < q {
      SameDecision(rounds[r], x, f(r), y, g(r));
    }
  }

  /** Two nodes that are told by the same agreements stop in the same round. */
  lemma SameRound(rounds: seq<Instance>, x: int, f: nat -> int, y: int, g: nat -> int)
    requires Instances(rounds) && Observed(rounds, x, f) && Observed(rounds, y, g)
    ensures FirstOne(f, 0, |rounds|) == FirstOne(g, 0, |rounds|)
  {
    hide FirstOne, Observed, Instances;
    NoEarlierRound(rounds, x, f, y, g);
    NoEarlierRound(rounds, y, g, x, f);
  }

  /** The coin runs of two nodes are off by the same amount; where all accepted shares are for the message
      of their round, both are off by nothing. */
  ghost predicate SameDeviation(u: Coin.Setup, es: seq<Coin.Event>, fs: seq<Coin.Event>, r: int) {
    exists ms, ns :: SameOff(u, es, fs, r, ms, ns)
  }

  ghost predicate SameOff(u: Coin.Setup, es: seq<Coin.Event>, fs: seq<Coin.Event>, r: int, ms: seq<Coin.Msg>, ns: seq<Coin.Msg>) {
    && CoinTheorems.Backs(u, es, r, ms) && CoinTheorems.Backs(u, fs, r, ns)
    && CoinTheorems.InKeys(u, ms) && CoinTheorems.InKeys(u, ns)
    && Field.Cong(CoinTheorems.Deviation(u, r, ms), CoinTheorems.Deviation(u, r, ns), ThreshPrf.Order())
  }

  lemma OnRoundSameDeviation(u: Coin.Setup, a: seq<int>, es: seq<Coin.Event>, fs: seq<Coin.Event>, r: int)
    requires CoinTheorems.Dealt(u, a) && CoinTheorems.SoundShares(u)
    requires CoinTheorems.EventsOnRound(u, es) && CoinTheorems.EventsOnRound(u, fs)
    requires r in Coin.Run(u, es).coin && r in Coin.Run(u, fs).coin
    ensures SameDeviation(u, es, fs, r)
  {
    hide *;
    var ms := CoinTheorems.CoinIsBacked(u, es, r);
    var ns := CoinTheorems.CoinIsBacked(u, fs, r);
    CoinTheorems.CoinIsFixed(u, a, es, r, ms);
    CoinTheorems.CoinIsFixed(u, a, fs, r, ns);
    CoinTheorems.NothingOff(u, es, r, ms);
    CoinTheorems.NothingOff(u, fs, r, ns);
    OffByNothing(u, es, fs, r, ms, ns);
  }

  lemma OffByNothing(u: Coin.Setup, es: seq<Coin.Event>, fs: seq<Coin.Event>, r: int, ms: seq<Coin.Msg>, ns: seq<Coin.Msg>)
    requires CoinTheorems.Backs(u, es, r, ms) && CoinTheorems.Backs(u, fs, r, ns)
    requires CoinTheorems.InKeys(u, ms) && CoinTheorems.InKeys(u, ns)
    requires CoinTheorems.Deviation(u, r, ms) == CoinTheorems.Deviation(u, r, ns)
    ensures SameDeviation(u, es, fs, r)
  {
    hide CoinTheorems.Deviation, CoinTheorems.Backs, CoinTheorems.InKeys;
    assert SameOff(u, es, fs, r, ms, ns);
  }

  lemma SameCoin(u: Coin.Setup, a: seq<int>, es: seq<Coin.Event>, fs: seq<Coin.Event>, r: int)
    requires CoinTheorems.Dealt(u, a) && CoinTheorems.SoundShares(u)
    requires r in Coin.Run(u, es).coin && r in Coin.Run(u, fs).coin && SameDeviation(u, es, fs, r)
    ensures Coin.Run(u, es).coin[r] == Coin.Run(u, fs).coin[r]
  {
    hide CoinTheorems.Backs, CoinTheorems.Deviation, CoinTheorems.Dealt, CoinTheorems.SoundShares, Coin.Run, ThreshPrf.Order;
    var ms, ns :| SameOff(u, es, fs, r, ms, ns);
    CoinTheorems.CoinIndependence(u, a, es, fs, r, ms, ns);
  }

  /** The election is common: two nodes with the same ids, each shuffling with the generator seeded by
      the coin it obtained, and each going by what its own copies of the agreements decided, elect the
      same id, or both none. */
  lemma NodesElectTheSame(u: Coin.Setup, a: seq<int>, es: seq<Coin.Event>, fs: seq<Coin.Event>, generator: int -> nat -> nat,
                          ids: seq<int>, rounds: seq<Instance>, x: int, f: nat -> int, y: int, g: nat -> int)
    requires CoinTheorems.Dealt(u, a) && CoinTheorems.SoundShares(u)
    requires 0 in Coin.Run(u, es).coin && 0 in Coin.Run(u, fs).coin && SameDeviation(u, es, fs, 0)
    requires |rounds| == |ids| && Instances(rounds) && Observed(rounds, x, f) && Observed(rounds, y, g)
    ensures Elected(ids, generator(Coin.Run(u, es).coin[0]), f) == Elected(ids, generator(Coin.Run(u, fs).coin[0]), g)
  {
    SameCoin(u, a, es, fs, 0);
    hide FirstOne, Observed, Instances, SameDeviation, Coin.Run;
    SameRound(rounds, x, f, y, g);
  }

  // --------------------------------------------------- a completed broadcast

  /** What a node's election has come to: the broadcasts it had completed when the loop began, and how many
      rounds it has entered. */
  datatype Candidate = Candidate(completed: set<int>, entered: nat)

  /** The proposals that StartLoop has made for it. */
  function Made(e: int, permutation: seq<int>, c: Candidate): seq<Proposal>
    requires c.entered <= |permutation|
  {
    Proposals(e, |permutation|, permutation, c.completed, 0, c.entered)
  }

  /** The binary agreement of round r starts with what the nodes have proposed for it. */
  ghost predicate StartsWith(a: Instance, r: nat, e: int, permutation: seq<int>, nodes: seq<Candidate>)
    requires |a.tr| > 0
  {
    forall z, v :: Estimate(z, 0, v) in a.tr[|a.tr| - 1].ests ==>
      0 <= z < |nodes| && nodes[z].entered <= |permutation| && Proposal(GetInstanceID(|permutation|, e, r), v) in Made(e, permutation, nodes[z])
  }

  predicate Binary(ests: set<Estimate>) {
    forall e :: e in ests && e.round == 0 ==> e.value == 0 || e.value == 1
  }

  lemma StepBinary(cfg: Config, s: Sys, e: Event)
    requires Enabled(cfg, s, e) && Binary(s.ests)
    ensures Binary(Next(cfg, s, e).ests) && s.ests <= Next(cfg, s, e).ests
  {
    hide HandleABAMsg, StartABAFromRoundZero, Judge, OutcomeOf, Due;
  }

  lemma {:induction false} RunBinary(cfg: Config, tr: seq<Sys>, i: nat)
    requires Run(cfg, tr) && i < |tr|
    ensures Binary(tr[i].ests)
    ensures i > 0 ==> tr[i - 1].ests <= tr[i].ests
  {
    if i > 0 {
      hide Next, Binary, Enabled;
      RunBinary(cfg, tr, i - 1);
      assert Step(cfg, tr[i - 1], tr[i - 1 + 1]);
      var e :| Enabled(cfg, tr[i - 1], e) && tr[i] == Next(cfg, tr[i - 1], e);
      StepBinary(cfg, tr[i - 1], e);
    }
  }

  lemma Chain(a: set<Estimate>, b: set<Estimate>, c: set<Estimate>)
    requires a <= b <= c
    ensures a <= c
  {
  }

  lemma {:induction false} EstsGrow(cfg: Config, tr: seq<Sys>, i: nat, j: nat)
    requires Run(cfg, tr) && i <= j < |tr|
    ensures tr[i].ests <= tr[j].ests
    decreases j
  {
    hide *;
    if i < j {
      EstsGrow(cfg, tr, i, j - 1);
      RunBinary(cfg, tr, j);
      Chain(tr[i].ests, tr[j - 1].ests, tr[j].ests);
    }
  }

  /** Unanimous validity, for what the election sees of it: who is told 1 knows that 1 was proposed. */
  lemma OneWasProposed(a: Instance, x: int) returns (z: int)
    requires Genuine(a) && Returned(a, x, 1)
    ensures |a.tr| > 0 && Estimate(z, 0, 1) in a.tr[|a.tr| - 1].ests
  {
    hide Run, Decides, Sound, ReturnedAt;
    var i: nat :| i < |a.tr| && ReturnedAt(a, i, x, 1);
    EstsGrow(a.cfg, a.tr, i, |a.tr| - 1);
    RunBinary(a.cfg, a.tr, i);
    NotAllZero(a, i, x);
    var e :| e in a.tr[i].ests && e.round == 0 && e.value != 0;
    z := e.node;
    assert e == Estimate(z, 0, 1);
  }

  lemma NotAllZero(a: Instance, i: nat, x: int)
    requires Genuine(a) && i < |a.tr| && ReturnedAt(a, i, x, 1)
    ensures exists e :: e in a.tr[i].ests && e.round == 0 && e.value != 0
  {
    hide Run, Decides, Sound;
    if forall e :: e in a.tr[i].ests && e.round == 0 ==> e.value == 0 {
      UnanimousValidity(a.cfg, a.tr, i, x, 0, 1);
    }
  }

  /** The elected id is one whose broadcast some node had completed when its loop began. */
  lemma ElectedIsCompleted(ids: seq<int>, draw: nat -> nat, e: int, rounds: seq<Instance>, x: int, f: nat -> int, nodes: seq<Candidate>) returns (z: int)
    requires |rounds| == |ids| && Instances(rounds) && Observed(rounds, x, f)
    requires forall r :: 0 <= r < |rounds| ==> |rounds[r].tr| > 0 && StartsWith(rounds[r], r, e, Shuffled(ids, |ids| - 1, draw), nodes)
    requires Elected(ids, draw, f).Some?
    ensures 0 <= z < |nodes| && Elected(ids, draw, f).value in nodes[z].completed
  {
    FirstOneIsLeast(f, 0, |ids|);
    var permutation, r := Shuffled(ids, |ids| - 1, draw), FirstOne(f, 0, |ids|);
    hide Shuffled, Genuine, Returned, FirstOne, Proposals, GetInstanceID;
    z := OneWasProposed(rounds[r], x);
    assert StartsWith(rounds[r], r, e, permutation, nodes);
    OneIsCompleted(e, |permutation|, permutation, nodes[z].completed, nodes[z].entered, r);
  }
}
