/** When a gather does what: every acknowledgement, every PREPARE and every result of a correct node, in
    terms of the messages handed to it. */
module GatherExact {
  import opened Sets
  import opened Quorum
  import opened Gather
  import opened GatherSystem

  function Acks(heard: set<Msg>): set<int> {
    set m | m in heard && m.Ack? :: m.src
  }

  function Prepared(heard: set<Msg>): set<int> {
    set m | m in heard && m.Prepare? :: m.src
  }

  ghost predicate Informed(heard: set<Msg>, y: int) {
    exists vec :: Inform(y, vec) in heard
  }

  ghost predicate HasPrepared(sent: set<Msg>, x: int) {
    exists vec :: Prepare(x, vec) in sent
  }

  function Named(list: seq<int>): set<int> {
    set y | y in list
  }

  /** What the node holds, and what it has sent, is settled by what it has heard. */
  ghost predicate Exact(n: nat, sent: set<Msg>, heard: set<Msg>, p: State) {
    && p.n == n && p.out == []
    && p.acks == Acks(heard) && p.prepares == Prepared(heard) && Named(p.setvalue) == p.prepares
    && (p.final <==> |Prepared(heard)| >= Q(n))
    && Named(p.decided) == (if p.final then p.prepares else {})
    && (HasPrepared(sent, p.id) <==> |Acks(heard)| >= Q(n))
    && (forall y :: Ack(p.id, y) in sent <==> Informed(heard, y))
  }

  lemma HeardAck(heard: set<Msg>, m: Msg)
    requires m.Ack?
    ensures Acks(heard + {m}) == Acks(heard) + {m.src} && Prepared(heard + {m}) == Prepared(heard)
    ensures forall y :: Informed(heard + {m}, y) <==> Informed(heard, y)
  {
  }

  lemma HeardPrepare(heard: set<Msg>, m: Msg)
    requires m.Prepare?
    ensures Acks(heard + {m}) == Acks(heard) && Prepared(heard + {m}) == Prepared(heard) + {m.src}
    ensures forall y :: Informed(heard + {m}, y) <==> Informed(heard, y)
  {
  }

  lemma HeardInform(heard: set<Msg>, m: Msg)
    requires m.Inform?
    ensures Acks(heard + {m}) == Acks(heard) && Prepared(heard + {m}) == Prepared(heard)
    ensures forall y :: Informed(heard + {m}, y) <==> Informed(heard, y) || y == m.src
  {
    forall y | Informed(heard, y) || y == m.src
      ensures Informed(heard + {m}, y)
    {
      if y == m.src {
        assert Inform(y, m.vec) in heard + {m};
      } else {
        var vec :| Inform(y, vec) in heard;
        assert Inform(y, vec) in heard + {m};
      }
    }
  }

  lemma AckExact(n: nat, sent: set<Msg>, heard: set<Msg>, p: State, m: Msg)
    requires Exact(n, sent, heard, p) && m.Ack?
    ensures var t := HandleAck(p, m); Exact(n, sent + Outgoing(t), heard + {m}, t.(out := []))
  {
    var t := HandleAck(p, m);
    HeardAck(heard, m);
    SubsetCard(Acks(heard), Acks(heard + {m}));
    var sent' := sent + Outgoing(t);
    hide Acks, Prepared, Informed, Named;
    hide Q;
    if |Acks(heard + {m})| >= Q(n) {
      assert t.out == [Prepare(p.id, p.valid)];
      assert Prepare(p.id, p.valid) in sent';
    } else {
      assert t.out == [] && sent' == sent;
    }
    forall y
      ensures Ack(p.id, y) in sent' <==> Ack(p.id, y) in sent
    {
    }
  }

  /** One pass of the loop over an included vector. */
  lemma PrepareCounts(p: State, m: Msg)
    requires m.Prepare? && Included(m.vec, p.valid)
    ensures var t := HandlePrepare(p, m);
      && t.setvalue == p.setvalue + [m.src] && t.prepares == p.prepares + {m.src} && t.acks == p.acks
      && t.id == p.id && t.n == p.n && t.out == p.out
      && t.final == (p.final || |t.prepares| >= Q(p.n)) && t.decided == if |t.prepares| >= Q(p.n) then t.setvalue else p.decided
  {
  }

  lemma CountedExact(n: nat, sent: set<Msg>, heard: set<Msg>, p: State, t: State, m: Msg)
    requires Exact(n, sent, heard, p) && m.Prepare?
    requires t.setvalue == p.setvalue + [m.src] && t.prepares == p.prepares + {m.src} && t.acks == p.acks
    requires t.id == p.id && t.n == p.n && t.out == p.out
    requires t.final == (p.final || |t.prepares| >= Q(p.n)) && t.decided == if |t.prepares| >= Q(p.n) then t.setvalue else p.decided
    ensures Exact(n, sent, heard + {m}, t)
  {
    HeardPrepare(heard, m);
    SetExtend(p.setvalue, m.src);
    assert Named(t.setvalue) == Named(p.setvalue) + {m.src};
    SubsetCard(Prepared(heard), Prepared(heard + {m}));
    hide Acks, Prepared, Informed, Named, HasPrepared, Q;
  }

  lemma PrepareExact(n: nat, sent: set<Msg>, heard: set<Msg>, p: State, m: Msg)
    requires Exact(n, sent, heard, p) && m.Prepare?
    ensures var t := HandlePrepare(p, m); Exact(n, sent + Outgoing(t), heard + Taken(p.valid, m), t.(out := []))
  {
    var t := HandlePrepare(p, m);
    assert t.out == [] && sent + Outgoing(t) == sent;
    if Taken(p.valid, m) == {m} {
      assert Included(m.vec, p.valid);
      PrepareCounts(p, m);
      hide Exact, HandlePrepare, Included, Taken;
      CountedExact(n, sent, heard, p, t, m);
    } else {
      assert heard + {} == heard;
    }
  }

  lemma InformExact(n: nat, sent: set<Msg>, heard: set<Msg>, p: State, m: Msg)
    requires Exact(n, sent, heard, p) && m.Inform?
    ensures var t := HandleInform(p, m); Exact(n, sent + Outgoing(t), heard + Taken(p.valid, m), t.(out := []))
  {
    var t := HandleInform(p, m);
    var sent' := sent + Outgoing(t);
    if Taken(p.valid, m) == {m} {
      assert Included(m.vec, p.valid);
      HeardInform(heard, m);
      assert t.out == [Ack(p.id, m.src)];
      hide Acks, Prepared, Informed;
      assert HasPrepared(sent', p.id) <==> HasPrepared(sent, p.id);
      forall y
        ensures Ack(p.id, y) in sent' <==> Ack(p.id, y) in sent || y == m.src
      {
      }
    } else {
      assert t.out == [] && sent' == sent && heard + {} == heard;
    }
  }

  lemma HandleExact(n: nat, sent: set<Msg>, heard: set<Msg>, p: State, m: Msg)
    requires Exact(n, sent, heard, p)
    ensures var t := Handle(p, m); Exact(n, sent + Outgoing(t), heard + Taken(p.valid, m), t.(out := []))
  {
    hide Exact, HandleAck, HandlePrepare, HandleInform;
    match m
    case Inform(_, _) => InformExact(n, sent, heard, p, m);
    case Ack(_, _) => AckExact(n, sent, heard, p, m);
    case Prepare(_, _) => PrepareExact(n, sent, heard, p, m);
  }

  /** Messages of others settle nothing about a node. */
  lemma OthersExact(n: nat, sent: set<Msg>, more: set<Msg>, heard: set<Msg>, p: State)
    requires Exact(n, sent, heard, p) && forall o :: o in more ==> o.src != p.id || o.Inform?
    ensures Exact(n, sent + more, heard, p)
  {
    hide Acks, Prepared, Informed, Named;
    forall y
      ensures Ack(p.id, y) in sent + more <==> Ack(p.id, y) in sent
    {
      assert Ack(p.id, y).src == p.id;
    }
    if HasPrepared(sent + more, p.id) {
      var vec :| Prepare(p.id, vec) in sent + more;
      assert Prepare(p.id, vec).src == p.id;
    }
    if HasPrepared(sent, p.id) {
      var vec :| Prepare(p.id, vec) in sent;
      assert Prepare(p.id, vec) in sent + more;
    }
  }

  ghost predicate ExactInv(cfg: Config, s: Sys) {
    && |s.nodes| == cfg.n && |s.heard| == cfg.n
    && forall x :: x in Correct(cfg) ==> s.nodes[x].id == x && Exact(cfg.n, s.sent, s.heard[x], s.nodes[x])
  }

  lemma StepKeepsExact(cfg: Config, s: Sys, e: Event)
    requires Inv(cfg, s) && ExactInv(cfg, s) && Enabled(cfg, s, e)
    ensures ExactInv(cfg, Next(cfg, s, e))
  {
    var s' := Next(cfg, s, e);
    var x := e.x;
    hide Inv;
    match e
    case Update(_, input) =>
      assert Exact(cfg.n, s.sent, s.heard[x], s.nodes[x].(valid := input));
    case Begin(_) =>
      var more := {Inform(x, s.nodes[x].valid)};
      hide Exact;
      forall y | y in Correct(cfg)
        ensures Exact(cfg.n, s'.sent, s'.heard[y], s'.nodes[y])
      {
        OthersExact(cfg.n, s.sent, more, s.heard[y], s.nodes[y]);
      }
    case Receipt(_, m) =>
      ReceiptKeepsExact(cfg, s, x, m);
  }

  lemma OutIsOwn(p: State, m: Msg)
    requires p.out == []
    ensures forall o :: o in Outgoing(Handle(p, m)) ==> o.src == p.id
    ensures Handle(p, m).id == p.id
  {
    forall o | o in Outgoing(Handle(p, m))
      ensures o.src == p.id
    {
      HandleOut(p, m, o);
    }
  }

  lemma ReceiptKeepsExact(cfg: Config, s: Sys, x: int, m: Msg)
    requires ExactInv(cfg, s) && Enabled(cfg, s, Receipt(x, m))
    ensures ExactInv(cfg, Next(cfg, s, Receipt(x, m)))
  {
    var s' := Next(cfg, s, Receipt(x, m));
    var p := s.nodes[x];
    var t := Handle(p, m);
    HandleExact(cfg.n, s.sent, s.heard[x], p, m);
    OutIsOwn(p, m);
    hide Handle, Exact, Taken, FirstPrepare, Outgoing;
    forall y | y in Correct(cfg)
      ensures s'.nodes[y].id == y && Exact(cfg.n, s'.sent, s'.heard[y], s'.nodes[y])
    {
      if y != x {
        OthersExact(cfg.n, s.sent, Outgoing(t), s.heard[y], s.nodes[y]);
      }
    }
  }

  lemma {:induction false} RunKeepsExact(cfg: Config, tr: seq<Sys>, i: nat)
    requires Sound(cfg) && Run(cfg, tr) && i < |tr|
    ensures ExactInv(cfg, tr[i])
  {
    if i > 0 {
      hide ExactInv, Inv, Next, Enabled;
      RunKeepsExact(cfg, tr, i - 1);
      RunKeeps(cfg, tr, i - 1);
      assert Step(cfg, tr[i - 1], tr[i - 1 + 1]);
      var e :| Enabled(cfg, tr[i - 1], e) && tr[i] == Next(cfg, tr[i - 1], e);
      StepKeepsExact(cfg, tr[i - 1], e);
    } else {
      NothingHeard(cfg);
    }
  }

  lemma NothingHeard(cfg: Config)
    requires Sound(cfg)
    ensures ExactInv(cfg, Init(cfg))
  {
    QuorumArithmetic(cfg.n);
    assert Acks({}) == {} && Prepared({}) == {} && Named([]) == {};
  }

  /** A gather finishes exactly when PREPAREs of a quorum of distinct sources have been handed to the node
      with vectors that it included, and its result names exactly these sources. */
  lemma FinishesExactly(cfg: Config, tr: seq<Sys>, i: nat, x: int)
    requires Sound(cfg) && Run(cfg, tr) && i < |tr| && x in Correct(cfg)
    ensures |tr[i].nodes| == cfg.n && |tr[i].heard| == cfg.n
    ensures tr[i].nodes[x].final <==> |set m | m in tr[i].heard[x] && m.Prepare? :: m.src| >= Q(cfg.n)
    ensures tr[i].nodes[x].final ==> (set y | y in tr[i].nodes[x].decided) == set m | m in tr[i].heard[x] && m.Prepare? :: m.src
  {
    RunKeepsExact(cfg, tr, i);
    assert Exact(cfg.n, tr[i].sent, tr[i].heard[x], tr[i].nodes[x]);
  }

  /** A node has sent its PREPARE exactly when ACKs of a quorum of distinct sources have been handed to
      it, and an ACK to y exactly when an INFORM of y with an included vector has. */
  lemma SendsExactly(cfg: Config, tr: seq<Sys>, i: nat, x: int)
    requires Sound(cfg) && Run(cfg, tr) && i < |tr| && x in Correct(cfg)
    ensures |tr[i].heard| == cfg.n
    ensures (exists vec :: Prepare(x, vec) in tr[i].sent) <==> |set m | m in tr[i].heard[x] && m.Ack? :: m.src| >= Q(cfg.n)
    ensures forall y :: Ack(x, y) in tr[i].sent <==> exists vec :: Inform(y, vec) in tr[i].heard[x]
  {
    RunKeepsExact(cfg, tr, i);
    var s := tr[i];
    assert Exact(cfg.n, s.sent, s.heard[x], s.nodes[x]);
    assert HasPrepared(s.sent, x) <==> exists vec :: Prepare(x, vec) in s.sent;
    assert forall y :: Informed(s.heard[x], y) <==> exists vec :: Inform(y, vec) in s.heard[x];
  }
}
