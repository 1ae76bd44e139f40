/** Without the rule that a correct node handles one SEND of an instance: HandleSend itself has no such
    test. Here is when one hash at most still gathers an echo quorum. */
module BrachaLoose {
  import opened Wrappers
  import opened Quorum
  import opened Sets
  import opened Bracha
  import opened BrachaSystem

  /** A correct node broadcasts a SEND, or handles any message, however many SENDs it has handled. */
  ghost predicate LooseEnabled(cfg: Config, s: Sys, e: Event) {
    e.x in Correct(cfg) && |s.slots| == cfg.n && (e.Receipt? ==> Known(cfg, s.sent, e.m))
  }

  function LooseNext(cfg: Config, s: Sys, e: Event): Sys
    requires LooseEnabled(cfg, s, e)
  {
    match e
    case Start(x, body) => s.(sent := s.sent + {Msg.Send(x, NoHash, body)})
    case Receipt(x, m) => HandledAt(s, x, m)
  }

  ghost predicate LooseStep(cfg: Config, s: Sys, s': Sys) {
    exists e :: LooseEnabled(cfg, s, e) && s' == LooseNext(cfg, s, e)
  }

  ghost predicate LooseRun(cfg: Config, tr: seq<Sys>) {
    && |tr| > 0 && tr[0] == Init(cfg)
    && forall i :: 0 <= i < |tr| - 1 ==> LooseStep(cfg, tr[i], tr[i + 1])
  }

  // ------------------------------------------------------------- one body

  /** An ECHO of a correct node repeats the body of a SEND that was handled. */
  ghost predicate Traced(s: Sys, o: Msg) {
    exists m: Msg :: m in s.handled && o.hash == Digest(m.body)
  }

  ghost predicate LooseInv(cfg: Config, s: Sys) {
    && |s.slots| == cfg.n
    && (forall x :: 0 <= x < cfg.n ==> s.slots[x].node.out == [])
    && (forall o :: o in s.sent && o.Echo? ==> Traced(s, o))
  }

  lemma SendReadySays(p: State, m: Msg)
    ensures forall o :: o in SendReady(p, m).out && o.Echo? ==> o in p.out
    ensures forall o :: o in Deliver(p, m).out ==> o in p.out
  {
  }

  lemma SendEchoes(p: State, m: Msg)
    requires p.out == [] && m.Send?
    ensures forall o :: o in HandleSend(p, m).out && o.Echo? ==> o.hash == Digest(m.body)
  {
    if !p.rstatus {
      var a := ReceiveSend(p.(status := SEND), m);
      var t := a.(out := a.out + [EchoOf(p.id, p.mode, m)]);
      assert t.out == [EchoOf(p.id, p.mode, m)];
      SendReadySays(t, m);
      SendReadySays(SendReady(t, m), m);
      hide ReceiveSend, SendReady, Deliver;
    }
  }

  lemma EchoNoEchoes(p: State, m: Msg)
    requires p.out == [] && m.Echo?
    ensures forall o :: o in HandleEcho(p, m).out ==> !o.Echo?
  {
    var t := p.(echoes := Insert(p.echoes, m.hash, m.src));
    var r := Receive(t, m);
    assert t.out == [] && r.out == [];
    SendReadySays(r, m);
    hide Receive, SendReady, Insert, Len;
  }

  lemma ReadyNoEchoes(p: State, m: Msg)
    requires p.out == [] && m.Ready?
    ensures forall o :: o in HandleReady(p, m).out ==> !o.Echo?
  {
    var t := p.(readies := Insert(p.readies, m.hash, m.src));
    var r := Receive(t, m);
    assert t.out == [] && r.out == [];
    SendReadySays(r, m);
    SendReadySays(SendReady(r, m), m);
    SendReadySays(t, m);
    hide Receive, SendReady, Deliver, Insert, Len;
  }

  /** Only a SEND makes a node send an ECHO, with the hash of its body. */
  lemma EchoesSends(p: State, m: Msg)
    requires p.out == []
    ensures forall o :: o in Handle(p, m).out && o.Echo? ==> m.Send? && o.hash == Digest(m.body)
  {
    hide HandleSend, HandleEcho, HandleReady;
    match m
    case Send(_, _, _) => SendEchoes(p, m);
    case Echo(_, _, _) => EchoNoEchoes(p, m);
    case Ready(_, _, _) => ReadyNoEchoes(p, m);
  }

  lemma StepTraced(cfg: Config, s: Sys, e: Event)
    requires LooseInv(cfg, s) && LooseEnabled(cfg, s, e)
    ensures LooseInv(cfg, LooseNext(cfg, s, e))
  {
    var t := LooseNext(cfg, s, e);
    if e.Receipt? {
      EchoesSends(s.slots[e.x].node, e.m);
    }
    hide Handle;
    forall o | o in t.sent && o.Echo?
      ensures Traced(t, o)
    {
      if o in s.sent {
        assert Traced(s, o);
      } else {
        assert e.m in t.handled;
      }
    }
  }

  lemma {:induction false} RunTraced(cfg: Config, tr: seq<Sys>, i: nat)
    requires LooseRun(cfg, tr) && i < |tr|
    ensures LooseInv(cfg, tr[i])
  {
    if i > 0 {
      hide LooseInv, LooseNext, LooseEnabled;
      RunTraced(cfg, tr, i - 1);
      assert LooseStep(cfg, tr[i - 1], tr[i - 1 + 1]);
      var e :| LooseEnabled(cfg, tr[i - 1], e) && tr[i] == LooseNext(cfg, tr[i - 1], e);
      StepTraced(cfg, tr[i - 1], e);
    }
  }

  /** A backed hash is that of a body in a SEND that some correct node handled. */
  lemma BackedIsHandled(cfg: Config, tr: seq<Sys>, i: nat, h: Hash) returns (m: Msg)
    requires Sound(cfg) && LooseRun(cfg, tr) && i < |tr| && Backed(cfg, tr[i].sent, h)
    ensures m in tr[i].handled && h == Digest(m.body)
  {
    RunTraced(cfg, tr, i);
    QuorumArithmetic(cfg.n);
    var x := Member(Echoers(tr[i].sent, h));
    var o := EchoBy(tr[i].sent, h, x);
    assert Traced(tr[i], o);
    m :| m in tr[i].handled && o.hash == Digest(m.body);
  }

  /** The SENDs handled so far carry bodies of the given set. */
  predicate Within(s: Sys, bodies: set<Body>) {
    forall m: Msg :: m in s.handled ==> m.body in bodies
  }

  // ------------------------------------------------------------ two bodies

  /** The correct nodes below k have echoed both bodies, the others have done nothing. */
  ghost predicate EchoedBoth(cfg: Config, s: Sys, z: int, a: Body, b: Body, k: nat) {
    && |s.slots| == cfg.n && Within(s, {a, b})
    && Known(cfg, s.sent, Msg.Send(z, NoHash, a)) && Known(cfg, s.sent, Msg.Send(z, NoHash, b))
    && forall x :: x in Correct(cfg) ==>
         if x < k then EchoOf(x, cfg.mode, Msg.Send(x, NoHash, a)) in s.sent && EchoOf(x, cfg.mode, Msg.Send(x, NoHash, b)) in s.sent
         else s.slots[x].node == Initial(x, cfg.n, cfg.mode)
  }

  /** A second SEND resets the status, and the node echoes again. */
  lemma EchoTwice(cfg: Config, s: Sys, x: int, z: int, a: Body, b: Body)
    requires 0 <= x < |s.slots| && s.slots[x].node == Initial(x, cfg.n, cfg.mode)
    ensures var t := HandledAt(HandledAt(s, x, Msg.Send(z, NoHash, a)), x, Msg.Send(z, NoHash, b));
      EchoOf(x, cfg.mode, Msg.Send(x, NoHash, a)) in t.sent && EchoOf(x, cfg.mode, Msg.Send(x, NoHash, b)) in t.sent && s.sent <= t.sent
  {
    var m, m' := Msg.Send(z, NoHash, a), Msg.Send(z, NoHash, b);
    var p := s.slots[x].node;
    assert HandleSend(p, m).out == [EchoOf(x, cfg.mode, m)];
    var q := HandleSend(p, m).(out := []);
    assert HandleSend(q, m').out == [EchoOf(x, cfg.mode, m')];
  }

  lemma EchoedStep(cfg: Config, s: Sys, z: int, a: Body, b: Body, k: nat)
    requires k in Correct(cfg) && EchoedBoth(cfg, s, z, a, b, k)
    ensures EchoedBoth(cfg, HandledAt(HandledAt(s, k, Msg.Send(z, NoHash, a)), k, Msg.Send(z, NoHash, b)), z, a, b, k + 1)
  {
    EchoTwice(cfg, s, k, z, a, b);
    hide Handle;
  }

  lemma LooseExtend(cfg: Config, tr: seq<Sys>, e: Event) returns (longer: seq<Sys>)
    requires LooseRun(cfg, tr) && LooseEnabled(cfg, tr[|tr| - 1], e)
    ensures LooseRun(cfg, longer) && longer[|longer| - 1] == LooseNext(cfg, tr[|tr| - 1], e)
  {
    hide LooseNext, LooseEnabled;
    var t := LooseNext(cfg, tr[|tr| - 1], e);
    longer := tr + [t];
    assert LooseStep(cfg, tr[|tr| - 1], t);
    forall i | 0 <= i < |longer| - 1
      ensures LooseStep(cfg, longer[i], longer[i + 1])
    {
      assert i < |tr| - 1 ==> LooseStep(cfg, tr[i], tr[i + 1]);
    }
  }

  /** Nothing has happened but the SENDs of these bodies. */
  ghost predicate Opening(cfg: Config, s: Sys, z: int, bodies: set<Body>) {
    && s.slots == Init(cfg).slots && s.handled == {}
    && forall a :: a in bodies ==> Known(cfg, s.sent, Msg.Send(z, NoHash, a))
  }

  lemma SendOne(cfg: Config, tr: seq<Sys>, z: int, bodies: set<Body>, a: Body) returns (longer: seq<Sys>)
    requires LooseRun(cfg, tr) && Opening(cfg, tr[|tr| - 1], z, bodies) && z in Correct(cfg)
    ensures LooseRun(cfg, longer) && Opening(cfg, longer[|longer| - 1], z, bodies + {a})
  {
    assert |Init(cfg).slots| == cfg.n;
    hide LooseRun, Init;
    longer := LooseExtend(cfg, tr, Start(z, a));
  }

  lemma OpeningEchoed(cfg: Config, s: Sys, z: int, a: Body, b: Body)
    requires Opening(cfg, s, z, {a, b})
    ensures EchoedBoth(cfg, s, z, a, b, 0)
  {
  }

  lemma OpeningFaulty(cfg: Config, s: Sys, z: int, a: Body, b: Body)
    requires Opening(cfg, s, z, {}) && z in cfg.faulty
    ensures Opening(cfg, s, z, {a, b})
  {
  }

  /** The sender, faulty or not, has both bodies on their way. */
  lemma BothSent(cfg: Config, z: int, a: Body, b: Body) returns (tr: seq<Sys>)
    requires 0 <= z < cfg.n
    ensures LooseRun(cfg, tr) && EchoedBoth(cfg, tr[|tr| - 1], z, a, b, 0)
  {
    tr := [Init(cfg)];
    assert Opening(cfg, tr[0], z, {}) && (z in cfg.faulty || z in Correct(cfg));
    hide LooseRun, Opening, Correct, EchoedBoth;
    if z in cfg.faulty {
      OpeningFaulty(cfg, tr[0], z, a, b);
    } else {
      tr := SendOne(cfg, tr, z, {}, a);
      tr := SendOne(cfg, tr, z, {} + {a}, b);
      assert {} + {a} + {b} == {a, b};
    }
    OpeningEchoed(cfg, tr[|tr| - 1], z, a, b);
  }

  lemma EchoOn(cfg: Config, tr: seq<Sys>, z: int, a: Body, b: Body, k: nat) returns (longer: seq<Sys>)
    requires LooseRun(cfg, tr) && EchoedBoth(cfg, tr[|tr| - 1], z, a, b, k) && k in Correct(cfg)
    ensures LooseRun(cfg, longer) && EchoedBoth(cfg, longer[|longer| - 1], z, a, b, k + 1)
  {
    var s := tr[|tr| - 1];
    var m, m' := Msg.Send(z, NoHash, a), Msg.Send(z, NoHash, b);
    EchoedStep(cfg, s, z, a, b, k);
    assert Known(cfg, HandledAt(s, k, m).sent, m');
    hide LooseRun, Handle, EchoedBoth;
    longer := LooseExtend(cfg, tr, Receipt(k, m));
    longer := LooseExtend(cfg, longer, Receipt(k, m'));
  }

  lemma EchoSkip(cfg: Config, s: Sys, z: int, a: Body, b: Body, k: nat)
    requires EchoedBoth(cfg, s, z, a, b, k) && k !in Correct(cfg)
    ensures EchoedBoth(cfg, s, z, a, b, k + 1)
  {
  }

  lemma {:induction false} EchoRun(cfg: Config, z: int, a: Body, b: Body, k: nat) returns (tr: seq<Sys>)
    requires 0 <= z < cfg.n && k <= cfg.n
    ensures LooseRun(cfg, tr) && |tr| > 0 && EchoedBoth(cfg, tr[|tr| - 1], z, a, b, k)
  {
    if k == 0 {
      tr := BothSent(cfg, z, a, b);
    } else {
      hide EchoedBoth, Correct;
      tr := EchoRun(cfg, z, a, b, k - 1);
      if k - 1 in Correct(cfg) {
        tr := EchoOn(cfg, tr, z, a, b, k - 1);
      } else {
        EchoSkip(cfg, tr[|tr| - 1], z, a, b, k - 1);
      }
    }
  }

  lemma AllEchoed(cfg: Config, s: Sys, z: int, a: Body, b: Body)
    requires Sound(cfg) && EchoedBoth(cfg, s, z, a, b, cfg.n)
    ensures Backed(cfg, s.sent, Digest(a)) && Backed(cfg, s.sent, Digest(b))
  {
    forall x | x in Correct(cfg)
      ensures x in Echoers(s.sent, Digest(a)) && x in Echoers(s.sent, Digest(b))
    {
      assert EchoOf(x, cfg.mode, Msg.Send(x, NoHash, a)).src == x;
      assert EchoOf(x, cfg.mode, Msg.Send(x, NoHash, b)).src == x;
    }
    SubsetCard(Correct(cfg), Echoers(s.sent, Digest(a)));
    SubsetCard(Correct(cfg), Echoers(s.sent, Digest(b)));
    CorrectCount(cfg);
    QuorumArithmetic(cfg.n);
  }

  /** Why a node must handle one SEND only: where it handles every SEND, any sender, faulty or not, can
      make any two bodies gather an echo quorum. */
  lemma TwoSendsTwoQuorums(cfg: Config, z: int, a: Body, b: Body) returns (tr: seq<Sys>)
    requires Sound(cfg) && 0 <= z < cfg.n
    ensures LooseRun(cfg, tr) && |tr| > 0 && Within(tr[|tr| - 1], {a, b})
    ensures Backed(cfg, tr[|tr| - 1].sent, Digest(a)) && Backed(cfg, tr[|tr| - 1].sent, Digest(b))
  {
    tr := EchoRun(cfg, z, a, b, cfg.n);
    AllEchoed(cfg, tr[|tr| - 1], z, a, b);
  }

  // ------------------------------------------------------------ the theorem

  /** While the SENDs handled carry bodies of this set, at most one hash is backed. */
  ghost predicate OneHashHolds(cfg: Config, bodies: set<Body>) {
    forall tr: seq<Sys>, i: nat, g: Hash, h: Hash ::
      LooseRun(cfg, tr) && i < |tr| && Within(tr[i], bodies) && Backed(cfg, tr[i].sent, g) && Backed(cfg, tr[i].sent, h) ==> g == h
  }

  predicate OneBody(bodies: set<Body>) {
    forall a, b :: a in bodies && b in bodies ==> a == b
  }

  /** Handling every SEND is harmless exactly as long as they all carry one body. */
  lemma OneHashExactly(cfg: Config, bodies: set<Body>)
    requires Sound(cfg)
    ensures OneHashHolds(cfg, bodies) <==> OneBody(bodies)
  {
    hide LooseRun, Backed;
    if OneBody(bodies) {
      forall tr: seq<Sys>, i: nat, g: Hash, h: Hash | LooseRun(cfg, tr) && i < |tr| && Within(tr[i], bodies) && Backed(cfg, tr[i].sent, g) && Backed(cfg, tr[i].sent, h)
        ensures g == h
      {
        var m := BackedIsHandled(cfg, tr, i, g);
        var o := BackedIsHandled(cfg, tr, i, h);
        assert m.body in bodies && o.body in bodies;
      }
    } else {
      var a, b :| a in bodies && b in bodies && a != b;
      var tr := TwoSendsTwoQuorums(cfg, 0, a, b);
      assert Within(tr[|tr| - 1], bodies) && Digest(a) != Digest(b);
    }
  }
}
