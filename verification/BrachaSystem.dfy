/** Reliable broadcast as a system: one instance, n nodes, up to f of them Byzantine. Byzantine
    nodes may send any ECHO or READY to anyone and different SENDs to different nodes; a correct
    node handles at most one SEND of the instance. */
module BrachaSystem {
  import opened Wrappers
  import opened Quorum
  import opened Sets
  import opened Bracha

  datatype Config = Config(n: nat, faulty: set<int>, mode: Mode)

  ghost predicate Sound(cfg: Config) {
    cfg.n >= 1 && cfg.faulty <= Ids(cfg.n) && |cfg.faulty| <= F(cfg.n)
  }

  function Correct(cfg: Config): set<int> {
    Ids(cfg.n) - cfg.faulty
  }

  /** A node and the SEND it has handled. */
  datatype Slot = Slot(node: State, send: Option<Msg>)

  /** `sent` are the messages of correct nodes; `handled` the SENDs correct nodes have handled. */
  datatype Sys = Sys(slots: seq<Slot>, sent: set<Msg>, handled: set<Msg>)

  function Init(cfg: Config): Sys {
    Sys(seq(cfg.n, x => Slot(Initial(x, cfg.n, cfg.mode), None)), {}, {})
  }

  /** Start: a correct node broadcasts a SEND, which carries no hash. Receipt: node x handles m. */
  datatype Event = Start(x: int, body: Body) | Receipt(x: int, m: Msg)

  ghost predicate Known(cfg: Config, sent: set<Msg>, m: Msg) {
    m.src in cfg.faulty || m in sent
  }

  ghost predicate Enabled(cfg: Config, s: Sys, e: Event) {
    e.x in Correct(cfg) && |s.slots| == cfg.n &&
    match e
    case Start(_, _) => true
    case Receipt(x, m) => Known(cfg, s.sent, m) && (m.Send? ==> s.slots[x].send == None)
  }

  function Outgoing(t: State): set<Msg> {
    set m | m in t.out
  }

  function SendOf(k: Slot, m: Msg): Option<Msg> {
    if m.Send? then Some(m) else k.send
  }

  function HandledAt(s: Sys, x: int, m: Msg): (t: Sys)
    requires 0 <= x < |s.slots|
    ensures |t.slots| == |s.slots|
  {
    var t := Handle(s.slots[x].node, m);
    Sys(s.slots[x := Slot(t.(out := []), SendOf(s.slots[x], m))],
        s.sent + Outgoing(t),
        s.handled + if m.Send? then {m} else {})
  }

  function Next(cfg: Config, s: Sys, e: Event): Sys
    requires Enabled(cfg, s, e)
  {
    match e
    case Start(x, body) => s.(sent := s.sent + {Msg.Send(x, NoHash, body)})
    case Receipt(x, m) => HandledAt(s, x, m)
  }

  ghost predicate Step(cfg: Config, s: Sys, s': Sys) {
    exists e :: Enabled(cfg, s, e) && s' == Next(cfg, s, e)
  }

  ghost predicate Run(cfg: Config, tr: seq<Sys>) {
    && |tr| > 0 && tr[0] == Init(cfg)
    && forall i :: 0 <= i < |tr| - 1 ==> Step(cfg, tr[i], tr[i + 1])
  }

  // ------------------------------------------------------ the echo quorum

  function Echoers(sent: set<Msg>, h: Hash): set<int> {
    set m | m in sent && m.Echo? && m.hash == h :: m.src
  }

  /** Counting every Byzantine node in its favour, the hash has a quorum of echo sources. */
  ghost predicate Backed(cfg: Config, sent: set<Msg>, h: Hash) {
    |Echoers(sent, h)| + |cfg.faulty| >= Q(cfg.n)
  }

  ghost predicate SomeBacked(cfg: Config, sent: set<Msg>) {
    exists h :: Backed(cfg, sent, h)
  }

  ghost predicate Carried(handled: set<Msg>, h: Hash) {
    exists m: Msg :: m in handled && m.hash == h
  }

  /** The hash is backed by an echo quorum, or came with a SEND that a correct node handled. */
  ghost predicate Vouched(cfg: Config, sent: set<Msg>, handled: set<Msg>, h: Hash) {
    Backed(cfg, sent, h) || Carried(handled, h)
  }

  ghost predicate HeardEcho(cfg: Config, sent: set<Msg>, src: int, h: Hash) {
    src in cfg.faulty || exists b :: Echo(src, h, b) in sent
  }

  ghost predicate HeardReady(cfg: Config, sent: set<Msg>, src: int, h: Hash) {
    src in cfg.faulty || exists b :: Ready(src, h, b) in sent
  }

  // -------------------------------------------------------- the invariant

  ghost predicate Counters(cfg: Config, sent: set<Msg>, p: State) {
    && (forall h, src :: src in At(p.echoes, h) ==> HeardEcho(cfg, sent, src, h))
    && (forall h, src :: src in At(p.readies, h) ==> HeardReady(cfg, sent, src, h))
  }

  predicate Progressed(p: State) {
    p.cache >= ECHO || p.status >= ECHO || p.rstatus
  }

  ghost predicate MsgOk(cfg: Config, sent: set<Msg>, handled: set<Msg>, send: Option<Msg>, m: Msg) {
    match m
    case Send(_, _, _) => true
    case Echo(_, h, _) => send.Some? && h == Digest(send.value.body)
    case Ready(_, h, _) => SomeBacked(cfg, sent) && Vouched(cfg, sent, handled, h)
  }

  ghost predicate NodeOk(cfg: Config, sent: set<Msg>, handled: set<Msg>, p: State, send: Option<Msg>) {
    && p.n == cfg.n && p.mode == cfg.mode
    && Counters(cfg, sent, p)
    && (Progressed(p) ==> SomeBacked(cfg, sent))
    && (send.Some? ==> send.value in handled)
    && (forall m :: m in p.out ==> m.src == p.id && MsgOk(cfg, sent, handled, send, m))
  }

  ghost predicate Inv(cfg: Config, s: Sys) {
    && |s.slots| == cfg.n
    && (forall x :: x in Correct(cfg) ==>
          s.slots[x].node.id == x && s.slots[x].node.out == [] && NodeOk(cfg, s.sent, s.handled, s.slots[x].node, s.slots[x].send))
    && (forall m :: m in s.sent ==> m.src in Correct(cfg) && MsgOk(cfg, s.sent, s.handled, s.slots[m.src].send, m))
  }

  // --------------------------------------------------------- preservation

  lemma BackedMono(cfg: Config, sent: set<Msg>, sent': set<Msg>, h: Hash)
    requires Backed(cfg, sent, h) && sent <= sent'
    ensures Backed(cfg, sent', h)
  {
    SubsetCard(Echoers(sent, h), Echoers(sent', h));
  }

  lemma SomeBackedMono(cfg: Config, sent: set<Msg>, sent': set<Msg>)
    requires SomeBacked(cfg, sent) && sent <= sent'
    ensures SomeBacked(cfg, sent')
  {
    var h :| Backed(cfg, sent, h);
    BackedMono(cfg, sent, sent', h);
  }

  lemma VouchedMono(cfg: Config, sent: set<Msg>, handled: set<Msg>, sent': set<Msg>, handled': set<Msg>, h: Hash)
    requires Vouched(cfg, sent, handled, h) && sent <= sent' && handled <= handled'
    ensures Vouched(cfg, sent', handled', h)
  {
    if Backed(cfg, sent, h) {
      BackedMono(cfg, sent, sent', h);
    }
  }

  lemma MsgOkMono(cfg: Config, sent: set<Msg>, handled: set<Msg>, sent': set<Msg>, handled': set<Msg>,
                  send: Option<Msg>, send': Option<Msg>, m: Msg)
    requires MsgOk(cfg, sent, handled, send, m) && sent <= sent' && handled <= handled'
    requires send.Some? ==> send' == send
    ensures MsgOk(cfg, sent', handled', send', m)
  {
    if m.Ready? {
      SomeBackedMono(cfg, sent, sent');
      VouchedMono(cfg, sent, handled, sent', handled', m.hash);
    }
  }

  lemma NodeOkMono(cfg: Config, sent: set<Msg>, handled: set<Msg>, sent': set<Msg>, handled': set<Msg>,
                   p: State, send: Option<Msg>, send': Option<Msg>)
    requires NodeOk(cfg, sent, handled, p, send) && sent <= sent' && handled <= handled'
    requires send.Some? ==> send' == send
    requires send'.Some? ==> send'.value in handled'
    ensures NodeOk(cfg, sent', handled', p, send')
  {
    forall h, src | src in At(p.echoes, h)
      ensures HeardEcho(cfg, sent', src, h)
    {
      assert HeardEcho(cfg, sent, src, h);
    }
    forall h, src | src in At(p.readies, h)
      ensures HeardReady(cfg, sent', src, h)
    {
      assert HeardReady(cfg, sent, src, h);
    }
    if Progressed(p) {
      SomeBackedMono(cfg, sent, sent');
    }
    forall m | m in p.out
      ensures MsgOk(cfg, sent', handled', send', m)
    {
      MsgOkMono(cfg, sent, handled, sent', handled', send, send', m);
    }
  }

  /** A quorum of echoes counted anywhere makes the hash backed. */
  lemma EchoQuorum(cfg: Config, sent: set<Msg>, p: State, h: Hash)
    requires Counters(cfg, sent, p) && Len(p.echoes, h) >= Q(cfg.n)
    ensures Backed(cfg, sent, h)
  {
    var srcs := At(p.echoes, h);
    forall x | x in srcs
      ensures x in cfg.faulty || x in Echoers(sent, h)
    {
      assert HeardEcho(cfg, sent, x, h);
      if x !in cfg.faulty {
        var b :| Echo(x, h, b) in sent;
        assert Echo(x, h, b).src == x;
      }
    }
    SubsetCard(srcs, cfg.faulty + Echoers(sent, h));
    assert |cfg.faulty + Echoers(sent, h)| == |cfg.faulty| + |Echoers(sent, h)| - |cfg.faulty * Echoers(sent, h)|;
  }

  /** f+1 READYs for a hash include one of a correct node, which vouches for it. */
  lemma ReadyQuorum(cfg: Config, sent: set<Msg>, handled: set<Msg>, p: State, h: Hash)
    requires Sound(cfg) && Counters(cfg, sent, p) && Len(p.readies, h) >= SQ(cfg.n)
    requires forall m :: m in sent && m.Ready? ==> SomeBacked(cfg, sent) && Vouched(cfg, sent, handled, m.hash)
    ensures SomeBacked(cfg, sent) && Vouched(cfg, sent, handled, h)
  {
    var src := Outside(At(p.readies, h), cfg.faulty);
    assert HeardReady(cfg, sent, src, h);
    var b :| Ready(src, h, b) in sent;
    assert Ready(src, h, b).hash == h;
  }

  lemma ReceiveOk(cfg: Config, sent: set<Msg>, handled: set<Msg>, p: State, send: Option<Msg>, m: Msg)
    requires NodeOk(cfg, sent, handled, p, send)
    ensures NodeOk(cfg, sent, handled, Receive(p, m), send)
  {
  }

  lemma DeliverOk(cfg: Config, sent: set<Msg>, handled: set<Msg>, p: State, send: Option<Msg>, m: Msg)
    requires NodeOk(cfg, sent, handled, p, send) && SomeBacked(cfg, sent) && Vouched(cfg, sent, handled, m.hash)
    ensures NodeOk(cfg, sent, handled, Deliver(p, m), send)
  {
    if p.status == ECHO {
      ReceiveOk(cfg, sent, handled, p, send, m);
      var t := CheckList(Receive(p, m), m);
      assert Counters(cfg, sent, t.(status := READY, rstatus := true));
    } else {
      assert Counters(cfg, sent, p.(cache := READY));
    }
  }

  lemma SendReadyOk(cfg: Config, sent: set<Msg>, handled: set<Msg>, p: State, send: Option<Msg>, m: Msg)
    requires NodeOk(cfg, sent, handled, p, send) && SomeBacked(cfg, sent) && Vouched(cfg, sent, handled, m.hash)
    ensures NodeOk(cfg, sent, handled, SendReady(p, m), send)
  {
    if p.status == SEND {
      var t := SendReady(p, m);
      assert Counters(cfg, sent, t);
      assert MsgOk(cfg, sent, handled, send, Ready(p.id, m.hash, m.body));
    } else if p.cache == READY {
      var t := p.(status := ECHO);
      assert Counters(cfg, sent, t);
      DeliverOk(cfg, sent, handled, t, send, m);
    } else {
      assert Counters(cfg, sent, p.(cache := ECHO));
    }
  }

  lemma HandleEchoOk(cfg: Config, sent: set<Msg>, handled: set<Msg>, p: State, send: Option<Msg>, m: Msg)
    requires Sound(cfg) && NodeOk(cfg, sent, handled, p, send) && m.Echo? && Known(cfg, sent, m)
    ensures NodeOk(cfg, sent, handled, HandleEcho(p, m), send)
  {
    if !p.rstatus {
      var t := p.(echoes := Insert(p.echoes, m.hash, m.src));
      forall h, src | src in At(t.echoes, h)
        ensures HeardEcho(cfg, sent, src, h)
      {
        if src !in At(p.echoes, h) {
          assert m == Echo(src, h, m.body);
        }
      }
      assert Counters(cfg, sent, t);
      if Len(t.echoes, m.hash) >= Q(p.n) {
        EchoQuorum(cfg, sent, t, m.hash);
        ReceiveOk(cfg, sent, handled, t, send, m);
        SendReadyOk(cfg, sent, handled, Receive(t, m), send, m);
      }
    }
  }

  lemma HandleReadyOk(cfg: Config, sent: set<Msg>, handled: set<Msg>, p: State, send: Option<Msg>, m: Msg)
    requires Sound(cfg) && NodeOk(cfg, sent, handled, p, send) && m.Ready? && Known(cfg, sent, m)
    requires forall o :: o in sent && o.Ready? ==> SomeBacked(cfg, sent) && Vouched(cfg, sent, handled, o.hash)
    ensures NodeOk(cfg, sent, handled, HandleReady(p, m), send)
  {
    if !p.rstatus {
      var t := p.(readies := Insert(p.readies, m.hash, m.src));
      forall h, src | src in At(t.readies, h)
        ensures HeardReady(cfg, sent, src, h)
      {
        if src !in At(p.readies, h) {
          assert m == Ready(src, h, m.body);
        }
      }
      assert Counters(cfg, sent, t);
      QuorumArithmetic(cfg.n);
      if Len(t.readies, m.hash) >= SQ(p.n) {
        ReadyQuorum(cfg, sent, handled, t, m.hash);
      }
      var u := if Len(t.readies, m.hash) == SQ(p.n) then SendReady(Receive(t, m), m) else t;
      if Len(t.readies, m.hash) == SQ(p.n) {
        ReceiveOk(cfg, sent, handled, t, send, m);
        SendReadyOk(cfg, sent, handled, Receive(t, m), send, m);
      }
      assert NodeOk(cfg, sent, handled, u, send);
      if Len(t.readies, m.hash) >= Q(p.n) {
        DeliverOk(cfg, sent, handled, u, send, m);
      }
    }
  }

  lemma HandleSendOk(cfg: Config, sent: set<Msg>, handled: set<Msg>, p: State, m: Msg)
    requires NodeOk(cfg, sent, handled, p, Some(m)) && m.Send?
    ensures NodeOk(cfg, sent, handled, HandleSend(p, m), Some(m))
  {
    if !p.rstatus {
      var a := ReceiveSend(p.(status := SEND), m);
      var t := a.(out := a.out + [EchoOf(p.id, p.mode, m)]);
      assert t.echoes == p.echoes && t.readies == p.readies && t.cache == p.cache;
      assert Counters(cfg, sent, t);
      assert MsgOk(cfg, sent, handled, Some(m), EchoOf(p.id, p.mode, m));
      assert NodeOk(cfg, sent, handled, t, Some(m));
      if p.cache >= ECHO {
        assert Carried(handled, m.hash);
        SendReadyOk(cfg, sent, handled, t, Some(m), m);
        if p.cache == READY {
          DeliverOk(cfg, sent, handled, SendReady(t, m), Some(m), m);
        }
      }
    }
  }

  lemma HandleOk(cfg: Config, sent: set<Msg>, handled: set<Msg>, p: State, send: Option<Msg>, m: Msg)
    requires Sound(cfg) && NodeOk(cfg, sent, handled, p, send) && Known(cfg, sent, m)
    requires forall o :: o in sent && o.Ready? ==> SomeBacked(cfg, sent) && Vouched(cfg, sent, handled, o.hash)
    requires m.Send? ==> send == Some(m)
    ensures NodeOk(cfg, sent, handled, Handle(p, m), send)
  {
    match m
    case Send(_, _, _) => HandleSendOk(cfg, sent, handled, p, m);
    case Echo(_, _, _) => HandleEchoOk(cfg, sent, handled, p, send, m);
    case Ready(_, _, _) => HandleReadyOk(cfg, sent, handled, p, send, m);
  }

  /** The fields no handler touches. */
  predicate SameNode(p: State, t: State) {
    t.id == p.id && t.n == p.n && t.mode == p.mode
  }

  lemma HandleId(p: State, m: Msg)
    ensures SameNode(p, Handle(p, m))
  {
    hide Receive, CheckList, ReceiveSend;
    StoreIds(p, m);
    match m
    case Send(_, _, _) =>
      var a := ReceiveSend(p.(status := SEND), m);
      StoreIds(p.(status := SEND), m);
      var t := a.(out := a.out + [EchoOf(p.id, p.mode, m)]);
      SendReadyId(t, m);
      DeliverId(SendReady(t, m), m);
    case Echo(_, _, _) =>
      var t := p.(echoes := Insert(p.echoes, m.hash, m.src));
      StoreIds(t, m);
      SendReadyId(Receive(t, m), m);
    case Ready(_, _, _) =>
      var t := p.(readies := Insert(p.readies, m.hash, m.src));
      StoreIds(t, m);
      SendReadyId(Receive(t, m), m);
      DeliverId(t, m);
      DeliverId(SendReady(Receive(t, m), m), m);
  }

  lemma StoreIds(p: State, m: Msg)
    ensures SameNode(p, Receive(p, m)) && SameNode(p, CheckList(p, m)) && SameNode(p, ReceiveSend(p, m))
  {
  }

  lemma DeliverId(p: State, m: Msg)
    ensures SameNode(p, Deliver(p, m))
  {
  }

  lemma SendReadyId(p: State, m: Msg)
    ensures SameNode(p, SendReady(p, m))
  {
  }

  lemma StartKeeps(cfg: Config, s: Sys, x: int, body: Body)
    requires Inv(cfg, s) && x in Correct(cfg)
    ensures Inv(cfg, s.(sent := s.sent + {Msg.Send(x, NoHash, body)}))
  {
    var sent' := s.sent + {Msg.Send(x, NoHash, body)};
    forall y | y in Correct(cfg)
      ensures NodeOk(cfg, sent', s.handled, s.slots[y].node, s.slots[y].send)
    {
      NodeOkMono(cfg, s.sent, s.handled, sent', s.handled, s.slots[y].node, s.slots[y].send, s.slots[y].send);
    }
    forall m | m in sent'
      ensures m.src in Correct(cfg) && MsgOk(cfg, sent', s.handled, s.slots[m.src].send, m)
    {
      if m in s.sent {
        MsgOkMono(cfg, s.sent, s.handled, sent', s.handled, s.slots[m.src].send, s.slots[m.src].send, m);
      }
    }
  }

  lemma ReceiptKeeps(cfg: Config, s: Sys, x: int, m: Msg)
    requires Sound(cfg) && Inv(cfg, s) && Enabled(cfg, s, Receipt(x, m))
    ensures Inv(cfg, Next(cfg, s, Receipt(x, m)))
  {
    hide Handle, NodeOk, MsgOk;
    var s' := Next(cfg, s, Receipt(x, m));
    var k := s.slots[x];
    var t := Handle(k.node, m);
    var send' := SendOf(k, m);
    ReadiesVouched(cfg, s, s'.handled);
    SendRecorded(cfg, s, x, m);
    NodeOkMono(cfg, s.sent, s.handled, s.sent, s'.handled, k.node, k.send, send');
    HandleOk(cfg, s.sent, s'.handled, k.node, send', m);
    HandleId(k.node, m);
    OutgoingOk(cfg, s.sent, s'.handled, t, send');
    forall y | y in Correct(cfg)
      ensures NodeOk(cfg, s'.sent, s'.handled, s'.slots[y].node, s'.slots[y].send)
    {
      if y == x {
        FlushOk(cfg, s.sent, s'.handled, t, send', s'.sent);
      } else {
        SendRecorded(cfg, s, y, m);
        NodeOkMono(cfg, s.sent, s.handled, s'.sent, s'.handled, s.slots[y].node, s.slots[y].send, s.slots[y].send);
      }
    }
    forall o | o in s'.sent
      ensures o.src in Correct(cfg) && MsgOk(cfg, s'.sent, s'.handled, s'.slots[o.src].send, o)
    {
      if o in s.sent {
        MsgOkMono(cfg, s.sent, s.handled, s'.sent, s'.handled, s.slots[o.src].send, s'.slots[o.src].send, o);
      } else {
        MsgOkMono(cfg, s.sent, s'.handled, s'.sent, s'.handled, send', send', o);
      }
    }
  }

  lemma ReadiesVouched(cfg: Config, s: Sys, handled': set<Msg>)
    requires Inv(cfg, s) && s.handled <= handled'
    ensures forall o :: o in s.sent && o.Ready? ==> SomeBacked(cfg, s.sent) && Vouched(cfg, s.sent, handled', o.hash)
  {
  }

  lemma SendRecorded(cfg: Config, s: Sys, x: int, m: Msg)
    requires Inv(cfg, s) && x in Correct(cfg)
    ensures s.slots[x].send.Some? ==> s.slots[x].send.value in s.handled
  {
  }

  lemma OutgoingOk(cfg: Config, sent: set<Msg>, handled: set<Msg>, t: State, send: Option<Msg>)
    requires NodeOk(cfg, sent, handled, t, send)
    ensures forall o :: o in Outgoing(t) ==> o.src == t.id && MsgOk(cfg, sent, handled, send, o)
  {
  }

  lemma FlushOk(cfg: Config, sent: set<Msg>, handled: set<Msg>, t: State, send: Option<Msg>, sent': set<Msg>)
    requires NodeOk(cfg, sent, handled, t, send) && sent <= sent'
    ensures NodeOk(cfg, sent', handled, t.(out := []), send)
  {
    NodeOkMono(cfg, sent, handled, sent', handled, t, send, send);
    assert Counters(cfg, sent', t.(out := []));
  }

  lemma {:induction false} RunKeeps(cfg: Config, tr: seq<Sys>, i: nat)
    requires Sound(cfg) && Run(cfg, tr) && i < |tr|
    ensures Inv(cfg, tr[i])
  {
    if i > 0 {
      hide Inv, Next;
      RunKeeps(cfg, tr, i - 1);
      assert Step(cfg, tr[i - 1], tr[i - 1 + 1]);
      var e :| Enabled(cfg, tr[i - 1], e) && tr[i] == Next(cfg, tr[i - 1], e);
      StepKeeps(cfg, tr[i - 1], e);
    }
  }

  lemma StepKeeps(cfg: Config, s: Sys, e: Event)
    requires Sound(cfg) && Inv(cfg, s) && Enabled(cfg, s, e)
    ensures Inv(cfg, Next(cfg, s, e))
  {
    match e
    case Start(x, body) => StartKeeps(cfg, s, x, body);
    case Receipt(x, m) => ReceiptKeeps(cfg, s, x, m);
  }

  // ------------------------------------------------------------ agreement

  /** A correct node echoes one hash only. */
  lemma OneEchoEach(cfg: Config, s: Sys, a: Msg, b: Msg)
    requires Inv(cfg, s) && a in s.sent && b in s.sent && a.Echo? && b.Echo? && a.src == b.src
    ensures a.hash == b.hash
  {
  }

  lemma EchoersCorrect(cfg: Config, s: Sys, h: Hash)
    requires Inv(cfg, s)
    ensures Echoers(s.sent, h) <= Correct(cfg)
  {
  }

  /** At most one hash is backed, however the sender and the other faulty nodes behave. */
  lemma BackedUnique(cfg: Config, s: Sys, g: Hash, h: Hash)
    requires Sound(cfg) && Inv(cfg, s) && Backed(cfg, s.sent, g) && Backed(cfg, s.sent, h)
    ensures g == h
  {
    var a, b := Echoers(s.sent, g), Echoers(s.sent, h);
    EchoersCorrect(cfg, s, g);
    EchoersCorrect(cfg, s, h);
    QuorumArithmetic(cfg.n);
    CorrectCount(cfg);
    hide Inv, Echoers, Correct;
    var x := Meet(a, b, Correct(cfg));
    OneEchoEach(cfg, s, EchoBy(s.sent, g, x), EchoBy(s.sent, h, x));
  }

  lemma CorrectCount(cfg: Config)
    requires Sound(cfg)
    ensures |Correct(cfg)| == cfg.n - |cfg.faulty|
  {
  }

  ghost function EchoBy(sent: set<Msg>, h: Hash, x: int): (m: Msg)
    requires x in Echoers(sent, h)
    ensures m in sent && m.Echo? && m.hash == h && m.src == x
  {
    var m :| m in sent && m.Echo? && m.hash == h && m.src == x;
    m
  }

  /** Agreement of rbc and wrbc: as soon as a correct node has delivered, cached a delivery, or sent
      a READY, exactly one hash is backed by an echo quorum, for everyone; and every READY of a
      correct node carries that hash or the hash of a SEND some correct node handled. */
  lemma Agreement(cfg: Config, tr: seq<Sys>, i: nat) returns (h: Hash)
    requires Sound(cfg) && Run(cfg, tr) && i < |tr|
    requires || (exists x :: x in Correct(cfg) && 0 <= x < |tr[i].slots| && Progressed(tr[i].slots[x].node))
             || (exists m: Msg :: m in tr[i].sent && m.Ready?)
    ensures Backed(cfg, tr[i].sent, h)
    ensures forall g :: Backed(cfg, tr[i].sent, g) ==> g == h
    ensures forall m :: m in tr[i].sent && m.Ready? ==> m.hash == h || Carried(tr[i].handled, m.hash)
  {
    var s := tr[i];
    RunKeeps(cfg, tr, i);
    assert SomeBacked(cfg, s.sent) by {
      if x :| x in Correct(cfg) && 0 <= x < |s.slots| && Progressed(s.slots[x].node) {
        assert NodeOk(cfg, s.sent, s.handled, s.slots[x].node, s.slots[x].send);
      } else {
        var m :| m in s.sent && m.Ready?;
        assert MsgOk(cfg, s.sent, s.handled, s.slots[m.src].send, m);
      }
    }
    h :| Backed(cfg, s.sent, h);
    forall g | Backed(cfg, s.sent, g)
      ensures g == h
    {
      BackedUnique(cfg, s, g, h);
    }
    forall m | m in s.sent && m.Ready?
      ensures m.hash == h || Carried(s.handled, m.hash)
    {
      assert MsgOk(cfg, s.sent, s.handled, s.slots[m.src].send, m);
    }
  }

  lemma {:induction false} SentGrows(cfg: Config, tr: seq<Sys>, i: nat, j: nat)
    requires Run(cfg, tr) && i <= j < |tr|
    ensures tr[i].sent <= tr[j].sent && tr[i].handled <= tr[j].handled
    decreases j - i
  {
    if i < j {
      assert Step(cfg, tr[i], tr[i + 1]);
      SentGrows(cfg, tr, i + 1, j);
    }
  }
}
