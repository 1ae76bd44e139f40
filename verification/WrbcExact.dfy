/** What wrbc is for: the vector of the SEND is kept. At one node, exactly when it survives the delivery;
    over runs with an honest sender, exactly for which group sizes it always does. A node whose SEND comes
    late answers it with a READY that carries the hash of the SEND, which is none, and when 3 divides the
    group size there can be enough such nodes. */
module WrbcExact {
  import opened Wrappers
  import opened Quorum
  import opened Sets
  import opened Bracha
  import opened BrachaSystem
  import opened BrachaTheorems
  import opened BrachaLoose
  import opened BrachaLimits
  import opened WrbcTheorems

  // -------------------------------------------------------------- one node

  /** The vector, unless a delivery has just come with another hash. */
  predicate KeptOrDropped(p: State, t: State, m: Msg) {
    t.list == if t.rstatus && m.hash != Digest(p.list) then None else p.list
  }

  lemma ReadyKeepsList(p: State, m: Msg)
    requires p.mode == Wrbc && p.list.Some? && Received(p) && !p.rstatus
    ensures var t := SendReady(p, m); KeptOrDropped(p, t, m) && t.mode == Wrbc && Received(t)
  {
    if p.status == SEND {
    } else if p.cache == READY {
    } else {
    }
  }

  lemma DeliverKeepsList(p: State, m: Msg)
    requires p.mode == Wrbc && p.list.Some? && Received(p) && !p.rstatus
    ensures KeptOrDropped(p, Deliver(p, m), m)
  {
  }

  /** A second delivery in one step changes nothing. */
  lemma DeliverTwice(p: State, m: Msg)
    requires SendReady(p, m).rstatus && !p.rstatus
    ensures var t := SendReady(p, m); Deliver(t, m).list == t.list && Deliver(t, m).rstatus
  {
  }

  lemma SendKeepsList(p: State, m: Msg)
    requires p.mode == Wrbc && !p.rstatus && p.list.Some? && Received(p) && m.Send?
    ensures KeptOrDropped(p, HandleSend(p, m), m)
  {
    var t := ReceiveSend(p.(status := SEND), m).(out := p.out + [EchoOf(p.id, p.mode, m)]);
    assert t.list == p.list && t.status == SEND && Received(t) && t.mode == Wrbc && !t.rstatus;
    ReadyKeepsList(t, m);
    var u := SendReady(t, m);
    assert !u.rstatus;
    hide SendReady, Deliver, ReceiveSend;
    DeliverKeepsList(t, m);
    DeliverKeepsList(u, m);
  }

  lemma EchoKeepsList(p: State, m: Msg)
    requires p.mode == Wrbc && !p.rstatus && p.list.Some? && Received(p) && m.Echo?
    ensures KeptOrDropped(p, HandleEcho(p, m), m)
  {
    var t := p.(echoes := Insert(p.echoes, m.hash, m.src));
    assert Receive(t, m) == t;
    ReadyKeepsList(t, m);
    hide SendReady, Insert, Len;
  }

  lemma ReadiesKeepList(p: State, m: Msg)
    requires p.mode == Wrbc && !p.rstatus && p.list.Some? && Received(p) && m.Ready?
    ensures KeptOrDropped(p, HandleReady(p, m), m)
  {
    var t := p.(readies := Insert(p.readies, m.hash, m.src));
    assert Receive(t, m) == t;
    ReadyKeepsList(t, m);
    DeliverKeepsList(t, m);
    if SendReady(t, m).rstatus {
      DeliverTwice(t, m);
    } else {
      DeliverKeepsList(SendReady(t, m), m);
    }
    hide SendReady, Deliver, Insert, Len;
  }

  /** The vector survives a message exactly when the message does not make the node deliver, or carries the
      hash of the vector. */
  lemma DeliveryKeeps(p: State, m: Msg)
    requires p.mode == Wrbc && !p.rstatus && p.list.Some? && Received(p)
    ensures var t := Handle(p, m); t.list == if t.rstatus && m.hash != Digest(p.list) then None else p.list
  {
    hide HandleSend, HandleEcho, HandleReady;
    match m
    case Send(_, _, _) => SendKeepsList(p, m);
    case Echo(_, _, _) => EchoKeepsList(p, m);
    case Ready(_, _, _) => ReadiesKeepList(p, m);
  }

  /** A node that has cached and stored nothing stores the vector of its SEND. */
  lemma SendIsStored(p: State, m: Msg)
    requires p.mode == Wrbc && !p.rstatus && !Received(p) && p.cache < ECHO && m.Send?
    ensures Handle(p, m).list == m.body && Handle(p, m).req == Some(Fingerprint(Digest(m.body)))
  {
  }

  // ---------------------------------------------------- an honest sender

  /** The sender sends one body to all, as StartRBC does, without a hash. Byzantine nodes may send any
      ECHO, and READYs for the hash of that body. */
  predicate Fair(cfg: Config, b: Body, e: Event) {
    match e
    case Start(_, body) => body == b
    case Receipt(_, m) =>
      && (m.Send? ==> m.hash == NoHash && m.body == b)
      && (m.Ready? && m.src in cfg.faulty ==> m.hash == Digest(b))
  }

  ghost predicate FairStep(cfg: Config, b: Body, s: Sys, s': Sys) {
    exists e :: Enabled(cfg, s, e) && Fair(cfg, b, e) && s' == Next(cfg, s, e)
  }

  ghost predicate FairRun(cfg: Config, b: Body, tr: seq<Sys>) {
    && |tr| > 0 && tr[0] == Init(cfg)
    && forall i :: 0 <= i < |tr| - 1 ==> FairStep(cfg, b, tr[i], tr[i + 1])
  }

  lemma FairIsRun(cfg: Config, b: Body, tr: seq<Sys>)
    requires FairRun(cfg, b, tr)
    ensures Run(cfg, tr)
  {
    hide Next, Enabled, Fair;
    forall i | 0 <= i < |tr| - 1
      ensures Step(cfg, tr[i], tr[i + 1])
    {
      assert FairStep(cfg, b, tr[i], tr[i + 1]);
    }
  }

  lemma FairStarts(cfg: Config, b: Body, tr: seq<Sys>)
    requires FairRun(cfg, b, tr)
    ensures |tr| > 0 && tr[0] == Init(cfg)
  {
  }

  lemma EventAt(cfg: Config, b: Body, tr: seq<Sys>, i: nat) returns (e: Event)
    requires FairRun(cfg, b, tr) && i + 1 < |tr|
    ensures Enabled(cfg, tr[i], e) && Fair(cfg, b, e) && tr[i + 1] == Next(cfg, tr[i], e)
  {
    hide Next, Enabled, Fair;
    assert FairStep(cfg, b, tr[i], tr[i + 1]);
    e :| Enabled(cfg, tr[i], e) && Fair(cfg, b, e) && tr[i + 1] == Next(cfg, tr[i], e);
  }

  /** The nodes that have answered a late SEND, or one another, with a READY without a hash. */
  function Blank(sent: set<Msg>): set<int> {
    set m | m in sent && m.Ready? && m.hash == NoHash :: m.src
  }

  predicate FairMsg(b: Body, m: Msg) {
    match m
    case Send(_, h, body) => h == NoHash && body == b
    case Echo(_, h, _) => h == Digest(b)
    case Ready(_, h, _) => h == Digest(b) || h == NoHash
  }

  /** The nodes in early echoed before the body had an echo quorum: they do not send a blank READY, and
      when there is an echo quorum they are one. */
  ghost predicate Early(cfg: Config, b: Body, sent: set<Msg>, early: set<int>) {
    && early <= Echoers(sent, Digest(b)) && early !! Blank(sent)
    && if Backed(cfg, sent, Digest(b)) then |early| + |cfg.faulty| >= Q(cfg.n) else early == Echoers(sent, Digest(b))
  }

  ghost predicate SomeEarly(cfg: Config, b: Body, sent: set<Msg>) {
    exists early :: Early(cfg, b, sent, early)
  }

  /** A node has counted blank READYs only of nodes that sent them. */
  ghost predicate BlanksOk(sent: set<Msg>, p: State) {
    At(p.readies, NoHash) <= Blank(sent)
  }

  ghost predicate FairInv(cfg: Config, b: Body, s: Sys) {
    && |s.slots| == cfg.n && SomeEarly(cfg, b, s.sent)
    && (forall m :: m in s.sent ==> FairMsg(b, m))
    && (forall x :: x in Correct(cfg) ==> BlanksOk(s.sent, s.slots[x].node))
  }

  // --------------------------------------------------------- preservation

  /** A hash with an echo quorum is that of the body. */
  lemma BackedIsBody(cfg: Config, b: Body, sent: set<Msg>, h: Hash)
    requires Sound(cfg) && Backed(cfg, sent, h) && forall m :: m in sent ==> FairMsg(b, m)
    ensures h == Digest(b)
  {
    QuorumArithmetic(cfg.n);
    var x := Member(Echoers(sent, h));
    var m := EchoBy(sent, h, x);
  }

  lemma BlankIsBacked(cfg: Config, b: Body, s: Sys)
    requires Sound(cfg) && Inv(cfg, s) && FairInv(cfg, b, s) && Blank(s.sent) != {}
    ensures Backed(cfg, s.sent, Digest(b))
  {
    var x := Member(Blank(s.sent));
    var m :| m in s.sent && m.Ready? && m.hash == NoHash && m.src == x;
    assert MsgOk(cfg, s.sent, s.handled, s.slots[m.src].send, m);
    var h :| Backed(cfg, s.sent, h);
    BackedIsBody(cfg, b, s.sent, h);
  }

  /** Blank READYs come from at most n - Q(n) nodes. */
  lemma FewBlanks(cfg: Config, b: Body, s: Sys)
    requires Sound(cfg) && Inv(cfg, s) && FairInv(cfg, b, s)
    ensures |Blank(s.sent)| <= cfg.n - Q(cfg.n)
  {
    QuorumArithmetic(cfg.n);
    if Blank(s.sent) != {} {
      BlankIsBacked(cfg, b, s);
      var early :| Early(cfg, b, s.sent, early);
      EchoersCorrect(cfg, s, Digest(b));
      BlanksCorrect(cfg, s);
      CorrectCount(cfg);
      DisjointCard(early, Blank(s.sent), Correct(cfg));
    }
  }

  lemma BlanksCorrect(cfg: Config, s: Sys)
    requires Inv(cfg, s)
    ensures Blank(s.sent) <= Correct(cfg)
  {
  }

  lemma FewCounted(cfg: Config, b: Body, s: Sys, x: int)
    requires Sound(cfg) && cfg.n % 3 != 0 && Inv(cfg, s) && FairInv(cfg, b, s) && x in Correct(cfg)
    ensures Len(s.slots[x].node.readies, NoHash) < SQ(cfg.n) && |Blank(s.sent)| < SQ(cfg.n)
  {
    FewBlanks(cfg, b, s);
    QuorumArithmetic(cfg.n);
    SubsetCard(At(s.slots[x].node.readies, NoHash), Blank(s.sent));
  }

  // what a node sends, and why

  lemma ReadyOfSend(p: State, m: Msg, o: Msg)
    requires p.out == [] && m.Send? && o in HandleSend(p, m).out && o.Ready?
    ensures p.cache >= ECHO
  {
  }

  lemma ReadyOfEcho(p: State, m: Msg, o: Msg)
    requires p.out == [] && m.Echo? && o in HandleEcho(p, m).out
    ensures Len(Insert(p.echoes, m.hash, m.src), m.hash) >= Q(p.n)
  {
  }

  lemma ReadyOfReady(p: State, m: Msg, o: Msg)
    requires p.out == [] && m.Ready? && o in HandleReady(p, m).out
    ensures Len(Insert(p.readies, m.hash, m.src), m.hash) == SQ(p.n)
  {
    var t := p.(readies := Insert(p.readies, m.hash, m.src));
    DeliverOut(SendReady(Receive(t, m), m), m);
    DeliverOut(t, m);
  }

  lemma CountedBlanks(cfg: Config, b: Body, s: Sys, x: int, m: Msg)
    requires FairInv(cfg, b, s) && Enabled(cfg, s, Receipt(x, m)) && Fair(cfg, b, Receipt(x, m)) && m.Ready?
    ensures m.hash == Digest(b) || m.hash == NoHash
    ensures At(Insert(s.slots[x].node.readies, m.hash, m.src), NoHash) <= Blank(s.sent)
  {
    if m.src !in cfg.faulty {
      assert FairMsg(b, m);
    }
  }

  /** A READY of an ECHO or a READY is for the body; one of a SEND is blank, and then the body already has
      an echo quorum. */
  lemma ReadySent(cfg: Config, b: Body, s: Sys, x: int, m: Msg, o: Msg)
    requires Sound(cfg) && cfg.n % 3 != 0 && Inv(cfg, s) && FairInv(cfg, b, s)
    requires Enabled(cfg, s, Receipt(x, m)) && Fair(cfg, b, Receipt(x, m)) && o in Handle(s.slots[x].node, m).out && o.Ready?
    ensures o.src == x && (o.hash == Digest(b) || (o.hash == NoHash && m.Send? && Backed(cfg, s.sent, Digest(b))))
  {
    var p := s.slots[x].node;
    assert p.out == [] && NodeOk(cfg, s.sent, s.handled, p, s.slots[x].send) && p.n == cfg.n && p.id == x;
    HandleOut(p, m);
    assert o.hash == m.hash && o.src == x;
    hide Handle, HandleSend, HandleEcho, HandleReady, Signs;
    match m
    case Send(_, _, _) =>
      assert o in HandleSend(p, m).out by {
        HandleIs(p, m);
      }
      ReadyOfSend(p, m, o);
      CachedIsBacked(cfg, b, s, x);
    case Echo(_, _, _) =>
      assert o in HandleEcho(p, m).out by {
        HandleIs(p, m);
      }
      ReadyOfEcho(p, m, o);
      InsertedEcho(cfg, s, p, m);
      EchoQuorum(cfg, s.sent, p.(echoes := Insert(p.echoes, m.hash, m.src)), m.hash);
      FairSent(cfg, b, s);
      BackedIsBody(cfg, b, s.sent, m.hash);
    case Ready(_, _, _) =>
      assert o in HandleReady(p, m).out by {
        HandleIs(p, m);
      }
      ReadyOfReady(p, m, o);
      CountedBlanks(cfg, b, s, x, m);
      FewCounted(cfg, b, s, x);
      if m.hash == NoHash {
        SubsetCard(At(Insert(p.readies, m.hash, m.src), NoHash), Blank(s.sent));
        assert false;
      }
  }

  lemma HandleIs(p: State, m: Msg)
    ensures Handle(p, m) == match m
      case Send(_, _, _) => HandleSend(p, m)
      case Echo(_, _, _) => HandleEcho(p, m)
      case Ready(_, _, _) => HandleReady(p, m)
  {
  }

  lemma FairSent(cfg: Config, b: Body, s: Sys)
    requires FairInv(cfg, b, s)
    ensures forall m :: m in s.sent ==> FairMsg(b, m)
  {
  }

  lemma CachedIsBacked(cfg: Config, b: Body, s: Sys, x: int)
    requires Sound(cfg) && Inv(cfg, s) && FairInv(cfg, b, s) && x in Correct(cfg) && Progressed(s.slots[x].node)
    ensures Backed(cfg, s.sent, Digest(b))
  {
    assert NodeOk(cfg, s.sent, s.handled, s.slots[x].node, s.slots[x].send);
    assert SomeBacked(cfg, s.sent);
    hide NodeOk, Backed;
    FairSent(cfg, b, s);
    var h :| Backed(cfg, s.sent, h);
    BackedIsBody(cfg, b, s.sent, h);
  }

  /** Until its SEND a node has echoed nothing. */
  lemma NoEchoYet(cfg: Config, s: Sys, x: int, h: Hash)
    requires Inv(cfg, s) && x in Correct(cfg) && s.slots[x].send == None
    ensures x !in Echoers(s.sent, h)
  {
    assert forall m :: m in s.sent && m.Echo? ==> MsgOk(cfg, s.sent, s.handled, s.slots[m.src].send, m);
    hide Inv, SomeBacked, Vouched;
  }

  /** With an echo quorum, the early nodes stay the early nodes. */
  lemma EarlyStays(cfg: Config, b: Body, sent: set<Msg>, sent': set<Msg>, early: set<int>, x: int)
    requires Early(cfg, b, sent, early) && Backed(cfg, sent, Digest(b)) && sent <= sent'
    requires Blank(sent') <= Blank(sent) + {x} && (x in Blank(sent') ==> x !in early)
    ensures Early(cfg, b, sent', early)
  {
    BackedMono(cfg, sent, sent', Digest(b));
  }

  lemma EarlyAll(cfg: Config, b: Body, sent: set<Msg>)
    requires Blank(sent) == {}
    ensures Early(cfg, b, sent, Echoers(sent, Digest(b)))
  {
  }

  lemma BlankAdds(sent: set<Msg>, more: set<Msg>, x: int)
    requires forall o :: o in more && o.Ready? && o.hash == NoHash ==> o.src == x
    ensures Blank(sent + more) <= Blank(sent) + {x}
    ensures (forall o :: o in more && o.Ready? ==> o.hash != NoHash) ==> Blank(sent + more) == Blank(sent)
  {
  }

  lemma ReceiptEarly(cfg: Config, b: Body, s: Sys, x: int, m: Msg)
    requires Sound(cfg) && cfg.n % 3 != 0 && Inv(cfg, s) && FairInv(cfg, b, s)
    requires Enabled(cfg, s, Receipt(x, m)) && Fair(cfg, b, Receipt(x, m))
    ensures SomeEarly(cfg, b, s.sent + Outgoing(Handle(s.slots[x].node, m)))
  {
    var t := Handle(s.slots[x].node, m);
    var more := Outgoing(t);
    forall o | o in more && o.Ready?
      ensures o.src == x && (o.hash == Digest(b) || (o.hash == NoHash && m.Send? && Backed(cfg, s.sent, Digest(b))))
    {
      ReadySent(cfg, b, s, x, m, o);
    }
    hide Handle, Outgoing;
    BlankAdds(s.sent, more, x);
    assert m.Send? ==> s.slots[x].send == None;
    if Backed(cfg, s.sent, Digest(b)) {
      var early :| Early(cfg, b, s.sent, early);
      if m.Send? {
        NoEchoYet(cfg, s, x, Digest(b));
      }
      assert x in Blank(s.sent + more) ==> x !in early by {
        EarlyApart(cfg, b, s, early, x, m, more);
      }
      hide Early;
      EarlyStays(cfg, b, s.sent, s.sent + more, early, x);
    } else {
      if Blank(s.sent) != {} {
        BlankIsBacked(cfg, b, s);
      }
      hide Backed, Early;
      EarlyAll(cfg, b, s.sent + more);
    }
  }

  lemma EarlyApart(cfg: Config, b: Body, s: Sys, early: set<int>, x: int, m: Msg, more: set<Msg>)
    requires Early(cfg, b, s.sent, early)
    requires m.Send? ==> x !in Echoers(s.sent, Digest(b))
    requires !m.Send? ==> Blank(s.sent + more) == Blank(s.sent)
    ensures x in Blank(s.sent + more) ==> x !in early
  {
  }

  lemma ReceiptBlanks(cfg: Config, b: Body, s: Sys, x: int, m: Msg)
    requires FairInv(cfg, b, s) && Enabled(cfg, s, Receipt(x, m)) && Fair(cfg, b, Receipt(x, m))
    ensures At(Handle(s.slots[x].node, m).readies, NoHash) <= Blank(s.sent)
  {
    var p := s.slots[x].node;
    assert BlanksOk(s.sent, p);
    HandleReadies(p, m);
    if m.Ready? {
      CountedBlanks(cfg, b, s, x, m);
    }
  }

  lemma BlankMono(sent: set<Msg>, sent': set<Msg>)
    requires sent <= sent'
    ensures Blank(sent) <= Blank(sent')
  {
  }

  lemma ReceiptFair(cfg: Config, b: Body, s: Sys, x: int, m: Msg)
    requires Sound(cfg) && cfg.n % 3 != 0 && Inv(cfg, s) && FairInv(cfg, b, s)
    requires Enabled(cfg, s, Receipt(x, m)) && Fair(cfg, b, Receipt(x, m))
    ensures FairInv(cfg, b, Next(cfg, s, Receipt(x, m)))
  {
    var p := s.slots[x].node;
    var t := Handle(p, m);
    var s' := Next(cfg, s, Receipt(x, m));
    assert s'.sent == s.sent + Outgoing(t) && p.out == [];
    ReceiptEarly(cfg, b, s, x, m);
    ReceiptBlanks(cfg, b, s, x, m);
    BlankMono(s.sent, s'.sent);
    forall o | o in s'.sent
      ensures FairMsg(b, o)
    {
      if o !in s.sent {
        if o.Ready? {
          ReadySent(cfg, b, s, x, m, o);
        } else {
          EchoesSends(p, m);
          NoSends(p, m);
        }
      }
    }
    hide Handle, Inv, SomeEarly, Blank;
    forall y | y in Correct(cfg)
      ensures BlanksOk(s'.sent, s'.slots[y].node)
    {
      assert BlanksOk(s.sent, s.slots[y].node);
    }
  }

  lemma SendNoSends(p: State, m: Msg)
    requires p.out == [] && m.Send?
    ensures forall o :: o in HandleSend(p, m).out ==> !o.Send?
  {
    if !p.rstatus {
      var a := ReceiveSend(p.(status := SEND), m);
      var t := a.(out := a.out + [EchoOf(p.id, p.mode, m)]);
      assert t.out == [EchoOf(p.id, p.mode, m)];
      hide ReceiveSend, SendReady, Deliver, Sealed;
      SendReadyOut(t, m);
      DeliverOut(SendReady(t, m), m);
      DeliverOut(t, m);
    }
  }

  lemma EchoNoSends(p: State, m: Msg)
    requires p.out == [] && m.Echo?
    ensures forall o :: o in HandleEcho(p, m).out ==> !o.Send?
  {
    var r := Receive(p.(echoes := Insert(p.echoes, m.hash, m.src)), m);
    assert r.out == [];
    SendReadyOut(r, m);
    hide Receive, SendReady, Insert, Len, Sealed;
  }

  lemma ReadyNoSends(p: State, m: Msg)
    requires p.out == [] && m.Ready?
    ensures forall o :: o in HandleReady(p, m).out ==> !o.Send?
  {
    var t := p.(readies := Insert(p.readies, m.hash, m.src));
    var r := Receive(t, m);
    assert t.out == [] && r.out == [];
    SendReadyOut(r, m);
    SendReadySays(SendReady(r, m), m);
    SendReadySays(t, m);
    hide Receive, SendReady, Deliver, Insert, Len, Sealed;
  }

  /** No message makes a node send a SEND. */
  lemma NoSends(p: State, m: Msg)
    requires p.out == []
    ensures forall o :: o in Handle(p, m).out ==> !o.Send?
  {
    hide HandleSend, HandleEcho, HandleReady;
    match m
    case Send(_, _, _) => SendNoSends(p, m);
    case Echo(_, _, _) => EchoNoSends(p, m);
    case Ready(_, _, _) => ReadyNoSends(p, m);
  }

  lemma StartFair(cfg: Config, b: Body, s: Sys, x: int)
    requires FairInv(cfg, b, s) && x in Correct(cfg)
    ensures FairInv(cfg, b, s.(sent := s.sent + {Msg.Send(x, NoHash, b)}))
  {
    var sent' := s.sent + {Msg.Send(x, NoHash, b)};
    assert Blank(sent') == Blank(s.sent) && Echoers(sent', Digest(b)) == Echoers(s.sent, Digest(b));
    var early :| Early(cfg, b, s.sent, early);
    assert Early(cfg, b, sent', early);
  }

  lemma {:induction false} RunKeepsFair(cfg: Config, b: Body, tr: seq<Sys>, i: nat)
    requires Sound(cfg) && cfg.n % 3 != 0 && FairRun(cfg, b, tr) && i < |tr|
    ensures FairInv(cfg, b, tr[i])
  {
    hide *;
    if i == 0 {
      FairStarts(cfg, b, tr);
      NothingSent(cfg, b);
    } else {
      RunKeepsFair(cfg, b, tr, i - 1);
      FairIsRun(cfg, b, tr);
      RunKeeps(cfg, tr, i - 1);
      var e := EventAt(cfg, b, tr, i - 1);
      StepFair(cfg, b, tr[i - 1], e);
    }
  }

  lemma StepFair(cfg: Config, b: Body, s: Sys, e: Event)
    requires Sound(cfg) && cfg.n % 3 != 0 && Inv(cfg, s) && FairInv(cfg, b, s) && Enabled(cfg, s, e) && Fair(cfg, b, e)
    ensures FairInv(cfg, b, Next(cfg, s, e))
  {
    hide FairInv, Inv, HandledAt;
    match e
    case Start(x, body) => StartFair(cfg, b, s, x);
    case Receipt(x, m) => ReceiptFair(cfg, b, s, x, m);
  }

  lemma NothingSent(cfg: Config, b: Body)
    requires Sound(cfg)
    ensures FairInv(cfg, b, Init(cfg))
  {
    QuorumArithmetic(cfg.n);
    assert Blank({}) == {} && Echoers({}, Digest(b)) == {};
    assert Early(cfg, b, {}, {});
  }

  // -------------------------------------------------- the vector is kept

  /** A vector that the node has stored stays, delivered or not. */
  lemma StepKeepsVector(cfg: Config, b: Body, s: Sys, e: Event, x: int)
    requires Sound(cfg) && cfg.n % 3 != 0 && cfg.mode == Wrbc && b.Some? && Inv(cfg, s) && WInv(cfg, s) && FairInv(cfg, b, s)
    requires Enabled(cfg, s, e) && Fair(cfg, b, e) && x in Correct(cfg) && s.slots[x].node.list == b
    ensures Next(cfg, s, e).slots[x].node.list == b
  {
    if e.Receipt? && e.x == x {
      VectorStays(cfg, b, s, x, e.m);
    }
  }

  lemma VectorStays(cfg: Config, b: Body, s: Sys, x: int, m: Msg)
    requires Sound(cfg) && cfg.n % 3 != 0 && cfg.mode == Wrbc && b.Some? && Inv(cfg, s) && WInv(cfg, s) && FairInv(cfg, b, s)
    requires Enabled(cfg, s, Receipt(x, m)) && Fair(cfg, b, Receipt(x, m)) && s.slots[x].node.list == b
    ensures Handle(s.slots[x].node, m).list == b
  {
    var k := s.slots[x];
    var p := k.node;
    assert Local(k) && NodeOk(cfg, s.sent, s.handled, p, k.send);
    assert p.mode == Wrbc && p.n == cfg.n && Received(p) && p.cache != READY && k.send.Some?;
    if p.rstatus {
      HandleReadies(p, m);
    } else {
      DeliveryKeeps(p, m);
      if m.Ready? {
        CountedBlanks(cfg, b, s, x, m);
        FewCounted(cfg, b, s, x);
        if m.hash == NoHash {
          SubsetCard(At(Insert(p.readies, m.hash, m.src), NoHash), Blank(s.sent));
          FewReadies(p, m);
        }
      } else {
        EchoDeliversNothing(p, m);
      }
    }
  }

  lemma FewReadies(p: State, m: Msg)
    requires m.Ready? && !p.rstatus && Len(Insert(p.readies, m.hash, m.src), m.hash) < SQ(p.n) <= Q(p.n)
    ensures !Handle(p, m).rstatus
  {
  }

  lemma EchoDeliversNothing(p: State, m: Msg)
    requires m.Echo? && !p.rstatus && p.cache != READY
    ensures !Handle(p, m).rstatus
  {
  }

  predicate HoldsVector(s: Sys, x: int, b: Body) {
    0 <= x < |s.slots| && s.slots[x].node.list == b
  }

  lemma StepHolds(cfg: Config, b: Body, s: Sys, e: Event, x: int)
    requires Sound(cfg) && cfg.n % 3 != 0 && cfg.mode == Wrbc && b.Some? && Inv(cfg, s) && WInv(cfg, s) && FairInv(cfg, b, s)
    requires Enabled(cfg, s, e) && Fair(cfg, b, e) && x in Correct(cfg) && HoldsVector(s, x, b)
    ensures HoldsVector(Next(cfg, s, e), x, b)
  {
    StepKeepsVector(cfg, b, s, e, x);
    hide Inv, WInv, FairInv, Handle;
  }

  /** With an honest sender and a group size that 3 does not divide, a correct node that has stored the
      vector holds exactly it from then on, through its delivery and after it. */
  lemma {:induction false} VectorKept(cfg: Config, b: Body, tr: seq<Sys>, j: nat, i: nat, x: int)
    requires Sound(cfg) && cfg.n % 3 != 0 && cfg.mode == Wrbc && b.Some? && FairRun(cfg, b, tr) && j <= i < |tr|
    requires x in Correct(cfg) && HoldsVector(tr[j], x, b)
    ensures HoldsVector(tr[i], x, b)
  {
    hide *;
    if j < i {
      VectorKept(cfg, b, tr, j, i - 1, x);
      FairIsRun(cfg, b, tr);
      RunKeeps(cfg, tr, i - 1);
      RunKeepsW(cfg, tr, i - 1);
      RunKeepsFair(cfg, b, tr, i - 1);
      var e := EventAt(cfg, b, tr, i - 1);
      StepHolds(cfg, b, tr[i - 1], e, x);
    }
  }

  /** wrbc validity: so every correct node whose SEND comes before it has stored anything holds the
      sender's vector ever after, whether it has delivered yet or not. */
  lemma VectorValidity(cfg: Config, b: Body, tr: seq<Sys>, j: nat, i: nat, x: int, m: Msg)
    requires Sound(cfg) && cfg.n % 3 != 0 && cfg.mode == Wrbc && b.Some? && FairRun(cfg, b, tr) && j < i < |tr|
    requires Enabled(cfg, tr[j], Receipt(x, m)) && Fair(cfg, b, Receipt(x, m)) && m.Send? && tr[j + 1] == Next(cfg, tr[j], Receipt(x, m))
    requires var p := tr[j].slots[x].node; !Received(p) && !p.rstatus
    ensures HoldsVector(tr[i], x, b)
  {
    var p := tr[j].slots[x].node;
    FairIsRun(cfg, b, tr);
    RunKeepsW(cfg, tr, j);
    assert Local(tr[j].slots[x]);
    RunKeeps(cfg, tr, j);
    assert p.mode == Wrbc;
    SendIsStored(p, m);
    hide Handle, Inv, WInv;
    assert HoldsVector(tr[j + 1], x, b);
    VectorKept(cfg, b, tr, j + 1, i, x);
  }
}
