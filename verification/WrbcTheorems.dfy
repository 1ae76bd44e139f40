/** Agreement on vectors in wrbc. A vector that survives delivery was delivered on a quorum of READYs
    for its own hash, and a correct node sends READY for one hash only. */
module WrbcTheorems {
  import opened Wrappers
  import opened Quorum
  import opened Sets
  import opened Bracha
  import opened BrachaSystem
  import opened BrachaTheorems

  // ------------------------------------------------- one node, one message

  /** What a node has stored: something, as soon as anything is cached or f+1 READYs agree; a vector,
      only from its SEND and only while no delivery is cached; and after delivery only a vector with a
      quorum of READYs for its hash. */
  ghost predicate Listed(p: State, seen: bool) {
    && (p.cache >= ECHO ==> Received(p))
    && (forall h :: Len(p.readies, h) >= SQ(p.n) ==> Received(p))
    && (p.list.Some? ==> p.mode == Wrbc && seen && Received(p) && p.cache != READY)
    && (p.rstatus && p.list.Some? ==> Len(p.readies, Digest(p.list)) >= Q(p.n))
  }

  lemma ListedSend(p: State, m: Msg)
    requires Listed(p, false) && m.Send?
    ensures Listed(HandleSend(p, m), true)
  {
    if !p.rstatus {
      var t := ReceiveSend(p.(status := SEND), m);
      var u := t.(out := t.out + [EchoOf(p.id, p.mode, m)]);
      assert u.readies == p.readies && u.cache == p.cache && u.n == p.n && u.mode == p.mode && Received(u);
      if p.cache >= ECHO {
        assert u.list == None;
        ListedNone(u, true, m);
        ListedNone(SendReady(u, m), true, m);
      } else {
        assert HandleSend(p, m) == u;
      }
    }
  }

  /** Where no vector is stored none will be. */
  lemma ListedNone(p: State, seen: bool, m: Msg)
    requires Received(p) && p.list == None
    ensures var t := SendReady(p, m); Listed(t, seen) && Received(t) && t.list == None
    ensures var t := Deliver(p, m); Listed(t, seen) && Received(t) && t.list == None
  {
  }

  lemma ListedReadyStep(p: State, seen: bool, m: Msg)
    requires Listed(p, seen) && Received(p) && !p.rstatus
    ensures Listed(SendReady(p, m), seen) && Received(SendReady(p, m))
    ensures p.list.Some? ==> !SendReady(p, m).rstatus && SendReady(p, m).readies == p.readies && SendReady(p, m).n == p.n
    ensures p.list.Some? && (p.status == SEND || p.status == ECHO) ==> SendReady(p, m).status == ECHO
  {
    if p.status == SEND {
    } else if p.cache == READY {
      ListedNone(p, seen, m);
    } else {
    }
  }

  lemma ListedEcho(p: State, seen: bool, m: Msg)
    requires Listed(p, seen) && m.Echo?
    ensures Listed(HandleEcho(p, m), seen)
  {
    if !p.rstatus {
      var t := p.(echoes := Insert(p.echoes, m.hash, m.src));
      var u := Receive(t, m);
      assert Listed(t, seen);
      assert u == t || u == t.(req := u.req);
      hide Receive, SendReady;
      if Len(t.echoes, m.hash) >= Q(p.n) {
        ListedReadyStep(u, seen, m);
      }
    }
  }

  lemma ListedDeliver(p: State, seen: bool, m: Msg)
    requires Listed(p, seen) && Received(p)
    requires p.list.Some? ==> p.status == ECHO && Len(p.readies, m.hash) >= Q(p.n)
    ensures Listed(Deliver(p, m), seen)
  {
  }

  lemma ListedReady(p: State, seen: bool, m: Msg)
    requires p.n >= 1 && Standing(p, seen) && Listed(p, seen) && m.Ready?
    ensures Listed(HandleReady(p, m), seen)
  {
    if !p.rstatus {
      QuorumArithmetic(p.n);
      InsertCount(p.readies, m.hash, m.src);
      var t := p.(readies := Insert(p.readies, m.hash, m.src));
      var count := Len(t.readies, m.hash);
      var u := Receive(t, m);
      assert u == t || u == t.(req := u.req);
      if count == SQ(p.n) {
        assert Listed(u, seen);
        ListedReadyStep(u, seen, m);
        hide SendReady, Receive;
        if count >= Q(p.n) {
          ListedDeliver(SendReady(u, m), seen, m);
        }
      } else if count >= Q(p.n) {
        assert Len(p.readies, m.hash) >= SQ(p.n);
        ListedDeliver(t, seen, m);
      } else {
        assert count >= SQ(p.n) ==> Len(p.readies, m.hash) >= SQ(p.n);
      }
    }
  }

  lemma HandleListed(p: State, seen: bool, m: Msg)
    requires p.n >= 1 && Standing(p, seen) && Listed(p, seen) && (m.Send? ==> !seen)
    ensures Listed(Handle(p, m), seen || m.Send?)
  {
    hide Standing, Listed, HandleSend, HandleEcho, HandleReady;
    match m
    case Send(_, _, _) => ListedSend(p, m);
    case Echo(_, _, _) => ListedEcho(p, seen, m);
    case Ready(_, _, _) => ListedReady(p, seen, m);
  }

  /** The status of a node that has sent its READY. */
  predicate Sealed(p: State) {
    p.status == ECHO || p.status == READY
  }

  /** What SendReady sends: at most the READY for the hash of the message at hand, and only on the way
      out of the SEND status. */
  lemma SendReadyOut(p: State, m: Msg)
    ensures var t := SendReady(p, m);
      forall o :: o in t.out ==> o in p.out || (o.Ready? && o.src == p.id && o.hash == m.hash && p.status == SEND && Sealed(t))
    ensures Sealed(p) ==> Sealed(SendReady(p, m))
    ensures p.status == SEND ==> Sealed(SendReady(p, m))
  {
    if p.status == SEND {
    } else if p.cache == READY {
    } else {
    }
  }

  lemma DeliverOut(p: State, m: Msg)
    ensures Deliver(p, m).out == p.out && (Sealed(p) ==> Sealed(Deliver(p, m)))
  {
  }

  lemma SendOut(p: State, m: Msg)
    requires p.out == [] && m.Send? && !p.rstatus
    ensures var t := HandleSend(p, m); forall o :: o in t.out ==> o.src == p.id && (o.Ready? ==> o.hash == m.hash && Sealed(t))
  {
    var a := ReceiveSend(p.(status := SEND), m);
    var t := a.(out := a.out + [EchoOf(p.id, p.mode, m)]);
    assert t.id == p.id && t.out == [EchoOf(p.id, p.mode, m)];
    hide SendReady, Deliver, ReceiveSend;
    SendReadyOut(t, m);
    DeliverOut(SendReady(t, m), m);
    DeliverOut(t, m);
  }

  lemma ReceiveOut(t: State, m: Msg)
    ensures Receive(t, m).id == t.id && Receive(t, m).out == t.out && Receive(t, m).status == t.status
  {
  }

  /** Handling m makes the node send its READY, which carries the hash of m. */
  predicate Signs(p: State, m: Msg, h: Hash) {
    h == m.hash && Sealed(Handle(p, m)) && !p.rstatus && (m.Send? || p.status == SEND)
  }

  /** Everything a node sends is its own, and a READY is for the hash of the message at hand. */
  lemma HandleOut(p: State, m: Msg)
    requires p.out == []
    ensures forall o :: o in Handle(p, m).out ==> o.src == p.id
    ensures forall o :: o in Handle(p, m).out && o.Ready? ==> Signs(p, m, o.hash)
    ensures Sealed(p) && !m.Send? ==> Sealed(Handle(p, m))
  {
    hide Receive, SendReady, Deliver, HandleSend;
    if p.rstatus {
      HandleReadies(p, m);
    } else if m.Send? {
      SendOut(p, m);
    } else if m.Echo? {
      var t := p.(echoes := Insert(p.echoes, m.hash, m.src));
      ReceiveOut(t, m);
      SendReadyOut(Receive(t, m), m);
    } else {
      var t := p.(readies := Insert(p.readies, m.hash, m.src));
      ReceiveOut(t, m);
      SendReadyOut(Receive(t, m), m);
      DeliverOut(SendReady(Receive(t, m), m), m);
      DeliverOut(t, m);
    }
  }

  // ----------------------------------------------------------- the system

  ghost predicate Local(k: Slot) {
    k.node.n >= 1 && k.node.out == [] && Standing(k.node, k.send.Some?) && Listed(k.node, k.send.Some?)
  }

  ghost predicate Signed(cfg: Config, s: Sys, m: Msg)
    requires |s.slots| == cfg.n
  {
    m.src in Correct(cfg) && (m.Ready? ==> s.slots[m.src].send.Some? && Sealed(s.slots[m.src].node))
  }

  ghost predicate OneReadyEach(sent: set<Msg>) {
    forall a, b :: a in sent && b in sent && a.Ready? && b.Ready? && a.src == b.src ==> a.hash == b.hash
  }

  ghost predicate WInv(cfg: Config, s: Sys) {
    && |s.slots| == cfg.n
    && (forall x :: x in Correct(cfg) ==> Local(s.slots[x]) && s.slots[x].node.id == x)
    && (forall m :: m in s.sent ==> Signed(cfg, s, m))
    && OneReadyEach(s.sent)
  }

  lemma LocalKeeps(k: Slot, m: Msg)
    requires Local(k) && (m.Send? ==> k.send == None)
    ensures Local(Slot(Handle(k.node, m).(out := []), SendOf(k, m)))
  {
    var t := Handle(k.node, m);
    HandleStands(k.node, k.send.Some?, m);
    HandleListed(k.node, k.send.Some?, m);
    HandleId(k.node, m);
    hide Handle;
    Flushed(t, SendOf(k, m).Some?);
  }

  lemma Flushed(t: State, seen: bool)
    requires Standing(t, seen) && Listed(t, seen)
    ensures Standing(t.(out := []), seen) && Listed(t.(out := []), seen)
  {
  }

  /** The READYs of one step come from a node that had sent none. */
  lemma FirstReady(cfg: Config, s: Sys, x: int, m: Msg, o: Msg)
    requires WInv(cfg, s) && Enabled(cfg, s, Receipt(x, m)) && o in Handle(s.slots[x].node, m).out && o.Ready?
    ensures o.src == x && o.hash == m.hash && Sealed(Handle(s.slots[x].node, m)) && SendOf(s.slots[x], m).Some?
    ensures forall a :: a in s.sent && a.Ready? ==> a.src != x
  {
    var k := s.slots[x];
    assert Local(k);
    HandleOut(k.node, m);
    hide Handle;
    assert forall a :: a in s.sent && a.Ready? && a.src == x ==> Signed(cfg, s, a);
  }

  lemma ReceiptKeepsW(cfg: Config, s: Sys, x: int, m: Msg)
    requires WInv(cfg, s) && Enabled(cfg, s, Receipt(x, m))
    ensures WInv(cfg, Next(cfg, s, Receipt(x, m)))
  {
    var s' := Next(cfg, s, Receipt(x, m));
    var k := s.slots[x];
    var t := Handle(k.node, m);
    LocalKeeps(k, m);
    HandleId(k.node, m);
    HandleOut(k.node, m);
    assert m.Send? ==> k.send == None;
    hide Handle, Local;
    forall o | o in s'.sent
      ensures Signed(cfg, s', o)
    {
      if o in s.sent {
        assert Signed(cfg, s, o);
      } else {
        if o.Ready? {
          FirstReady(cfg, s, x, m, o);
        }
      }
    }
    ReceiptOneReady(cfg, s, x, m);
  }

  lemma ReceiptOneReady(cfg: Config, s: Sys, x: int, m: Msg)
    requires WInv(cfg, s) && Enabled(cfg, s, Receipt(x, m))
    ensures OneReadyEach(Next(cfg, s, Receipt(x, m)).sent)
  {
    var s' := Next(cfg, s, Receipt(x, m));
    hide Handle, Local, Signed;
    forall a, b | a in s'.sent && b in s'.sent && a.Ready? && b.Ready? && a.src == b.src
      ensures a.hash == b.hash
    {
      if a !in s.sent {
        FirstReady(cfg, s, x, m, a);
      }
      if b !in s.sent {
        FirstReady(cfg, s, x, m, b);
      }
    }
  }

  lemma StartKeepsW(cfg: Config, s: Sys, x: int, body: Body)
    requires WInv(cfg, s) && Enabled(cfg, s, Start(x, body))
    ensures WInv(cfg, Next(cfg, s, Start(x, body)))
  {
    var s' := Next(cfg, s, Start(x, body));
    hide Local;
    forall o | o in s'.sent
      ensures Signed(cfg, s', o)
    {
      if o in s.sent {
        assert Signed(cfg, s, o);
      }
    }
  }

  lemma {:induction false} RunKeepsW(cfg: Config, tr: seq<Sys>, i: nat)
    requires Sound(cfg) && Run(cfg, tr) && i < |tr|
    ensures WInv(cfg, tr[i])
  {
    if i > 0 {
      hide WInv, Next;
      RunKeepsW(cfg, tr, i - 1);
      assert Step(cfg, tr[i - 1], tr[i - 1 + 1]);
      var e :| Enabled(cfg, tr[i - 1], e) && tr[i] == Next(cfg, tr[i - 1], e);
      match e
      case Start(x, body) => StartKeepsW(cfg, tr[i - 1], x, body);
      case Receipt(x, m) => ReceiptKeepsW(cfg, tr[i - 1], x, m);
    } else {
      forall x | x in Correct(cfg)
        ensures Local(tr[0].slots[x])
      {
        InitialLocal(x, cfg.n, cfg.mode);
      }
    }
  }

  lemma InitialLocal(x: int, n: nat, mode: Mode)
    requires n >= 1
    ensures Local(Slot(Initial(x, n, mode), None))
  {
    QuorumArithmetic(n);
    var p := Initial(x, n, mode);
    assert forall h :: Len(p.readies, h) == 0;
  }

  // -------------------------------------------------------------- theorems

  /** A correct node that has cached a step has stored something, so a node with a cached delivery never
      stores the vector of its SEND. */
  lemma CachedMeansStored(cfg: Config, tr: seq<Sys>, i: nat, x: int)
    requires Sound(cfg) && Run(cfg, tr) && i < |tr| && x in Correct(cfg)
    ensures |tr[i].slots| == cfg.n
    ensures tr[i].slots[x].node.cache >= ECHO ==> Received(tr[i].slots[x].node)
    ensures tr[i].slots[x].node.cache == READY ==> tr[i].slots[x].node.list == None
  {
    RunKeepsW(cfg, tr, i);
    assert Local(tr[i].slots[x]);
  }

  function Readiers(sent: set<Msg>, h: Hash): set<int> {
    set m | m in sent && m.Ready? && m.hash == h :: m.src
  }

  /** Counting every Byzantine node in its favour, the hash has a quorum of READY sources. */
  ghost predicate Readied(cfg: Config, sent: set<Msg>, h: Hash) {
    |Readiers(sent, h)| + |cfg.faulty| >= Q(cfg.n)
  }

  lemma ReadiedMono(cfg: Config, sent: set<Msg>, sent': set<Msg>, h: Hash)
    requires Readied(cfg, sent, h) && sent <= sent'
    ensures Readied(cfg, sent', h)
  {
    assert Readiers(sent, h) <= Readiers(sent', h);
    SubsetCard(Readiers(sent, h), Readiers(sent', h));
  }

  ghost function ReadyBy(sent: set<Msg>, h: Hash, x: int): (m: Msg)
    requires x in Readiers(sent, h)
    ensures m in sent && m.Ready? && m.hash == h && m.src == x
  {
    var m :| m in sent && m.Ready? && m.hash == h && m.src == x;
    m
  }

  /** At most one hash has a quorum of READYs, in every reachable state. */
  lemma ReadiedUnique(cfg: Config, tr: seq<Sys>, i: nat, g: Hash, h: Hash)
    requires Sound(cfg) && Run(cfg, tr) && i < |tr| && Readied(cfg, tr[i].sent, g) && Readied(cfg, tr[i].sent, h)
    ensures g == h
  {
    var s := tr[i];
    RunKeepsW(cfg, tr, i);
    QuorumArithmetic(cfg.n);
    CorrectCount(cfg);
    ReadiersCorrect(cfg, s, g);
    ReadiersCorrect(cfg, s, h);
    hide WInv, Readiers, Correct;
    var x := Meet(Readiers(s.sent, g), Readiers(s.sent, h), Correct(cfg));
    SameReady(cfg, s, ReadyBy(s.sent, g, x), ReadyBy(s.sent, h, x));
  }

  lemma ReadiersCorrect(cfg: Config, s: Sys, h: Hash)
    requires WInv(cfg, s)
    ensures Readiers(s.sent, h) <= Correct(cfg)
  {
    forall x | x in Readiers(s.sent, h)
      ensures x in Correct(cfg)
    {
      assert Signed(cfg, s, ReadyBy(s.sent, h, x));
    }
  }

  lemma SameReady(cfg: Config, s: Sys, a: Msg, b: Msg)
    requires WInv(cfg, s) && a in s.sent && b in s.sent && a.Ready? && b.Ready? && a.src == b.src
    ensures a.hash == b.hash
  {
  }

  /** A vector held after delivery has a quorum of READYs for its hash. */
  lemma HeldIsReadied(cfg: Config, tr: seq<Sys>, i: nat, x: int)
    requires Sound(cfg) && Run(cfg, tr) && i < |tr| && x in Correct(cfg) && 0 <= x < |tr[i].slots|
    requires var p := tr[i].slots[x].node; p.rstatus && p.list.Some?
    ensures Readied(cfg, tr[i].sent, Digest(tr[i].slots[x].node.list))
  {
    var s := tr[i];
    var p := s.slots[x].node;
    var h := Digest(p.list);
    RunKeepsW(cfg, tr, i);
    RunKeeps(cfg, tr, i);
    assert Local(s.slots[x]) && NodeOk(cfg, s.sent, s.handled, p, s.slots[x].send);
    hide Inv, WInv;
    forall y | y in At(p.readies, h)
      ensures y in cfg.faulty + Readiers(s.sent, h)
    {
      assert HeardReady(cfg, s.sent, y, h);
      if y !in cfg.faulty {
        var b :| Ready(y, h, b) in s.sent;
        assert Ready(y, h, b).src == y;
      }
    }
    SubsetCard(At(p.readies, h), cfg.faulty + Readiers(s.sent, h));
    assert |cfg.faulty + Readiers(s.sent, h)| == |cfg.faulty| + |Readiers(s.sent, h)| - |cfg.faulty * Readiers(s.sent, h)|;
  }

  /** wrbc agreement: two correct nodes that deliver, at any two moments of a run, and still hold a
      vector hold the same vector, however the sender equivocates and whatever hashes its SENDs carry. */
  lemma VectorAgreement(cfg: Config, tr: seq<Sys>, i: nat, x: int, j: nat, y: int)
    requires Sound(cfg) && Run(cfg, tr) && i <= j < |tr|
    requires x in Correct(cfg) && 0 <= x < |tr[i].slots| && y in Correct(cfg) && 0 <= y < |tr[j].slots|
    requires var p := tr[i].slots[x].node; p.rstatus && p.list.Some?
    requires var p := tr[j].slots[y].node; p.rstatus && p.list.Some?
    ensures tr[i].slots[x].node.list == tr[j].slots[y].node.list
  {
    HeldIsReadied(cfg, tr, i, x);
    HeldIsReadied(cfg, tr, j, y);
    SentGrows(cfg, tr, i, j);
    ReadiedMono(cfg, tr[i].sent, tr[j].sent, Digest(tr[i].slots[x].node.list));
    ReadiedUnique(cfg, tr, j, Digest(tr[i].slots[x].node.list), Digest(tr[j].slots[y].node.list));
  }
}
