/** Further guarantees of the broadcast: what an honest sender's receivers store, and what a single
    node does with its messages in whatever order they arrive. */
module BrachaTheorems {
  import opened Wrappers
  import opened Quorum
  import opened Sets
  import opened Bracha
  import opened BrachaSystem

  // ------------------------------------------- validity with one payload

  /** The sender sends one body to all, and Byzantine nodes send ECHOs and READYs whose hash matches
      their payload (any payload). */
  ghost predicate Tame(cfg: Config, b: Body, e: Event) {
    match e
    case Start(_, body) => body == b
    case Receipt(_, m) =>
      if m.Send? then m.hash == NoHash && m.body == b
      else m.src in cfg.faulty ==> m.hash == Digest(m.body)
  }

  ghost predicate TameRun(cfg: Config, b: Body, tr: seq<Sys>) {
    && |tr| > 0 && tr[0] == Init(cfg)
    && forall i :: 0 <= i < |tr| - 1 ==> TameStep(cfg, b, tr[i], tr[i + 1])
  }

  ghost predicate TameStep(cfg: Config, b: Body, s: Sys, s': Sys) {
    exists e :: Enabled(cfg, s, e) && Tame(cfg, b, e) && s' == Next(cfg, s, e)
  }

  lemma TameRunIsRun(cfg: Config, b: Body, tr: seq<Sys>)
    requires TameRun(cfg, b, tr)
    ensures Run(cfg, tr)
  {
  }

  predicate Matching(b: Body, m: Msg) {
    m.body == b && (m.hash == Digest(b) || (m.Ready? && m.hash == NoHash))
  }

  predicate Holds(b: Body, p: State) {
    (p.rstatus ==> Received(p)) && (Received(p) ==> p.req == Some(Payload(b)))
  }

  ghost predicate TameInv(cfg: Config, b: Body, s: Sys) {
    && (forall x :: 0 <= x < |s.slots| && x in Correct(cfg) ==> Holds(b, s.slots[x].node))
    && (forall m :: m in s.sent && !m.Send? ==> Matching(b, m))
  }

  lemma DeliverHolds(b: Body, p: State, m: Msg)
    requires p.mode == Rbc && Holds(b, p) && (Received(p) || m.body == b)
    ensures Holds(b, Deliver(p, m)) && Deliver(p, m).out == p.out && Deliver(p, m).mode == Rbc
  {
  }

  lemma SendReadyHolds(b: Body, p: State, m: Msg)
    requires p.mode == Rbc && Holds(b, p) && m.body == b && (m.hash == Digest(b) || m.hash == NoHash)
    ensures Holds(b, SendReady(p, m)) && SendReady(p, m).mode == Rbc
    ensures forall o :: o in SendReady(p, m).out ==> o in p.out || Matching(b, o)
    ensures p.out == [] ==> Outgoing(SendReady(p, m)) <= {Ready(p.id, m.hash, m.body)}
    ensures Received(p) ==> Received(SendReady(p, m))
  {
    if p.status == SEND {
    } else if p.cache == READY {
      DeliverHolds(b, p.(status := ECHO), m);
    } else {
    }
  }

  /** A message whose hash has gathered a quorum at a node has the sender's payload. */
  lemma QuorumMatches(cfg: Config, s: Sys, b: Body, p: State, m: Msg)
    requires Sound(cfg) && Inv(cfg, s) && TameInv(cfg, b, s) && Counters(cfg, s.sent, p)
    requires Known(cfg, s.sent, m) && (m.src in cfg.faulty ==> m.hash == Digest(m.body))
    requires (m.Echo? && Len(p.echoes, m.hash) >= Q(cfg.n)) || (m.Ready? && Len(p.readies, m.hash) >= SQ(cfg.n))
    ensures Matching(b, m)
  {
    QuorumArithmetic(cfg.n);
    if m.Echo? {
      EchoQuorum(cfg, s.sent, p, m.hash);
      assert |Echoers(s.sent, m.hash)| > 0;
      var srcs := Echoers(s.sent, m.hash);
      assert srcs != {};
      var x :| x in srcs;
      var o :| o in s.sent && o.Echo? && o.hash == m.hash && o.src == x;
      assert Matching(b, o);
    } else {
      var x := Outside(At(p.readies, m.hash), cfg.faulty);
      assert HeardReady(cfg, s.sent, x, m.hash);
      var c :| Ready(x, m.hash, c) in s.sent;
      assert Matching(b, Ready(x, m.hash, c));
    }
  }

  lemma TameSend(b: Body, p: State, m: Msg)
    requires p.mode == Rbc && Holds(b, p) && p.out == [] && m.Send? && m.hash == NoHash && m.body == b
    ensures Holds(b, HandleSend(p, m))
    ensures forall o :: o in HandleSend(p, m).out ==> Matching(b, o)
  {
  }

  lemma TameReceive(b: Body, t: State, m: Msg)
    requires t.mode == Rbc && Holds(b, t) && t.out == [] && Matching(b, m)
    ensures var u := SendReady(Receive(t, m), m); Holds(b, u) && Received(u) && u.mode == Rbc && forall o :: o in u.out ==> Matching(b, o)
  {
    var r := Receive(t, m);
    assert Holds(b, r) && Received(r) && r.mode == Rbc && r.out == [];
    SendReadyHolds(b, r, m);
  }

  lemma TameEcho(cfg: Config, s: Sys, b: Body, p: State, m: Msg)
    requires Sound(cfg) && Inv(cfg, s) && TameInv(cfg, b, s) && Counters(cfg, s.sent, p) && p.n == cfg.n
    requires p.mode == Rbc && Holds(b, p) && p.out == [] && m.Echo?
    requires Known(cfg, s.sent, m) && (m.src in cfg.faulty ==> m.hash == Digest(m.body))
    ensures Holds(b, HandleEcho(p, m))
    ensures forall o :: o in HandleEcho(p, m).out ==> Matching(b, o)
  {
    hide Inv, TameInv, Receive, SendReady;
    if !p.rstatus {
      var t := p.(echoes := Insert(p.echoes, m.hash, m.src));
      InsertedEcho(cfg, s, p, m);
      if Len(t.echoes, m.hash) >= Q(p.n) {
        QuorumMatches(cfg, s, b, t, m);
        TameReceive(b, t, m);
      }
    }
  }

  lemma TameReady(cfg: Config, s: Sys, b: Body, p: State, m: Msg)
    requires Sound(cfg) && Inv(cfg, s) && TameInv(cfg, b, s) && Counters(cfg, s.sent, p) && p.n == cfg.n
    requires p.mode == Rbc && Holds(b, p) && p.out == [] && m.Ready?
    requires Known(cfg, s.sent, m) && (m.src in cfg.faulty ==> m.hash == Digest(m.body))
    ensures Holds(b, HandleReady(p, m))
    ensures forall o :: o in HandleReady(p, m).out ==> Matching(b, o)
  {
    hide Inv, TameInv, Receive, SendReady, Deliver;
    if !p.rstatus {
      var t := p.(readies := Insert(p.readies, m.hash, m.src));
      InsertedReady(cfg, s, p, m);
      QuorumArithmetic(cfg.n);
      if Len(t.readies, m.hash) >= SQ(p.n) {
        QuorumMatches(cfg, s, b, t, m);
        TameReceive(b, t, m);
        DeliverHolds(b, SendReady(Receive(t, m), m), m);
        DeliverHolds(b, t, m);
      }
    }
  }

  lemma TameHandle(cfg: Config, s: Sys, b: Body, x: int, m: Msg)
    requires Sound(cfg) && cfg.mode == Rbc && Inv(cfg, s) && TameInv(cfg, b, s)
    requires Enabled(cfg, s, Receipt(x, m)) && Tame(cfg, b, Receipt(x, m))
    ensures Holds(b, Handle(s.slots[x].node, m))
    ensures forall o :: o in Handle(s.slots[x].node, m).out ==> Matching(b, o)
  {
    var p := s.slots[x].node;
    assert NodeOk(cfg, s.sent, s.handled, p, s.slots[x].send);
    assert Holds(b, p) && p.out == [];
    hide HandleSend, HandleEcho, HandleReady, Inv, TameInv, Holds;
    match m
    case Send(_, _, _) => TameSend(b, p, m);
    case Echo(_, _, _) => TameEcho(cfg, s, b, p, m);
    case Ready(_, _, _) => TameReady(cfg, s, b, p, m);
  }

  lemma InsertedEcho(cfg: Config, s: Sys, p: State, m: Msg)
    requires Counters(cfg, s.sent, p) && m.Echo? && Known(cfg, s.sent, m)
    ensures Counters(cfg, s.sent, p.(echoes := Insert(p.echoes, m.hash, m.src)))
  {
  }

  lemma InsertedReady(cfg: Config, s: Sys, p: State, m: Msg)
    requires Counters(cfg, s.sent, p) && m.Ready? && Known(cfg, s.sent, m)
    ensures Counters(cfg, s.sent, p.(readies := Insert(p.readies, m.hash, m.src)))
  {
  }

  lemma TameStepKeeps(cfg: Config, s: Sys, b: Body, e: Event)
    requires Sound(cfg) && cfg.mode == Rbc && Inv(cfg, s) && TameInv(cfg, b, s)
    requires Enabled(cfg, s, e) && Tame(cfg, b, e)
    ensures TameInv(cfg, b, Next(cfg, s, e))
  {
    hide Handle, Inv, Matching;
    match e
    case Start(_, _) =>
    case Receipt(x, m) =>
      TameHandle(cfg, s, b, x, m);
      var t := Handle(s.slots[x].node, m);
      assert Holds(b, t.(out := []));
  }

  lemma {:induction false} TameRunKeeps(cfg: Config, b: Body, tr: seq<Sys>, i: nat)
    requires Sound(cfg) && cfg.mode == Rbc && TameRun(cfg, b, tr) && i < |tr|
    ensures TameInv(cfg, b, tr[i])
  {
    if i > 0 {
      hide Inv, TameInv, Next;
      TameRunKeeps(cfg, b, tr, i - 1);
      TameRunIsRun(cfg, b, tr);
      RunKeeps(cfg, tr, i - 1);
      assert TameStep(cfg, b, tr[i - 1], tr[i - 1 + 1]);
      var e :| Enabled(cfg, tr[i - 1], e) && Tame(cfg, b, e) && tr[i] == Next(cfg, tr[i - 1], e);
      TameStepKeeps(cfg, tr[i - 1], b, e);
    }
  }

  /** Validity of rbc: every correct node that delivers holds the sender's payload, whichever
      handler stored it. */
  lemma Validity(cfg: Config, b: Body, tr: seq<Sys>, i: nat, x: int)
    requires Sound(cfg) && cfg.mode == Rbc && TameRun(cfg, b, tr) && i < |tr|
    requires x in Correct(cfg) && 0 <= x < |tr[i].slots| && tr[i].slots[x].node.rstatus
    ensures tr[i].slots[x].node.req == Some(Payload(b))
  {
    TameRunKeeps(cfg, b, tr, i);
  }

  // --------------------------------------------- one node, any order

  function Feed(s: State, ms: seq<Msg>): State {
    if ms == [] then s else Handle(Feed(s, ms[..|ms| - 1]), ms[|ms| - 1])
  }

  function SendCount(ms: seq<Msg>): nat {
    if ms == [] then 0 else SendCount(ms[..|ms| - 1]) + if ms[|ms| - 1].Send? then 1 else 0
  }

  function ReadySources(ms: seq<Msg>, h: Hash): set<int> {
    set m | m in ms && m.Ready? && m.hash == h :: m.src
  }

  /** Where a node that has not delivered stands: f+1 READYs for a hash have made it send its own
      READY, or remember to do so; a quorum of them leaves only the SEND to wait for. */
  ghost predicate Standing(s: State, seen: bool) {
    !s.rstatus ==>
      && (if seen then s.status == SEND || s.status == ECHO else s.status == IDLE)
      && (forall h :: Len(s.readies, h) >= SQ(s.n) ==> if seen then s.status == ECHO else s.cache >= ECHO)
      && (forall h :: Len(s.readies, h) >= Q(s.n) ==> !seen && s.cache == READY)
  }

  lemma StandingSend(s: State, m: Msg)
    requires s.n >= 1 && Standing(s, false) && m.Send?
    ensures Standing(HandleSend(s, m), true)
  {
  }

  lemma StandingEcho(s: State, seen: bool, m: Msg)
    requires Standing(s, seen) && m.Echo?
    ensures Standing(HandleEcho(s, m), seen)
  {
    if !s.rstatus {
      var t := s.(echoes := Insert(s.echoes, m.hash, m.src));
      if Len(t.echoes, m.hash) >= Q(s.n) {
        var u := Receive(t, m);
        assert u.readies == s.readies && u.cache == s.cache && u.status == s.status && u.n == s.n;
        if u.status == SEND {
        } else if u.cache == READY {
          assert SendReady(u, m).rstatus;
        } else {
        }
      }
    }
  }

  lemma StandingReady(s: State, seen: bool, m: Msg)
    requires s.n >= 1 && Standing(s, seen) && m.Ready?
    ensures Standing(HandleReady(s, m), seen)
  {
    QuorumArithmetic(s.n);
    if !s.rstatus {
      var t := s.(readies := Insert(s.readies, m.hash, m.src));
      var count := Len(t.readies, m.hash);
      InsertCount(s.readies, m.hash, m.src);
      if count == SQ(s.n) {
        var u := Receive(t, m);
        assert u.readies == t.readies && u.cache == s.cache && u.status == s.status && u.n == s.n;
        var w := SendReady(u, m);
        StandingTriggered(u, seen, m);
        if count >= Q(s.n) {
          StandingDeliver(w, seen, m, count);
        }
      } else if count >= Q(s.n) {
        StandingDeliver(t, seen, m, count);
      }
    }
  }

  lemma StandingTriggered(u: State, seen: bool, m: Msg)
    requires u.n >= 1 && !u.rstatus
    requires if seen then u.status == SEND || u.status == ECHO else u.status == IDLE
    ensures var w := SendReady(u, m);
            w.readies == u.readies && w.n == u.n
            && (w.rstatus || ((if seen then w.status == ECHO else w.status == IDLE) && (!seen ==> w.cache >= ECHO)))
    ensures u.cache == READY && u.status != SEND ==> SendReady(u, m).rstatus
  {
  }

  lemma StandingDeliver(w: State, seen: bool, m: Msg, count: nat)
    requires w.rstatus || if seen then w.status == ECHO else w.status == IDLE
    ensures var z := Deliver(w, m); z.rstatus || (!seen && z.status == IDLE && z.cache == READY && z.readies == w.readies && z.n == w.n)
  {
  }

  lemma HandleStands(s: State, seen: bool, m: Msg)
    requires s.n >= 1 && Standing(s, seen) && (m.Send? ==> !seen)
    ensures Standing(Handle(s, m), seen || m.Send?)
  {
    hide Standing, HandleSend, HandleEcho, HandleReady;
    match m
    case Send(_, _, _) => StandingSend(s, m);
    case Echo(_, _, _) => StandingEcho(s, seen, m);
    case Ready(_, _, _) => StandingReady(s, seen, m);
  }

  lemma {:induction false} FeedStands(id: int, n: nat, mode: Mode, ms: seq<Msg>)
    requires n >= 1 && SendCount(ms) <= 1
    ensures Standing(Feed(Initial(id, n, mode), ms), SendCount(ms) == 1)
    ensures Feed(Initial(id, n, mode), ms).n == n
  {
    var s := Feed(Initial(id, n, mode), ms);
    if ms == [] {
      QuorumArithmetic(n);
      assert forall h :: Len(s.readies, h) == 0;
    } else {
      var pre, m := ms[..|ms| - 1], ms[|ms| - 1];
      FeedStands(id, n, mode, pre);
      var t := Feed(Initial(id, n, mode), pre);
      HandleId(t, m);
      HandleStands(t, SendCount(pre) == 1, m);
    }
  }

  lemma HandleReadies(p: State, m: Msg)
    ensures p.rstatus ==> Handle(p, m) == p
    ensures !p.rstatus ==> Handle(p, m).readies == if m.Ready? then Insert(p.readies, m.hash, m.src) else p.readies
  {
    if p.rstatus {
      return;
    }
    match m
    case Send(_, _, _) =>
      var a := ReceiveSend(p.(status := SEND), m);
      var t := a.(out := a.out + [EchoOf(p.id, p.mode, m)]);
      assert t.readies == p.readies;
      SendReadyReadies(t, m);
      DeliverReadies(SendReady(t, m), m);
      DeliverReadies(t, m);
    case Echo(_, _, _) =>
      var t := p.(echoes := Insert(p.echoes, m.hash, m.src));
      assert Receive(t, m).readies == p.readies;
      SendReadyReadies(Receive(t, m), m);
    case Ready(_, _, _) =>
      var t := p.(readies := Insert(p.readies, m.hash, m.src));
      assert Receive(t, m).readies == t.readies;
      SendReadyReadies(Receive(t, m), m);
      DeliverReadies(SendReady(Receive(t, m), m), m);
      DeliverReadies(t, m);
  }

  lemma DeliverReadies(p: State, m: Msg)
    ensures Deliver(p, m).readies == p.readies && Deliver(p, m).out == p.out
    ensures p.cache <= READY ==> p.cache <= Deliver(p, m).cache <= READY
    ensures p.status != SEND ==> Deliver(p, m).status != SEND
  {
  }

  lemma SendReadyReadies(p: State, m: Msg)
    ensures SendReady(p, m).readies == p.readies
    ensures p.cache <= READY ==> p.cache <= SendReady(p, m).cache <= READY
    ensures p.status != SEND ==> SendReady(p, m).status != SEND && SendReady(p, m).out == p.out
  {
    if p.status == SEND {
    } else if p.cache == READY {
      DeliverReadies(p.(status := ECHO), m);
    } else {
    }
  }

  /** The cached status never moves backwards. */
  lemma CacheOnlyAdvances(p: State, m: Msg)
    requires p.cache <= READY
    ensures p.cache <= Handle(p, m).cache <= READY
  {
    if p.rstatus {
      HandleReadies(p, m);
      return;
    }
    match m
    case Send(_, _, _) =>
      var a := ReceiveSend(p.(status := SEND), m);
      var t := a.(out := a.out + [EchoOf(p.id, p.mode, m)]);
      assert t.cache == p.cache;
      SendReadyReadies(t, m);
      DeliverReadies(SendReady(t, m), m);
      DeliverReadies(t, m);
    case Echo(_, _, _) =>
      var t := p.(echoes := Insert(p.echoes, m.hash, m.src));
      assert Receive(t, m).cache == p.cache;
      SendReadyReadies(Receive(t, m), m);
    case Ready(_, _, _) =>
      var t := p.(readies := Insert(p.readies, m.hash, m.src));
      assert Receive(t, m).cache == p.cache;
      SendReadyReadies(Receive(t, m), m);
      DeliverReadies(SendReady(Receive(t, m), m), m);
      DeliverReadies(t, m);
  }

  lemma QuietUntilSend(p: State, m: Msg)
    requires !m.Send? && p.status != SEND
    ensures Handle(p, m).status != SEND && Handle(p, m).out == p.out
  {
    if p.rstatus {
      HandleReadies(p, m);
    } else if m.Echo? {
      var t := p.(echoes := Insert(p.echoes, m.hash, m.src));
      assert Receive(t, m).status == p.status && Receive(t, m).out == p.out;
      SendReadyReadies(Receive(t, m), m);
    } else {
      var t := p.(readies := Insert(p.readies, m.hash, m.src));
      assert Receive(t, m).status == p.status && Receive(t, m).out == p.out;
      SendReadyReadies(Receive(t, m), m);
      DeliverReadies(SendReady(Receive(t, m), m), m);
      DeliverReadies(t, m);
    }
  }

  /** Before it handles a SEND a node broadcasts nothing, whatever it hears. */
  lemma {:induction false} NothingBeforeSend(id: int, n: nat, mode: Mode, ms: seq<Msg>)
    requires SendCount(ms) == 0
    ensures Feed(Initial(id, n, mode), ms).out == []
    ensures Feed(Initial(id, n, mode), ms).status != SEND
  {
    if ms != [] {
      NothingBeforeSend(id, n, mode, ms[..|ms| - 1]);
      QuietUntilSend(Feed(Initial(id, n, mode), ms[..|ms| - 1]), ms[|ms| - 1]);
    }
  }

  /** Until it delivers, a node has counted every READY it was given. */
  lemma {:induction false} ReadiesCollected(id: int, n: nat, mode: Mode, ms: seq<Msg>, h: Hash)
    ensures var s := Feed(Initial(id, n, mode), ms); s.rstatus || At(s.readies, h) == ReadySources(ms, h)
  {
    if ms != [] {
      var pre, m := ms[..|ms| - 1], ms[|ms| - 1];
      assert ms == pre + [m];
      ReadiesCollected(id, n, mode, pre, h);
      var t := Feed(Initial(id, n, mode), pre);
      HandleReadies(t, m);
      SourcesExtend(pre, m, h);
      hide Handle, ReadySources, Initial;
      assert t.rstatus || At(Handle(t, m).readies, h) == ReadySources(pre, h) + if m.Ready? && m.hash == h then {m.src} else {};
    }
  }

  lemma SourcesExtend(ms: seq<Msg>, m: Msg, h: Hash)
    ensures ReadySources(ms + [m], h) == ReadySources(ms, h) + if m.Ready? && m.hash == h then {m.src} else {}
  {
  }

  /** Order independence: in whatever order one SEND, any ECHOs, and the READYs of a quorum of
      distinct sources for one hash reach a node, it ends delivered. */
  lemma OrderIndependence(id: int, n: nat, mode: Mode, ms: seq<Msg>, h: Hash)
    requires n >= 1 && SendCount(ms) == 1 && |ReadySources(ms, h)| >= Q(n)
    ensures Feed(Initial(id, n, mode), ms).rstatus
  {
    hide Feed, SendCount, ReadySources;
    FeedStands(id, n, mode, ms);
    ReadiesCollected(id, n, mode, ms, h);
    ghost var s := Feed(Initial(id, n, mode), ms);
    assert Len(s.readies, h) < Q(s.n) || s.rstatus;
  }
}
