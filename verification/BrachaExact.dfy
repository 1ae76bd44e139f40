/** When one node of the broadcast sends its READY and when it delivers, in terms of the messages it was given
    in whatever order: exactly on an echo quorum or f+1 READYs for one hash, and exactly on a quorum of READYs
    for one hash. */
module BrachaExact {
  import opened Quorum
  import opened Sets
  import opened Bracha
  import opened BrachaSystem
  import opened BrachaTheorems
  import opened WrbcTheorems

  function EchoSources(ms: seq<Msg>, h: Hash): set<int> {
    set m | m in ms && m.Echo? && m.hash == h :: m.src
  }

  /** Enough for a READY: an echo quorum or f+1 READYs for one hash. Enough to deliver: a quorum of READYs. */
  predicate Enough(p: State, h: Hash) {
    Len(p.echoes, h) >= Q(p.n) || Len(p.readies, h) >= SQ(p.n)
  }

  ghost predicate Prompted(p: State) {
    exists h :: Enough(p, h)
  }

  ghost predicate Complete(p: State) {
    exists h :: Len(p.readies, h) >= Q(p.n)
  }

  // ------------------------------------------------------- only with a reason

  ghost predicate Reasoned(p: State) {
    && (p.rstatus || p.cache == READY ==> Complete(p))
    && (p.rstatus || p.cache >= ECHO || Sealed(p) ==> Prompted(p))
  }

  predicate SameCounts(p: State, t: State) {
    t.echoes == p.echoes && t.readies == p.readies && t.n == p.n
  }

  lemma SameReasons(p: State, t: State)
    requires SameCounts(p, t)
    ensures Prompted(p) ==> Prompted(t)
    ensures Complete(p) ==> Complete(t)
  {
    if Prompted(p) {
      var h :| Enough(p, h);
      assert Enough(t, h);
    }
    if Complete(p) {
      var h :| Len(p.readies, h) >= Q(p.n);
      assert Len(t.readies, h) >= Q(t.n);
    }
  }

  lemma StoreCounts(p: State, m: Msg)
    ensures SameCounts(p, Receive(p, m)) && SameCounts(p, ReceiveSend(p, m)) && SameCounts(p, CheckList(p, m))
  {
  }

  lemma DeliverCounts(p: State, m: Msg)
    ensures SameCounts(p, Deliver(p, m))
  {
    hide Receive, CheckList;
    StoreCounts(p, m);
    StoreCounts(Receive(p, m), m);
  }

  lemma SendReadyCounts(p: State, m: Msg)
    ensures SameCounts(p, SendReady(p, m)) && SameCounts(p, Deliver(p, m))
  {
    hide Deliver;
    DeliverCounts(p, m);
    DeliverCounts(p.(status := ECHO), m);
  }

  /** A node with a reason to send READY, and to deliver if it has cached a delivery. */
  lemma SendReadyReasons(p: State, m: Msg)
    requires Prompted(p) && (p.rstatus || p.cache == READY ==> Complete(p))
    ensures var t := SendReady(p, m); Reasoned(t) && Prompted(t) && (Complete(p) ==> Complete(t))
  {
    SendReadyCounts(p, m);
    SameReasons(p, SendReady(p, m));
    hide Prompted, Complete;
  }

  lemma DeliverReasons(p: State, m: Msg)
    requires Prompted(p) && Complete(p)
    ensures Reasoned(Deliver(p, m))
  {
    SendReadyCounts(p, m);
    SameReasons(p, Deliver(p, m));
    hide Prompted, Complete;
  }

  lemma ReceiveReasons(p: State, m: Msg)
    requires Reasoned(p)
    ensures Reasoned(Receive(p, m)) && SameCounts(p, Receive(p, m))
  {
    StoreCounts(p, m);
    SameReasons(p, Receive(p, m));
    hide Prompted, Complete;
  }

  /** One more counted message takes no reason away. */
  lemma EchoCounted(p: State, m: Msg)
    requires Reasoned(p)
    ensures Reasoned(p.(echoes := Insert(p.echoes, m.hash, m.src)))
  {
    var t := p.(echoes := Insert(p.echoes, m.hash, m.src));
    InsertCount(p.echoes, m.hash, m.src);
    if Prompted(p) {
      var h :| Enough(p, h);
      assert Enough(t, h);
    }
    if Complete(p) {
      var h :| Len(p.readies, h) >= Q(p.n);
      assert Len(t.readies, h) >= Q(t.n);
    }
    hide Insert, Q, SQ, Len;
  }

  lemma ReadyCounted(p: State, m: Msg)
    requires Reasoned(p)
    ensures Reasoned(p.(readies := Insert(p.readies, m.hash, m.src)))
  {
    var t := p.(readies := Insert(p.readies, m.hash, m.src));
    InsertCount(p.readies, m.hash, m.src);
    if Prompted(p) {
      var h :| Enough(p, h);
      assert Enough(t, h);
    }
    if Complete(p) {
      var h :| Len(p.readies, h) >= Q(p.n);
      assert Len(t.readies, h) >= Q(t.n);
    }
    hide Insert, Q, SQ, Len;
  }

  lemma SendReasons(p: State, m: Msg)
    requires Reasoned(p) && m.Send?
    ensures Reasoned(HandleSend(p, m))
  {
    if !p.rstatus {
      var a := ReceiveSend(p.(status := SEND), m);
      var t := a.(out := a.out + [EchoOf(p.id, p.mode, m)]);
      assert SameCounts(p, t) && t.cache == p.cache && !t.rstatus && t.status == SEND;
      SameReasons(p, t);
      hide Prompted, Complete, ReceiveSend, SendReady, Deliver;
      if p.cache >= ECHO {
        SendReadyReasons(t, m);
        if p.cache == READY {
          DeliverReasons(SendReady(t, m), m);
        }
      }
    }
  }

  lemma EchoReasons(p: State, m: Msg)
    requires Reasoned(p) && m.Echo?
    ensures Reasoned(HandleEcho(p, m))
  {
    if !p.rstatus {
      EchoCounted(p, m);
      var t := p.(echoes := Insert(p.echoes, m.hash, m.src));
      ReceiveReasons(t, m);
      if Len(t.echoes, m.hash) >= Q(p.n) {
        assert Enough(t, m.hash);
        SameReasons(t, Receive(t, m));
        hide Prompted, Complete, Receive, SendReady;
        SendReadyReasons(Receive(t, m), m);
      }
    }
  }

  lemma ReadyReasons(p: State, m: Msg)
    requires p.n >= 1 && Reasoned(p) && m.Ready?
    ensures Reasoned(HandleReady(p, m))
  {
    if !p.rstatus {
      ReadyCounted(p, m);
      QuorumArithmetic(p.n);
      var t := p.(readies := Insert(p.readies, m.hash, m.src));
      var r := Receive(t, m);
      ReceiveReasons(t, m);
      SendReadyCounts(r, m);
      var count := Len(t.readies, m.hash);
      assert count >= SQ(p.n) ==> Enough(t, m.hash);
      assert count >= Q(p.n) ==> Complete(t);
      SameReasons(t, r);
      SameReasons(r, SendReady(r, m));
      hide Prompted, Complete, Receive, SendReady, Deliver, Len, SQ, Q, Insert;
      if count >= SQ(p.n) {
        SendReadyReasons(r, m);
      }
      if count >= Q(p.n) {
        DeliverReasons(SendReady(r, m), m);
        DeliverReasons(t, m);
      }
    }
  }

  lemma HandleReasons(p: State, m: Msg)
    requires p.n >= 1 && Reasoned(p)
    ensures Reasoned(Handle(p, m))
  {
    hide Reasoned, HandleSend, HandleEcho, HandleReady;
    match m
    case Send(_, _, _) => SendReasons(p, m);
    case Echo(_, _, _) => EchoReasons(p, m);
    case Ready(_, _, _) => ReadyReasons(p, m);
  }

  // ---------------------------------------------------- and always with one

  /** An echo quorum has led to the READY, or to a cached one. */
  ghost predicate Echoing(p: State, seen: bool) {
    !p.rstatus ==> forall h :: Len(p.echoes, h) >= Q(p.n) ==> if seen then p.status == ECHO else p.cache >= ECHO
  }

  lemma SendEchoing(p: State, m: Msg)
    requires Echoing(p, false) && m.Send?
    ensures Echoing(HandleSend(p, m), true)
  {
    if !p.rstatus {
      var a := ReceiveSend(p.(status := SEND), m);
      var t := a.(out := a.out + [EchoOf(p.id, p.mode, m)]);
      assert SameCounts(p, t) && t.cache == p.cache && t.status == SEND;
      hide ReceiveSend;
      SendReadyCounts(t, m);
      SendReadyCounts(SendReady(t, m), m);
    }
  }

  lemma SendReadyEchoing(p: State, seen: bool, m: Msg)
    requires !p.rstatus && if seen then p.status == SEND || p.status == ECHO else p.status == IDLE
    ensures var t := SendReady(p, m);
      t.rstatus || (if seen then t.status == ECHO else t.status == IDLE && t.cache >= ECHO)
  {
  }

  lemma DeliverEchoing(p: State, seen: bool, m: Msg)
    requires p.rstatus || (if seen then p.status == ECHO else p.status == IDLE && p.cache >= ECHO)
    ensures var t := Deliver(p, m); t.rstatus || (if seen then t.status == ECHO else t.cache >= ECHO)
  {
  }

  lemma EchoEchoing(p: State, seen: bool, m: Msg)
    requires Standing(p, seen) && Echoing(p, seen) && m.Echo?
    ensures Echoing(HandleEcho(p, m), seen)
  {
    if !p.rstatus {
      var t := p.(echoes := Insert(p.echoes, m.hash, m.src));
      InsertCount(p.echoes, m.hash, m.src);
      var r := Receive(t, m);
      assert SameCounts(t, r) && r.status == p.status && !r.rstatus && r.cache == p.cache;
      SendReadyEchoing(r, seen, m);
      hide Receive, SendReady, Insert, Q;
    }
  }

  lemma AfterReady(p: State, seen: bool, m: Msg)
    requires p.n >= 1 && Standing(p, seen) && !p.rstatus && m.Ready?
    ensures var t := p.(readies := Insert(p.readies, m.hash, m.src));
      Len(t.readies, m.hash) > SQ(p.n) ==> if seen then p.status == ECHO else p.status == IDLE && p.cache >= ECHO
  {
    InsertCount(p.readies, m.hash, m.src);
    hide Insert, Q, SQ;
  }

  lemma SameEchoing(p: State, t: State, seen: bool)
    requires Echoing(p, seen) && !p.rstatus && t.echoes == p.echoes && t.n == p.n
    requires t.rstatus || (if seen then t.status == ECHO else t.cache >= ECHO) || (t.status == p.status && t.cache == p.cache)
    ensures Echoing(t, seen)
  {
  }

  lemma ReceiveKeeps(p: State, m: Msg)
    ensures var r := Receive(p, m); r.status == p.status && r.rstatus == p.rstatus && r.cache == p.cache && SameCounts(p, r)
  {
  }

  lemma StandingStatus(p: State, seen: bool)
    requires Standing(p, seen) && !p.rstatus
    ensures if seen then p.status == SEND || p.status == ECHO else p.status == IDLE
  {
  }

  lemma ReadyEchoing(p: State, seen: bool, m: Msg)
    requires p.n >= 1 && Standing(p, seen) && Echoing(p, seen) && m.Ready?
    ensures Echoing(HandleReady(p, m), seen)
  {
    hide Receive, SendReady, Deliver, Insert, Q, SQ, Len, Echoing, Standing;
    if !p.rstatus {
      StandingStatus(p, seen);
      QuorumArithmetic(p.n);
      AfterReady(p, seen, m);
      var t := p.(readies := Insert(p.readies, m.hash, m.src));
      var r := Receive(t, m);
      ReceiveKeeps(t, m);
      SendReadyCounts(r, m);
      DeliverCounts(SendReady(r, m), m);
      DeliverCounts(t, m);
      SendReadyEchoing(r, seen, m);
      DeliverEchoing(SendReady(r, m), seen, m);
      if Len(t.readies, m.hash) > SQ(p.n) {
        DeliverEchoing(t, seen, m);
      }
      SameEchoing(p, HandleReady(p, m), seen);
    }
  }

  lemma HandleEchoing(p: State, seen: bool, m: Msg)
    requires p.n >= 1 && Standing(p, seen) && Echoing(p, seen) && (m.Send? ==> !seen)
    ensures Echoing(Handle(p, m), seen || m.Send?)
  {
    hide Standing, Echoing, HandleSend, HandleEcho, HandleReady;
    match m
    case Send(_, _, _) => SendEchoing(p, m);
    case Echo(_, _, _) => EchoEchoing(p, seen, m);
    case Ready(_, _, _) => ReadyEchoing(p, seen, m);
  }

  // --------------------------------------------------- messages and counters

  /** A handler counts the ECHO it is given, until the node delivers. */
  lemma HandleEchoes(p: State, m: Msg)
    requires !p.rstatus
    ensures Handle(p, m).echoes == if m.Echo? then Insert(p.echoes, m.hash, m.src) else p.echoes
  {
    hide Receive, ReceiveSend, SendReady, Deliver, Len;
    match m
    case Send(_, _, _) =>
      StoreCounts(p.(status := SEND), m);
      var a := ReceiveSend(p.(status := SEND), m);
      var t := a.(out := a.out + [EchoOf(p.id, p.mode, m)]);
      SendReadyCounts(t, m);
      DeliverCounts(SendReady(t, m), m);
    case Echo(_, _, _) =>
      var t := p.(echoes := Insert(p.echoes, m.hash, m.src));
      StoreCounts(t, m);
      SendReadyCounts(Receive(t, m), m);
    case Ready(_, _, _) =>
      var t := p.(readies := Insert(p.readies, m.hash, m.src));
      StoreCounts(t, m);
      SendReadyCounts(Receive(t, m), m);
      DeliverCounts(SendReady(Receive(t, m), m), m);
      DeliverCounts(t, m);
  }

  lemma EchoesExtend(ms: seq<Msg>, m: Msg, h: Hash)
    ensures EchoSources(ms + [m], h) == EchoSources(ms, h) + if m.Echo? && m.hash == h then {m.src} else {}
  {
  }

  lemma InsertedAt(b: Counter<Hash>, k: Hash, src: int, h: Hash)
    ensures At(Insert(b, k, src), h) == if k == h then At(b, h) + {src} else At(b, h)
  {
  }

  /** The counters of a node hold sources of the messages it was given, and all of them until it delivers. */
  ghost predicate Counting(p: State, ms: seq<Msg>, h: Hash) {
    && At(p.echoes, h) <= EchoSources(ms, h) && At(p.readies, h) <= ReadySources(ms, h)
    && (p.rstatus || (At(p.echoes, h) == EchoSources(ms, h) && At(p.readies, h) == ReadySources(ms, h)))
  }

  lemma CountingNext(p: State, ms: seq<Msg>, m: Msg, h: Hash)
    requires Counting(p, ms, h)
    ensures Counting(Handle(p, m), ms + [m], h)
  {
    hide Handle, EchoSources, ReadySources, Insert, At;
    HandleReadies(p, m);
    EchoesExtend(ms, m, h);
    SourcesExtend(ms, m, h);
    if !p.rstatus {
      HandleEchoes(p, m);
      InsertedAt(p.echoes, m.hash, m.src, h);
      InsertedAt(p.readies, m.hash, m.src, h);
    }
  }

  lemma NothingCounted(id: int, n: nat, mode: Mode, h: Hash)
    ensures Counting(Initial(id, n, mode), [], h)
  {
  }

  lemma {:induction false} FeedCounts(id: int, n: nat, mode: Mode, ms: seq<Msg>, h: Hash)
    ensures Counting(Feed(Initial(id, n, mode), ms), ms, h)
  {
    if ms == [] {
      NothingCounted(id, n, mode, h);
    } else {
      var pre, m := ms[..|ms| - 1], ms[|ms| - 1];
      assert ms == pre + [m];
      hide Counting, Handle, Initial;
      FeedCounts(id, n, mode, pre, h);
      CountingNext(Feed(Initial(id, n, mode), pre), pre, m, h);
    }
  }

  lemma {:induction false} FeedReasons(id: int, n: nat, mode: Mode, ms: seq<Msg>)
    requires n >= 1 && SendCount(ms) <= 1
    ensures Reasoned(Feed(Initial(id, n, mode), ms)) && Echoing(Feed(Initial(id, n, mode), ms), SendCount(ms) == 1)
  {
    if ms == [] {
      QuorumArithmetic(n);
      assert forall h :: Len(Initial(id, n, mode).echoes, h) == 0;
    } else {
      var pre, m := ms[..|ms| - 1], ms[|ms| - 1];
      hide Reasoned, Echoing, Handle, Initial, Standing;
      FeedReasons(id, n, mode, pre);
      FeedStands(id, n, mode, pre);
      HandleReasons(Feed(Initial(id, n, mode), pre), m);
      HandleEchoing(Feed(Initial(id, n, mode), pre), SendCount(pre) == 1, m);
    }
  }

  // -------------------------------------------------------------- theorems

  lemma ReasonGiven(id: int, n: nat, mode: Mode, ms: seq<Msg>)
    requires n >= 1 && SendCount(ms) <= 1
    ensures var s := Feed(Initial(id, n, mode), ms);
      && (s.rstatus ==> exists h :: |ReadySources(ms, h)| >= Q(n))
      && (Sealed(s) ==> exists h :: |EchoSources(ms, h)| >= Q(n) || |ReadySources(ms, h)| >= SQ(n))
  {
    var s := Feed(Initial(id, n, mode), ms);
    FeedReasons(id, n, mode, ms);
    FeedStands(id, n, mode, ms);
    hide Feed, Initial, Standing, Echoing, EchoSources, ReadySources, SendCount, Q, SQ;
    if s.rstatus {
      var h :| Len(s.readies, h) >= Q(s.n);
      FeedCounts(id, n, mode, ms, h);
      SubsetCard(At(s.readies, h), ReadySources(ms, h));
    }
    if Sealed(s) {
      var h :| Enough(s, h);
      FeedCounts(id, n, mode, ms, h);
      SubsetCard(At(s.readies, h), ReadySources(ms, h));
      SubsetCard(At(s.echoes, h), EchoSources(ms, h));
    }
  }

  lemma HandleDelivered(p: State, m: Msg)
    requires p.rstatus ==> p.status == READY
    ensures Handle(p, m).rstatus ==> Handle(p, m).status == READY
  {
    if p.rstatus {
      HandleReadies(p, m);
    } else {
      NewlyDelivered(p, m);
    }
  }

  lemma StepDelivered(t: State, m: Msg)
    requires t.rstatus ==> t.status == READY
    ensures SendReady(t, m).rstatus ==> SendReady(t, m).status == READY
    ensures Deliver(t, m).rstatus ==> Deliver(t, m).status == READY
  {
  }

  lemma StoreKeepsStatus(p: State, m: Msg)
    ensures Receive(p, m).rstatus == p.rstatus && ReceiveSend(p, m).rstatus == p.rstatus
  {
  }

  lemma NewlyDelivered(p: State, m: Msg)
    requires !p.rstatus
    ensures Handle(p, m).rstatus ==> Handle(p, m).status == READY
  {
    hide SendReady, Deliver, Receive, ReceiveSend, Insert, Len, Q, SQ, EchoOf;
    match m
    case Send(_, _, _) =>
      StoreKeepsStatus(p.(status := SEND), m);
      var a := ReceiveSend(p.(status := SEND), m);
      var t := a.(out := a.out + [EchoOf(p.id, p.mode, m)]);
      StepDelivered(t, m);
      StepDelivered(SendReady(t, m), m);
    case Echo(_, _, _) =>
      var t := p.(echoes := Insert(p.echoes, m.hash, m.src));
      StoreKeepsStatus(t, m);
      StepDelivered(Receive(t, m), m);
    case Ready(_, _, _) =>
      var t := p.(readies := Insert(p.readies, m.hash, m.src));
      StoreKeepsStatus(t, m);
      StepDelivered(Receive(t, m), m);
      StepDelivered(SendReady(Receive(t, m), m), m);
      StepDelivered(t, m);
  }

  lemma {:induction false} DeliveredStatus(id: int, n: nat, mode: Mode, ms: seq<Msg>)
    ensures var s := Feed(Initial(id, n, mode), ms); s.rstatus ==> s.status == READY
  {
    if ms != [] {
      hide Handle;
      DeliveredStatus(id, n, mode, ms[..|ms| - 1]);
      HandleDelivered(Feed(Initial(id, n, mode), ms[..|ms| - 1]), ms[|ms| - 1]);
    }
  }

  lemma EnoughSeals(s: State, h: Hash)
    requires Standing(s, true) && Echoing(s, true) && Enough(s, h) && !s.rstatus
    ensures Sealed(s)
  {
  }

  lemma EnoughCounted(s: State, ms: seq<Msg>, h: Hash, n: nat)
    requires Counting(s, ms, h) && s.n == n && !s.rstatus && (|EchoSources(ms, h)| >= Q(n) || |ReadySources(ms, h)| >= SQ(n))
    ensures Enough(s, h)
  {
  }

  /** A node that has handled its SEND, before, between or after any other messages, is past its READY exactly
      when it was given an echo quorum or f+1 READYs for one hash. */
  lemma ReadyExactly(id: int, n: nat, mode: Mode, ms: seq<Msg>)
    requires n >= 1 && SendCount(ms) == 1
    ensures var s := Feed(Initial(id, n, mode), ms);
      s.status == ECHO || s.status == READY <==> exists h :: |EchoSources(ms, h)| >= Q(n) || |ReadySources(ms, h)| >= SQ(n)
  {
    hide Feed, Initial, EchoSources, ReadySources, SendCount, Q, SQ, Reasoned, Standing, Echoing, Counting, Enough;
    var s := Feed(Initial(id, n, mode), ms);
    ReasonGiven(id, n, mode, ms);
    FeedReasons(id, n, mode, ms);
    FeedStands(id, n, mode, ms);
    DeliveredStatus(id, n, mode, ms);
    if h :| |EchoSources(ms, h)| >= Q(n) || |ReadySources(ms, h)| >= SQ(n) {
      if !s.rstatus {
        FeedCounts(id, n, mode, ms, h);
        EnoughCounted(s, ms, h, n);
        EnoughSeals(s, h);
      }
    }
  }

  /** It has delivered exactly when it was given a quorum of READYs for one hash. */
  lemma DeliversExactly(id: int, n: nat, mode: Mode, ms: seq<Msg>)
    requires n >= 1 && SendCount(ms) == 1
    ensures Feed(Initial(id, n, mode), ms).rstatus <==> exists h :: |ReadySources(ms, h)| >= Q(n)
  {
    ReasonGiven(id, n, mode, ms);
    hide Feed, ReadySources, SendCount, Q;
    if h :| |ReadySources(ms, h)| >= Q(n) {
      OrderIndependence(id, n, mode, ms, h);
    }
  }
}
