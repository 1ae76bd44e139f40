/** Where the payload is lost: an ECHO counts by its hash, but a node that has not seen the SEND stores
    the payload of the ECHO that completes the quorum. With a single faulty node there is a run of rbc,
    with an honest sender, in which two correct nodes deliver different payloads. */
module BrachaLimits {
  import opened Wrappers
  import opened Quorum
  import opened Sets
  import opened Bracha
  import opened BrachaSystem
  import opened BrachaTheorems

  // ------------------------------------------------------- honest senders

  /** The sender sends one body to all. Byzantine nodes may send any ECHO or READY. */
  predicate Honest(b: Body, e: Event) {
    match e
    case Start(_, body) => body == b
    case Receipt(_, m) => m.Send? ==> m.hash == NoHash && m.body == b
  }

  ghost predicate HonestStep(cfg: Config, b: Body, s: Sys, s': Sys) {
    exists e :: Enabled(cfg, s, e) && Honest(b, e) && s' == Next(cfg, s, e)
  }

  ghost predicate HonestRun(cfg: Config, b: Body, tr: seq<Sys>) {
    && |tr| > 0 && tr[0] == Init(cfg)
    && forall i :: 0 <= i < |tr| - 1 ==> HonestStep(cfg, b, tr[i], tr[i + 1])
  }

  ghost predicate Reached(cfg: Config, b: Body, s: Sys) {
    exists tr :: HonestRun(cfg, b, tr) && tr[|tr| - 1] == s
  }

  lemma ReachInit(cfg: Config, b: Body)
    ensures Reached(cfg, b, Init(cfg))
  {
    assert HonestRun(cfg, b, [Init(cfg)]);
  }

  lemma ReachStep(cfg: Config, b: Body, s: Sys, e: Event)
    requires Reached(cfg, b, s) && Enabled(cfg, s, e) && Honest(b, e)
    ensures Reached(cfg, b, Next(cfg, s, e))
  {
    hide Next, Enabled, Honest;
    var tr :| HonestRun(cfg, b, tr) && tr[|tr| - 1] == s;
    var longer := tr + [Next(cfg, s, e)];
    assert HonestStep(cfg, b, s, Next(cfg, s, e));
    forall i | 0 <= i < |longer| - 1
      ensures HonestStep(cfg, b, longer[i], longer[i + 1])
    {
      assert i < |tr| - 1 ==> HonestStep(cfg, b, tr[i], tr[i + 1]);
    }
    assert HonestRun(cfg, b, longer);
  }

  // --------------------------------------------------- feeding one node

  /** A node after these messages, with what it has sent taken away each time. */
  function Fed(p: State, ms: seq<Msg>): State {
    if ms == [] then p else Handle(Fed(p, ms[..|ms| - 1]), ms[|ms| - 1]).(out := [])
  }

  /** What it has sent on the way. */
  function Said(p: State, ms: seq<Msg>): set<Msg> {
    if ms == [] then {} else Said(p, ms[..|ms| - 1]) + Outgoing(Handle(Fed(p, ms[..|ms| - 1]), ms[|ms| - 1]))
  }

  lemma FedOne(p: State, ms: seq<Msg>, m: Msg)
    ensures Fed(p, ms + [m]) == Handle(Fed(p, ms), m).(out := [])
    ensures Said(p, ms + [m]) == Said(p, ms) + Outgoing(Handle(Fed(p, ms), m))
  {
    hide Handle, Outgoing;
    assert (ms + [m])[..|ms|] == ms;
  }

  lemma FedOnce(p: State, a: seq<Msg>, b: seq<Msg>, m: Msg)
    requires Fed(Fed(p, a), b) == Fed(p, a + b)
    ensures Fed(Fed(p, a), b + [m]) == Fed(p, a + (b + [m]))
  {
    FedOne(Fed(p, a), b, m);
    FedOne(p, a + b, m);
    hide *;
    assert (a + b) + [m] == a + (b + [m]);
  }

  lemma FedNone(p: State)
    ensures Fed(p, []) == p
  {
  }

  lemma {:induction false} FedTwice(p: State, a: seq<Msg>, b: seq<Msg>)
    ensures Fed(Fed(p, a), b) == Fed(p, a + b)
    decreases |b|
  {
    hide *;
    if b == [] {
      assert a + b == a;
      FedNone(Fed(p, a));
    } else {
      var pre, m := SplitLast(b);
      FedTwice(p, a, pre);
      FedOnce(p, a, pre, m);
    }
  }

  lemma SplitLast(b: seq<Msg>) returns (pre: seq<Msg>, m: Msg)
    requires b != []
    ensures b == pre + [m] && |pre| < |b|
  {
    pre, m := b[..|b| - 1], b[|b| - 1];
  }

  lemma {:induction false} FedStands(p: State, ms: seq<Msg>)
    requires p.n >= 1 && Standing(p, false) && SendCount(ms) <= 1
    ensures Standing(Fed(p, ms), SendCount(ms) == 1) && Fed(p, ms).n == p.n
  {
    if ms != [] {
      hide Standing, Handle;
      var pre, m := ms[..|ms| - 1], ms[|ms| - 1];
      FedStands(p, pre);
      HandleId(Fed(p, pre), m);
      HandleStands(Fed(p, pre), SendCount(pre) == 1, m);
      StandsApart(Handle(Fed(p, pre), m), SendCount(ms) == 1);
    }
  }

  lemma StandsApart(p: State, seen: bool)
    requires Standing(p, seen)
    ensures Standing(p.(out := []), seen)
  {
  }

  /** Until it delivers, a node has counted every READY it was given. */
  lemma {:induction false} FedReadies(p: State, ms: seq<Msg>, h: Hash)
    ensures Fed(p, ms).rstatus || ReadySources(ms, h) <= At(Fed(p, ms).readies, h)
  {
    if ms != [] {
      var pre, m := ms[..|ms| - 1], ms[|ms| - 1];
      assert ms == pre + [m];
      FedReadies(p, pre, h);
      HandleReadies(Fed(p, pre), m);
      SourcesExtend(pre, m, h);
      hide Handle, ReadySources;
    }
  }

  /** One SEND and a quorum of READYs make the node deliver, in whatever order. */
  lemma FedDelivers(x: int, n: nat, ms: seq<Msg>, h: Hash)
    requires n >= 1 && SendCount(ms) == 1 && |ReadySources(ms, h)| >= Q(n)
    ensures Fed(Initial(x, n, Rbc), ms).rstatus
  {
    var p, t := Initial(x, n, Rbc), Fed(Initial(x, n, Rbc), ms);
    QuorumArithmetic(n);
    assert forall g :: Len(p.readies, g) == 0;
    assert Standing(p, false);
    FedStands(p, ms);
    FedReadies(p, ms, h);
    if ReadySources(ms, h) <= At(t.readies, h) {
      SubsetCard(ReadySources(ms, h), At(t.readies, h));
      assert Len(t.readies, h) >= Q(t.n);
    }
  }

  lemma HandleStores(p: State, m: Msg)
    requires Received(p)
    ensures Handle(p, m).req == p.req
  {
    match m
    case Send(_, _, _) =>
      var t := ReceiveSend(p.(status := SEND), m);
      ReadyStores(t.(out := t.out + [EchoOf(p.id, p.mode, m)]), m);
    case Echo(_, _, _) => ReadyStores(p.(echoes := Insert(p.echoes, m.hash, m.src)), m);
    case Ready(_, _, _) => ReadyStores(p.(readies := Insert(p.readies, m.hash, m.src)), m);
  }

  lemma ReadyStores(p: State, m: Msg)
    requires Received(p)
    ensures SendReady(p, m).req == p.req && Received(SendReady(p, m)) && Receive(p, m) == p
    ensures Deliver(p, m).req == p.req && Deliver(SendReady(p, m), m).req == p.req
  {
  }

  lemma {:induction false} FedStores(p: State, ms: seq<Msg>)
    requires Received(p)
    ensures Fed(p, ms).req == p.req
  {
    if ms != [] {
      FedStores(p, ms[..|ms| - 1]);
      HandleStores(Fed(p, ms[..|ms| - 1]), ms[|ms| - 1]);
    }
  }

  // ------------------------------------------------------------- the lists

  /** The ECHOs, or the READYs, of the nodes below k other than x and z. */
  function EchoesOf(k: nat, x: int, z: int, b: Body): seq<Msg> {
    if k == 0 then []
    else if k - 1 == x || k - 1 == z then EchoesOf(k - 1, x, z, b)
    else EchoesOf(k - 1, x, z, b) + [Echo(k - 1, Digest(b), b)]
  }

  function ReadiesOf(k: nat, x: int, b: Body): seq<Msg> {
    if k == 0 then []
    else if k - 1 == x then ReadiesOf(k - 1, x, b)
    else ReadiesOf(k - 1, x, b) + [Ready(k - 1, Digest(b), b)]
  }

  /** ECHOs for one hash and body, of increasing sources. */
  predicate EchoList(ms: seq<Msg>, b: Body) {
    && (forall i :: 0 <= i < |ms| ==> ms[i] == Echo(ms[i].src, Digest(b), b))
    && (forall i, j :: 0 <= i < j < |ms| ==> ms[i].src < ms[j].src)
  }

  lemma EchoesNext(k: nat, x: int, z: int, b: Body)
    requires k > 0
    ensures EchoesOf(k, x, z, b) == if k - 1 == x || k - 1 == z then EchoesOf(k - 1, x, z, b) else EchoesOf(k - 1, x, z, b) + [Echo(k - 1, Digest(b), b)]
  {
  }

  predicate Below(ms: seq<Msg>, k: nat, x: int, z: int) {
    forall m :: m in ms ==> 0 <= m.src < k && m.src != x && m.src != z
  }

  lemma OneMoreEcho(ms: seq<Msg>, k: nat, x: int, z: int, b: Body)
    requires EchoList(ms, b) && Below(ms, k, x, z) && k != x && k != z
    ensures EchoList(ms + [Echo(k, Digest(b), b)], b) && Below(ms + [Echo(k, Digest(b), b)], k + 1, x, z)
  {
    forall i | 0 <= i < |ms|
      ensures ms[i].src < k
    {
      assert ms[i] in ms;
    }
  }

  lemma WiderEchoes(ms: seq<Msg>, k: nat, x: int, z: int)
    requires Below(ms, k, x, z)
    ensures Below(ms, k + 1, x, z)
  {
  }

  lemma {:induction false} EchoesCount(k: nat, x: nat, z: nat, b: Body)
    ensures |EchoesOf(k, x, z, b)| == k - (if x < k then 1 else 0) - (if z < k && z != x then 1 else 0)
  {
    if k > 0 {
      EchoesCount(k - 1, x, z, b);
    }
  }

  lemma NoEchoes(x: int, z: int, b: Body)
    ensures EchoList(EchoesOf(0, x, z, b), b) && Below(EchoesOf(0, x, z, b), 0, x, z)
  {
  }

  lemma {:induction false} EchoesListed(k: nat, x: nat, z: nat, b: Body)
    ensures EchoList(EchoesOf(k, x, z, b), b) && Below(EchoesOf(k, x, z, b), k, x, z)
  {
    hide *;
    if k == 0 {
      NoEchoes(x, z, b);
    } else {
      EchoesListed(k - 1, x, z, b);
      EchoesNext(k, x, z, b);
      if k - 1 == x || k - 1 == z {
        WiderEchoes(EchoesOf(k - 1, x, z, b), k - 1, x, z);
      } else {
        OneMoreEcho(EchoesOf(k - 1, x, z, b), k - 1, x, z, b);
      }
    }
  }

  lemma EchoesAre(k: nat, x: nat, z: nat, b: Body)
    ensures EchoList(EchoesOf(k, x, z, b), b) && Below(EchoesOf(k, x, z, b), k, x, z)
    ensures |EchoesOf(k, x, z, b)| == k - (if x < k then 1 else 0) - (if z < k && z != x then 1 else 0)
  {
    EchoesCount(k, x, z, b);
    EchoesListed(k, x, z, b);
  }

  /** READYs for one hash and body, of sources below k other than x. */
  predicate ReadyList(ms: seq<Msg>, k: nat, x: int, b: Body) {
    forall m :: m in ms ==> m == Ready(m.src, Digest(b), b) && 0 <= m.src < k && m.src != x
  }

  lemma ReadiesNext(k: nat, x: int, b: Body)
    requires k > 0
    ensures ReadiesOf(k, x, b) == if k - 1 == x then ReadiesOf(k - 1, x, b) else ReadiesOf(k - 1, x, b) + [Ready(k - 1, Digest(b), b)]
  {
  }

  lemma {:induction false} ReadiesAre(k: nat, x: nat, b: Body)
    ensures ReadyList(ReadiesOf(k, x, b), k, x, b) && SendCount(ReadiesOf(k, x, b)) == 0
  {
    if k > 0 {
      hide *;
      var pre, m := ReadiesOf(k - 1, x, b), Ready(k - 1, Digest(b), b);
      ReadiesAre(k - 1, x, b);
      ReadiesNext(k, x, b);
      if k - 1 == x {
        WiderReadies(pre, k, x, b);
      } else {
        SendCountOne(pre, m);
        OneMoreReady(pre, m, k, x, b);
      }
    }
  }

  lemma WiderReadies(ms: seq<Msg>, k: nat, x: int, b: Body)
    requires k > 0 && ReadyList(ms, k - 1, x, b)
    ensures ReadyList(ms, k, x, b)
  {
  }

  lemma OneMoreReady(ms: seq<Msg>, m: Msg, k: nat, x: int, b: Body)
    requires k > 0 && ReadyList(ms, k - 1, x, b) && m == Ready(k - 1, Digest(b), b) && k - 1 != x
    ensures ReadyList(ms + [m], k, x, b)
  {
  }

  lemma NewSource(ms: seq<Msg>, m: Msg, h: Hash)
    requires m.Ready? && m.hash == h && forall o :: o in ms ==> o.src != m.src
    ensures |ReadySources(ms + [m], h)| == |ReadySources(ms, h)| + 1
  {
    SourcesExtend(ms, m, h);
    assert m.src !in ReadySources(ms, h);
    hide ReadySources;
  }

  lemma {:induction false} ReadyCount(k: nat, x: nat, b: Body)
    ensures |ReadySources(ReadiesOf(k, x, b), Digest(b))| == k - if x < k then 1 else 0
  {
    if k > 0 {
      ReadyCount(k - 1, x, b);
      if k - 1 != x {
        ReadiesAre(k - 1, x, b);
        hide ReadySources;
        NewSource(ReadiesOf(k - 1, x, b), Ready(k - 1, Digest(b), b), Digest(b));
      }
    } else {
      assert ReadySources([], Digest(b)) == {};
    }
  }

  lemma SendCountOne(ms: seq<Msg>, m: Msg)
    ensures SendCount(ms + [m]) == SendCount(ms) + if m.Send? then 1 else 0
  {
    assert (ms + [m])[..|ms|] == ms;
  }

  lemma {:induction false} SendCountTwo(a: seq<Msg>, b: seq<Msg>)
    ensures SendCount(a + b) == SendCount(a) + SendCount(b)
  {
    if b == [] {
      assert a + b == a;
    } else {
      var l := |b| - 1;
      SendCountTwo(a, b[..l]);
      assert a + b == (a + b[..l]) + [b[l]];
      SendCountOne(a + b[..l], b[l]);
    }
  }

  lemma {:induction false} EchoesNoSend(ms: seq<Msg>, b: Body)
    requires EchoList(ms, b)
    ensures SendCount(ms) == 0
  {
    if ms != [] {
      EchoesNoSend(ms[..|ms| - 1], b);
      assert ms[|ms| - 1].Echo?;
    }
  }

  // ------------------------------------------------------- echoes at a node

  /** The node has counted these ECHOs, and has not delivered. */
  predicate Counted(t: State, ms: seq<Msg>, h: Hash) {
    && !t.rstatus && t.cache <= ECHO && Len(t.echoes, h) == |ms|
    && forall src :: src in At(t.echoes, h) ==> ms != [] && src <= ms[|ms| - 1].src
  }

  lemma CountOne(t: State, ms: seq<Msg>, m: Msg, b: Body)
    requires EchoList(ms + [m], b) && Counted(t, ms, Digest(b))
    ensures m == Echo(m.src, Digest(b), b)
    ensures Counted(t.(echoes := Insert(t.echoes, m.hash, m.src)), ms + [m], Digest(b))
  {
    var all := ms + [m];
    assert all[|ms|] == m;
    if ms != [] {
      assert all[|ms| - 1] == ms[|ms| - 1];
    }
    InsertCount(t.echoes, m.hash, m.src);
  }

  lemma EchoListPrefix(ms: seq<Msg>, m: Msg, b: Body)
    requires EchoList(ms + [m], b)
    ensures EchoList(ms, b)
  {
    forall i | 0 <= i < |ms|
      ensures ms[i] == Echo(ms[i].src, Digest(b), b)
    {
      assert (ms + [m])[i] == ms[i];
    }
    forall i, j | 0 <= i < j < |ms|
      ensures ms[i].src < ms[j].src
    {
      assert (ms + [m])[i] == ms[i] && (ms + [m])[j] == ms[j];
    }
  }

  lemma ReadyOut(t: State, m: Msg)
    requires t.status == SEND && t.out == []
    ensures SendReady(t, m).status == ECHO && Ready(t.id, m.hash, m.body) in Outgoing(SendReady(t, m))
  {
    assert SendReady(t, m).out == [Ready(t.id, m.hash, m.body)];
  }

  /** What a node that has handled its SEND has reached after these ECHOs. */
  ghost predicate Echoed(p: State, ms: seq<Msg>, b: Body) {
    var t := Fed(p, ms);
    && Counted(t, ms, Digest(b)) && t.n == p.n && t.id == p.id && t.out == []
    && (if |ms| < Q(p.n) then t.status == SEND else t.status == ECHO && Ready(p.id, Digest(b), b) in Said(p, ms))
  }

  lemma EchoStep(t: State, ms: seq<Msg>, m: Msg, b: Body)
    requires EchoList(ms + [m], b) && Counted(t, ms, Digest(b)) && t.out == []
    requires t.status == if |ms| < Q(t.n) then SEND else ECHO
    ensures var w := Handle(t, m);
      Counted(w.(out := []), ms + [m], Digest(b)) && w.n == t.n && w.id == t.id && w.status == if |ms| + 1 < Q(t.n) then SEND else ECHO
    ensures |ms| + 1 == Q(t.n) ==> Ready(t.id, Digest(b), b) in Outgoing(Handle(t, m))
  {
    CountOne(t, ms, m, b);
    CountedCache(t, ms, Digest(b));
    var u := t.(echoes := Insert(t.echoes, m.hash, m.src));
    CountedLength(u, ms + [m], Digest(b));
    var r := Receive(u, m);
    assert r.status == t.status && r.out == [] && r.echoes == u.echoes && r.id == t.id && r.n == t.n && r.cache == t.cache && !r.rstatus;
    hide Counted, Insert, Receive, Outgoing, EchoList;
    if |ms| + 1 == Q(t.n) {
      ReadyOut(r, m);
      assert Handle(t, m) == SendReady(r, m);
    } else if |ms| + 1 > Q(t.n) {
      assert Handle(t, m) == SendReady(r, m);
    } else {
      assert Handle(t, m) == u;
    }
    CountedKept(u, Handle(t, m).(out := []), ms + [m], Digest(b));
  }

  lemma EchoedNext(p: State, ms: seq<Msg>, m: Msg, b: Body)
    requires Echoed(p, ms, b) && EchoList(ms + [m], b)
    ensures Echoed(p, ms + [m], b)
  {
    FedOne(p, ms, m);
    var t := Fed(p, ms);
    EchoStep(t, ms, m, b);
    hide Fed, Said, Counted, Outgoing, Handle, Q, EchoList;
  }

  lemma CountedLength(t: State, ms: seq<Msg>, h: Hash)
    requires Counted(t, ms, h)
    ensures Len(t.echoes, h) == |ms|
  {
  }

  lemma CountedCache(t: State, ms: seq<Msg>, h: Hash)
    requires Counted(t, ms, h)
    ensures !t.rstatus && t.cache <= ECHO
  {
  }

  lemma CountedKept(t: State, u: State, ms: seq<Msg>, h: Hash)
    requires Counted(t, ms, h) && u.echoes == t.echoes && !u.rstatus && u.cache <= ECHO
    ensures Counted(u, ms, h)
  {
  }

  lemma {:induction false} EchoesMakeReady(p: State, ms: seq<Msg>, b: Body)
    requires p.n >= 1 && p.status == SEND && !p.rstatus && p.cache == IDLE && p.echoes == map[] && p.out == []
    requires EchoList(ms, b)
    ensures Echoed(p, ms, b)
  {
    if ms == [] {
      QuorumArithmetic(p.n);
    } else {
      var pre, m := ms[..|ms| - 1], ms[|ms| - 1];
      assert ms == pre + [m];
      EchoListPrefix(pre, m, b);
      EchoesMakeReady(p, pre, b);
      EchoedNext(p, pre, m, b);
    }
  }

  /** Fewer than a quorum of ECHOs change nothing but the counter. */
  lemma {:induction false} FewEchoes(p: State, ms: seq<Msg>, b: Body)
    requires !p.rstatus && p.cache == IDLE && p.echoes == map[] && p.out == []
    requires EchoList(ms, b) && |ms| < Q(p.n)
    ensures var t := Fed(p, ms);
      t == p.(echoes := t.echoes) && Counted(t, ms, Digest(b))
  {
    if ms != [] {
      var pre, m := ms[..|ms| - 1], ms[|ms| - 1];
      assert ms == pre + [m];
      EchoListPrefix(pre, m, b);
      FewEchoes(p, pre, b);
      FedOne(p, pre, m);
      CountOne(Fed(p, pre), pre, m, b);
      var u := Fed(p, pre).(echoes := Insert(Fed(p, pre).echoes, m.hash, m.src));
      CountedLength(u, ms, Digest(b));
      hide Fed, Counted, Insert;
    }
  }

  /** The ECHO that completes the quorum has its payload stored, whatever it is. */
  lemma QuorumStores(p: State, ms: seq<Msg>, z: int, b: Body, c: Body)
    requires !p.rstatus && p.cache == IDLE && p.status == IDLE && p.echoes == map[] && p.out == [] && p.req == None && p.mode == Rbc
    requires EchoList(ms, b) && |ms| == Q(p.n) - 1 && forall m :: m in ms ==> m.src != z
    ensures Fed(p, ms + [Echo(z, Digest(b), c)]).req == Some(Payload(c))
  {
    var m := Echo(z, Digest(b), c);
    FewEchoes(p, ms, b);
    FedOne(p, ms, m);
    var t := Fed(p, ms);
    FewSources(p, ms, b, z);
    InsertCount(t.echoes, m.hash, z);
    CountedLength(t, ms, Digest(b));
    hide Fed, Counted, Insert, EchoList;
    var u := t.(echoes := Insert(t.echoes, m.hash, m.src));
    assert Len(u.echoes, m.hash) == Q(p.n);
    StoresNow(u, m);
  }

  /** An ECHO at the quorum is stored, whatever SendReady does next. */
  lemma StoresNow(u: State, m: Msg)
    requires u.mode == Rbc && u.req == None
    ensures SendReady(Receive(u, m), m).req == Some(Payload(m.body))
  {
    ReadyStores(Receive(u, m), m);
  }

  lemma {:induction false} FewSources(p: State, ms: seq<Msg>, b: Body, z: int)
    requires !p.rstatus && p.cache == IDLE && p.echoes == map[] && p.out == []
    requires EchoList(ms, b) && |ms| < Q(p.n) && forall m :: m in ms ==> m.src != z
    ensures z !in At(Fed(p, ms).echoes, Digest(b))
  {
    if ms != [] {
      var pre, m := ms[..|ms| - 1], ms[|ms| - 1];
      assert ms == pre + [m];
      EchoListPrefix(pre, m, b);
      FewSources(p, pre, b, z);
      FewEchoes(p, pre, b);
      FewEchoes(p, ms, b);
      FedOne(p, pre, m);
      assert m == Echo(m.src, Digest(b), b);
      var t := Fed(p, pre);
      CountOne(t, pre, m, b);
      var u := t.(echoes := Insert(t.echoes, m.hash, m.src));
      CountedLength(u, ms, Digest(b));
      hide Fed, Counted;
    }
  }

  // ------------------------------------------------------------- the run

  /** From s to t node x alone handles these messages. */
  ghost predicate Feeds(cfg: Config, b: Body, s: Sys, t: Sys, x: int, ms: seq<Msg>) {
    && 0 <= x < |s.slots| == |t.slots| && Reached(cfg, b, t)
    && t.slots[x].node == Fed(s.slots[x].node, ms) && t.sent == s.sent + Said(s.slots[x].node, ms)
    && (SendCount(ms) == 0 ==> t.slots[x].send == s.slots[x].send)
    && forall y :: 0 <= y < |s.slots| && y != x ==> t.slots[y] == s.slots[y]
  }

  ghost predicate AllKnown(cfg: Config, b: Body, s: Sys, ms: seq<Msg>) {
    forall m :: m in ms ==> Known(cfg, s.sent, m) && (m.Send? ==> m.hash == NoHash && m.body == b)
  }

  ghost predicate Feedable(cfg: Config, b: Body, s: Sys, x: int, ms: seq<Msg>) {
    && x in Correct(cfg) && |s.slots| == cfg.n
    && AllKnown(cfg, b, s, ms)
    && SendCount(ms) <= 1 && (SendCount(ms) == 1 ==> s.slots[x].send == None)
  }

  lemma FeedNothing(cfg: Config, b: Body, s: Sys, x: int)
    requires Reached(cfg, b, s) && Feedable(cfg, b, s, x, [])
    ensures Feeds(cfg, b, s, s, x, [])
  {
  }

  /** What handling one message changes. */
  lemma HandledFacts(s: Sys, x: int, m: Msg)
    requires 0 <= x < |s.slots|
    ensures var t := HandledAt(s, x, m);
      && t.slots[x].node == Handle(s.slots[x].node, m).(out := [])
      && t.sent == s.sent + Outgoing(Handle(s.slots[x].node, m))
      && (!m.Send? ==> t.slots[x].send == s.slots[x].send)
      && forall y :: 0 <= y < |s.slots| && y != x ==> t.slots[y] == s.slots[y]
  {
    hide Handle, Outgoing;
  }

  lemma FeedEnabled(cfg: Config, b: Body, s: Sys, u: Sys, x: int, ms: seq<Msg>, m: Msg)
    requires Feedable(cfg, b, s, x, ms + [m]) && Feeds(cfg, b, s, u, x, ms)
    ensures Enabled(cfg, u, Receipt(x, m)) && Honest(b, Receipt(x, m)) && Reached(cfg, b, u)
    ensures m.Send? ==> SendCount(ms + [m]) == 1
  {
    assert m in ms + [m];
    SendCountOne(ms, m);
    hide Reached, Fed, Said, SendCount;
  }

  lemma FeedMore(cfg: Config, b: Body, s: Sys, u: Sys, x: int, ms: seq<Msg>, m: Msg) returns (t: Sys)
    requires Feedable(cfg, b, s, x, ms + [m]) && Feeds(cfg, b, s, u, x, ms)
    ensures Feeds(cfg, b, s, t, x, ms + [m])
  {
    FeedEnabled(cfg, b, s, u, x, ms, m);
    ReachStep(cfg, b, u, Receipt(x, m));
    t := HandledAt(u, x, m);
    assert Reached(cfg, b, t);
    HandledFacts(u, x, m);
    FedOne(s.slots[x].node, ms, m);
    SendCountOne(ms, m);
    hide Feedable, Reached, Handle, Fed, Said, SendCount, Outgoing, HandledAt, Next, Enabled;
  }

  lemma FeedablePrefix(cfg: Config, b: Body, s: Sys, x: int, ms: seq<Msg>, m: Msg)
    requires Feedable(cfg, b, s, x, ms + [m])
    ensures Feedable(cfg, b, s, x, ms)
  {
    SendCountOne(ms, m);
    hide SendCount, Known;
    assert forall o :: o in ms ==> o in ms + [m];
  }

  lemma {:induction false} FeedAll(cfg: Config, b: Body, s: Sys, x: int, ms: seq<Msg>) returns (t: Sys)
    requires Reached(cfg, b, s) && Feedable(cfg, b, s, x, ms)
    ensures Feeds(cfg, b, s, t, x, ms)
  {
    hide *;
    if ms == [] {
      FeedNothing(cfg, b, s, x);
      t := s;
    } else {
      var pre, m := ms[..|ms| - 1], ms[|ms| - 1];
      assert ms == pre + [m];
      FeedablePrefix(cfg, b, s, x, pre, m);
      var u := FeedAll(cfg, b, s, x, pre);
      t := FeedMore(cfg, b, s, u, x, pre, m);
    }
  }

  /** The first SEND a node handles. */
  lemma FirstSend(y: int, n: nat, z: int, b: Body)
    ensures var p, m := Initial(y, n, Rbc), Msg.Send(z, NoHash, b);
      Fed(p, [m]) == p.(status := SEND, req := Some(Payload(b))) && Said(p, [m]) == {Echo(y, Digest(b), b)} && SendCount([m]) == 1
  {
    var p, m := Initial(y, n, Rbc), Msg.Send(z, NoHash, b);
    FedOne(p, [], m);
    SendCountOne([], m);
    assert [] + [m] == [m];
    assert HandleSend(p, m).out == [Echo(y, Digest(b), b)];
  }

  /** The ECHOs of all nodes but x make a node that has handled its SEND send its READY. */
  lemma AllEchoes(y: int, n: nat, z: int, x: nat, b: Body)
    requires n >= 1 && x < n && n - 1 >= Q(n)
    ensures var p, es := Fed(Initial(y, n, Rbc), [Msg.Send(z, NoHash, b)]), EchoesOf(n, x, x, b);
      Ready(y, Digest(b), b) in Said(p, es) && SendCount(es) == 0
  {
    FirstSend(y, n, z, b);
    var p, es := Fed(Initial(y, n, Rbc), [Msg.Send(z, NoHash, b)]), EchoesOf(n, x, x, b);
    EchoesAre(n, x, x, b);
    EchoesNoSend(es, b);
    hide Fed, EchoesOf, Q, Said;
    EchoesMakeReady(p, es, b);
  }

  /** What node y has handled after sweep w: nothing, its SEND, and then the ECHOs of all but x. */
  function Handled(n: nat, z: int, x: int, b: Body, w: nat): seq<Msg> {
    if w == 0 then [] else [Msg.Send(z, NoHash, b)] + if w == 1 then [] else EchoesOf(n, x, x, b)
  }

  /** Sweep w has passed the correct nodes below j, except for x. */
  ghost predicate Swept(cfg: Config, b: Body, z: int, x: int, s: Sys, w: nat, j: nat) {
    && Reached(cfg, b, s) && |s.slots| == cfg.n && Msg.Send(z, NoHash, b) in s.sent
    && (0 <= x < cfg.n ==> s.slots[x] == Slot(Initial(x, cfg.n, Rbc), None))
    && forall y :: y in Correct(cfg) && y != x ==> SlotAt(cfg, b, z, x, s, y, if y < j then w else w - 1)
  }

  ghost predicate SlotAt(cfg: Config, b: Body, z: int, x: int, s: Sys, y: int, w: int) {
    && 0 <= w && 0 <= y < |s.slots| && s.slots[y].node == Fed(Initial(y, cfg.n, Rbc), Handled(cfg.n, z, x, b, w))
    && (w == 0 ==> s.slots[y].send == None)
    && (w >= 1 ==> Echo(y, Digest(b), b) in s.sent)
    && (w >= 2 ==> Ready(y, Digest(b), b) in s.sent)
  }

  lemma SomeoneElse(cfg: Config, b: Body, z: int, x: int, s: Sys, w: nat, j: nat, y: int)
    requires Swept(cfg, b, z, x, s, w, j) && 0 <= y < cfg.n && y != x && y !in cfg.faulty
    ensures SlotAt(cfg, b, z, x, s, y, if y < j then w else w - 1)
  {
    hide SlotAt, Reached;
    assert y in Correct(cfg);
  }

  /** In the second sweep everyone's ECHO is there, except for x's. */
  lemma EchoHeard(cfg: Config, b: Body, z: int, x: int, s: Sys, j: nat, y: int)
    requires Swept(cfg, b, z, x, s, 2, j) && 0 <= y < cfg.n && y != x
    ensures Known(cfg, s.sent, Echo(y, Digest(b), b))
  {
    hide Swept, Fed;
    if y !in cfg.faulty {
      SomeoneElse(cfg, b, z, x, s, 2, j, y);
    }
  }

  lemma EchoesKnown(cfg: Config, b: Body, z: int, x: nat, s: Sys, j: nat, es: seq<Msg>)
    requires Swept(cfg, b, z, x, s, 2, j) && EchoList(es, b) && forall m :: m in es ==> 0 <= m.src < cfg.n && m.src != x
    ensures AllKnown(cfg, b, s, es)
  {
    hide Swept, Known;
    forall i | 0 <= i < |es|
      ensures !es[i].Send? && Known(cfg, s.sent, es[i])
    {
      assert es[i] in es;
      EchoHeard(cfg, b, z, x, s, j, es[i].src);
    }
  }

  lemma SendBatch(cfg: Config, b: Body, z: int, x: int, s: Sys, y: nat)
    requires Swept(cfg, b, z, x, s, 1, y) && y in Correct(cfg) && y != x
    ensures Feedable(cfg, b, s, y, [Msg.Send(z, NoHash, b)])
  {
    var m := Msg.Send(z, NoHash, b);
    SendCountOne([], m);
    assert [] + [m] == [m];
    SomeoneElse(cfg, b, z, x, s, 1, y, y);
    hide Fed, Reached, SendCount;
  }

  lemma EchoBatch(cfg: Config, b: Body, z: int, x: nat, s: Sys, y: nat)
    requires Swept(cfg, b, z, x, s, 2, y) && y in Correct(cfg)
    ensures Feedable(cfg, b, s, y, EchoesOf(cfg.n, x, x, b))
  {
    assert |s.slots| == cfg.n;
    var es := EchoesOf(cfg.n, x, x, b);
    EchoesAre(cfg.n, x, x, b);
    hide Swept, EchoList, EchoesOf, AllKnown, SendCount;
    EchoesNoSend(es, b);
    EchoesKnown(cfg, b, z, x, s, y, es);
  }

  lemma SlotAtMono(cfg: Config, b: Body, z: int, x: int, s: Sys, t: Sys, y: int, w: int)
    requires SlotAt(cfg, b, z, x, s, y, w) && y < |t.slots| && t.slots[y] == s.slots[y] && s.sent <= t.sent
    ensures SlotAt(cfg, b, z, x, t, y, w)
  {
  }

  lemma SlotAtOne(cfg: Config, b: Body, z: int, x: nat, s: Sys, t: Sys, y: nat)
    requires SlotAt(cfg, b, z, x, s, y, 0) && Feeds(cfg, b, s, t, y, [Msg.Send(z, NoHash, b)])
    ensures SlotAt(cfg, b, z, x, t, y, 1)
  {
    FirstSend(y, cfg.n, z, b);
    FedNone(Initial(y, cfg.n, Rbc));
    assert Handled(cfg.n, z, x, b, 1) == [Msg.Send(z, NoHash, b)] && Handled(cfg.n, z, x, b, 0) == [];
    hide Fed, Said, Reached, SendCount, Handled;
  }

  lemma SlotAtTwo(cfg: Config, b: Body, z: int, x: nat, s: Sys, t: Sys, y: nat)
    requires SlotAt(cfg, b, z, x, s, y, 1) && Feeds(cfg, b, s, t, y, EchoesOf(cfg.n, x, x, b))
    requires cfg.n >= 1 && x < cfg.n && cfg.n - 1 >= Q(cfg.n)
    ensures SlotAt(cfg, b, z, x, t, y, 2)
  {
    var m, es := Msg.Send(z, NoHash, b), EchoesOf(cfg.n, x, x, b);
    AllEchoes(y, cfg.n, z, x, b);
    FedTwice(Initial(y, cfg.n, Rbc), [m], es);
    assert Handled(cfg.n, z, x, b, 1) == [m] && Handled(cfg.n, z, x, b, 2) == [m] + es;
    hide Fed, Said, Reached, SendCount, EchoesOf, Q, Handled;
  }

  lemma SweepNode(cfg: Config, b: Body, z: int, x: nat, s: Sys, w: nat, y: nat) returns (t: Sys, ms: seq<Msg>)
    requires Swept(cfg, b, z, x, s, w, y) && 1 <= w <= 2 && y < cfg.n && y in Correct(cfg) && y != x
    requires x < cfg.n && cfg.n - 1 >= Q(cfg.n)
    ensures Feeds(cfg, b, s, t, y, ms) && SlotAt(cfg, b, z, x, t, y, w)
  {
    assert Reached(cfg, b, s);
    SomeoneElse(cfg, b, z, x, s, w, y, y);
    if w == 1 {
      SendBatch(cfg, b, z, x, s, y);
      ms := [Msg.Send(z, NoHash, b)];
      hide *;
      t := FeedAll(cfg, b, s, y, ms);
      SlotAtOne(cfg, b, z, x, s, t, y);
    } else {
      EchoBatch(cfg, b, z, x, s, y);
      ms := EchoesOf(cfg.n, x, x, b);
      hide *;
      t := FeedAll(cfg, b, s, y, ms);
      SlotAtTwo(cfg, b, z, x, s, t, y);
    }
  }

  lemma SweepOn(cfg: Config, b: Body, z: int, x: nat, s: Sys, t: Sys, w: nat, y: nat, ms: seq<Msg>)
    requires Swept(cfg, b, z, x, s, w, y) && y in Correct(cfg) && y != x && Feeds(cfg, b, s, t, y, ms) && SlotAt(cfg, b, z, x, t, y, w)
    ensures Swept(cfg, b, z, x, t, w, y + 1)
  {
    hide SlotAt, Reached, Fed, Said, SendCount;
    forall v | v in Correct(cfg) && v != x
      ensures SlotAt(cfg, b, z, x, t, v, if v < y + 1 then w else w - 1)
    {
      if v != y {
        SlotAtMono(cfg, b, z, x, s, t, v, if v < y then w else w - 1);
      }
    }
  }

  lemma SweepPast(cfg: Config, b: Body, z: int, x: nat, s: Sys, w: nat, y: nat)
    requires Swept(cfg, b, z, x, s, w, y) && (y !in Correct(cfg) || y == x)
    ensures Swept(cfg, b, z, x, s, w, y + 1)
  {
    hide SlotAt, Reached;
  }

  lemma SweepOne(cfg: Config, b: Body, z: int, x: nat, s: Sys, w: nat, y: nat) returns (t: Sys)
    requires Swept(cfg, b, z, x, s, w, y) && 1 <= w <= 2 && y < cfg.n
    requires x < cfg.n && cfg.n - 1 >= Q(cfg.n)
    ensures Swept(cfg, b, z, x, t, w, y + 1)
  {
    hide *;
    if y in Correct(cfg) && y != x {
      var ms;
      t, ms := SweepNode(cfg, b, z, x, s, w, y);
      SweepOn(cfg, b, z, x, s, t, w, y, ms);
    } else {
      t := s;
      SweepPast(cfg, b, z, x, s, w, y);
    }
  }

  lemma Opened(cfg: Config, b: Body, z: int, x: int) returns (s: Sys)
    requires cfg.mode == Rbc && z in Correct(cfg)
    ensures Swept(cfg, b, z, x, s, 1, 0)
  {
    ReachInit(cfg, b);
    ReachStep(cfg, b, Init(cfg), Start(z, b));
    s := Next(cfg, Init(cfg), Start(z, b));
    hide Reached;
  }

  lemma NextSweep(cfg: Config, b: Body, z: int, x: int, s: Sys)
    requires Swept(cfg, b, z, x, s, 1, cfg.n)
    ensures Swept(cfg, b, z, x, s, 2, 0)
  {
    hide SlotAt, Reached;
  }

  lemma {:induction false} Sweep(cfg: Config, b: Body, z: int, x: nat, w: nat, j: nat) returns (s: Sys)
    requires cfg.mode == Rbc && z in Correct(cfg) && 1 <= w <= 2 && j <= cfg.n
    requires x < cfg.n && cfg.n - 1 >= Q(cfg.n)
    ensures Swept(cfg, b, z, x, s, w, j)
    decreases w, j
  {
    hide *;
    if j > 0 {
      var u := Sweep(cfg, b, z, x, w, j - 1);
      s := SweepOne(cfg, b, z, x, u, w, j - 1);
    } else if w == 1 {
      s := Opened(cfg, b, z, x);
    } else {
      s := Sweep(cfg, b, z, x, 1, cfg.n);
      NextSweep(cfg, b, z, x, s);
    }
  }

  // ---------------------------------------------------- the two payloads

  lemma SourcesOfSuffix(a: seq<Msg>, ms: seq<Msg>, h: Hash)
    ensures |ReadySources(ms, h)| <= |ReadySources(a + ms, h)|
  {
    forall m | m in ms
      ensures m in a + ms
    {
      var i :| 0 <= i < |ms| && ms[i] == m;
      assert (a + ms)[|a| + i] == m;
    }
    SubsetCard(ReadySources(ms, h), ReadySources(a + ms, h));
  }

  /** A node that handles a before the READYs of all but x, and one SEND among them, delivers. */
  lemma ReadiesDeliver(y: int, n: nat, a: seq<Msg>, x: nat, b: Body)
    requires n >= 1 && x < n && n - 1 >= Q(n) && SendCount(a) == 1
    ensures Fed(Initial(y, n, Rbc), a + ReadiesOf(n, x, b)).rstatus
  {
    var rs := ReadiesOf(n, x, b);
    ReadiesAre(n, x, b);
    ReadyCount(n, x, b);
    SourcesOfSuffix(a, rs, Digest(b));
    SendCountTwo(a, rs);
    hide Fed, ReadySources, ReadiesOf, Q;
    FedDelivers(y, n, a + rs, Digest(b));
  }

  /** Node y, which has seen the SEND first, delivers its payload. */
  lemma DeliversSent(y: int, n: nat, z: int, x: nat, b: Body)
    requires n >= 1 && x < n && n - 1 >= Q(n)
    ensures var p := Fed(Initial(y, n, Rbc), Handled(n, z, x, b, 2) + ReadiesOf(n, x, b)); p.rstatus && p.req == Some(Payload(b))
  {
    var es, rs := EchoesOf(n, x, x, b), ReadiesOf(n, x, b);
    var first := [Msg.Send(z, NoHash, b)];
    FirstSend(y, n, z, b);
    EchoesAre(n, x, x, b);
    hide Fed, SendCount, Q, EchoesOf, ReadiesOf, EchoList;
    EchoesNoSend(es, b);
    SendCountTwo(first, es);
    ReadiesDeliver(y, n, first + es, x, b);
    FedStores(Fed(Initial(y, n, Rbc), first), es + rs);
    FedTwice(Initial(y, n, Rbc), first, es + rs);
    assert first + (es + rs) == first + es + rs;
  }

  /** One ECHO less than a quorum, of nodes other than x and v. */
  function Few(n: nat, x: nat, v: nat, b: Body): seq<Msg>
    requires x < n && v < n && x != v && 1 <= Q(n) <= n - 1
  {
    EchoesAre(n, x, v, b);
    EchoesOf(n, x, v, b)[..Q(n) - 1]
  }

  lemma FewAre(n: nat, x: nat, v: nat, b: Body)
    requires x < n && v < n && x != v && 1 <= Q(n) <= n - 1
    ensures |Few(n, x, v, b)| == Q(n) - 1 && EchoList(Few(n, x, v, b), b) && SendCount(Few(n, x, v, b)) == 0
    ensures forall m :: m in Few(n, x, v, b) ==> 0 <= m.src < n && m.src != v && m.src != x
  {
    EchoesAre(n, x, v, b);
    var ms := EchoesOf(n, x, v, b);
    assert forall m :: m in ms[..Q(n) - 1] ==> m in ms;
    EchoesNoSend(ms[..Q(n) - 1], b);
  }

  /** What node x hears: ECHOs, with the last one of the quorum from the faulty node v for c, and only
      then the SEND for b. */
  function Misled(n: nat, z: int, x: nat, v: nat, b: Body, c: Body): seq<Msg>
    requires x < n && v < n && x != v && 1 <= Q(n) <= n - 1
  {
    Few(n, x, v, b) + [Echo(v, Digest(b), c)] + [Msg.Send(z, NoHash, b)]
  }

  lemma MisledSends(n: nat, z: int, x: nat, v: nat, b: Body, c: Body)
    requires x < n && v < n && x != v && 1 <= Q(n) <= n - 1
    ensures SendCount(Misled(n, z, x, v, b, c)) == 1
  {
    FewAre(n, x, v, b);
    var few := Few(n, x, v, b);
    SendCountOne(few, Echo(v, Digest(b), c));
    SendCountOne(few + [Echo(v, Digest(b), c)], Msg.Send(z, NoHash, b));
  }

  lemma StoresOther(p: State, few: seq<Msg>, v: int, b: Body, c: Body, rest: seq<Msg>)
    requires !p.rstatus && p.cache == IDLE && p.status == IDLE && p.echoes == map[] && p.out == [] && p.req == None && p.mode == Rbc
    requires EchoList(few, b) && |few| == Q(p.n) - 1 && forall m :: m in few ==> m.src != v
    ensures Fed(p, few + [Echo(v, Digest(b), c)] + rest).req == Some(Payload(c))
  {
    QuorumStores(p, few, v, b, c);
    var a := few + [Echo(v, Digest(b), c)];
    hide Fed, EchoList, Q;
    FedStores(Fed(p, a), rest);
    FedTwice(p, a, rest);
  }

  lemma DeliversOther(n: nat, z: int, x: nat, v: nat, b: Body, c: Body)
    requires n >= 1 && x < n && v < n && x != v && 1 <= Q(n) <= n - 1
    ensures var p := Fed(Initial(x, n, Rbc), Misled(n, z, x, v, b, c) + ReadiesOf(n, x, b)); p.rstatus && p.req == Some(Payload(c))
  {
    var few, rs := Few(n, x, v, b), ReadiesOf(n, x, b);
    FewAre(n, x, v, b);
    MisledSends(n, z, x, v, b, c);
    assert Misled(n, z, x, v, b, c) + rs == few + [Echo(v, Digest(b), c)] + ([Msg.Send(z, NoHash, b)] + rs);
    hide Fed, SendCount, Few, ReadiesOf, EchoList, Misled;
    ReadiesDeliver(x, n, Misled(n, z, x, v, b, c), x, b);
    StoresOther(Initial(x, n, Rbc), few, v, b, c, [Msg.Send(z, NoHash, b)] + rs);
  }

  lemma AllKnownPlus(cfg: Config, b: Body, s: Sys, ms: seq<Msg>, ns: seq<Msg>)
    requires AllKnown(cfg, b, s, ms) && AllKnown(cfg, b, s, ns)
    ensures AllKnown(cfg, b, s, ms + ns)
  {
    hide Known;
  }

  lemma MisledKnown(cfg: Config, b: Body, c: Body, z: int, x: nat, v: nat, s: Sys)
    requires Swept(cfg, b, z, x, s, 2, cfg.n) && v in cfg.faulty && v < cfg.n && x < cfg.n && x != v
    requires 1 <= Q(cfg.n) <= cfg.n - 1
    ensures AllKnown(cfg, b, s, Misled(cfg.n, z, x, v, b, c))
  {
    var few, last, send := Few(cfg.n, x, v, b), [Echo(v, Digest(b), c)], [Msg.Send(z, NoHash, b)];
    FewAre(cfg.n, x, v, b);
    EchoesKnown(cfg, b, z, x, s, cfg.n, few);
    assert AllKnown(cfg, b, s, last) && AllKnown(cfg, b, s, send);
    hide Swept, Few, AllKnown, EchoList;
    AllKnownPlus(cfg, b, s, few, last);
    AllKnownPlus(cfg, b, s, few + last, send);
  }

  lemma MisledFeedable(cfg: Config, b: Body, c: Body, z: int, x: nat, v: nat, s: Sys)
    requires Swept(cfg, b, z, x, s, 2, cfg.n) && x in Correct(cfg) && v in cfg.faulty && v < cfg.n
    requires 1 <= Q(cfg.n) <= cfg.n - 1
    ensures x < cfg.n && x != v && Feedable(cfg, b, s, x, Misled(cfg.n, z, x, v, b, c) + ReadiesOf(cfg.n, x, b))
  {
    assert x < cfg.n && x != v && s.slots[x].send == None && |s.slots| == cfg.n;
    var ms, rs := Misled(cfg.n, z, x, v, b, c), ReadiesOf(cfg.n, x, b);
    hide Swept, Misled, ReadiesOf, SendCount, AllKnown, Correct;
    MisledKnown(cfg, b, c, z, x, v, s);
    MisledSends(cfg.n, z, x, v, b, c);
    ReadiesKnown(cfg, b, z, x, s);
    SendCountTwo(ms, rs);
    AllKnownPlus(cfg, b, s, ms, rs);
  }

  /** After the sweeps everyone's ECHO and READY is there, except for x's. */
  lemma Heard(cfg: Config, b: Body, z: int, x: nat, s: Sys, y: int)
    requires Swept(cfg, b, z, x, s, 2, cfg.n) && 0 <= y < cfg.n && y != x
    ensures Known(cfg, s.sent, Echo(y, Digest(b), b)) && Known(cfg, s.sent, Ready(y, Digest(b), b))
  {
    hide Swept, Fed;
    if y !in cfg.faulty {
      SomeoneElse(cfg, b, z, x, s, 2, cfg.n, y);
    }
  }

  lemma ReadiesKnown(cfg: Config, b: Body, z: int, x: nat, s: Sys)
    requires Swept(cfg, b, z, x, s, 2, cfg.n)
    ensures AllKnown(cfg, b, s, ReadiesOf(cfg.n, x, b)) && SendCount(ReadiesOf(cfg.n, x, b)) == 0
  {
    ReadiesAre(cfg.n, x, b);
    hide Swept, Known, ReadiesOf, SendCount;
    forall m | m in ReadiesOf(cfg.n, x, b)
      ensures m.Ready? && Known(cfg, s.sent, m)
    {
      Heard(cfg, b, z, x, s, m.src);
    }
  }

  predicate Delivered(s: Sys, x: int, b: Body) {
    0 <= x < |s.slots| && s.slots[x].node.rstatus && s.slots[x].node.req == Some(Payload(b))
  }

  lemma ReadiesFeedable(cfg: Config, b: Body, z: int, x: nat, y: nat, s: Sys)
    requires Swept(cfg, b, z, x, s, 2, cfg.n) && y in Correct(cfg)
    ensures Feedable(cfg, b, s, y, ReadiesOf(cfg.n, x, b))
  {
    ReadiesKnown(cfg, b, z, x, s);
    hide Fed, Reached, ReadiesOf, SendCount, Known;
  }

  /** First x is misled and delivers c, then y delivers b. */
  lemma BothDeliver(cfg: Config, b: Body, c: Body, x: nat, y: nat, v: nat, s: Sys) returns (t: Sys)
    requires Swept(cfg, b, y, x, s, 2, cfg.n) && cfg.n >= 1 && x in Correct(cfg) && y in Correct(cfg) && x != y && v in cfg.faulty && v < cfg.n
    requires 1 <= Q(cfg.n) <= cfg.n - 1
    ensures Reached(cfg, b, t) && Delivered(t, x, c) && Delivered(t, y, b)
  {
    var n := cfg.n;
    var ms, rs := Misled(n, y, x, v, b, c) + ReadiesOf(n, x, b), ReadiesOf(n, x, b);
    MisledFeedable(cfg, b, c, y, x, v, s);
    DeliversOther(n, y, x, v, b, c);
    ReadiesFeedable(cfg, b, y, x, y, s);
    DeliversSent(y, n, y, x, b);
    FedTwice(Initial(y, n, Rbc), Handled(n, y, x, b, 2), rs);
    assert SlotAt(cfg, b, y, x, s, y, 2);
    hide Fed, Said, SendCount, Q, EchoesOf, ReadiesOf, Misled, Handled, Initial, Reached;
    var u := FeedAll(cfg, b, s, y, rs);
    StillFeedable(cfg, b, s, u, x, ms);
    t := FeedAll(cfg, b, u, x, ms);
  }

  lemma StillFeedable(cfg: Config, b: Body, s: Sys, u: Sys, x: int, ms: seq<Msg>)
    requires Feedable(cfg, b, s, x, ms) && s.sent <= u.sent && |u.slots| == |s.slots| && u.slots[x].send == s.slots[x].send
    ensures Feedable(cfg, b, u, x, ms)
  {
    hide SendCount;
  }

  lemma QuorumWithoutOne(cfg: Config)
    requires Sound(cfg) && cfg.faulty != {}
    ensures 1 <= Q(cfg.n) <= cfg.n - 1 && |Correct(cfg)| >= 2
  {
    QuorumArithmetic(cfg.n);
    CorrectCount(cfg);
    assert |cfg.faulty| >= 1;
  }

  /** One faulty node is enough: whatever an honest sender y sends, any other correct node x can be made
      to deliver any payload c, while y delivers its own. */
  lemma PayloadIsLost(cfg: Config, b: Body, c: Body, x: nat, y: nat) returns (tr: seq<Sys>)
    requires Sound(cfg) && cfg.mode == Rbc && cfg.faulty != {} && x in Correct(cfg) && y in Correct(cfg) && x != y
    ensures HonestRun(cfg, b, tr) && |tr| > 0 && Delivered(tr[|tr| - 1], x, c) && Delivered(tr[|tr| - 1], y, b)
  {
    QuorumWithoutOne(cfg);
    var v := Member(cfg.faulty);
    hide HonestRun, Delivered, Swept, Q;
    var s := Sweep(cfg, b, y, x, 2, cfg.n);
    var t := BothDeliver(cfg, b, c, x, y, v, s);
    tr :| HonestRun(cfg, b, tr) && |tr| > 0 && tr[|tr| - 1] == t;
  }

  // ------------------------------------------------------------ the theorem

  /** With an honest sender, whatever a correct node delivers is the sender's payload. */
  ghost predicate PayloadHolds(cfg: Config) {
    forall b: Body, tr: seq<Sys>, i: nat, x: int ::
      HonestRun(cfg, b, tr) && i < |tr| && x in Correct(cfg) && 0 <= x < |tr[i].slots| && tr[i].slots[x].node.rstatus
      ==> Delivered(tr[i], x, b)
  }

  lemma HonestIsTame(cfg: Config, b: Body, tr: seq<Sys>)
    requires HonestRun(cfg, b, tr) && cfg.faulty == {}
    ensures TameRun(cfg, b, tr)
  {
    hide Next, Enabled;
    forall i | 0 <= i < |tr| - 1
      ensures TameStep(cfg, b, tr[i], tr[i + 1])
    {
      assert HonestStep(cfg, b, tr[i], tr[i + 1]);
    }
  }

  /** rbc keeps the payload of an honest sender in every run if and only if no node is faulty. */
  lemma PayloadHoldsExactly(cfg: Config)
    requires Sound(cfg) && cfg.mode == Rbc
    ensures PayloadHolds(cfg) <==> cfg.faulty == {}
  {
    hide HonestRun, TameRun;
    if cfg.faulty == {} {
      forall b: Body, tr: seq<Sys>, i: nat, x: int | HonestRun(cfg, b, tr) && i < |tr| && x in Correct(cfg) && 0 <= x < |tr[i].slots| && tr[i].slots[x].node.rstatus
        ensures Delivered(tr[i], x, b)
      {
        HonestIsTame(cfg, b, tr);
        Validity(cfg, b, tr, i, x);
      }
    } else {
      QuorumWithoutOne(cfg);
      var x := Member(Correct(cfg));
      var y := Outside(Correct(cfg), {x});
      var tr := PayloadIsLost(cfg, Some([0]), Some([1]), x, y);
      assert [0][0] != [1][0];
      assert !Delivered(tr[|tr| - 1], x, Some([0]));
    }
  }
}
