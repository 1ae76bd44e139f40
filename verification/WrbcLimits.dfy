/** Where wrbc loses the vector: in a group whose size 3 divides, without a single faulty node, there is a
    run in which a node stores the honest sender's vector and forgets it when it delivers. The last third
    of the nodes hears an echo quorum before the SEND, and each answers its SEND with a READY that carries
    the hash of the SEND, which is none; these are f+1 READYs for no hash. */
module WrbcLimits {
  import opened Wrappers
  import opened Quorum
  import opened Sets
  import opened Bracha
  import opened BrachaSystem
  import opened BrachaTheorems
  import opened BrachaLimits
  import opened WrbcExact

  // -------------------------------------------------------------- the rows

  /** The ECHOs of the nodes below k, and the blank READYs of the nodes from lo below hi. */
  function EchoRow(k: nat, b: Body): seq<Msg> {
    if k == 0 then [] else EchoRow(k - 1, b) + [Echo(k - 1, Digest(b), None)]
  }

  function BlankRow(lo: nat, hi: nat, b: Body): seq<Msg> {
    if hi <= lo then [] else BlankRow(lo, hi - 1, b) + [Ready(hi - 1, NoHash, b)]
  }

  function Span(lo: nat, hi: nat): set<int> {
    Ids(hi) - Ids(lo)
  }

  lemma SpanNext(lo: nat, hi: nat)
    requires lo <= hi
    ensures Span(lo, hi + 1) == Span(lo, hi) + {hi as int} && hi !in Span(lo, hi)
  {
    hide Ids;
    assert Ids(hi + 1) == Ids(hi) + {hi as int};
  }

  lemma SpanCard(lo: nat, hi: nat)
    requires lo <= hi
    ensures |Span(lo, hi)| == hi - lo
  {
    hide Ids;
    assert Ids(lo) <= Ids(hi);
  }

  lemma EchoRowNext(k: nat, b: Body)
    ensures EchoRow(k + 1, b) == EchoRow(k, b) + [Echo(k, Digest(b), None)] && EchoRow(0, b) == []
  {
  }

  lemma BlankRowNext(lo: nat, hi: nat, b: Body)
    requires lo <= hi
    ensures BlankRow(lo, hi + 1, b) == BlankRow(lo, hi, b) + [Ready(hi, NoHash, b)] && BlankRow(lo, lo, b) == []
  {
  }

  lemma {:induction false} EchoRowIs(k: nat, b: Body)
    ensures SendCount(EchoRow(k, b)) == 0
    ensures forall m :: m in EchoRow(k, b) ==> 0 <= m.src < k && m == Echo(m.src, Digest(b), None)
  {
    if k > 0 {
      EchoRowIs(k - 1, b);
      SendCountOne(EchoRow(k - 1, b), Echo(k - 1, Digest(b), None));
    }
  }

  lemma {:induction false} BlankRowIs(lo: nat, hi: nat, b: Body)
    ensures SendCount(BlankRow(lo, hi, b)) == 0
    ensures forall m :: m in BlankRow(lo, hi, b) ==> lo <= m.src < hi && m == Ready(m.src, NoHash, b)
  {
    if lo < hi {
      BlankRowIs(lo, hi - 1, b);
      SendCountOne(BlankRow(lo, hi - 1, b), Ready(hi - 1, NoHash, b));
    }
  }

  // ------------------------------------------------ a node whose SEND is late

  /** It has counted these ECHOs, and with a quorum of them it has cached its READY. */
  predicate Waiting(t: State, n: nat, y: int, b: Body, srcs: set<int>) {
    && t.mode == Wrbc && t.n == n && t.id == y && !t.rstatus && t.status == IDLE && t.out == []
    && At(t.echoes, Digest(b)) == srcs
    && t.cache == (if |srcs| >= Q(n) then ECHO else IDLE) && (|srcs| >= Q(n) ==> Received(t))
  }

  lemma WaitOne(t: State, n: nat, y: int, b: Body, srcs: set<int>, x: int)
    requires Waiting(t, n, y, b, srcs) && x !in srcs
    ensures Waiting(Handle(t, Echo(x, Digest(b), None)).(out := []), n, y, b, srcs + {x})
  {
    assert |srcs + {x}| == |srcs| + 1;
    var u := t.(echoes := Insert(t.echoes, Digest(b), x));
    assert Len(u.echoes, Digest(b)) == |srcs| + 1;
  }

  lemma WaitFrom(n: nat, y: int, b: Body)
    requires n >= 1
    ensures Waiting(Initial(y, n, Wrbc), n, y, b, Span(0, 0))
  {
    QuorumArithmetic(n);
    assert Span(0, 0) == {};
  }

  lemma {:induction false} WaitRow(n: nat, y: int, b: Body, k: nat)
    requires n >= 1
    ensures Waiting(Fed(Initial(y, n, Wrbc), EchoRow(k, b)), n, y, b, Span(0, k))
  {
    hide *;
    if k == 0 {
      WaitFrom(n, y, b);
      EchoRowNext(0, b);
      FedNone(Initial(y, n, Wrbc));
    } else {
      WaitRow(n, y, b, k - 1);
      EchoRowNext(k - 1, b);
      FedOne(Initial(y, n, Wrbc), EchoRow(k - 1, b), Echo(k - 1, Digest(b), None));
      SpanNext(0, k - 1);
      WaitOne(Fed(Initial(y, n, Wrbc), EchoRow(k - 1, b)), n, y, b, Span(0, k - 1), k - 1);
    }
  }

  /** Its SEND then makes it send a blank READY. */
  lemma LateSend(t: State, n: nat, y: int, z: int, b: Body, srcs: set<int>)
    requires Waiting(t, n, y, b, srcs) && |srcs| >= Q(n)
    ensures Ready(y, NoHash, b) in Outgoing(Handle(t, Msg.Send(z, NoHash, b)))
  {
    var m := Msg.Send(z, NoHash, b);
    var u := ReceiveSend(t.(status := SEND), m).(out := [EchoOf(y, Wrbc, m)]);
    assert SendReady(u, m).out == [EchoOf(y, Wrbc, m), Ready(y, NoHash, b)];
  }

  // ----------------------------------------------- a node that holds the vector

  /** It has stored the vector and counted these blank READYs. */
  predicate Holding(t: State, n: nat, y: int, b: Body, srcs: set<int>) {
    && t.mode == Wrbc && t.n == n && t.id == y && !t.rstatus && t.list == b && Received(t) && t.cache == IDLE && t.out == []
    && At(t.readies, NoHash) == srcs && t.status == (if |srcs| >= SQ(n) then ECHO else SEND)
  }

  lemma HoldFirst(n: nat, y: int, z: int, b: Body)
    requires n >= 1
    ensures Holding(Fed(Initial(y, n, Wrbc), [Msg.Send(z, NoHash, b)]), n, y, b, {})
    ensures Echo(y, Digest(b), None) in Said(Initial(y, n, Wrbc), [Msg.Send(z, NoHash, b)])
  {
    var p, m := Initial(y, n, Wrbc), Msg.Send(z, NoHash, b);
    FedOne(p, [], m);
    assert [] + [m] == [m];
    assert HandleSend(p, m).out == [Echo(y, Digest(b), None)];
    QuorumArithmetic(n);
  }

  lemma HoldOne(t: State, n: nat, y: int, b: Body, srcs: set<int>, x: int)
    requires Holding(t, n, y, b, srcs) && x !in srcs && |srcs| + 1 < Q(n)
    ensures Holding(Handle(t, Ready(x, NoHash, b)).(out := []), n, y, b, srcs + {x})
    ensures |srcs| + 1 == SQ(n) ==> Ready(y, NoHash, b) in Outgoing(Handle(t, Ready(x, NoHash, b)))
  {
    assert |srcs + {x}| == |srcs| + 1;
    var m := Ready(x, NoHash, b);
    var u := t.(readies := Insert(t.readies, NoHash, x));
    assert Len(u.readies, NoHash) == |srcs| + 1 && Receive(u, m) == u;
    if |srcs| + 1 == SQ(n) {
      assert SendReady(u, m).out == [Ready(y, NoHash, b)];
    }
  }

  /** The blank READY that completes a quorum makes the node deliver and forget the vector. */
  lemma HoldLast(t: State, n: nat, y: int, b: Body, srcs: set<int>, x: int)
    requires Holding(t, n, y, b, srcs) && x !in srcs && |srcs| + 1 == Q(n) > SQ(n) && b.Some?
    ensures var u := Handle(t, Ready(x, NoHash, b)); u.rstatus && u.list == None
  {
    assert |srcs + {x}| == |srcs| + 1;
    var u := t.(readies := Insert(t.readies, NoHash, x));
    assert Len(u.readies, NoHash) == |srcs| + 1;
  }

  ghost predicate Held(p: State, n: nat, y: int, b: Body, srcs: set<int>, lo: nat, hi: nat) {
    && Holding(Fed(p, BlankRow(lo, hi, b)), n, y, b, srcs + Span(lo, hi))
    && (|srcs| < SQ(n) <= |srcs| + hi - lo ==> Ready(y, NoHash, b) in Said(p, BlankRow(lo, hi, b)))
  }

  lemma HeldFrom(p: State, n: nat, y: int, b: Body, srcs: set<int>, lo: nat)
    requires Holding(p, n, y, b, srcs)
    ensures Held(p, n, y, b, srcs, lo, lo)
  {
    BlankRowNext(lo, lo, b);
    FedNone(p);
    assert srcs + Span(lo, lo) == srcs;
    hide Holding, BlankRow, Fed, Said;
  }

  lemma SpanAdded(srcs: set<int>, lo: nat, hi: nat)
    requires lo <= hi && srcs !! Span(lo, hi + 1)
    ensures srcs + Span(lo, hi + 1) == srcs + Span(lo, hi) + {hi as int} && hi !in srcs + Span(lo, hi)
    ensures |srcs + Span(lo, hi)| == |srcs| + hi - lo && srcs !! Span(lo, hi)
  {
    SpanNext(lo, hi);
    SpanCard(lo, hi);
    assert srcs !! Span(lo, hi);
  }

  lemma HeldNext(p: State, n: nat, y: int, b: Body, srcs: set<int>, lo: nat, hi: nat)
    requires lo <= hi && srcs !! Span(lo, hi + 1) && |srcs| + hi + 1 - lo < Q(n)
    requires Held(p, n, y, b, srcs, lo, hi)
    ensures Held(p, n, y, b, srcs, lo, hi + 1)
  {
    var row, m := BlankRow(lo, hi, b), Ready(hi, NoHash, b);
    SpanAdded(srcs, lo, hi);
    BlankRowNext(lo, hi, b);
    FedOne(p, row, m);
    HoldOne(Fed(p, row), n, y, b, srcs + Span(lo, hi), hi);
    hide Holding, BlankRow, Fed, Said, Handle, Outgoing, Span, Q, SQ;
  }

  lemma {:induction false} HeldRow(p: State, n: nat, y: int, b: Body, srcs: set<int>, lo: nat, hi: nat)
    requires lo <= hi && Holding(p, n, y, b, srcs) && srcs !! Span(lo, hi) && |srcs| + hi - lo < Q(n)
    ensures Held(p, n, y, b, srcs, lo, hi)
    decreases hi - lo
  {
    hide *;
    if lo == hi {
      HeldFrom(p, n, y, b, srcs, lo);
    } else {
      SpanNext(lo, hi - 1);
      HeldRow(p, n, y, b, srcs, lo, hi - 1);
      HeldNext(p, n, y, b, srcs, lo, hi - 1);
    }
  }

  // --------------------------------------------------------------- the run

  /** 3m nodes, none of them faulty; node 0 is the sender. */
  function Thirds(m: nat): Config {
    Config(3 * m, {}, Wrbc)
  }

  lemma ThirdsSizes(m: nat)
    requires m >= 1
    ensures Q(3 * m) == 2 * m && SQ(3 * m) == m && Sound(Thirds(m))
  {
    QuorumArithmetic(3 * m);
  }

  function TheSend(b: Body): Msg {
    Msg.Send(0, NoHash, b)
  }

  /** What node y handles first: its SEND, in the last third only after the ECHOs of the others. */
  function First(m: nat, y: nat, b: Body): seq<Msg> {
    (if y < 2 * m then [] else EchoRow(2 * m, b)) + [TheSend(b)]
  }

  function FirstSaid(m: nat, y: int, b: Body): Msg {
    if y < 2 * m then Echo(y, Digest(b), None) else Ready(y, NoHash, b)
  }

  lemma FirstSays(m: nat, y: nat, b: Body)
    requires m >= 1
    ensures var p := Initial(y, 3 * m, Wrbc);
      FirstSaid(m, y, b) in Said(p, First(m, y, b)) && (y < 2 * m ==> Holding(Fed(p, First(m, y, b)), 3 * m, y, b, {}))
  {
    var p := Initial(y, 3 * m, Wrbc);
    if y < 2 * m {
      HoldFirst(3 * m, y, 0, b);
      assert First(m, y, b) == [TheSend(b)];
    } else {
      ThirdsSizes(m);
      WaitRow(3 * m, y, b, 2 * m);
      SpanCard(0, 2 * m);
      LateSend(Fed(p, EchoRow(2 * m, b)), 3 * m, y, 0, b, Span(0, 2 * m));
      FedOne(p, EchoRow(2 * m, b), TheSend(b));
      hide Waiting, Fed, Said, Handle, Outgoing, Span, Q;
    }
  }

  lemma FirstSends(m: nat, y: nat, b: Body)
    ensures SendCount(First(m, y, b)) == 1
    ensures forall o :: o in First(m, y, b) ==> o == TheSend(b) || (y >= 2 * m && 0 <= o.src < 2 * m && o == FirstSaid(m, o.src, b))
  {
    EchoRowIs(2 * m, b);
    SendCountOne(if y < 2 * m then [] else EchoRow(2 * m, b), TheSend(b));
  }

  /** Where node y is at step k: in the steps below 3m the nodes handle what comes first; in the next m
      the nodes of the first third count the blank READYs of the last. */
  ghost predicate Spot(m: nat, b: Body, s: Sys, y: int, k: nat) {
    && 0 <= y < |s.slots|
    && (if y < k then FirstSaid(m, y, b) in s.sent else s.slots[y] == Slot(Initial(y, 3 * m, Wrbc), None))
    && (y < m && 3 * m + y < k ==> Ready(y, NoHash, b) in s.sent && Holding(s.slots[y].node, 3 * m, y, b, Span(2 * m, 3 * m)))
    && (y < 2 * m && y < k <= 3 * m + y ==> Holding(s.slots[y].node, 3 * m, y, b, {}))
  }

  ghost predicate Staged(m: nat, b: Body, s: Sys, k: nat) {
    && Reached(Thirds(m), b, s) && |s.slots| == 3 * m && TheSend(b) in s.sent
    && forall y :: 0 <= y < 3 * m ==> Spot(m, b, s, y, k)
  }

  lemma SpotAt(m: nat, b: Body, s: Sys, k: nat, y: int)
    requires Staged(m, b, s, k) && 0 <= y < 3 * m
    ensures Spot(m, b, s, y, k)
  {
  }

  lemma FirstFeedable(m: nat, b: Body, s: Sys, k: nat)
    requires Staged(m, b, s, k) && k < 3 * m
    ensures Feedable(Thirds(m), b, s, k, First(m, k, b))
  {
    FirstSends(m, k, b);
    SpotAt(m, b, s, k, k);
    forall o | o in First(m, k, b)
      ensures Known(Thirds(m), s.sent, o) && (o.Send? ==> o == TheSend(b))
    {
      if o != TheSend(b) {
        SpotAt(m, b, s, k, o.src);
      }
    }
    hide SendCount, First, Staged, Holding, Reached, Span;
  }

  /** From step 3m on the nodes of the last third have sent their blank READYs. */
  lemma BlankSent(m: nat, b: Body, s: Sys, k: nat, y: nat)
    requires Staged(m, b, s, k) && k >= 3 * m && 2 * m <= y < 3 * m
    ensures Ready(y, NoHash, b) in s.sent
  {
    SpotAt(m, b, s, k, y);
  }

  lemma BlanksFeedable(m: nat, b: Body, s: Sys, k: nat, y: nat)
    requires Staged(m, b, s, k) && k >= 3 * m && y < 3 * m
    ensures Feedable(Thirds(m), b, s, y, BlankRow(2 * m, 3 * m, b))
  {
    assert |s.slots| == 3 * m && y in Correct(Thirds(m));
    hide SendCount, BlankRow, Staged, Correct;
    BlankRowIs(2 * m, 3 * m, b);
    forall o | o in BlankRow(2 * m, 3 * m, b)
      ensures Known(Thirds(m), s.sent, o) && o.Ready?
    {
      BlankSent(m, b, s, k, o.src);
    }
  }

  lemma SpotKept(m: nat, b: Body, s: Sys, t: Sys, y: int, k: nat)
    requires Spot(m, b, s, y, k) && |t.slots| == |s.slots| && t.slots[y] == s.slots[y] && s.sent <= t.sent
    requires y != k && 3 * m + y != k
    ensures Spot(m, b, t, y, k + 1)
  {
    hide Holding;
  }

  lemma SpotFirst(m: nat, b: Body, s: Sys, t: Sys, k: nat)
    requires m >= 1 && k < 3 * m && Spot(m, b, s, k, k) && Feeds(Thirds(m), b, s, t, k, First(m, k, b))
    ensures Spot(m, b, t, k, k + 1)
  {
    FirstSays(m, k, b);
    hide Holding, Fed, Said, First, Reached, SendCount;
  }

  /** What the blank READYs of the last third make of a node that holds the vector. */
  lemma BlanksHeld(m: nat, p: State, y: int, b: Body)
    requires m >= 1 && Holding(p, 3 * m, y, b, {})
    ensures Holding(Fed(p, BlankRow(2 * m, 3 * m, b)), 3 * m, y, b, Span(2 * m, 3 * m))
    ensures Ready(y, NoHash, b) in Said(p, BlankRow(2 * m, 3 * m, b))
  {
    hide Holding, Fed, Said, BlankRow, Span, Q, SQ;
    ThirdsSizes(m);
    HeldRow(p, 3 * m, y, b, {}, 2 * m, 3 * m);
    assert {} + Span(2 * m, 3 * m) == Span(2 * m, 3 * m);
  }

  lemma SpotBlanks(m: nat, b: Body, s: Sys, t: Sys, y: nat)
    requires m >= 1 && y < m && Spot(m, b, s, y, 3 * m + y) && Feeds(Thirds(m), b, s, t, y, BlankRow(2 * m, 3 * m, b))
    ensures Spot(m, b, t, y, 3 * m + y + 1)
  {
    hide Holding, Fed, Said, BlankRow, Reached, SendCount, Span;
    BlanksHeld(m, s.slots[y].node, y, b);
  }

  lemma StagedNext(m: nat, b: Body, s: Sys, t: Sys, k: nat, y: nat, ms: seq<Msg>)
    requires Staged(m, b, s, k) && Feeds(Thirds(m), b, s, t, y, ms) && (y == k || 3 * m + y == k) && k < 4 * m && y < 3 * m
    requires Spot(m, b, t, y, k + 1)
    ensures Staged(m, b, t, k + 1)
  {
    hide Spot, Fed, Said, Reached, SendCount;
    var l := k + 1;
    forall x | 0 <= x < 3 * m
      ensures Spot(m, b, t, x, l)
    {
      if x != y {
        SpotAt(m, b, s, k, x);
        SpotKept(m, b, s, t, x, k);
      }
    }
  }

  lemma StageOne(m: nat, b: Body, s: Sys, k: nat) returns (t: Sys)
    requires m >= 1 && Staged(m, b, s, k) && k < 4 * m
    ensures Staged(m, b, t, k + 1)
  {
    assert Reached(Thirds(m), b, s);
    hide *;
    if k < 3 * m {
      FirstFeedable(m, b, s, k);
      t := FeedAll(Thirds(m), b, s, k, First(m, k, b));
      SpotAt(m, b, s, k, k);
      SpotFirst(m, b, s, t, k);
      StagedNext(m, b, s, t, k, k, First(m, k, b));
    } else {
      var y := k - 3 * m;
      BlanksFeedable(m, b, s, k, y);
      t := FeedAll(Thirds(m), b, s, y, BlankRow(2 * m, 3 * m, b));
      SpotAt(m, b, s, k, y);
      SpotBlanks(m, b, s, t, y);
      StagedNext(m, b, s, t, k, y, BlankRow(2 * m, 3 * m, b));
    }
  }

  lemma StageZero(m: nat, b: Body) returns (s: Sys)
    requires m >= 1
    ensures Staged(m, b, s, 0)
  {
    var cfg := Thirds(m);
    ReachInit(cfg, b);
    ReachStep(cfg, b, Init(cfg), Start(0, b));
    s := Next(cfg, Init(cfg), Start(0, b));
    hide Reached;
  }

  lemma {:induction false} Stage(m: nat, b: Body, k: nat) returns (s: Sys)
    requires m >= 1 && k <= 4 * m
    ensures Staged(m, b, s, k)
  {
    hide *;
    if k == 0 {
      s := StageZero(m, b);
    } else {
      var u := Stage(m, b, k - 1);
      s := StageOne(m, b, u, k - 1);
    }
  }

  // ------------------------------------------------------- the vector is lost

  lemma LastSpot(m: nat, b: Body, s: Sys, y: nat)
    requires m >= 1 && Staged(m, b, s, 4 * m) && y < m
    ensures |s.slots| == 3 * m && Ready(y, NoHash, b) in s.sent && Holding(s.slots[y].node, 3 * m, y, b, Span(2 * m, 3 * m))
  {
    hide Holding, Reached;
    SpotAt(m, b, s, 4 * m, y);
  }

  lemma LastFeedable(m: nat, b: Body, s: Sys)
    requires m >= 1 && Staged(m, b, s, 4 * m)
    ensures Feedable(Thirds(m), b, s, 0, BlankRow(0, m - 1, b))
  {
    hide SendCount, BlankRow, Staged, Holding, Span;
    BlankRowIs(0, m - 1, b);
    LastSpot(m, b, s, 0);
    assert 0 in Correct(Thirds(m));
    forall o | o in BlankRow(0, m - 1, b)
      ensures Known(Thirds(m), s.sent, o) && o.Ready?
    {
      LastSpot(m, b, s, o.src);
    }
  }

  lemma LastSources(m: nat)
    requires m >= 1
    ensures var srcs := Span(2 * m, 3 * m);
      |srcs| == m && srcs !! Span(0, m - 1) && m - 1 !in srcs + Span(0, m - 1) && |srcs + Span(0, m - 1)| == 2 * m - 1
  {
    SpanCard(2 * m, 3 * m);
    SpanCard(0, m - 1);
    assert Span(2 * m, 3 * m) !! Span(0, m - 1);
  }

  lemma FeedsGives(cfg: Config, b: Body, s: Sys, t: Sys, x: int, ms: seq<Msg>)
    requires Feeds(cfg, b, s, t, x, ms)
    ensures Reached(cfg, b, t) && 0 <= x < |s.slots| == |t.slots| && t.slots[x].node == Fed(s.slots[x].node, ms) && s.sent <= t.sent
  {
    hide Fed, Said, Reached, SendCount;
  }

  lemma StagedReached(m: nat, b: Body, s: Sys, k: nat)
    requires Staged(m, b, s, k)
    ensures Reached(Thirds(m), b, s)
  {
  }

  /** Node 0 with one blank READY to go. */
  lemma Brink(m: nat, b: Body) returns (s: Sys)
    requires m >= 1 && b.Some?
    ensures Reached(Thirds(m), b, s) && |s.slots| == 3 * m && Ready(m - 1, NoHash, b) in s.sent && s.slots[0].node.list == b
    ensures var t := Handle(s.slots[0].node, Ready(m - 1, NoHash, b)); t.rstatus && t.list == None
  {
    hide *;
    var u := Stage(m, b, 4 * m);
    StagedReached(m, b, u, 4 * m);
    LastFeedable(m, b, u);
    LastSpot(m, b, u, 0);
    LastSpot(m, b, u, m - 1);
    LastSources(m);
    ThirdsSizes(m);
    var srcs, row, p := Span(2 * m, 3 * m), BlankRow(0, m - 1, b), u.slots[0].node;
    s := FeedAll(Thirds(m), b, u, 0, row);
    FeedsGives(Thirds(m), b, u, s, 0, row);
    HeldRow(p, 3 * m, 0, b, srcs, 0, m - 1);
    HeldIs(p, 3 * m, 0, b, srcs, 0, m - 1);
    HoldLast(Fed(p, row), 3 * m, 0, b, srcs + Span(0, m - 1), m - 1);
    HoldingList(Fed(p, row), 3 * m, 0, b, srcs + Span(0, m - 1));
  }

  lemma HeldIs(p: State, n: nat, y: int, b: Body, srcs: set<int>, lo: nat, hi: nat)
    requires Held(p, n, y, b, srcs, lo, hi)
    ensures Holding(Fed(p, BlankRow(lo, hi, b)), n, y, b, srcs + Span(lo, hi))
  {
  }

  lemma HoldingList(t: State, n: nat, y: int, b: Body, srcs: set<int>)
    requires Holding(t, n, y, b, srcs)
    ensures t.list == b
  {
  }

  lemma HonestIsFair(cfg: Config, b: Body, tr: seq<Sys>)
    requires HonestRun(cfg, b, tr) && cfg.faulty == {}
    ensures FairRun(cfg, b, tr)
  {
    hide Next, Enabled;
    forall i | 0 <= i < |tr| - 1
      ensures FairStep(cfg, b, tr[i], tr[i + 1])
    {
      assert HonestStep(cfg, b, tr[i], tr[i + 1]);
    }
  }

  lemma OneMore(cfg: Config, b: Body, tr: seq<Sys>, e: Event) returns (longer: seq<Sys>)
    requires HonestRun(cfg, b, tr) && Enabled(cfg, tr[|tr| - 1], e) && Honest(b, e)
    ensures HonestRun(cfg, b, longer) && longer == tr + [Next(cfg, tr[|tr| - 1], e)]
  {
    hide Next, Enabled, Honest;
    longer := tr + [Next(cfg, tr[|tr| - 1], e)];
    assert HonestStep(cfg, b, tr[|tr| - 1], Next(cfg, tr[|tr| - 1], e));
    forall i | 0 <= i < |longer| - 1
      ensures HonestStep(cfg, b, longer[i], longer[i + 1])
    {
      assert i < |tr| - 1 ==> HonestStep(cfg, b, tr[i], tr[i + 1]);
    }
  }

  /** For every size that 3 divides: a run without faulty nodes in which the sender itself delivers and
      forgets the vector it held a step before. */
  lemma VectorIsLost(m: nat, b: Body) returns (tr: seq<Sys>)
    requires m >= 1 && b.Some?
    ensures FairRun(Thirds(m), b, tr) && |tr| >= 2
    ensures HoldsVector(tr[|tr| - 2], 0, b) && !HoldsVector(tr[|tr| - 1], 0, b) && tr[|tr| - 1].slots[0].node.rstatus
  {
    var cfg, e := Thirds(m), Receipt(0, Ready(m - 1, NoHash, b));
    var s := Brink(m, b);
    assert Enabled(cfg, s, e) && Honest(b, e);
    HandledFacts(s, 0, e.m);
    assert Next(cfg, s, e) == HandledAt(s, 0, e.m);
    hide Enabled, Next, Handle, HonestRun, FairRun, HandledAt;
    var pre :| HonestRun(cfg, b, pre) && |pre| > 0 && pre[|pre| - 1] == s;
    tr := OneMore(cfg, b, pre, e);
    HonestIsFair(cfg, b, tr);
    assert tr[|tr| - 2] == s && tr[|tr| - 1] == Next(cfg, s, e);
  }

  /** Among n nodes, a correct node that has stored the honest sender's vector never loses it. */
  ghost predicate VectorHolds(n: nat) {
    forall cfg: Config, b: Body, tr: seq<Sys>, j: nat, i: nat, x: int ::
      Sound(cfg) && cfg.n == n && cfg.mode == Wrbc && b.Some? && FairRun(cfg, b, tr) && j <= i < |tr| && x in Correct(cfg) && HoldsVector(tr[j], x, b)
      ==> HoldsVector(tr[i], x, b)
  }

  /** wrbc keeps the vector of an honest sender in every run of n nodes exactly when 3 does not divide n. */
  lemma VectorHoldsExactly(n: nat)
    requires n >= 1
    ensures VectorHolds(n) <==> n % 3 != 0
  {
    hide FairRun, HoldsVector, Correct;
    if n % 3 != 0 {
      forall cfg: Config, b: Body, tr: seq<Sys>, j: nat, i: nat, x: int |
        Sound(cfg) && cfg.n == n && cfg.mode == Wrbc && b.Some? && FairRun(cfg, b, tr) && j <= i < |tr| && x in Correct(cfg) && HoldsVector(tr[j], x, b)
        ensures HoldsVector(tr[i], x, b)
      {
        VectorKept(cfg, b, tr, j, i, x);
      }
    } else {
      LostBreaks(n / 3);
    }
  }

  lemma LostBreaks(m: nat)
    requires m >= 1
    ensures !VectorHolds(3 * m)
  {
    var b := Some([0]);
    var tr := VectorIsLost(m, b);
    ThirdsSizes(m);
    assert 0 in Correct(Thirds(m));
    hide FairRun, HoldsVector, Correct, Sound;
  }
}
