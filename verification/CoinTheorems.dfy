/** What a coin is, in every run: the hash of the secret times the round's point, shifted by the weighted
    sum of what the accepted shares are off by. A share is verified against the message that came with it,
    which is never compared with the message of the round, so the shift need not be zero. */
module CoinTheorems {
  import opened Quorum
  import opened Field
  import opened Lagrange
  import opened ThreshPrf
  import opened Coin

  /** The keys of nodes 0, ..., n-1 are the values of the polynomial a, which has at most f+1
      coefficients. */
  ghost predicate Dealt(u: Setup, a: seq<int>) {
    && 1 <= u.n <= Order() && Prime(Order()) && 0 < |a| <= SQ(u.n)
    && (forall i :: i in u.keys <==> 0 <= i < u.n)
    && (forall i :: i in u.keys ==> u.keys[i] == Eval(a, i) % Order())
  }

  /** Soundness of the share proof: what verifies for a message is the key times the hashed message. */
  ghost predicate SoundShares(u: Setup) {
    forall m: Msg :: Accepted(u, m) ==> Cong(m.share.value.g, u.point(m.hash) * u.keys[m.src], Order())
  }

  function Senders(ms: seq<Msg>): (s: seq<int>)
    ensures |s| == |ms|
  {
    seq(|ms|, i requires 0 <= i < |ms| => ms[i].src)
  }

  // ------------------------------------------------ where shares come from

  /** The share e of round r came with the message m, which was delivered. */
  predicate From(u: Setup, es: seq<Event>, r: int, e: Entry, m: Msg) {
    Accepted(u, m) && m.round == r && e == Entry(m.src, m.share.value) && Deliver(m) in es
  }

  ghost predicate Arrived(u: Setup, es: seq<Event>, r: int, e: Entry) {
    exists m :: From(u, es, r, e, m)
  }

  ghost predicate EntriesOk(u: Setup, es: seq<Event>, r: int, entries: seq<Entry>, nodes: set<int>) {
    && (forall i :: 0 <= i < |entries| ==> Arrived(u, es, r, entries[i]) && entries[i].src in nodes)
    && (forall i, j :: 0 <= i < j < |entries| ==> entries[i].src != entries[j].src)
  }

  predicate CachedOk(es: seq<Event>, ms: seq<Msg>) {
    forall i :: 0 <= i < |ms| ==> Deliver(ms[i]) in es
  }

  /** The coin of a round is that of the first f+1 shares collected for it. */
  predicate CoinOk(u: Setup, s: State, r: int) {
    r in s.coin ==> 0 <= SQ(u.n) <= |SharesAt(s.shares, r)| && s.coin[r] == CoinOf(u, Point(u, SharesAt(s.shares, r)))
  }

  ghost predicate Inv(u: Setup, es: seq<Event>, s: State) {
    && (forall r :: EntriesOk(u, es, r, SharesAt(s.shares, r), At(s.nodes, r)))
    && (forall r :: CachedOk(es, CachedAt(s.cached, r)))
    && (forall r :: CoinOk(u, s, r))
  }

  lemma CollectKeepsEntries(u: Setup, es: seq<Event>, s: State, m: Msg, r: int)
    requires Accepted(u, m) && Deliver(m) in es && EntriesOk(u, es, r, SharesAt(s.shares, r), At(s.nodes, r))
    ensures var t := Collect(s, m); EntriesOk(u, es, r, SharesAt(t.shares, r), At(t.nodes, r))
  {
    if m.src !in At(s.nodes, m.round) && r == m.round {
      assert From(u, es, r, Entry(m.src, m.share.value), m);
    }
    hide Accepted;
  }

  /** More shares leave the point of the first f+1 as it is. */
  lemma PointStands(u: Setup, entries: seq<Entry>, e: Entry)
    requires 0 <= SQ(u.n) <= |entries|
    ensures Point(u, entries + [e]) == Point(u, entries)
  {
    var k: nat := SQ(u.n);
    assert Sources(entries + [e])[..k] == Sources(entries)[..k];
    assert Points(entries + [e])[..k] == Points(entries)[..k];
  }

  lemma CollectKeepsCoin(u: Setup, s: State, m: Msg, r: int)
    requires m.share.Some? && CoinOk(u, s, r)
    ensures CoinOk(u, Collect(s, m), r)
  {
    var entries := SharesAt(s.shares, r);
    if r in s.coin {
      PointStands(u, entries, Entry(m.src, m.share.value));
    }
    hide Point, CoinOf;
  }

  lemma CollectKeeps(u: Setup, es: seq<Event>, s: State, m: Msg)
    requires Inv(u, es, s) && Accepted(u, m) && Deliver(m) in es
    ensures Inv(u, es, Collect(s, m))
  {
    var t := Collect(s, m);
    assert t.cached == s.cached && m.share.Some?;
    hide Accepted, EntriesOk, CoinOk, CachedOk, Collect;
    forall r
      ensures EntriesOk(u, es, r, SharesAt(t.shares, r), At(t.nodes, r))
    {
      CollectKeepsEntries(u, es, s, m, r);
    }
    forall r
      ensures CoinOk(u, t, r)
    {
      CollectKeepsCoin(u, s, m, r);
    }
  }

  lemma CombineKeeps(u: Setup, es: seq<Event>, s: State, r: int)
    requires Inv(u, es, s)
    ensures Inv(u, es, Combine(u, s, r))
  {
    hide EntriesOk, CachedOk, Point, CoinOf;
    var t := Combine(u, s, r);
    assert t.shares == s.shares && t.nodes == s.nodes && t.cached == s.cached;
    forall q
      ensures CoinOk(u, t, q)
    {
      assert CoinOk(u, s, q);
    }
  }

  lemma HandleKeeps(u: Setup, es: seq<Event>, s: State, m: Msg)
    requires Inv(u, es, s) && Deliver(m) in es
    ensures Inv(u, es, HandleCoinMsg(u, s, m))
  {
    hide Accepted, Combine, Collect, EntriesOk;
    if !Accepted(u, m) || m.round < s.round {
    } else if m.round > s.round {
      var t := HandleCoinMsg(u, s, m);
      hide HandleCoinMsg, CoinOf, Point;
      forall r
        ensures CachedOk(es, CachedAt(t.cached, r))
      {
        assert CachedOk(es, CachedAt(s.cached, r));
      }
      forall r
        ensures CoinOk(u, t, r)
      {
        assert CoinOk(u, s, r);
      }
    } else {
      hide Inv;
      CollectKeeps(u, es, s, m);
      assert m.share.Some? by {
        AcceptedHasShare(u, m);
      }
      CombineKeeps(u, es, Collect(s, m), m.round);
    }
  }

  lemma AcceptedHasShare(u: Setup, m: Msg)
    requires Accepted(u, m)
    ensures m.share.Some? && m.src in u.keys
  {
  }

  lemma {:induction false} HandleAllKeeps(u: Setup, es: seq<Event>, s: State, ms: seq<Msg>)
    requires Inv(u, es, s) && CachedOk(es, ms)
    ensures Inv(u, es, HandleAll(u, s, ms))
  {
    if ms != [] {
      hide Inv, HandleCoinMsg;
      HandleAllKeeps(u, es, s, ms[..|ms| - 1]);
      HandleKeeps(u, es, HandleAll(u, s, ms[..|ms| - 1]), ms[|ms| - 1]);
    }
  }

  lemma InvMono(u: Setup, es: seq<Event>, e: Event, s: State)
    requires Inv(u, es, s)
    ensures Inv(u, es + [e], s)
  {
    hide Accepted, CoinOk;
    forall r
      ensures EntriesOk(u, es + [e], r, SharesAt(s.shares, r), At(s.nodes, r))
    {
      assert EntriesOk(u, es, r, SharesAt(s.shares, r), At(s.nodes, r));
      forall i | 0 <= i < |SharesAt(s.shares, r)|
        ensures Arrived(u, es + [e], r, SharesAt(s.shares, r)[i])
      {
        ArrivedMono(u, es, e, r, SharesAt(s.shares, r)[i]);
      }
    }
    forall r
      ensures CachedOk(es + [e], CachedAt(s.cached, r))
    {
      assert CachedOk(es, CachedAt(s.cached, r));
    }
  }

  lemma ArrivedMono(u: Setup, es: seq<Event>, e: Event, r: int, t: Entry)
    requires Arrived(u, es, r, t)
    ensures Arrived(u, es + [e], r, t)
  {
    hide Accepted;
    var m :| From(u, es, r, t, m);
    assert From(u, es + [e], r, t, m);
  }

  lemma FlushKeeps(u: Setup, es: seq<Event>, s: State, r: int)
    requires Inv(u, es, s)
    ensures Inv(u, es, HandleCachedMsg(u, s, r))
  {
    hide HandleAll, EntriesOk, CoinOf, Point;
    var t := s.(cached := s.cached - {r});
    forall q
      ensures CachedOk(es, CachedAt(t.cached, q))
    {
      assert CachedOk(es, CachedAt(s.cached, q));
    }
    forall q
      ensures CoinOk(u, t, q)
    {
      assert CoinOk(u, s, q);
    }
    assert CachedOk(es, CachedAt(s.cached, r));
    HandleAllKeeps(u, es, t, CachedAt(s.cached, r));
  }

  lemma GenKeeps(u: Setup, es: seq<Event>, s: State, r: int)
    requires Inv(u, es, s)
    ensures Inv(u, es, s.(round := r))
  {
    hide EntriesOk, CoinOf, Point;
    forall q
      ensures CoinOk(u, s.(round := r), q)
    {
      assert CoinOk(u, s, q);
    }
  }

  lemma {:induction false} RunKeeps(u: Setup, es: seq<Event>)
    ensures Inv(u, es, Run(u, es))
  {
    if es != [] {
      hide Inv, HandleCoinMsg, HandleCachedMsg;
      var pre, e := es[..|es| - 1], es[|es| - 1];
      RunKeeps(u, pre);
      InvMono(u, pre, e, Run(u, pre));
      assert es == pre + [e];
      match e
      case Gen(r) => GenKeeps(u, es, Run(u, pre), r);
      case Deliver(m) => HandleKeeps(u, es, Run(u, pre), m);
      case Flush(r) => FlushKeeps(u, es, Run(u, pre), r);
    }
  }

  // ---------------------------------------------------- what the coin is

  /** ms are the messages that the first f+1 shares of round r came with. */
  ghost predicate Backs(u: Setup, es: seq<Event>, r: int, ms: seq<Msg>) {
    && |ms| == SQ(u.n) <= |SharesAt(Run(u, es).shares, r)|
    && forall i :: 0 <= i < |ms| ==> From(u, es, r, SharesAt(Run(u, es).shares, r)[i], ms[i])
  }

  ghost function MessageOf(u: Setup, es: seq<Event>, r: int, e: Entry): (m: Msg)
    requires Arrived(u, es, r, e)
    ensures From(u, es, r, e, m)
  {
    var m :| From(u, es, r, e, m);
    m
  }

  /** A node that has the coin of a round has accepted f+1 shares of distinct nodes for it. */
  lemma CoinIsBacked(u: Setup, es: seq<Event>, r: int) returns (ms: seq<Msg>)
    requires r in Run(u, es).coin
    ensures Backs(u, es, r, ms)
  {
    hide Run, From, CachedOk, CoinOf, Point;
    RunKeeps(u, es);
    var entries := SharesAt(Run(u, es).shares, r);
    assert CoinOk(u, Run(u, es), r) && EntriesOk(u, es, r, entries, At(Run(u, es).nodes, r));
    ms := seq(SQ(u.n), i requires 0 <= i < SQ(u.n) => MessageOf(u, es, r, entries[i]));
  }

  predicate InKeys(u: Setup, ms: seq<Msg>) {
    forall i :: 0 <= i < |ms| ==> ms[i].src in u.keys
  }

  /** What each message is off by: its hashed message in place of the round's, times the sender's key. */
  function Differences(u: Setup, r: int, ms: seq<Msg>): (d: seq<int>)
    requires InKeys(u, ms)
    ensures |d| == |ms|
  {
    seq(|ms|, i requires 0 <= i < |ms| => (u.point(ms[i].hash) - u.point(RoundMessage(u, r))) * u.keys[ms[i].src])
  }

  /** Their sum, weighted as the shares are. */
  function Deviation(u: Setup, r: int, ms: seq<Msg>): int
    requires InKeys(u, ms)
  {
    Dot(Weights(Senders(ms), 0, Order()), Differences(u, r, ms))
  }

  /** The dealt secret times the round's point. */
  function TruePoint(u: Setup, a: seq<int>, r: int): int
    requires a != []
  {
    u.point(RoundMessage(u, r)) * a[0]
  }

  /** The coin that the dealing fixes for a round. */
  function TrueCoin(u: Setup, a: seq<int>, r: int): int
    requires a != []
  {
    CoinOf(u, TruePoint(u, a, r) % Order())
  }

  lemma AtZero(a: seq<int>)
    requires a != []
    ensures Eval(a, 0) == a[0]
  {
  }

  lemma OneTerm(w: int, v: int, g: int, p: nat)
    requires p > 0 && Cong(v, g, p)
    ensures Cong(w * v, (w * 1) * g, p)
  {
    CongMul(w, w, v, g, p);
  }

  lemma OffAlgebra(x: int, y: int, h: int, f: int, c: int, e: int, p: nat)
    requires p > 0 && Cong(x, y, p) && y == h * f + e && Cong(f, c, p)
    ensures Cong(x, h * c + e, p)
  {
    CongMul(h, h, f, c, p);
    CongAdd(h * f, h * c, e, e, p);
  }

  /** v are h times the values of the polynomial, off by d. */
  predicate OffBy(ids: seq<int>, a: seq<int>, h: int, v: seq<int>, d: seq<int>, p: nat)
    requires p > 0
  {
    |v| == |d| == |ids| && forall i :: 0 <= i < |ids| ==> Cong(v[i], h * Eval(a, ids[i]) + d[i], p)
  }

  /** h times the values of the polynomial, off by d. */
  function Off(ids: seq<int>, a: seq<int>, h: int, d: seq<int>): (g: seq<int>)
    requires |ids| == |d|
    ensures |g| == |ids|
  {
    seq(|ids|, i requires 0 <= i < |ids| => h * Eval(a, ids[i]) + d[i])
  }

  lemma OffSplits(w: seq<int>, ids: seq<int>, a: seq<int>, h: int, d: seq<int>)
    requires |w| == |ids| == |d|
    ensures Dot(w, Off(ids, a, h, d)) == h * Dot(w, Values(a, ids)) + Dot(w, d)
  {
    hide Eval, Dot;
    DotSplit(w, Off(ids, a, h, d), h, Values(a, ids), d, 0, d);
  }

  lemma OffCong(w: seq<int>, ids: seq<int>, a: seq<int>, h: int, v: seq<int>, d: seq<int>, p: nat)
    requires p > 0 && |w| == |ids| == |v| == |d| && OffBy(ids, a, h, v, d, p)
    ensures Cong(Dot(w, v), Dot(w, Off(ids, a, h, d)), p)
  {
    var g := Off(ids, a, h, d);
    forall i | 0 <= i < |ids|
      ensures Cong(w[i] * v[i], (w[i] * 1) * g[i], p)
    {
      OneTerm(w[i], v[i], g[i], p);
    }
    hide Off, Eval, Dot;
    DotCong(w, v, w, g, 1, p);
  }

  /** Values that are off by d from those of a polynomial, h times, combine to h times its value at 0, off
      by the weighted sum of d. */
  lemma CombineOff(ids: seq<int>, a: seq<int>, h: int, v: seq<int>, d: seq<int>, p: nat)
    requires Prime(p) && p > 1 && Distinct(ids, p) && 0 < |a| <= |ids| == |v| == |d| && OffBy(ids, a, h, v, d, p)
    ensures Cong(Dot(Weights(ids, 0, p), v), h * a[0] + Dot(Weights(ids, 0, p), d), p)
  {
    hide *;
    var w := Weights(ids, 0, p);
    Interpolates(ids, a, 0, p);
    AtZero(a);
    OffCong(w, ids, a, h, v, d, p);
    OffSplits(w, ids, a, h, d);
    OffAlgebra(Dot(w, v), Dot(w, Off(ids, a, h, d)), h, Dot(w, Values(a, ids)), a[0], Dot(w, d), p);
  }

  /** A sound share for a message that hashes to q is a share of the polynomial at h, off by the
      difference. */
  lemma ShareOff(q: int, h: int, key: int, e: int, g: int, p: nat)
    requires p > 0 && Cong(key, e, p) && Cong(g, q * key, p)
    ensures Cong(g, h * e + (q - h) * key, p)
  {
    CongMul(h, h, key, e, p);
    CongAdd(h * key, h * e, (q - h) * key, (q - h) * key, p);
    assert h * key + (q - h) * key == q * key;
  }

  /** v are the points of shares made for the messages ms. */
  predicate SharesFor(u: Setup, ms: seq<Msg>, v: seq<int>)
    requires InKeys(u, ms)
  {
    |v| == |ms| && forall i :: 0 <= i < |ms| ==> Cong(v[i], u.point(ms[i].hash) * u.keys[ms[i].src], Order())
  }

  lemma BackedFacts(u: Setup, es: seq<Event>, r: int, ms: seq<Msg>)
    requires u.n <= Order() && SoundShares(u) && Backs(u, es, r, ms) && forall i :: i in u.keys ==> 0 <= i < u.n
    ensures var entries := SharesAt(Run(u, es).shares, r);
      (|ms| <= |entries| && Senders(ms) == Sources(entries)[..|ms|] && InKeys(u, ms) && NodeIds(Senders(ms))
      && SharesFor(u, ms, Points(entries)[..|ms|]))
  {
    RunKeeps(u, es);
    var entries := SharesAt(Run(u, es).shares, r);
    assert EntriesOk(u, es, r, entries, At(Run(u, es).nodes, r));
    hide Run, Inv, Order, Verifies, Arrived;
    forall i | 0 <= i < |ms|
      ensures Accepted(u, ms[i]) && entries[i] == Entry(ms[i].src, ms[i].share.value)
    {
      assert From(u, es, r, entries[i], ms[i]);
    }
  }

  lemma OffTerm(u: Setup, a: seq<int>, r: int, ms: seq<Msg>, v: seq<int>, i: nat)
    requires Dealt(u, a) && InKeys(u, ms) && SharesFor(u, ms, v) && i < |ms|
    ensures Cong(v[i], u.point(RoundMessage(u, r)) * Eval(a, ms[i].src) + Differences(u, r, ms)[i], Order())
  {
    hide Order, RoundMessage, Eval;
    var e := Eval(a, ms[i].src);
    CongMod(e, Order());
    ShareOff(u.point(ms[i].hash), u.point(RoundMessage(u, r)), u.keys[ms[i].src], e, v[i], Order());
  }

  lemma PointOff(u: Setup, a: seq<int>, r: int, ms: seq<Msg>, v: seq<int>)
    requires Dealt(u, a) && InKeys(u, ms) && SharesFor(u, ms, v) && NodeIds(Senders(ms)) && |ms| == SQ(u.n)
    ensures Cong(Dot(Weights(Senders(ms), 0, Order()), v), TruePoint(u, a, r) + Deviation(u, r, ms), Order())
  {
    var ids, d := Senders(ms), Differences(u, r, ms);
    assert |v| == |ms|;
    DealtPrime(u, a);
    NodeIdsDistinct(ids);
    hide *;
    OffTerms(u, a, r, ms, v);
    CombineOff(ids, a, u.point(RoundMessage(u, r)), v, d, Order());
    PointNames(u, a, r, ms);
  }

  lemma DealtPrime(u: Setup, a: seq<int>)
    requires Dealt(u, a)
    ensures Prime(Order()) && 0 < |a| <= SQ(u.n)
  {
  }

  lemma PointNames(u: Setup, a: seq<int>, r: int, ms: seq<Msg>)
    requires a != [] && InKeys(u, ms)
    ensures TruePoint(u, a, r) == u.point(RoundMessage(u, r)) * a[0]
    ensures Deviation(u, r, ms) == Dot(Weights(Senders(ms), 0, Order()), Differences(u, r, ms))
  {
  }

  lemma OffTerms(u: Setup, a: seq<int>, r: int, ms: seq<Msg>, v: seq<int>)
    requires Dealt(u, a) && InKeys(u, ms) && SharesFor(u, ms, v)
    ensures |v| == |ms| && OffBy(Senders(ms), a, u.point(RoundMessage(u, r)), v, Differences(u, r, ms), Order())
  {
    assert |v| == |ms|;
    hide Dealt, SharesFor, Order, Eval, RoundMessage, Differences;
    forall i | 0 <= i < |ms|
      ensures Cong(v[i], u.point(RoundMessage(u, r)) * Eval(a, Senders(ms)[i]) + Differences(u, r, ms)[i], Order())
    {
      OffTerm(u, a, r, ms, v, i);
    }
  }

  /** f+1 shares have been collected for round r. */
  predicate Enough(u: Setup, es: seq<Event>, r: int) {
    0 <= SQ(u.n) <= |SharesAt(Run(u, es).shares, r)|
  }

  /** The point that the coin of round r was read from. */
  function CoinPoint(u: Setup, es: seq<Event>, r: int): int
    requires Enough(u, es, r)
  {
    Point(u, SharesAt(Run(u, es).shares, r))
  }

  lemma PointIs(u: Setup, entries: seq<Entry>, ids: seq<int>, v: seq<int>)
    requires 0 <= SQ(u.n) <= |entries| && ids == Sources(entries)[..SQ(u.n)] && v == Points(entries)[..SQ(u.n)]
    ensures Point(u, entries) == Dot(Weights(ids, 0, Order()), v) % Order()
  {
  }

  /** A point is its exponent modulo the order. */
  function Reduced(x: int): int {
    x % Order()
  }

  /** The point that the first f+1 shares make, in terms of the messages they came with. */
  lemma PointIsOff(u: Setup, a: seq<int>, es: seq<Event>, r: int, ms: seq<Msg>)
    requires Dealt(u, a) && SoundShares(u) && Backs(u, es, r, ms)
    ensures InKeys(u, ms) && Enough(u, es, r)
    ensures CoinPoint(u, es, r) == Reduced(TruePoint(u, a, r) + Deviation(u, r, ms))
  {
    BackedFacts(u, es, r, ms);
    var entries := SharesAt(Run(u, es).shares, r);
    assert |ms| == SQ(u.n);
    hide Order, Run, SharesFor, NodeIds, SoundShares, Backs, Dealt, Dot, Weights, TruePoint, Deviation, Point, InKeys;
    PointOff(u, a, r, ms, Points(entries)[..|ms|]);
    PointIs(u, entries, Senders(ms), Points(entries)[..|ms|]);
  }

  lemma CoinIsRead(u: Setup, es: seq<Event>, r: int)
    requires r in Run(u, es).coin
    ensures Enough(u, es, r) && Run(u, es).coin[r] == CoinOf(u, CoinPoint(u, es, r))
  {
    hide Run, Point, CoinOf, EntriesOk, CachedOk;
    RunKeeps(u, es);
    assert CoinOk(u, Run(u, es), r);
  }

  /** What a coin is, exactly, for every run and whatever messages the shares came with: it is read from
      the round's point, off by the deviation, and that is the round's point itself if and only if the
      deviation is a multiple of the order. */
  lemma CoinIsFixed(u: Setup, a: seq<int>, es: seq<Event>, r: int, ms: seq<Msg>)
    requires Dealt(u, a) && SoundShares(u) && r in Run(u, es).coin && Backs(u, es, r, ms)
    ensures InKeys(u, ms)
    ensures Run(u, es).coin[r] == CoinOf(u, (TruePoint(u, a, r) + Deviation(u, r, ms)) % Order())
    ensures Cong(TruePoint(u, a, r) + Deviation(u, r, ms), TruePoint(u, a, r), Order()) <==> Deviation(u, r, ms) % Order() == 0
    ensures Deviation(u, r, ms) % Order() == 0 ==> Run(u, es).coin[r] == TrueCoin(u, a, r)
  {
    CoinIsRead(u, es, r);
    PointIsOff(u, a, es, r, ms);
    hide Order, Run, CoinOf, Point, Deviation, TruePoint, Backs, SoundShares, Dealt;
    SameAfterAdding(TruePoint(u, a, r), Deviation(u, r, ms), Order());
  }

  lemma SameAfterAdding(x: int, d: int, p: nat)
    requires p > 0
    ensures Cong(x + d, x, p) <==> d % p == 0
  {
    Remainder(0, p, 0, 0);
    if Cong(x + d, x, p) {
      CongSub(x + d, x, x, x, p);
    }
    if d % p == 0 {
      CongAdd(x, x, d, 0, p);
    }
  }

  lemma SameShift(x: int, d: int, e: int, p: nat)
    requires p > 0
    ensures Cong(x + d, x + e, p) <==> Cong(d, e, p)
  {
    if Cong(x + d, x + e, p) {
      CongSub(x + d, x + e, x, x, p);
    }
    if Cong(d, e, p) {
      CongAdd(x, x, d, e, p);
    }
  }

  lemma SameReduced(t: int, d: int, e: int)
    ensures Reduced(t + d) == Reduced(t + e) <==> Cong(d, e, Order())
  {
    SameShift(t, d, e, Order());
  }

  lemma DealtSomething(u: Setup, a: seq<int>)
    requires Dealt(u, a)
    ensures a != []
  {
  }

  lemma BothPoints(u: Setup, a: seq<int>, es: seq<Event>, fs: seq<Event>, r: int, ms: seq<Msg>, ns: seq<Msg>)
    requires Dealt(u, a) && SoundShares(u) && Backs(u, es, r, ms) && Backs(u, fs, r, ns)
    ensures InKeys(u, ms) && InKeys(u, ns) && Enough(u, es, r) && Enough(u, fs, r)
    ensures CoinPoint(u, es, r) == Reduced(TruePoint(u, a, r) + Deviation(u, r, ms))
    ensures CoinPoint(u, fs, r) == Reduced(TruePoint(u, a, r) + Deviation(u, r, ns))
  {
    hide *;
    PointIsOff(u, a, es, r, ms);
    PointIsOff(u, a, fs, r, ns);
  }

  /** Coin independence, exactly: two nodes that collect different shares, in different orders, read their
      coins from the same point if and only if their deviations are congruent. */
  lemma CoinIndependence(u: Setup, a: seq<int>, es: seq<Event>, fs: seq<Event>, r: int, ms: seq<Msg>, ns: seq<Msg>)
    requires Dealt(u, a) && SoundShares(u) && r in Run(u, es).coin && r in Run(u, fs).coin
    requires Backs(u, es, r, ms) && Backs(u, fs, r, ns)
    ensures InKeys(u, ms) && InKeys(u, ns) && Enough(u, es, r) && Enough(u, fs, r)
    ensures CoinPoint(u, es, r) == CoinPoint(u, fs, r) <==> Cong(Deviation(u, r, ms), Deviation(u, r, ns), Order())
    ensures Cong(Deviation(u, r, ms), Deviation(u, r, ns), Order()) ==> Run(u, es).coin[r] == Run(u, fs).coin[r]
  {
    hide *;
    DealtSomething(u, a);
    BothPoints(u, a, es, fs, r, ms, ns);
    CoinIsRead(u, es, r);
    CoinIsRead(u, fs, r);
    SameReduced(TruePoint(u, a, r), Deviation(u, r, ms), Deviation(u, r, ns));
  }

  // ------------------------------------------------ shares for the round

  /** An accepted share is for the message of its round. */
  predicate OnRound(u: Setup, m: Msg) {
    Accepted(u, m) ==> m.hash == RoundMessage(u, m.round)
  }

  ghost predicate EventsOnRound(u: Setup, es: seq<Event>) {
    forall i :: 0 <= i < |es| && es[i].Deliver? ==> OnRound(u, es[i].m)
  }

  /** Where every accepted share is for the message of its round, nothing is off and the coin is the one
      the dealing fixes. */
  lemma RoundCoin(u: Setup, a: seq<int>, es: seq<Event>, r: int)
    requires Dealt(u, a) && SoundShares(u) && EventsOnRound(u, es) && r in Run(u, es).coin
    ensures Run(u, es).coin[r] == TrueCoin(u, a, r)
  {
    var ms := CoinIsBacked(u, es, r);
    CoinIsFixed(u, a, es, r, ms);
    NothingOff(u, es, r, ms);
    hide Order, Run, Deviation, TrueCoin;
    Remainder(0, Order(), 0, 0);
  }

  lemma NothingOff(u: Setup, es: seq<Event>, r: int, ms: seq<Msg>)
    requires EventsOnRound(u, es) && Backs(u, es, r, ms) && InKeys(u, ms)
    ensures Deviation(u, r, ms) == 0
  {
    hide Run, RoundMessage, Order, Dot, Weights, Verifies;
    var d := Differences(u, r, ms);
    forall i | 0 <= i < |ms|
      ensures d[i] == 0
    {
      assert From(u, es, r, SharesAt(Run(u, es).shares, r)[i], ms[i]);
      assert OnRound(u, ms[i]);
    }
    DotZero(Weights(Senders(ms), 0, Order()), d);
  }
}
