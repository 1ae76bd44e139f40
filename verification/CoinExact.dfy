/** What HandleCoinMsg accepts, and what it costs. A share is verified against the message that came with
    it, which is never compared with the message of the round, so a correct share for another message is
    collected too. Here is exactly when one such share changes the combined point. */
module CoinExact {
  import opened Wrappers
  import opened Quorum
  import opened Field
  import opened Lagrange
  import opened ThreshPrf
  import opened Coin
  import opened CoinTheorems

  // ---------------------------------------------------------- one term

  /** Replacing one value changes the sum by its weight times the difference. */
  lemma {:induction false} ReplaceOne(w: seq<int>, v: seq<int>, i: nat, y: int)
    requires i < |w| == |v|
    ensures Dot(w, v[i := y]) == Dot(w, v) + w[i] * (y - v[i])
  {
    var m := |w| - 1;
    if i < m {
      ReplaceOne(w[..m], v[..m], i, y);
      assert v[i := y][..m] == v[..m][i := y];
    } else {
      assert v[i := y][..m] == v[..m];
      Distribute(w[m], v[m], y - v[m]);
    }
  }

  /** The combined point is unchanged if and only if the weighted difference is a multiple of the order. */
  lemma ReplacedShare(ids: seq<int>, shares: seq<int>, k: nat, i: nat, y: int)
    requires i < k <= |ids| && k <= |shares|
    ensures Combined(ids, shares[i := y], k) == Combined(ids, shares, k)
      <==> (Weight(ids[..k], i, 0, Order()) * (y - shares[i])) % Order() == 0
  {
    hide Order, Weight, Dot;
    var w, v := Weights(ids[..k], 0, Order()), shares[..k];
    ReplaceOne(w, v, i, y);
    assert shares[i := y][..k] == v[i := y];
    SameAfterAdding(Dot(w, v), w[i] * (y - v[i]), Order());
  }

  // ------------------------------------------------------- zero weights

  lemma {:induction false} ProductWithZero(ids: seq<int>, i: int, x: int, j: nat, p: nat)
    requires p > 0 && j < |ids| && j != i && (x - ids[j]) % p == 0
    ensures Product(ids, i, x) % p == 0
  {
    var m := |ids| - 1;
    var d := if i == m then 1 else x - ids[m];
    Remainder(0, p, 0, 0);
    if j == m {
      CongMul(Product(ids[..m], i, x), Product(ids[..m], i, x), d, 0, p);
    } else {
      ProductWithZero(ids[..m], i, x, j, p);
      CongMul(Product(ids[..m], i, x), 0, d, d, p);
    }
  }

  /** The value at a point is carried by that point alone: the weight of another one is zero exactly when
      x is one of the other points. */
  lemma WeightIsZero(ids: seq<int>, i: nat, x: int, p: nat)
    requires Prime(p) && p > 1 && Distinct(ids, p) && i < |ids|
    ensures Weight(ids, i, x, p) % p == 0 <==> exists j :: 0 <= j < |ids| && j != i && (x - ids[j]) % p == 0
  {
    var t, b, w := Product(ids, i, x), Product(ids, i, ids[i]), Weight(ids, i, x, p);
    WeightSpec(ids, i, x, p);
    BottomNonZero(ids, i, p);
    hide Weight, Distinct;
    Remainder(0, p, 0, 0);
    if j :| 0 <= j < |ids| && j != i && (x - ids[j]) % p == 0 {
      ProductWithZero(ids, i, x, j, p);
      if w % p != 0 {
        ProductNotZero(b, w, p);
      }
    } else {
      ProductNonZero(ids, i, x, p);
      if w % p == 0 {
        CongMul(b, b, w, 0, p);
      }
    }
  }

  // ------------------------------------------------------------ one share

  /** What node src with its dealt key sends in round 0 as a share for the message C. */
  function ShareMsg(u: Setup, src: int, C: seq<int>, nonce: nat): (m: Msg)
    requires src in u.keys && u.keys[src] >= 0
    ensures m.src == src && m.round == 0 && m.share.Some?
  {
    Msg(src, 0, C, Some(HonestShare(C, u.keys[src], u.keys[src], nonce, u.point, u.challenge)))
  }

  /** Whatever message C it is for, the share is accepted. */
  lemma EveryMessageIsAccepted(u: Setup, src: int, C: seq<int>, nonce: nat)
    requires src in u.keys && 0 <= u.keys[src] < Order() && C != []
    ensures Accepted(u, ShareMsg(u, src, C, nonce))
  {
    hide Order;
    Remainder(u.keys[src], Order(), 0, u.keys[src]);
    HonestShareVerifies(C, u.keys[src], nonce, u.point, u.challenge);
  }

  lemma ProductIsZero(a: int, b: int, p: nat)
    requires Prime(p)
    ensures (a * b) % p == 0 <==> a % p == 0 || b % p == 0
  {
    Remainder(0, p, 0, 0);
    if a % p == 0 {
      CongMul(a, 0, b, b, p);
    } else if b % p == 0 {
      CongMul(a, a, b, 0, p);
    } else {
      ProductNotZero(a, b, p);
    }
  }

  /** The difference that a share for another point makes. */
  lemma ForeignDifference(w: int, h: int, h': int, key: int, p: nat)
    requires Prime(p)
    ensures (w * ((h' * key) % p - (h * key) % p)) % p == 0 <==> w % p == 0 || key % p == 0 || Cong(h', h, p)
  {
    CongMod(h' * key, p);
    CongMod(h * key, p);
    CongSub((h' * key) % p, h' * key, (h * key) % p, h * key, p);
    var d := (h' * key) % p - (h * key) % p;
    assert h' * key - h * key == (h' - h) * key;
    ProductIsZero(h' - h, key, p);
    ProductIsZero(w, d, p);
    SameAfterAdding(h, h' - h, p);
  }

  // --------------------------------------------------------------- a run

  function Deliveries(ms: seq<Msg>): (es: seq<Event>)
    ensures |es| == |ms|
  {
    seq(|ms|, i requires 0 <= i < |ms| => Deliver(ms[i]))
  }

  predicate AllShares(ms: seq<Msg>) {
    forall i :: 0 <= i < |ms| ==> ms[i].share.Some?
  }

  function Entries(ms: seq<Msg>): (es: seq<Entry>)
    requires AllShares(ms)
    ensures |es| == |ms|
  {
    seq(|ms|, i requires 0 <= i < |ms| => Entry(ms[i].src, ms[i].share.value))
  }

  ghost predicate Deliverable(u: Setup, ms: seq<Msg>) {
    && (forall i :: 0 <= i < |ms| ==> Accepted(u, ms[i]) && ms[i].round == 0)
    && (forall i, j :: 0 <= i < j < |ms| ==> ms[i].src != ms[j].src)
  }

  function SourceSet(ms: seq<Msg>): set<int> {
    set m | m in ms :: m.src
  }

  lemma SourceSetNext(ms: seq<Msg>, m: Msg)
    ensures SourceSet(ms + [m]) == SourceSet(ms) + {m.src}
  {
    assert (ms + [m])[|ms|] == m;
    forall x | x in SourceSet(ms) + {m.src}
      ensures x in SourceSet(ms + [m])
    {
      if x in SourceSet(ms) {
        var o :| o in ms && o.src == x;
        assert o in ms + [m];
      }
    }
  }

  /** The node has collected exactly these messages, in their order. */
  ghost predicate Collected(s: State, ms: seq<Msg>)
    requires AllShares(ms)
  {
    && s.round == 0
    && SharesAt(s.shares, 0) == Entries(ms)
    && At(s.nodes, 0) == SourceSet(ms)
    && Len(s.nodes, 0) == |ms|
  }

  lemma CollectNext(u: Setup, s: State, ms: seq<Msg>, m: Msg)
    requires Deliverable(u, ms + [m]) && AllShares(ms) && m.share.Some? && Collected(s, ms)
    ensures Collected(Collect(s, m), ms + [m])
  {
    NewSource(u, ms, m);
    hide Deliverable, SourceSet;
    InsertCount(s.nodes, 0, m.src);
    SourceSetNext(ms, m);
    assert Entries(ms + [m]) == Entries(ms) + [Entry(m.src, m.share.value)];
  }

  lemma NewSource(u: Setup, ms: seq<Msg>, m: Msg)
    requires Deliverable(u, ms + [m])
    ensures m.src !in SourceSet(ms) && m.round == 0
  {
    hide Accepted;
    var all := ms + [m];
    assert all[|ms|] == m;
    forall i | 0 <= i < |ms|
      ensures ms[i].src != m.src
    {
      assert all[i] == ms[i];
    }
  }

  lemma DeliverablePrefix(u: Setup, ms: seq<Msg>)
    requires Deliverable(u, ms) && ms != []
    ensures Deliverable(u, ms[..|ms| - 1]) && Accepted(u, ms[|ms| - 1]) && ms[|ms| - 1].round == 0
  {
  }

  lemma RunLast(u: Setup, pre: seq<Msg>, m: Msg)
    requires Accepted(u, m) && m.round == 0 && Run(u, Deliveries(pre)).round == 0
    ensures m.share.Some? && Run(u, Deliveries(pre + [m])) == Combine(u, Collect(Run(u, Deliveries(pre)), m), 0)
  {
    var es := Deliveries(pre + [m]);
    assert es[..|es| - 1] == Deliveries(pre);
    assert es[|es| - 1] == Deliver(m);
    assert m.share.Some?;
    hide Accepted, Combine, Collect, Deliveries;
  }

  lemma CollectStep(u: Setup, pre: seq<Msg>, m: Msg)
    requires u.n >= 1 && Deliverable(u, pre + [m]) && AllShares(pre) && Accepted(u, m) && m.round == 0
    requires Collected(Run(u, Deliveries(pre)), pre) && Run(u, Deliveries(pre)).round == 0
    ensures AllShares(pre + [m]) && CoinCollected(u, pre + [m])
  {
    var s := Run(u, Deliveries(pre));
    RunLast(u, pre, m);
    assert AllShares(pre + [m]);
    CollectNext(u, s, pre, m);
    hide Deliveries, Run, Deliverable, Point, CoinOf, Combine, Collect, Entries, Collected, SourceSet, Accepted, AllShares;
    CombineCollected(u, Collect(s, m), pre + [m]);
  }

  /** After these messages, in their order, the node has collected them all, and with f+1 of them it has
      the coin of the point they make. */
  ghost predicate CoinCollected(u: Setup, ms: seq<Msg>)
    requires AllShares(ms)
  {
    var s := Run(u, Deliveries(ms));
    && Collected(s, ms) && s.round == 0
    && (|ms| == SQ(u.n) ==> 0 in s.coin && s.coin[0] == CoinOf(u, Point(u, Entries(ms))))
  }

  /** Delivering acceptable messages of distinct nodes collects their shares. */
  lemma {:induction false} DeliveriesCollect(u: Setup, ms: seq<Msg>)
    requires u.n >= 1 && Deliverable(u, ms)
    ensures AllShares(ms) && CoinCollected(u, ms)
  {
    if ms == [] {
      NoneCollected(u);
    } else {
      var pre, m := ms[..|ms| - 1], ms[|ms| - 1];
      DeliverablePrefix(u, ms);
      DeliveriesCollect(u, pre);
      assert ms == pre + [m];
      hide Deliveries, Run, Deliverable, Entries, Collected, Accepted, AllShares;
      CollectStep(u, pre, m);
    }
  }

  lemma NoneCollected(u: Setup)
    requires u.n >= 1
    ensures Collected(Run(u, Deliveries([])), []) && Run(u, Deliveries([])).round == 0 && SQ(u.n) > 0
  {
    QuorumArithmetic(u.n);
    assert Deliveries([]) == [] && Entries([]) == [] && SourceSet([]) == {};
  }

  lemma CombineCollected(u: Setup, s: State, ms: seq<Msg>)
    requires u.n >= 1 && AllShares(ms)
    requires Collected(s, ms)
    ensures Collected(Combine(u, s, 0), ms) && Combine(u, s, 0).round == 0
    ensures |ms| == SQ(u.n) ==> 0 in Combine(u, s, 0).coin && Combine(u, s, 0).coin[0] == CoinOf(u, Point(u, Entries(ms)))
  {
    QuorumArithmetic(u.n);
  }

  // ------------------------------------------------------------ the theorem

  /** f+1 distinct nodes of the group. */
  ghost predicate Group(u: Setup, ids: seq<int>) {
    && |ids| == SQ(u.n) && NodeIds(ids)
    && forall j :: 0 <= j < |ids| ==> ids[j] in u.keys && 0 <= u.keys[ids[j]] < Order()
  }

  /** The messages of the group: node i sends its share for the message C, the others theirs for the
      message of the round. */
  function Sent(u: Setup, ids: seq<int>, i: int, C: seq<int>, nonce: int -> nat): (ms: seq<Msg>)
    requires forall j :: 0 <= j < |ids| ==> ids[j] in u.keys && 0 <= u.keys[ids[j]]
    ensures |ms| == |ids|
    ensures forall j :: 0 <= j < |ids| ==> ms[j] == ShareMsg(u, ids[j], ContentOf(u, i, C, j), nonce(j))
    ensures forall j :: 0 <= j < |ids| ==> ms[j].src == ids[j] && ms[j].share.Some?
  {
    seq(|ids|, j requires 0 <= j < |ids| => ShareMsg(u, ids[j], ContentOf(u, i, C, j), nonce(j)))
  }

  function ContentOf(u: Setup, i: int, C: seq<int>, j: int): seq<int> {
    if j == i then C else RoundMessage(u, 0)
  }

  lemma SentDeliverable(u: Setup, ids: seq<int>, i: int, C: seq<int>, nonce: int -> nat)
    requires Group(u, ids) && C != []
    ensures Deliverable(u, Sent(u, ids, i, C, nonce))
  {
    hide Accepted, RoundMessage;
    RoundNotEmpty(u);
    var ms := Sent(u, ids, i, C, nonce);
    forall j | 0 <= j < |ms|
      ensures Accepted(u, ms[j]) && ms[j].round == 0
    {
      EveryMessageIsAccepted(u, ids[j], ContentOf(u, i, C, j), nonce(j));
    }
    hide Sent, ShareMsg;
    forall j, l | 0 <= j < l < |ms|
      ensures ms[j].src != ms[l].src
    {
      assert ids[j] != ids[l];
    }
  }

  function SharePoint(h: int, key: int): int {
    ((h % Order()) * key) % Order()
  }

  lemma ShareMsgPoint(u: Setup, src: int, C: seq<int>, nonce: nat)
    requires src in u.keys && u.keys[src] >= 0
    ensures ShareMsg(u, src, C, nonce).share.Some? && ShareMsg(u, src, C, nonce).share.value.g == SharePoint(u.point(C), u.keys[src])
  {
    hide Order;
  }

  /** The points of the shares, of which only the i-th depends on C. */
  lemma SentPoints(u: Setup, ids: seq<int>, i: nat, C: seq<int>, nonce: int -> nat)
    requires Group(u, ids) && i < |ids|
    ensures var ms := Sent(u, ids, i, C, nonce);
      Sources(Entries(ms)) == ids && Points(Entries(ms)) == PointsFor(u, ids, i, C)
  {
    var ms := Sent(u, ids, i, C, nonce);
    forall j | 0 <= j < |ids|
      ensures ms[j].share.value.g == SharePoint(u.point(ContentOf(u, i, C, j)), u.keys[ids[j]])
    {
      ShareMsgPoint(u, ids[j], ContentOf(u, i, C, j), nonce(j));
    }
    hide Sent, ShareMsg, SharePoint, RoundMessage;
    assert Sources(Entries(ms)) == ids;
    assert Points(Entries(ms)) == PointsFor(u, ids, i, C);
  }

  function PointsFor(u: Setup, ids: seq<int>, i: int, C: seq<int>): (r: seq<int>)
    requires forall j :: 0 <= j < |ids| ==> ids[j] in u.keys
    ensures |r| == |ids|
  {
    seq(|ids|, j requires 0 <= j < |ids| => SharePoint(u.point(ContentOf(u, i, C, j)), u.keys[ids[j]]))
  }

  /** The node after these messages, and the point that their shares make. */
  function Fed(u: Setup, ids: seq<int>, i: int, C: seq<int>, nonce: int -> nat): State
    requires forall j :: 0 <= j < |ids| ==> ids[j] in u.keys && 0 <= u.keys[ids[j]]
  {
    Run(u, Deliveries(Sent(u, ids, i, C, nonce)))
  }

  function PointOf(u: Setup, ids: seq<int>, i: int, C: seq<int>, nonce: int -> nat): int
    requires |ids| == SQ(u.n) && forall j :: 0 <= j < |ids| ==> ids[j] in u.keys && 0 <= u.keys[ids[j]]
  {
    Point(u, Entries(Sent(u, ids, i, C, nonce)))
  }

  lemma FedCoin(u: Setup, ids: seq<int>, i: nat, C: seq<int>, nonce: int -> nat)
    requires u.n >= 1 && Group(u, ids) && i < |ids| && C != []
    ensures var s := Fed(u, ids, i, C, nonce); 0 in s.coin && s.coin[0] == CoinOf(u, PointOf(u, ids, i, C, nonce))
    ensures PointOf(u, ids, i, C, nonce) == Combined(ids, PointsFor(u, ids, i, C), |ids|)
  {
    hide Order, Sent, Entries, Deliveries, Run, PointsFor, Collected, Deliverable, CoinOf, Combined;
    SentDeliverable(u, ids, i, C, nonce);
    DeliveriesCollect(u, Sent(u, ids, i, C, nonce));
    SentPoints(u, ids, i, C, nonce);
  }

  /** One foreign share, exactly: f+1 nodes send honest shares, all for the message of the round except
      that node i's is for C. All are accepted and the coin is read from the point they make; and that
      point is the one that shares for the round alone make if and only if node 0 is among the other
      senders, or the key of node i is zero, or the two messages hash to the same point. */
  lemma OneForeignShare(u: Setup, a: seq<int>, ids: seq<int>, i: nat, C: seq<int>, nonce: int -> nat)
    requires Dealt(u, a) && Group(u, ids) && i < |ids| && C != []
    ensures var s := Fed(u, ids, i, C, nonce); 0 in s.coin && s.coin[0] == CoinOf(u, PointOf(u, ids, i, C, nonce))
    ensures PointOf(u, ids, i, C, nonce) == PointOf(u, ids, i, RoundMessage(u, 0), nonce)
      <==> Among(ids, i, 0) || u.keys[ids[i]] == 0 || Cong(u.point(C), u.point(RoundMessage(u, 0)), Order())
  {
    hide Order, Prime, Fed, PointOf, PointsFor, Combined, RoundMessage, Among;
    var C0 := RoundMessage(u, 0);
    RoundNotEmpty(u);
    FedCoin(u, ids, i, C, nonce);
    FedCoin(u, ids, i, C0, nonce);
    OnlyOneDiffers(u, ids, i, C);
    OnlyOneDiffers(u, ids, i, C0);
    ForeignPoint(u, ids, i, u.point(C), u.point(C0), PointsFor(u, ids, i, C0));
  }

  predicate Among(ids: seq<int>, i: int, x: int) {
    exists j :: 0 <= j < |ids| && j != i && ids[j] == x
  }

  lemma OnlyOneDiffers(u: Setup, ids: seq<int>, i: nat, C: seq<int>)
    requires Group(u, ids) && i < |ids|
    ensures PointsFor(u, ids, i, C) == PointsFor(u, ids, i, RoundMessage(u, 0))[i := SharePoint(u.point(C), u.keys[ids[i]])]
    ensures PointsFor(u, ids, i, C)[i] == SharePoint(u.point(C), u.keys[ids[i]])
  {
    hide SharePoint, RoundMessage;
    var p, q := PointsFor(u, ids, i, C), PointsFor(u, ids, i, RoundMessage(u, 0));
    forall j | 0 <= j < |ids|
      ensures p[j] == q[i := SharePoint(u.point(C), u.keys[ids[i]])][j]
    {
      if j == i {
        assert ContentOf(u, i, C, j) == C;
      } else {
        assert ContentOf(u, i, C, j) == RoundMessage(u, 0) == ContentOf(u, i, RoundMessage(u, 0), j);
      }
    }
  }

  lemma RoundNotEmpty(u: Setup)
    ensures RoundMessage(u, 0) != []
  {
  }

  lemma ForeignPoint(u: Setup, ids: seq<int>, i: nat, h': nat, h: nat, shares: seq<int>)
    requires Prime(Order()) && Group(u, ids) && i < |ids| == |shares|
    requires shares[i] == SharePoint(h, u.keys[ids[i]])
    ensures Combined(ids, shares[i := SharePoint(h', u.keys[ids[i]])], |ids|) == Combined(ids, shares, |ids|)
      <==> Among(ids, i, 0) || u.keys[ids[i]] == 0 || Cong(h', h, Order())
  {
    hide Order, Prime, Weight;
    var p, key := Order(), u.keys[ids[i]];
    assert ids[..|ids|] == ids;
    ReplacedShare(ids, shares, |ids|, i, SharePoint(h', key));
    ForeignDifference(Weight(ids, i, 0, p), h % p, h' % p, key, p);
    NodeIdsDistinct(ids);
    WeightIsZero(ids, i, 0, p);
    ZeroId(ids, i, p);
    Remainder(key, p, 0, key);
    CongMod(h, p);
    CongMod(h', p);
  }

  lemma ZeroId(ids: seq<int>, i: nat, p: nat)
    requires p == Order() && NodeIds(ids)
    ensures (exists j :: 0 <= j < |ids| && j != i && (0 - ids[j]) % p == 0) <==> Among(ids, i, 0)
  {
    hide Order;
    Remainder(0, p, 0, 0);
    forall j | 0 <= j < |ids|
      ensures (0 - ids[j]) % p == 0 <==> ids[j] == 0
    {
      if ids[j] != 0 {
        Remainder(0 - ids[j], p, -1, p - ids[j]);
      }
    }
  }
}
