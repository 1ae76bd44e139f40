/** When a coin comes to show, in every run at one node: exactly when it has counted f+1 distinct senders of
    accepted shares; which shares are counted; and how the coin is read from the combined point. */
module CoinProgress {
  import opened Wrappers
  import opened Quorum
  import opened Coin
  import opened CoinTheorems
  import opened ThreshPrf
  import Codec
  import Sets

  // -------------------------------------------------------- senders and shares

  function Authors(es: seq<Entry>): set<int> {
    set i | 0 <= i < |es| :: es[i].src
  }

  /** As many shares as counted senders, and a coin exactly from f+1 of them on. */
  ghost predicate Shown(u: Setup, s: State, r: int) {
    && At(s.nodes, r) == Authors(SharesAt(s.shares, r)) && |SharesAt(s.shares, r)| == Len(s.nodes, r)
    && (r in s.coin <==> Len(s.nodes, r) >= SQ(u.n))
  }

  ghost predicate AllShown(u: Setup, s: State) {
    forall r :: Shown(u, s, r)
  }

  lemma CollectAuthors(s: State, m: Msg, r: int)
    requires m.share.Some? && At(s.nodes, r) == Authors(SharesAt(s.shares, r)) && |SharesAt(s.shares, r)| == Len(s.nodes, r)
    ensures var t := Collect(s, m); At(t.nodes, r) == Authors(SharesAt(t.shares, r)) && |SharesAt(t.shares, r)| == Len(t.nodes, r)
  {
    if r == m.round && m.src !in At(s.nodes, r) {
      var es, e := SharesAt(s.shares, r), Entry(m.src, m.share.value);
      AuthorsAdd(es, e);
      InsertCount(s.nodes, r, m.src);
      hide Authors;
      assert At(Insert(s.nodes, r, m.src), r) == At(s.nodes, r) + {m.src};
    }
  }

  lemma AuthorsAdd(es: seq<Entry>, e: Entry)
    ensures Authors(es + [e]) == Authors(es) + {e.src}
  {
    forall x | x in Authors(es)
      ensures x in Authors(es + [e])
    {
      var i :| 0 <= i < |es| && es[i].src == x;
      assert (es + [e])[i] == es[i];
    }
    assert (es + [e])[|es|] == e;
  }

  lemma CollectApart(s: State, m: Msg, r: int)
    requires m.share.Some?
    ensures var t := Collect(s, m);
      t.coin == s.coin && At(s.nodes, r) <= At(t.nodes, r) && (r != m.round ==> At(t.nodes, r) == At(s.nodes, r) && SharesAt(t.shares, r) == SharesAt(s.shares, r))
  {
  }

  lemma CombineApart(u: Setup, t: State, q: int)
    ensures var w := Combine(u, t, q);
      && w.nodes == t.nodes && w.shares == t.shares && w.cached == t.cached && w.round == t.round
      && forall r :: r in w.coin <==> r in t.coin || (r == q && Len(t.nodes, q) >= SQ(u.n) && |SharesAt(t.shares, q)| >= SQ(u.n) >= 0)
  {
    hide CoinOf, Point, SharesAt, SQ, Len;
  }

  /** A collected share and the combination after it leave the round as it should be. */
  lemma CollectShown(u: Setup, s: State, m: Msg, r: int)
    requires u.n >= 1 && m.share.Some? && Shown(u, s, r)
    ensures Shown(u, Combine(u, Collect(s, m), m.round), r)
  {
    hide Authors, SharesAt, Q, SQ, Collect, Combine, At;
    CollectAuthors(s, m, r);
    QuorumArithmetic(u.n);
    CollectApart(s, m, r);
    CombineApart(u, Collect(s, m), m.round);
    Sets.SubsetCard(At(s.nodes, r), At(Collect(s, m).nodes, r));
  }

  lemma SameShown(u: Setup, s: State, t: State)
    requires AllShown(u, s) && t.nodes == s.nodes && t.shares == s.shares && t.coin == s.coin
    ensures AllShown(u, t)
  {
    forall r
      ensures Shown(u, t, r)
    {
      assert Shown(u, s, r);
    }
  }

  lemma HandleShown(u: Setup, s: State, m: Msg)
    requires u.n >= 1 && AllShown(u, s)
    ensures AllShown(u, HandleCoinMsg(u, s, m))
  {
    hide Accepted, Collect, Combine, Shown;
    if Accepted(u, m) && m.round == s.round {
      AcceptedHasShare(u, m);
      var t := Combine(u, Collect(s, m), m.round);
      forall r
        ensures Shown(u, t, r)
      {
        CollectShown(u, s, m, r);
      }
    } else {
      SameShown(u, s, HandleCoinMsg(u, s, m));
    }
  }

  lemma {:induction false} HandleAllShown(u: Setup, s: State, ms: seq<Msg>)
    requires u.n >= 1 && AllShown(u, s)
    ensures AllShown(u, HandleAll(u, s, ms))
  {
    if ms != [] {
      hide AllShown, HandleCoinMsg;
      HandleAllShown(u, s, ms[..|ms| - 1]);
      HandleShown(u, HandleAll(u, s, ms[..|ms| - 1]), ms[|ms| - 1]);
    }
  }

  lemma InitialShown(u: Setup)
    requires u.n >= 1
    ensures AllShown(u, Initial())
  {
    QuorumArithmetic(u.n);
    hide SQ;
    assert Authors([]) == {};
  }

  lemma {:induction false} RunShown(u: Setup, es: seq<Event>)
    requires u.n >= 1
    ensures AllShown(u, Run(u, es))
  {
    if es == [] {
      InitialShown(u);
    } else {
      hide AllShown, HandleCoinMsg, HandleAll;
      var pre, e := es[..|es| - 1], es[|es| - 1];
      RunShown(u, pre);
      var s := Run(u, pre);
      match e
      case Gen(r) => SameShown(u, s, s.(round := r));
      case Deliver(m) => HandleShown(u, s, m);
      case Flush(r) =>
        SameShown(u, s, s.(cached := s.cached - {r}));
        HandleAllShown(u, s.(cached := s.cached - {r}), CachedAt(s.cached, r));
    }
  }

  /** In every run, the coin of a round shows exactly when f+1 senders are counted for it, and counted are
      exactly the senders of the collected shares, one share each. */
  lemma CoinShowsExactly(u: Setup, es: seq<Event>, r: int)
    requires u.n >= 1
    ensures var s := Run(u, es);
      && (r in s.coin <==> Len(s.nodes, r) >= SQ(u.n))
      && At(s.nodes, r) == Authors(SharesAt(s.shares, r)) && |SharesAt(s.shares, r)| == Len(s.nodes, r)
  {
    RunShown(u, es);
    assert Shown(u, Run(u, es), r);
  }

  // ---------------------------------------------------- which shares are counted

  lemma HandleGrows(u: Setup, s: State, m: Msg, r: int)
    ensures At(s.nodes, r) <= At(HandleCoinMsg(u, s, m).nodes, r) && HandleCoinMsg(u, s, m).round == s.round
  {
    hide Accepted, Collect, Combine, At, CachedAt;
    if Accepted(u, m) && m.round == s.round {
      AcceptedHasShare(u, m);
      CollectApart(s, m, r);
      CollectRound(s, m);
      CombineApart(u, Collect(s, m), m.round);
    }
  }

  lemma CollectRound(s: State, m: Msg)
    requires m.share.Some?
    ensures Collect(s, m).round == s.round && Collect(s, m).cached == s.cached
  {
  }

  lemma {:induction false} HandleAllGrows(u: Setup, s: State, ms: seq<Msg>, r: int)
    ensures At(s.nodes, r) <= At(HandleAll(u, s, ms).nodes, r) && HandleAll(u, s, ms).round == s.round
  {
    if ms != [] {
      hide HandleCoinMsg;
      HandleAllGrows(u, s, ms[..|ms| - 1], r);
      HandleGrows(u, HandleAll(u, s, ms[..|ms| - 1]), ms[|ms| - 1], r);
    }
  }

  lemma NextGrows(u: Setup, s: State, e: Event, r: int)
    ensures At(s.nodes, r) <= At(Next(u, s, e).nodes, r)
  {
    hide HandleCoinMsg, HandleAll;
    match e
    case Gen(_) =>
    case Deliver(m) => HandleGrows(u, s, m, r);
    case Flush(q) => HandleAllGrows(u, s.(cached := s.cached - {q}), CachedAt(s.cached, q), r);
  }

  lemma {:induction false} RunGrows(u: Setup, es: seq<Event>, i: nat, r: int)
    requires i <= |es|
    ensures At(Run(u, es[..i]).nodes, r) <= At(Run(u, es).nodes, r)
    decreases |es|
  {
    if i == |es| {
      assert es[..i] == es;
    } else {
      hide Next;
      var pre := es[..|es| - 1];
      assert pre[..i] == es[..i];
      RunGrows(u, pre, i, r);
      NextGrows(u, Run(u, pre), es[|es| - 1], r);
    }
  }

  /** A message of the node's round with an accepted share is counted. */
  lemma AcceptedCounts(u: Setup, s: State, m: Msg)
    requires Accepted(u, m) && m.round == s.round
    ensures m.src in At(HandleCoinMsg(u, s, m).nodes, m.round)
  {
    AcceptedHasShare(u, m);
    hide Accepted, CoinOf, Point;
  }

  lemma {:induction false} AllCount(u: Setup, s: State, ms: seq<Msg>, m: Msg)
    requires Accepted(u, m) && m.round == s.round && m in ms
    ensures m.src in At(HandleAll(u, s, ms).nodes, m.round)
  {
    var pre, last := ms[..|ms| - 1], ms[|ms| - 1];
    assert ms == pre + [last];
    HandleAllGrows(u, s, pre, m.round);
    var t := HandleAll(u, s, pre);
    hide HandleCoinMsg, Accepted;
    if m in pre {
      AllCount(u, s, pre, m);
      HandleGrows(u, t, last, m.round);
    } else {
      AcceptedCounts(u, t, m);
    }
  }

  lemma HandleCaches(u: Setup, s: State, m: Msg, o: Msg)
    ensures o in CachedAt(s.cached, o.round) ==> o in CachedAt(HandleCoinMsg(u, s, m).cached, o.round)
    ensures Accepted(u, m) && m.round > s.round ==> m in CachedAt(HandleCoinMsg(u, s, m).cached, m.round)
  {
    hide Accepted, CoinOf, Point;
  }

  lemma {:induction false} HandleAllCaches(u: Setup, s: State, ms: seq<Msg>, o: Msg)
    requires o in CachedAt(s.cached, o.round)
    ensures o in CachedAt(HandleAll(u, s, ms).cached, o.round)
  {
    if ms != [] {
      hide HandleCoinMsg, CachedAt;
      HandleAllCaches(u, s, ms[..|ms| - 1], o);
      HandleCaches(u, HandleAll(u, s, ms[..|ms| - 1]), ms[|ms| - 1], o);
    }
  }

  lemma NextCaches(u: Setup, s: State, e: Event, o: Msg)
    requires o in CachedAt(s.cached, o.round) && e != Flush(o.round)
    ensures o in CachedAt(Next(u, s, e).cached, o.round)
  {
    hide HandleCoinMsg, HandleAll;
    match e
    case Gen(_) =>
    case Deliver(m) => HandleCaches(u, s, m, o);
    case Flush(q) => HandleAllCaches(u, s.(cached := s.cached - {q}), CachedAt(s.cached, q), o);
  }

  lemma {:induction false} StaysCached(u: Setup, es: seq<Event>, i: nat, j: nat, o: Msg)
    requires i <= j <= |es| && o in CachedAt(Run(u, es[..i]).cached, o.round)
    requires forall k :: i <= k < j ==> es[k] != Flush(o.round)
    ensures o in CachedAt(Run(u, es[..j]).cached, o.round)
    decreases j - i
  {
    if i < j {
      StaysCached(u, es, i, j - 1, o);
      RunStep(u, es, j - 1);
      hide Run, Next, CachedAt;
      NextCaches(u, Run(u, es[..j - 1]), es[j - 1], o);
    }
  }

  lemma RunStep(u: Setup, es: seq<Event>, i: nat)
    requires i < |es|
    ensures Run(u, es[..i + 1]) == Next(u, Run(u, es[..i]), es[i])
  {
    hide Next;
    assert es[..i + 1][..i] == es[..i];
  }

  /** An accepted share that is delivered in its round is counted from then on. */
  lemma ShareCounts(u: Setup, es: seq<Event>, i: nat, m: Msg)
    requires i < |es| && es[i] == Deliver(m) && Accepted(u, m) && Run(u, es[..i]).round == m.round
    ensures m.src in At(Run(u, es).nodes, m.round)
  {
    RunStep(u, es, i);
    AcceptedCounts(u, Run(u, es[..i]), m);
    hide Run, Accepted, HandleCoinMsg;
    RunGrows(u, es, i + 1, m.round);
  }

  lemma EarlyIsCached(u: Setup, s: State, m: Msg)
    requires Accepted(u, m) && s.round < m.round
    ensures m in CachedAt(Next(u, s, Deliver(m)).cached, m.round)
  {
    HandleCaches(u, s, m, m);
    hide Accepted, HandleCoinMsg;
  }

  lemma FlushCounts(u: Setup, s: State, m: Msg)
    requires Accepted(u, m) && s.round == m.round && m in CachedAt(s.cached, m.round)
    ensures m.src in At(Next(u, s, Flush(m.round)).nodes, m.round)
  {
    hide Accepted, HandleAll;
    AllCount(u, s.(cached := s.cached - {m.round}), CachedAt(s.cached, m.round), m);
  }

  /** One that is delivered before its round waits, and is counted from the first time on that the waiting
      messages of the round are handled, when the node is in that round. */
  lemma EarlyShareCounts(u: Setup, es: seq<Event>, i: nat, j: nat, m: Msg)
    requires i < j < |es| && es[i] == Deliver(m) && Accepted(u, m) && Run(u, es[..i]).round < m.round
    requires es[j] == Flush(m.round) && Run(u, es[..j]).round == m.round && forall k :: i < k < j ==> es[k] != Flush(m.round)
    ensures m.src in At(Run(u, es).nodes, m.round)
  {
    hide *;
    RunStep(u, es, i);
    EarlyIsCached(u, Run(u, es[..i]), m);
    StaysCached(u, es, i + 1, j, m);
    FlushCounts(u, Run(u, es[..j]), m);
    RunStep(u, es, j);
    RunGrows(u, es, j + 1, m.round);
  }

  // ------------------------------------------------------- how it is read

  /** The coin is the parity of the second byte of the hash; or the signed number that its first eight bytes
      spell, highest first. */
  lemma CoinIsRead(u: Setup, point: int)
    ensures var h, c := u.hash(u.prf(point)), CoinOf(u, point);
      if u.coinmode then (c == 0 <==> exists k: int :: h[1] as int == 2 * k) && (c == 0 || c == 1)
      else Codec.IntToBytes(c) == h[..8] && Codec.Int64(c)
  {
    var h := u.hash(u.prf(point));
    if u.coinmode {
      assert h[1] as int == 2 * (h[1] as int / 2) + h[1] as int % 2;
    } else {
      Codec.ByteRoundTrip(h);
    }
  }
}
