/** The common coin at one node, for one instance (src/aba/coin/coin.go). */
module Coin {
  import opened Wrappers
  import opened Quorum
  import opened ThreshPrf
  import Codec

  /** What every node of an instance shares: the public key files, the hash to a point, the hash of a
      share proof, the hash of the combined point, the hash that the coin is read from, and whether
      one bit or a whole number is read from it. */
  datatype Setup = Setup(
    n: nat,
    instance: int,
    keys: map<int, int>,
    point: seq<int> -> nat,
    challenge: seq<int> -> nat,
    prf: int -> Digest,
    hash: Digest -> Digest,
    coinmode: bool)

  /** A share message: `hash` is the message its share is for, in the sender's words. */
  datatype Msg = Msg(src: int, round: int, hash: seq<int>, share: Option<Share>)

  /** A collected share. */
  datatype Entry = Entry(src: int, share: Share)

  datatype State = State(
    round: int,
    cached: map<int, seq<Msg>>,
    nodes: Counter<int>,
    shares: map<int, seq<Entry>>,
    coin: map<int, int>)

  function Initial(): State {
    State(0, map[], map[], map[], map[])
  }

  function CachedAt(cached: map<int, seq<Msg>>, r: int): seq<Msg> {
    if r in cached then cached[r] else []
  }

  function SharesAt(shares: map<int, seq<Entry>>, r: int): seq<Entry> {
    if r in shares then shares[r] else []
  }

  function Sources(es: seq<Entry>): (s: seq<int>)
    ensures |s| == |es|
  {
    seq(|es|, i requires 0 <= i < |es| => es[i].src)
  }

  function Points(es: seq<Entry>): (s: seq<nat>)
    ensures |s| == |es|
  {
    seq(|es|, i requires 0 <= i < |es| => es[i].share.g)
  }

  // ------------------------------------------------ the steps as functions

  /** The message that the nodes make shares of for a round. */
  function RoundMessage(u: Setup, r: int): seq<int> {
    Codec.IntToBytes(u.instance + r)
  }

  /** The share verifies under the sender's key, for the message that came with it. */
  predicate Accepted(u: Setup, m: Msg) {
    m.src in u.keys && Verifies(m.hash, u.keys[m.src], m.share, u.point, u.challenge)
  }

  /** The coin read from a hash: its second byte's lowest bit, or its first eight bytes. */
  function CoinOf(u: Setup, point: int): int {
    var h := u.hash(u.prf(point));
    if u.coinmode then h[1] % 2 else Codec.BytesToInt(h)
  }

  function Collect(s: State, m: Msg): State
    requires m.share.Some?
  {
    if m.src in At(s.nodes, m.round) then s
    else
      s.(nodes := Insert(s.nodes, m.round, m.src),
         shares := s.shares[m.round := SharesAt(s.shares, m.round) + [Entry(m.src, m.share.value)]])
  }

  /** The point that the first f+1 collected shares make. */
  function Point(u: Setup, es: seq<Entry>): int
    requires 0 <= SQ(u.n) <= |es|
  {
    Combined(Sources(es), Points(es), SQ(u.n))
  }

  /** With f+1 collected shares the coin of the round is (re)computed from the first f+1 of them. */
  function Combine(u: Setup, s: State, r: int): State {
    var es := SharesAt(s.shares, r);
    if Len(s.nodes, r) >= SQ(u.n) && |es| >= SQ(u.n) >= 0 then s.(coin := s.coin[r := CoinOf(u, Point(u, es))]) else s
  }

  function HandleCoinMsg(u: Setup, s: State, m: Msg): State {
    if !Accepted(u, m) || m.round < s.round then s
    else if m.round > s.round then s.(cached := s.cached[m.round := CachedAt(s.cached, m.round) + [m]])
    else Combine(u, Collect(s, m), m.round)
  }

  function HandleAll(u: Setup, s: State, ms: seq<Msg>): State {
    if ms == [] then s else HandleCoinMsg(u, HandleAll(u, s, ms[..|ms| - 1]), ms[|ms| - 1])
  }

  function HandleCachedMsg(u: Setup, s: State, r: int): State {
    HandleAll(u, s.(cached := s.cached - {r}), CachedAt(s.cached, r))
  }

  /** Gen: the node asks for the coin of a round. Deliver: a share message arrives. Flush: the
      messages cached for a round are handled again. */
  datatype Event = Gen(r: int) | Deliver(m: Msg) | Flush(r: int)

  function Next(u: Setup, s: State, e: Event): State {
    match e
    case Gen(r) => s.(round := r)
    case Deliver(m) => HandleCoinMsg(u, s, m)
    case Flush(r) => HandleCachedMsg(u, s, r)
  }

  function Run(u: Setup, es: seq<Event>): State {
    if es == [] then Initial() else Next(u, Run(u, es[..|es| - 1]), es[|es| - 1])
  }

  // ------------------------------------------------------------- the node

  class CoinNode {
    const setup: Setup
    var round: int
    var cachedMsg: map<int, seq<Msg>>
    var coinnodes: Counter<int>
    var coinShares: map<int, seq<Entry>>
    var curCoin: map<int, int>

    ghost function View(): State
      reads this
    {
      State(round, cachedMsg, coinnodes, coinShares, curCoin)
    }

    constructor InitCoin(u: Setup)
      ensures View() == Initial() && setup == u
    {
      setup := u;
      round, cachedMsg, coinnodes, coinShares, curCoin := 0, map[], map[], map[], map[];
    }

    method QueryCoin(r: int) returns (c: int)
      ensures c == if r in View().coin then View().coin[r] else -1
    {
      if r in curCoin {
        return curCoin[r];
      }
      return -1;
    }

    method GenCoin(r: int)
      modifies this
      ensures View() == old(View()).(round := r)
    {
      round := r;
    }

    method OnCoinMsg(m: Msg)
      requires setup.n >= 1
      modifies this
      ensures View() == HandleCoinMsg(setup, old(View()), m)
    {
      if m.src !in setup.keys {
        return;
      }
      var verified := VerifyShare(m.hash, setup.keys[m.src], m.share, setup.point, setup.challenge);
      if !verified {
        return;
      }
      if m.round < round {
        return;
      }
      if m.round > round {
        cachedMsg := cachedMsg[m.round := CachedAt(cachedMsg, m.round) + [m]];
        return;
      }
      CollectShare(m);
      CombineShares(m.round);
    }

    method CollectShare(m: Msg)
      requires m.share.Some?
      modifies this`coinnodes, this`coinShares
      ensures View() == Collect(old(View()), m)
    {
      var len1 := Len(coinnodes, m.round);
      InsertCount(coinnodes, m.round, m.src);
      if m.src in At(coinnodes, m.round) {
        assert coinnodes == Insert(coinnodes, m.round, m.src);
      }
      coinnodes := Insert(coinnodes, m.round, m.src);
      var len2 := Len(coinnodes, m.round);
      if len2 > len1 {
        coinShares := coinShares[m.round := SharesAt(coinShares, m.round) + [Entry(m.src, m.share.value)]];
      }
    }

    method CombineShares(r: int)
      requires setup.n >= 1
      modifies this`curCoin
      ensures View() == Combine(setup, old(View()), r)
    {
      var len2 := Len(coinnodes, r);
      var idarr, shares := Sources(SharesAt(coinShares, r)), Points(SharesAt(coinShares, r));
      QuorumArithmetic(setup.n);
      if len2 >= SQ(setup.n) && |idarr| >= SQ(setup.n) {
        var prfval := ComputePrfFromShares(idarr, SQ(setup.n), shares, setup.prf);
        var h := setup.hash(prfval);
        var coin: int;
        if setup.coinmode {
          coin := h[1] % 2;
        } else {
          coin := Codec.BytesToInt(h);
        }
        curCoin := curCoin[r := coin];
      }
    }

    method OnCachedMsg(r: int)
      requires setup.n >= 1
      modifies this
      ensures View() == HandleCachedMsg(setup, old(View()), r)
    {
      var msgs := CachedAt(cachedMsg, r);
      cachedMsg := cachedMsg - {r};
      ghost var start := View();
      assert start == old(View()).(cached := old(cachedMsg) - {r});
      for i := 0 to |msgs|
        invariant View() == HandleAll(setup, start, msgs[..i])
      {
        OnCoinMsg(msgs[i]);
        assert msgs[..i + 1][..i] == msgs[..i];
      }
      assert msgs[..|msgs|] == msgs;
    }
  }
}
