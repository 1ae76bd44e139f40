/** What a node of the binary agreement sends, over all runs with Byzantine nodes: f+1 BVALs for a value make
    it send its own, a quorum of them puts the value in bin_values, and it votes in every round that it has
    left or is voting in, and in no other. */
module AbaRelay {
  import opened Quorum
  import opened Aba
  import opened AbaSystem

  ghost predicate SentBval(ms: set<Msg>, x: int, r: nat, v: int) {
    exists mj :: Bval(x, r, v, mj) in ms
  }

  ghost predicate SentAux(ms: set<Msg>, x: int, r: nat) {
    exists v, w :: Aux(x, r, v, w) in ms
  }

  predicate IsBit(v: int) {
    v == 0 || v == 1
  }

  predicate Voted(p: Node, r: nat) {
    r < p.round || (r == p.round && p.instancestatus == AUX)
  }

  /** What f+1 and a quorum of BVALs for a value have led to, in round r. */
  predicate Heeded(p: Node, r: nat, v: int) {
    && (Len(p.bvalMap, (r, v)) >= SQ(p.n) ==> v in SetAt(p.bvals, r))
    && (Len(p.bvalMap, (r, v)) >= Q(p.n) ==> v in SetAt(p.binValues, r))
  }

  /** The same for all values and rounds, with one key left out. */
  ghost predicate HeedsBut(p: Node, key: (nat, int)) {
    forall r: nat, v :: IsBit(v) && (r, v) != key ==> Heeded(p, r, v)
  }

  /** bvals and the status of the node tell what it has sent, in ms or since the event began. */
  ghost predicate BvalsSpoken(ms: set<Msg>, p: Node) {
    forall r: nat, v :: v in SetAt(p.bvals, r) <==> SentBval(ms, p.id, r, v)
  }

  ghost predicate AuxSpoken(ms: set<Msg>, p: Node) {
    forall r: nat :: Voted(p, r) <==> SentAux(ms, p.id, r)
  }

  function Said(sent: set<Msg>, p: Node): set<Msg> {
    sent + Outgoing(p)
  }

  ghost predicate Spoken(sent: set<Msg>, p: Node) {
    && BvalsSpoken(Said(sent, p), p) && AuxSpoken(Said(sent, p), p)
    && (forall m :: m in p.out ==> m.src == p.id)
    && (p.instancestatus == READY || p.instancestatus == AUX)
  }

  const NOKEY: (nat, int) := (0, -1)

  ghost predicate Relayed(sent: set<Msg>, p: Node) {
    Spoken(sent, p) && HeedsBut(p, NOKEY)
  }

  // ------------------------------------------------------------- what is sent

  lemma SameSpoken(sent: set<Msg>, p: Node, t: Node)
    requires Spoken(sent, p) && t.id == p.id && t.round == p.round && t.instancestatus == p.instancestatus && t.bvals == p.bvals && t.out == p.out
    ensures Spoken(sent, t)
  {
    assert Said(sent, t) == Said(sent, p);
    hide SentBval, SentAux;
  }

  lemma SaidMore(sent: set<Msg>, p: Node, m: Msg)
    ensures Said(sent, Send(p, m)) == Said(sent, p) + {m}
  {
  }

  lemma BvalAdds(ms: set<Msg>, m: Msg, x: int)
    requires m.Bval? && m.src == x
    ensures forall r: nat, v :: SentBval(ms + {m}, x, r, v) <==> SentBval(ms, x, r, v) || (r == m.round && v == m.value)
    ensures forall r: nat :: SentAux(ms + {m}, x, r) <==> SentAux(ms, x, r)
  {
    forall r: nat, v
      ensures SentBval(ms + {m}, x, r, v) <==> SentBval(ms, x, r, v) || (r == m.round && v == m.value)
    {
      if SentBval(ms, x, r, v) {
        var mj :| Bval(x, r, v, mj) in ms;
        assert Bval(x, r, v, mj) in ms + {m};
      }
      if r == m.round && v == m.value {
        assert m == Bval(x, r, v, m.maj);
      }
    }
    forall r: nat
      ensures SentAux(ms + {m}, x, r) <==> SentAux(ms, x, r)
    {
      if SentAux(ms, x, r) {
        var v, w :| Aux(x, r, v, w) in ms;
        assert Aux(x, r, v, w) in ms + {m};
      }
    }
  }

  lemma AuxAdds(ms: set<Msg>, m: Msg, x: int)
    requires m.Aux? && m.src == x
    ensures forall r: nat, v :: SentBval(ms + {m}, x, r, v) <==> SentBval(ms, x, r, v)
    ensures forall r: nat :: SentAux(ms + {m}, x, r) <==> SentAux(ms, x, r) || r == m.round
  {
    forall r: nat, v
      ensures SentBval(ms + {m}, x, r, v) <==> SentBval(ms, x, r, v)
    {
      if SentBval(ms, x, r, v) {
        var mj :| Bval(x, r, v, mj) in ms;
        assert Bval(x, r, v, mj) in ms + {m};
      }
    }
    forall r: nat
      ensures SentAux(ms + {m}, x, r) <==> SentAux(ms, x, r) || r == m.round
    {
      if SentAux(ms, x, r) {
        var v, w :| Aux(x, r, v, w) in ms;
        assert Aux(x, r, v, w) in ms + {m};
      }
      if r == m.round {
        assert m == Aux(x, r, m.value, m.maj);
      }
    }
  }

  /** Recording a value and sending its BVAL go together. */
  lemma BvalSpoken(sent: set<Msg>, p: Node, r: nat, v: int, mj: int, t: Node)
    requires Spoken(sent, p) && t == Send(p.(bvals := AddTo(p.bvals, r, v)), Bval(p.id, r, v, mj))
    ensures Spoken(sent, t)
  {
    var m := Bval(p.id, r, v, mj);
    SaidMore(sent, p, m);
    assert Said(sent, t) == Said(sent, p) + {m};
    BvalAdds(Said(sent, p), m, p.id);
    hide SentBval, SentAux, Said;
  }

  lemma SendBvalSpoken(sent: set<Msg>, p: Node, r: nat, v: int)
    requires Spoken(sent, p)
    ensures Spoken(sent, SendBval(p, r, v)) && v in SetAt(SendBval(p, r, v).bvals, r)
  {
    if v !in SetAt(p.bvals, r) {
      BvalSpoken(sent, p, r, v, IntAt(p.maj, r), SendBval(p, r, v));
    }
    hide Spoken;
  }

  lemma VoteSpoken(sent: set<Msg>, p: Node, t: Node, v: int, w: int)
    requires Spoken(sent, p) && p.instancestatus == READY
    requires t.id == p.id && t.round == p.round && t.bvals == p.bvals && t.instancestatus == AUX && t.out == p.out + [Aux(p.id, p.round, v, w)]
    ensures Spoken(sent, t)
  {
    var m := Aux(p.id, p.round, v, w);
    assert Said(sent, t) == Said(sent, p) + {m};
    AuxAdds(Said(sent, p), m, p.id);
    hide SentBval, SentAux, Said;
  }

  lemma ProceedSpoken(sent: set<Msg>, p: Node, r: nat, v: int)
    requires Spoken(sent, p)
    ensures var t := ProceedToAux(p, r, v); Spoken(sent, t) && t.bvals == p.bvals && t.bvalMap == p.bvalMap && t.n == p.n && t.id == p.id && t.binValues == AddTo(p.binValues, r, v)
  {
    var u := p.(binValues := AddTo(p.binValues, r, v));
    SameSpoken(sent, p, u);
    ProceedKeeps(p, r, v);
    hide Spoken, AddTo;
    assert ProceedToAux(p, r, v).binValues == u.binValues by {
      SendAuxKeeps(u.(instancestatus := AUX), r, v);
    }
    if p.round == r && p.instancestatus < AUX {
      var t := ProceedToAux(p, r, v);
      assert t == SendAux(u.(instancestatus := AUX), r, v);
      SendAuxSays(u.(instancestatus := AUX), r, v);
      StatusReady(sent, p);
      VoteSpoken(sent, u, t, if Commits(u.(instancestatus := AUX), r, v) then v else BOTTOM, v);
    }
  }

  lemma StatusReady(sent: set<Msg>, p: Node)
    requires Spoken(sent, p) && p.instancestatus < AUX
    ensures p.instancestatus == READY
  {
  }

  lemma SendAuxSays(u: Node, r: nat, v: int)
    ensures SendAux(u, r, v).out == u.out + [Aux(u.id, r, if Commits(u, r, v) then v else BOTTOM, v)]
    ensures var t := SendAux(u, r, v); t.id == u.id && t.round == u.round && t.bvals == u.bvals && t.instancestatus == u.instancestatus
  {
    hide Commits, Favours, IntAt, SetAt;
    SendAuxKeeps(u, r, v);
    if Commits(u, r, v) {
      assert SendAux(u, r, v) == Send(u.(delta := u.delta[r := v]), Aux(u.id, r, v, v));
    } else {
      assert SendAux(u, r, v) == Send(u, Aux(u.id, r, BOTTOM, v));
    }
  }

  // ---------------------------------------------------------- a BVAL is heeded

  lemma SameHeeds(p: Node, t: Node, key: (nat, int))
    requires HeedsBut(p, key) && t.bvalMap == p.bvalMap && t.n == p.n
    requires forall r: nat :: SetAt(p.bvals, r) <= SetAt(t.bvals, r) && SetAt(p.binValues, r) <= SetAt(t.binValues, r)
    ensures HeedsBut(t, key)
  {
    hide Q, SQ;
    forall r: nat, v | IsBit(v) && (r, v) != key
      ensures Heeded(t, r, v)
    {
      assert Heeded(p, r, v);
      assert SetAt(p.bvals, r) <= SetAt(t.bvals, r) && SetAt(p.binValues, r) <= SetAt(t.binValues, r);
    }
  }

  lemma RecordHeeds(p: Node, m: Msg)
    requires HeedsBut(p, NOKEY)
    ensures var t := RecordBval(p, m);
      HeedsBut(t, (m.round, m.value)) && t.bvals == p.bvals && t.binValues == p.binValues && t.n == p.n && (!IsBit(m.value) ==> t.bvalMap == p.bvalMap)
  {
    hide Q, SQ;
    var t := RecordBval(p, m);
    forall r: nat, v | IsBit(v) && (r, v) != (m.round, m.value)
      ensures Heeded(t, r, v)
    {
      assert Heeded(p, r, v);
      assert At(t.bvalMap, (r, v)) == At(p.bvalMap, (r, v));
    }
  }

  lemma CompleteHeeds(p: Node, r: nat, v: int)
    requires HeedsBut(p, (r, v)) && (IsBit(v) ==> Heeded(p, r, v))
    ensures HeedsBut(p, NOKEY)
  {
    hide Heeded;
  }

  lemma CachedSpoken(sent: set<Msg>, p: Node)
    requires Relayed(sent, p)
    ensures Relayed(sent, HandleCachedMsg(p, p.round))
  {
    CachedKeeps(p, p.round);
    var t := HandleCachedMsg(p, p.round);
    hide HandleCachedMsg;
    SameSpoken(sent, p, t);
    SameHeeds(p, t, NOKEY);
  }

  lemma AddGrows(m: map<nat, set<int>>, r: nat, v: int)
    ensures forall q: nat :: SetAt(m, q) <= SetAt(AddTo(m, r, v), q)
  {
  }

  lemma SendBvalGrows(p: Node, r: nat, v: int)
    ensures var t := SendBval(p, r, v);
      t.id == p.id && t.round == p.round && t.instancestatus == p.instancestatus && t.bvalMap == p.bvalMap && t.n == p.n && t.binValues == p.binValues
    ensures forall q: nat :: SetAt(p.bvals, q) <= SetAt(SendBval(p, r, v).bvals, q)
  {
    AddGrows(p.bvals, r, v);
    hide AddTo;
  }

  lemma BinAdds(u: Node, r: nat, v: int)
    ensures var t := u.(binValues := AddTo(u.binValues, r, v)); forall q: nat :: SetAt(u.binValues, q) <= SetAt(t.binValues, q)
  {
    AddGrows(u.binValues, r, v);
  }

  lemma RelayIs(p: Node, m: Msg)
    ensures var u, t := SendBval(p, m.round, m.value), RelayBval(p, m);
      if Len(p.bvalMap, (m.round, m.value)) < SQ(p.n) then t == p
      else t == u || t == u.(binValues := AddTo(u.binValues, m.round, m.value))
  {
    hide SendBval, SQ, Len, AddTo;
  }

  /** A BVAL that is counted and makes f+1 is answered with the node's own. */
  lemma RelayHeeds(sent: set<Msg>, p: Node, m: Msg)
    requires Spoken(sent, p) && HeedsBut(p, (m.round, m.value))
    ensures var t := RelayBval(p, m);
      && Spoken(sent, t) && HeedsBut(t, (m.round, m.value)) && t.bvalMap == p.bvalMap && t.n == p.n && t.round == p.round
      && (Len(p.bvalMap, (m.round, m.value)) >= SQ(p.n) ==> m.value in SetAt(t.bvals, m.round))
  {
    hide *;
    var u := SendBval(p, m.round, m.value);
    RelayIs(p, m);
    SendBvalGrows(p, m.round, m.value);
    SendBvalSpoken(sent, p, m.round, m.value);
    BinAdds(u, m.round, m.value);
    SameSpoken(sent, u, u.(binValues := AddTo(u.binValues, m.round, m.value)));
    if Len(p.bvalMap, (m.round, m.value)) >= SQ(p.n) {
      SameHeeds(p, RelayBval(p, m), (m.round, m.value));
    }
  }

  lemma HandleBvalIs(p: Node, m: Msg)
    requires m.round == p.round
    ensures var r := RelayBval(RecordBval(HandleCachedMsg(p, p.round), m), m);
      HandleBval(p, m) == if Len(r.bvalMap, (m.round, m.value)) >= Q(p.n) then ProceedToAux(r, m.round, m.value) else r
  {
    hide HandleCachedMsg, RecordBval, RelayBval, ProceedToAux, Q, Len;
  }

  lemma RecordSpoken(sent: set<Msg>, p: Node, m: Msg)
    requires Spoken(sent, p)
    ensures Spoken(sent, RecordBval(p, m)) && RecordBval(p, m).n == p.n
  {
    hide Spoken;
    SameSpoken(sent, p, RecordBval(p, m));
  }

  lemma HeedsNow(t: Node, r: nat, v: int)
    requires Len(t.bvalMap, (r, v)) >= SQ(t.n) ==> v in SetAt(t.bvals, r)
    requires Len(t.bvalMap, (r, v)) >= Q(t.n) ==> v in SetAt(t.binValues, r)
    ensures Heeded(t, r, v)
  {
  }

  lemma ProceedHeeds(sent: set<Msg>, p: Node, m: Msg)
    requires Spoken(sent, p) && HeedsBut(p, (m.round, m.value))
    requires Len(p.bvalMap, (m.round, m.value)) >= SQ(p.n) ==> m.value in SetAt(p.bvals, m.round)
    ensures Len(p.bvalMap, (m.round, m.value)) >= Q(p.n) ==> Relayed(sent, ProceedToAux(p, m.round, m.value))
    ensures Len(p.bvalMap, (m.round, m.value)) < Q(p.n) ==> Relayed(sent, p)
  {
    hide ProceedToAux, Spoken, HeedsBut, Heeded, Q, SQ, Len;
    var t := ProceedToAux(p, m.round, m.value);
    ProceedSpoken(sent, p, m.round, m.value);
    BinAdds(p, m.round, m.value);
    if Len(p.bvalMap, (m.round, m.value)) >= Q(p.n) {
      SameHeeds(p, t, (m.round, m.value));
      HeedsNow(t, m.round, m.value);
      CompleteHeeds(t, m.round, m.value);
    } else {
      HeedsNow(p, m.round, m.value);
      CompleteHeeds(p, m.round, m.value);
    }
  }

  lemma RelayedParts(sent: set<Msg>, p: Node)
    requires Relayed(sent, p)
    ensures Spoken(sent, p) && HeedsBut(p, NOKEY)
  {
  }

  lemma HandleBvalRelays(sent: set<Msg>, p: Node, m: Msg)
    requires Relayed(sent, p) && m.round == p.round
    ensures Relayed(sent, HandleBval(p, m))
  {
    hide *;
    var a := HandleCachedMsg(p, p.round);
    CachedKeeps(p, p.round);
    CachedSpoken(sent, p);
    RelayedParts(sent, a);
    RecordSpoken(sent, a, m);
    RecordHeeds(a, m);
    RelayHeeds(sent, RecordBval(a, m), m);
    HandleBvalIs(p, m);
    ProceedHeeds(sent, RelayBval(RecordBval(a, m), m), m);
  }

  lemma BvalRelays(sent: set<Msg>, p: Node, m: Msg)
    requires Relayed(sent, p)
    ensures Relayed(sent, HandleBval(p, m))
  {
    if m.round == p.round {
      HandleBvalRelays(sent, p, m);
    } else if m.round > p.round {
      SameSpoken(sent, p, CacheMsg(p, m));
      SameHeeds(p, CacheMsg(p, m), NOKEY);
    }
  }

  // ------------------------------------------------------ a vote, a proposal

  lemma EnterSpoken(sent: set<Msg>, p: Node, o: Outcome, c: int)
    requires Spoken(sent, p) && p.instancestatus == AUX
    ensures Spoken(sent, EnterRound(p, o.maj, c).(instancestatus := READY))
  {
    var t := EnterRound(p, o.maj, c).(instancestatus := READY);
    assert Said(sent, t) == Said(sent, p);
    forall r: nat
      ensures Voted(t, r) <==> Voted(p, r)
    {
    }
    hide SentBval, SentAux, Voted;
  }

  lemma AdvanceRelays(sent: set<Msg>, p: Node, o: Outcome, c: int)
    requires Relayed(sent, p) && p.instancestatus == AUX
    ensures Relayed(sent, Advance(p, o, c))
  {
    EnterSpoken(sent, p, o, c);
    var e := EnterRound(p, o.maj, c);
    var r := e.round;
    CachedKeeps(e, r);
    var h := HandleCachedMsg(e, r);
    var u := h.(instancestatus := READY);
    SameSpoken(sent, e.(instancestatus := READY), u);
    var t := Send(u.(bvals := AddTo(u.bvals, r, o.est)), Bval(u.id, r, o.est, IntAt(u.maj, r)));
    assert Advance(p, o, c) == t;
    BvalSpoken(sent, u, r, o.est, IntAt(u.maj, r), t);
    assert forall q: nat :: SetAt(p.bvals, q) <= SetAt(t.bvals, q);
    hide Spoken, HeedsBut, HandleCachedMsg;
    SameHeeds(p, t, NOKEY);
  }

  /** A change to the votes or the decision of a node. */
  lemma VoteRelays(sent: set<Msg>, p: Node, t: Node)
    requires Relayed(sent, p)
    requires t.id == p.id && t.round == p.round && t.instancestatus == p.instancestatus && t.bvals == p.bvals && t.out == p.out
    requires t.bvalMap == p.bvalMap && t.binValues == p.binValues && t.n == p.n
    ensures Relayed(sent, t)
  {
    hide Spoken, HeedsBut;
    SameSpoken(sent, p, t);
    SameHeeds(p, t, NOKEY);
  }

  lemma ConcludeRelays(sent: set<Msg>, p: Node, o: Outcome, c: int)
    requires Relayed(sent, p)
    ensures Relayed(sent, Conclude(p, o, c))
  {
    hide Relayed, Advance;
    VoteRelays(sent, p, DecideIf(p, o));
    if p.instancestatus == AUX {
      AdvanceRelays(sent, DecideIf(p, o), o, c);
    }
  }

  lemma ProgressRelays(sent: set<Msg>, p: Node, c: int)
    requires Relayed(sent, p)
    ensures Relayed(sent, Progress(p, c))
  {
    hide Relayed, OutcomeOf, Conclude, Due, Stops;
    VoteRelays(sent, p, p.(finalstatus := TERMINATE));
    ConcludeRelays(sent, p, OutcomeOf(p, p.round, c), c);
  }

  lemma AuxRelays(sent: set<Msg>, p: Node, m: Msg, c: int)
    requires Relayed(sent, p)
    ensures Relayed(sent, HandleAux(p, m, c))
  {
    var a := HandleCachedMsg(p, p.round);
    CachedKeeps(p, p.round);
    hide Relayed, HandleCachedMsg, Judge, Progress, CountIn, AddTo;
    VoteRelays(sent, p, a);
    VoteRelays(sent, p, CacheMsg(p, m));
    VoteRelays(sent, a, CacheMsg(a, m));
    VoteRelays(sent, a, Ballot(p, m));
    ProgressRelays(sent, Ballot(p, m), c);
    match Judge(p, m)
    case Stale =>
    case Early =>
    case Unjustified =>
    case Invalid =>
    case Accepted =>
  }

  lemma ProposalSpoken(sent: set<Msg>, p: Node, input: int)
    requires Relayed(sent, p)
    ensures Relayed(sent, SendProposal(p, input))
  {
    var u := p.(maj := p.maj[0 := BOTTOM]);
    var w := SendProposal(p, input);
    hide Spoken, HeedsBut, AddTo;
    SameSpoken(sent, p, u);
    BvalSpoken(sent, u, 0, input, BOTTOM, w);
    AddGrows(p.bvals, 0, input);
    SameHeeds(p, w, NOKEY);
  }

  lemma ProceedRelays(sent: set<Msg>, p: Node)
    requires Relayed(sent, p)
    ensures Relayed(sent, ProceedToAux(p.(binValues := AddTo(p.binValues, 0, 1)), 0, 1))
  {
    hide Spoken, HeedsBut, ProceedToAux, AddTo;
    var z := p.(binValues := AddTo(p.binValues, 0, 1));
    SameSpoken(sent, p, z);
    ProceedSpoken(sent, z, 0, 1);
    AddGrows(p.binValues, 0, 1);
    AddGrows(z.binValues, 0, 1);
    SameHeeds(p, ProceedToAux(z, 0, 1), NOKEY);
  }

  lemma ProposeRelays(sent: set<Msg>, p: Node, input: int)
    requires Relayed(sent, p)
    ensures Relayed(sent, StartABAFromRoundZero(p, input))
  {
    CachedKeeps(p, 0);
    hide Relayed, HandleCachedMsg, SendProposal, ProceedToAux;
    VoteRelays(sent, p, HandleCachedMsg(p, 0));
    ProposalSpoken(sent, HandleCachedMsg(p, 0), input);
    ProceedRelays(sent, SendProposal(HandleCachedMsg(p, 0), input));
  }

  // ------------------------------------------------------- what one BVAL does

  /** A BVAL of the node's round is counted once for its source, with the majority it reports. */
  lemma BvalIsCounted(p: Node, m: Msg)
    requires m.round == p.round && IsBit(m.value)
    ensures var t := HandleBval(p, m);
      At(t.bvalMap, (m.round, m.value)) == At(p.bvalMap, (m.round, m.value)) + {m.src} && SetAt(t.majs, m.round) == SetAt(p.majs, m.round) + {m.maj}
  {
    hide HandleCachedMsg, RelayBval, ProceedToAux, Q, Len;
    CachedKeeps(p, p.round);
    HandleBvalIs(p, m);
    var b := RecordBval(HandleCachedMsg(p, p.round), m);
    RelayKeeps(b, m);
    ProceedKeeps(RelayBval(b, m), m.round, m.value);
  }

  /** Nothing the node has heard stands against its voting for v. */
  predicate OwnVote(r: nat, v: int, c: int, heard: set<int>) {
    r == 0 || (if v == c then 1 - c !in heard else v == 1 - c && c !in heard && BOTTOM !in heard)
  }

  lemma CommitsIs(u: Node, r: nat, v: int, c: int, heard: set<int>)
    requires (r > 0 ==> c == IntAt(u.coinr, r - 1)) && heard == SetAt(u.majs, r) && (c == 0 || c == 1 || r == 0)
    ensures Commits(u, r, v) <==> OwnVote(r, v, c, heard)
  {
  }

  lemma ProceedIs(s: Node, r: nat, v: int)
    requires s.round == r && s.instancestatus == READY
    ensures ProceedToAux(s, r, v) == SendAux(s.(binValues := AddTo(s.binValues, r, v), instancestatus := AUX), r, v)
  {
    hide SendAux, AddTo;
  }

  lemma RelayedFields(p: Node, m: Msg)
    requires m.round == p.round && IsBit(m.value)
    ensures var t := RelayBval(RecordBval(HandleCachedMsg(p, p.round), m), m);
      && t.id == p.id && t.round == p.round && t.instancestatus == p.instancestatus && t.coinr == p.coinr
      && SetAt(t.majs, m.round) == SetAt(p.majs, m.round) + {m.maj} && t.bvalMap == Insert(p.bvalMap, (m.round, m.value), m.src)
  {
    hide HandleCachedMsg, RelayBval, Insert;
    CachedKeeps(p, p.round);
    RelayKeeps(RecordBval(HandleCachedMsg(p, p.round), m), m);
  }

  /** The BVAL that makes a quorum has a node that is ready vote: for the value, unless a majority it has
      heard stands against that. The value of the last coin fails to the other value's majority, the other
      value to the coin's and to none. */
  lemma QuorumMakesVote(p: Node, m: Msg, c: int)
    requires m.round == p.round && IsBit(m.value) && p.instancestatus == READY && |At(p.bvalMap, (m.round, m.value)) + {m.src}| >= Q(p.n)
    requires IsBit(c) && (p.round > 0 ==> c == IntAt(p.coinr, p.round - 1))
    ensures var v, heard, t := m.value, SetAt(p.majs, p.round) + {m.maj}, HandleBval(p, m);
      t.instancestatus == AUX && Aux(p.id, p.round, if OwnVote(p.round, v, c, heard) then v else BOTTOM, v) in t.out
  {
    hide HandleCachedMsg, RecordBval, RelayBval, ProceedToAux, SendAux, OwnVote, Commits, AddTo, Q, SetAt, IntAt;
    var r := RelayBval(RecordBval(HandleCachedMsg(p, p.round), m), m);
    RelayedFields(p, m);
    assert At(r.bvalMap, (m.round, m.value)) == At(p.bvalMap, (m.round, m.value)) + {m.src};
    RelayedSize(p, m);
    HandleBvalIs(p, m);
    ProceedIs(r, m.round, m.value);
    var u := r.(binValues := AddTo(r.binValues, m.round, m.value), instancestatus := AUX);
    SendAuxSays(u, m.round, m.value);
    CommitsIs(u, m.round, m.value, c, SetAt(u.majs, m.round));
  }

  lemma RelayedSize(p: Node, m: Msg)
    ensures RelayBval(RecordBval(HandleCachedMsg(p, p.round), m), m).n == p.n
  {
    hide HandleCachedMsg, RelayBval;
    CachedKeeps(p, p.round);
    RelayKeeps(RecordBval(HandleCachedMsg(p, p.round), m), m);
  }

  // --------------------------------------------------------------- the system

  ghost predicate RelayInv(cfg: Config, s: Sys) {
    && |s.slots| == cfg.n
    && forall x :: x in Correct(cfg) ==> s.slots[x].node.id == x && s.slots[x].node.out == [] && Relayed(s.sent, s.slots[x].node)
  }

  lemma FlushRelays(sent: set<Msg>, t: Node)
    requires Relayed(sent, t)
    ensures Relayed(sent + Outgoing(t), Flush(t))
  {
    var u := Flush(t);
    assert Said(sent + Outgoing(t), u) == Said(sent, t);
    hide SentBval, SentAux, Said;
    SameHeeds(t, u, NOKEY);
  }

  lemma OthersSpoken(sent: set<Msg>, more: set<Msg>, p: Node)
    requires Relayed(sent, p) && forall m :: m in more ==> m.src != p.id
    ensures Relayed(sent + more, p)
  {
    var ms, ms' := Said(sent, p), Said(sent + more, p);
    forall r: nat, v
      ensures SentBval(ms', p.id, r, v) <==> SentBval(ms, p.id, r, v)
    {
      if SentBval(ms', p.id, r, v) {
        var mj :| Bval(p.id, r, v, mj) in ms';
        assert Bval(p.id, r, v, mj).src == p.id;
        assert Bval(p.id, r, v, mj) in ms;
      }
      if SentBval(ms, p.id, r, v) {
        var mj :| Bval(p.id, r, v, mj) in ms;
        assert Bval(p.id, r, v, mj) in ms';
      }
    }
    forall r: nat
      ensures SentAux(ms', p.id, r) <==> SentAux(ms, p.id, r)
    {
      if SentAux(ms', p.id, r) {
        var v, w :| Aux(p.id, r, v, w) in ms';
        assert Aux(p.id, r, v, w).src == p.id;
        assert Aux(p.id, r, v, w) in ms;
      }
      if SentAux(ms, p.id, r) {
        var v, w :| Aux(p.id, r, v, w) in ms;
        assert Aux(p.id, r, v, w) in ms';
      }
    }
    hide HeedsBut, SentBval, SentAux;
  }

  lemma OwnOut(sent: set<Msg>, t: Node)
    requires Relayed(sent, t)
    ensures forall m :: m in Outgoing(t) ==> m.src == t.id
  {
  }

  lemma CommitRelays(cfg: Config, s: Sys, x: int, t: Node, es: set<Estimate>, acc: set<Msg>)
    requires RelayInv(cfg, s) && x in Correct(cfg) && t.id == x && Relayed(s.sent, t)
    ensures RelayInv(cfg, Commit(s, x, t, es, acc))
  {
    var s' := Commit(s, x, t, es, acc);
    OwnOut(s.sent, t);
    FlushRelays(s.sent, t);
    hide Relayed, Outgoing;
    forall y | y in Correct(cfg)
      ensures Relayed(s'.sent, s'.slots[y].node)
    {
      if y != x {
        OthersSpoken(s.sent, Outgoing(t), s.slots[y].node);
      }
    }
  }

  lemma HandledId(p: Node, m: Msg, c: int)
    ensures HandleABAMsg(p, m, c).id == p.id
  {
    if m.Bval? {
      HandleBvalKeeps(p, m);
      hide HandleBval;
    } else {
      AuxId(p, m, c);
    }
  }

  lemma ConcludeId(p: Node, o: Outcome, c: int)
    ensures Conclude(p, o, c).id == p.id
  {
    var d := DecideIf(p, o);
    StartKeeps(EnterRound(d, o.maj, c), o.est);
    hide StartABA;
  }

  lemma ProgressId(p: Node, c: int)
    ensures Progress(p, c).id == p.id
  {
    hide OutcomeOf, Conclude, Due, Stops;
    ConcludeId(p, OutcomeOf(p, p.round, c), c);
  }

  lemma CacheIds(p: Node, m: Msg)
    ensures CacheMsg(p, m).id == p.id && HandleCachedMsg(p, p.round).id == p.id && Ballot(p, m).id == p.id
    ensures CacheMsg(HandleCachedMsg(p, p.round), m).id == p.id
  {
    CachedKeeps(p, p.round);
    hide HandleCachedMsg, CountIn, AddTo;
  }

  lemma AuxId(p: Node, m: Msg, c: int)
    ensures HandleAux(p, m, c).id == p.id
  {
    hide HandleCachedMsg, CacheMsg, Ballot, Judge, Progress;
    CacheIds(p, m);
    ProgressId(Ballot(p, m), c);
    match Judge(p, m)
    case Stale =>
    case Early =>
    case Unjustified =>
    case Invalid =>
    case Accepted =>
  }

  lemma HandleRelays(cfg: Config, s: Sys, x: int, m: Msg)
    requires RelayInv(cfg, s) && x in Correct(cfg)
    ensures RelayInv(cfg, HandleAt(cfg, s, x, m))
  {
    var p := s.slots[x].node;
    var c := cfg.coin(p.round);
    var t := HandleABAMsg(p, m, c);
    HandledId(p, m, c);
    assert Relayed(s.sent, t) by {
      if m.Bval? {
        BvalRelays(s.sent, p, m);
      } else {
        AuxRelays(s.sent, p, m, c);
      }
    }
    hide Relayed, HandleABAMsg, Commit, Entered, Counted;
    CommitRelays(cfg, s, x, t, Entered(p, m, c), Counted(p, m));
  }

  lemma SlotRelays(cfg: Config, s: Sys, x: int, k: Slot)
    requires RelayInv(cfg, s) && 0 <= x < |s.slots| && k.node == s.slots[x].node
    ensures RelayInv(cfg, s.(slots := s.slots[x := k]))
  {
    hide Relayed;
  }

  lemma StepRelays(cfg: Config, s: Sys, e: Event)
    requires RelayInv(cfg, s) && Enabled(cfg, s, e)
    ensures RelayInv(cfg, Next(cfg, s, e))
  {
    var x := e.x;
    var k := s.slots[x];
    hide RelayInv, HandleAt, Commit;
    match e
    case Propose(_, input) =>
      assert k.node.id == x && Relayed(s.sent, k.node) by {
        RelayOf(cfg, s, x);
      }
      ProposeRelays(s.sent, k.node, input);
      ProposeKeeps(k.node, input);
      hide StartABAFromRoundZero, Relayed;
      CommitRelays(cfg, s, x, StartABAFromRoundZero(k.node, input), {Estimate(x, 0, input)}, {});
    case Deliver(_, m) =>
      SlotRelays(cfg, s, x, Take(k, m));
      HandleRelays(cfg, s.(slots := s.slots[x := Take(k, m)]), x, m);
    case Resume(_, m) =>
      SlotRelays(cfg, s, x, PutAway(k, m));
      HandleRelays(cfg, s.(slots := s.slots[x := PutAway(k, m)]), x, m);
    case Inject(_, m) =>
      SlotRelays(cfg, s, x, k.(todo := k.todo + multiset{m}));
  }

  lemma RelayOf(cfg: Config, s: Sys, x: int)
    requires RelayInv(cfg, s) && x in Correct(cfg)
    ensures 0 <= x < |s.slots| && s.slots[x].node.id == x && s.slots[x].node.out == [] && Relayed(s.sent, s.slots[x].node)
  {
  }

  lemma {:induction false} RunKeepsRelay(cfg: Config, tr: seq<Sys>, i: nat)
    requires Sound(cfg) && Run(cfg, tr) && i < |tr|
    ensures RelayInv(cfg, tr[i])
  {
    if i > 0 {
      hide RelayInv, Next, Enabled;
      RunKeepsRelay(cfg, tr, i - 1);
      assert Step(cfg, tr[i - 1], tr[i - 1 + 1]);
      var e :| Enabled(cfg, tr[i - 1], e) && tr[i] == Next(cfg, tr[i - 1], e);
      StepRelays(cfg, tr[i - 1], e);
    } else {
      InitRelays(cfg);
    }
  }

  lemma InitRelays(cfg: Config)
    requires Sound(cfg)
    ensures RelayInv(cfg, Init(cfg))
  {
    QuorumArithmetic(cfg.n);
    forall x | x in Correct(cfg)
      ensures Relayed({}, Initial(x, cfg.n))
    {
      var p := Initial(x, cfg.n);
      assert forall r: nat, v :: Len(p.bvalMap, (r, v)) == 0;
      assert Said({}, p) == {};
    }
  }

  /** In every run with up to f Byzantine nodes, for a correct node: a value of which it has counted f+1
      BVALs it has broadcast itself, one of which it has counted a quorum is in its bin_values; bvals holds
      exactly the values it has broadcast; and it has voted in exactly the rounds it has left, and in the
      one it is in when its status says so. */
  lemma RelayExactly(cfg: Config, tr: seq<Sys>, i: nat, x: int, r: nat, v: int)
    requires Sound(cfg) && Run(cfg, tr) && i < |tr| && x in Correct(cfg)
    ensures |tr[i].slots| == cfg.n
    ensures var p := tr[i].slots[x].node;
      && (IsBit(v) && |At(p.bvalMap, (r, v))| >= SQ(p.n) ==> exists mj :: Bval(x, r, v, mj) in tr[i].sent)
      && (IsBit(v) && |At(p.bvalMap, (r, v))| >= Q(p.n) ==> v in SetAt(p.binValues, r))
      && (v in SetAt(p.bvals, r) <==> exists mj :: Bval(x, r, v, mj) in tr[i].sent)
      && (r < p.round || (r == p.round && p.instancestatus == AUX) <==> exists a, w :: Aux(x, r, a, w) in tr[i].sent)
  {
    RunKeepsRelay(cfg, tr, i);
    var p := tr[i].slots[x].node;
    RelayOf(cfg, tr[i], x);
    assert Said(tr[i].sent, p) == tr[i].sent;
    QuorumArithmetic(cfg.n);
    hide Run, RelayInv, Said, Q, SQ;
    assert IsBit(v) ==> Heeded(p, r, v);
    assert v in SetAt(p.bvals, r) <==> SentBval(tr[i].sent, x, r, v);
    assert Voted(p, r) <==> SentAux(tr[i].sent, x, r);
  }

  // ------------------------------------------------------ bin_values, exactly

  /** The value has a quorum of counted BVALs; or it is 1 in round 0, where f+1 do, and so does proposing it. */
  predicate Backing(p: Node, proposed: bool, r: nat, v: int) {
    Len(p.bvalMap, (r, v)) >= Q(p.n) || (r == 0 && v == 1 && (Len(p.bvalMap, (r, v)) >= SQ(p.n) || proposed))
  }

  predicate BinAt(p: Node, proposed: bool, r: nat, v: int) {
    (v in SetAt(p.binValues, r) <==> IsBit(v) && Backing(p, proposed, r, v)) && (!IsBit(v) ==> At(p.bvalMap, (r, v)) == {})
  }

  ghost predicate BinIs(p: Node, proposed: bool) {
    forall r: nat, v :: BinAt(p, proposed, r, v)
  }

  lemma SameBin(p: Node, t: Node, proposed: bool)
    requires BinIs(p, proposed) && t.binValues == p.binValues && t.bvalMap == p.bvalMap && t.n == p.n
    ensures BinIs(t, proposed)
  {
    forall r: nat, v
      ensures BinAt(t, proposed, r, v)
    {
      assert BinAt(p, proposed, r, v);
    }
  }

  /** The step has counted the BVAL m and added its value where that backs it. */
  predicate BinNext(p: Node, t: Node, m: Msg) {
    && t.n == p.n && m.round == p.round
    && t.bvalMap == (if IsBit(m.value) then Insert(p.bvalMap, (m.round, m.value), m.src) else p.bvalMap)
    && t.binValues == if Backing(t, false, m.round, m.value) then AddTo(p.binValues, m.round, m.value) else p.binValues
  }

  lemma Counts(p: Node, m: Msg, r: nat, v: int)
    ensures var b := if IsBit(m.value) then Insert(p.bvalMap, (m.round, m.value), m.src) else p.bvalMap;
      && Len(b, (r, v)) >= Len(p.bvalMap, (r, v)) && ((r, v) != (m.round, m.value) ==> At(b, (r, v)) == At(p.bvalMap, (r, v)))
      && (!IsBit(v) ==> At(b, (r, v)) == At(p.bvalMap, (r, v)))
  {
    InsertCount(p.bvalMap, (m.round, m.value), m.src);
  }

  lemma AddedAt(b: map<nat, set<int>>, q: nat, w: int, r: nat, v: int)
    ensures v in SetAt(AddTo(b, q, w), r) <==> v in SetAt(b, r) || (r == q && v == w)
  {
  }

  lemma BinNextAt(p: Node, t: Node, proposed: bool, m: Msg, r: nat, v: int)
    requires p.n >= 1 && BinAt(p, proposed, r, v) && BinNext(p, t, m)
    ensures BinAt(t, proposed, r, v)
  {
    QuorumArithmetic(p.n);
    Counts(p, m, r, v);
    AddedAt(p.binValues, m.round, m.value, r, v);
    hide Q, SQ, At, SetAt, AddTo, Insert;
  }

  lemma BinStep(p: Node, t: Node, proposed: bool, m: Msg)
    requires p.n >= 1 && BinIs(p, proposed) && BinNext(p, t, m)
    ensures BinIs(t, proposed)
  {
    hide BinNext, BinAt;
    forall r: nat, v
      ensures BinAt(t, proposed, r, v)
    {
      BinNextAt(p, t, proposed, m, r, v);
    }
  }

  lemma ProceedBin(s: Node, r: nat, v: int)
    ensures var t := ProceedToAux(s, r, v); t.binValues == AddTo(s.binValues, r, v) && t.bvalMap == s.bvalMap && t.n == s.n
  {
    var u := s.(binValues := AddTo(s.binValues, r, v));
    SendAuxKeeps(u.(instancestatus := AUX), r, v);
    hide SendAux, AddTo;
  }

  lemma RelayBin(s: Node, m: Msg)
    ensures var t := RelayBval(s, m);
      && t.bvalMap == s.bvalMap && t.n == s.n
      && t.binValues == if m.round == 0 && m.value == 1 && Len(s.bvalMap, (m.round, m.value)) >= SQ(s.n) then AddTo(s.binValues, m.round, m.value) else s.binValues
  {
    RelayKeeps(s, m);
    SendBvalKeeps(s, m.round, m.value);
    hide SendBval, AddTo, Len, SQ;
  }

  lemma AddTwice(b: map<nat, set<int>>, r: nat, v: int)
    ensures AddTo(AddTo(b, r, v), r, v) == AddTo(b, r, v)
  {
    assert SetAt(b, r) + {v} + {v} == SetAt(b, r) + {v};
  }

  lemma RecordBin(p: Node, m: Msg)
    ensures var b := RecordBval(HandleCachedMsg(p, p.round), m);
      && b.bvalMap == (if IsBit(m.value) then Insert(p.bvalMap, (m.round, m.value), m.src) else p.bvalMap)
      && b.binValues == p.binValues && b.n == p.n
  {
    hide HandleCachedMsg, Insert;
    CachedKeeps(p, p.round);
  }

  lemma BvalBin(p: Node, m: Msg)
    requires p.n >= 1 && m.round == p.round
    ensures BinNext(p, HandleBval(p, m), m)
  {
    hide HandleBval, HandleCachedMsg, RecordBval, RelayBval, ProceedToAux, AddTo, Len, Q, SQ, Insert, IsBit;
    var b := RecordBval(HandleCachedMsg(p, p.round), m);
    QuorumArithmetic(p.n);
    RecordBin(p, m);
    HandleBvalIs(p, m);
    RelayBin(b, m);
    ProceedBin(RelayBval(b, m), m.round, m.value);
    AddTwice(p.binValues, m.round, m.value);
  }

  lemma HandledBin(p: Node, proposed: bool, m: Msg)
    requires p.n >= 1 && BinIs(p, proposed)
    ensures BinIs(HandleBval(p, m), proposed)
  {
    if m.round == p.round {
      BvalBin(p, m);
      BinStep(p, HandleBval(p, m), proposed, m);
    } else if m.round > p.round {
      SameBin(p, CacheMsg(p, m), proposed);
    }
  }

  lemma ProposedBin(p: Node, proposed: bool, input: int)
    requires BinIs(p, proposed)
    ensures BinIs(StartABAFromRoundZero(p, input), proposed || input == 1)
  {
    var t := StartABAFromRoundZero(p, input);
    ProposalBin(p, input);
    hide StartABAFromRoundZero, Q, SQ, At, SetAt, AddTo;
    var either := proposed || input == 1;
    forall r: nat, v
      ensures BinAt(t, either, r, v)
    {
      assert BinAt(p, proposed, r, v);
      AddedAt(p.binValues, 0, 1, r, v);
    }
  }

  lemma ProposalBin(p: Node, input: int)
    ensures var t := StartABAFromRoundZero(p, input);
      t.bvalMap == p.bvalMap && t.n == p.n && t.binValues == if input == 1 then AddTo(p.binValues, 0, 1) else p.binValues
  {
    ProposeKeeps(p, input);
    CachedKeeps(p, 0);
    hide HandleCachedMsg, ProceedToAux, AddTo;
    var w := SendProposal(HandleCachedMsg(p, 0), input);
    ProceedBin(w.(binValues := AddTo(w.binValues, 0, 1)), 0, 1);
    AddTwice(p.binValues, 0, 1);
  }

  lemma ConcludeBin(b: Node, o: Outcome, c: int)
    ensures var t := Conclude(b, o, c); t.binValues == b.binValues && t.bvalMap == b.bvalMap && t.n == b.n
  {
    var d := DecideIf(b, o);
    StartKeeps(EnterRound(d, o.maj, c), o.est);
    hide StartABA;
  }

  lemma ProgressBin(b: Node, c: int)
    ensures var t := Progress(b, c); t.binValues == b.binValues && t.bvalMap == b.bvalMap && t.n == b.n
  {
    hide OutcomeOf, Conclude, Due, Stops;
    ConcludeBin(b, OutcomeOf(b, b.round, c), c);
  }

  lemma CacheBin(p: Node, m: Msg)
    ensures var t := CacheMsg(p, m); t.binValues == p.binValues && t.bvalMap == p.bvalMap && t.n == p.n
    ensures var t := HandleCachedMsg(p, p.round); t.binValues == p.binValues && t.bvalMap == p.bvalMap && t.n == p.n
    ensures var t := CacheMsg(HandleCachedMsg(p, p.round), m); t.binValues == p.binValues && t.bvalMap == p.bvalMap && t.n == p.n
    ensures var t := Ballot(p, m); t.binValues == p.binValues && t.bvalMap == p.bvalMap && t.n == p.n
  {
    CachedKeeps(p, p.round);
    hide HandleCachedMsg, CountIn, AddTo;
  }

  /** A vote leaves the counters of BVALs and bin_values alone. */
  lemma AuxBin(p: Node, m: Msg, c: int)
    ensures var t := HandleAux(p, m, c); t.binValues == p.binValues && t.bvalMap == p.bvalMap && t.n == p.n
  {
    hide HandleCachedMsg, CacheMsg, Ballot, Judge, Progress;
    CacheBin(p, m);
    ProgressBin(Ballot(p, m), c);
    match Judge(p, m)
    case Stale =>
    case Early =>
    case Unjustified =>
    case Invalid =>
    case Accepted =>
  }

  lemma MessageBin(p: Node, proposed: bool, m: Msg, c: int)
    requires p.n >= 1 && BinIs(p, proposed)
    ensures BinIs(HandleABAMsg(p, m, c), proposed) && HandleABAMsg(p, m, c).n == p.n
  {
    hide BinIs, HandleBval, HandleAux;
    if m.Bval? {
      HandleBvalKeeps(p, m);
      HandledBin(p, proposed, m);
    } else {
      AuxBin(p, m, c);
      SameBin(p, HandleAux(p, m, c), proposed);
    }
  }

  ghost predicate BinInv(cfg: Config, s: Sys) {
    && |s.slots| == cfg.n && cfg.n >= 1
    && forall x :: x in Correct(cfg) ==> s.slots[x].node.n == cfg.n && s.slots[x].node.id == x && BinIs(s.slots[x].node, Estimate(x, 0, 1) in s.ests)
  }

  lemma CommitBin(cfg: Config, s: Sys, x: int, t: Node, es: set<Estimate>, acc: set<Msg>)
    requires BinInv(cfg, s) && x in Correct(cfg) && t.id == x && t.n == cfg.n && forall e :: e in es ==> e.node == x
    requires BinIs(t, Estimate(x, 0, 1) in s.ests + es)
    ensures BinInv(cfg, Commit(s, x, t, es, acc))
  {
    var s' := Commit(s, x, t, es, acc);
    hide BinIs;
    SameBin(t, Flush(t), Estimate(x, 0, 1) in s'.ests);
    forall y | y in Correct(cfg)
      ensures BinIs(s'.slots[y].node, Estimate(y, 0, 1) in s'.ests)
    {
      if y != x {
        assert Estimate(y, 0, 1) in s'.ests <==> Estimate(y, 0, 1) in s.ests;
      }
    }
  }

  /** A node enters only later rounds when it handles a message. */
  lemma EnteredLater(p: Node, m: Msg, c: int)
    ensures forall e :: e in Entered(p, m, c) ==> e.node == p.id && e.round > 0
  {
    hide Judge, Due, OutcomeOf;
  }

  lemma HandleBin(cfg: Config, s: Sys, x: int, m: Msg)
    requires BinInv(cfg, s) && x in Correct(cfg)
    ensures BinInv(cfg, HandleAt(cfg, s, x, m))
  {
    var p := s.slots[x].node;
    var c := cfg.coin(p.round);
    var es := Entered(p, m, c);
    EnteredLater(p, m, c);
    HandledId(p, m, c);
    MessageBin(p, Estimate(x, 0, 1) in s.ests, m, c);
    assert Estimate(x, 0, 1) in s.ests + es <==> Estimate(x, 0, 1) in s.ests;
    hide BinIs, HandleABAMsg, Commit, Entered, Counted;
    CommitBin(cfg, s, x, HandleABAMsg(p, m, c), es, Counted(p, m));
  }

  lemma SlotBin(cfg: Config, s: Sys, x: int, k: Slot)
    requires BinInv(cfg, s) && 0 <= x < |s.slots| && k.node == s.slots[x].node
    ensures BinInv(cfg, s.(slots := s.slots[x := k]))
  {
    hide BinIs;
  }

  lemma ProposeBin(cfg: Config, s: Sys, x: int, input: int)
    requires BinInv(cfg, s) && Enabled(cfg, s, Propose(x, input))
    ensures BinInv(cfg, Next(cfg, s, Propose(x, input)))
  {
    var p := s.slots[x].node;
    var es := {Estimate(x, 0, input)};
    ProposedBin(p, Estimate(x, 0, 1) in s.ests, input);
    ProposeKeeps(p, input);
    assert Estimate(x, 0, 1) in s.ests + es <==> Estimate(x, 0, 1) in s.ests || input == 1;
    hide BinIs, StartABAFromRoundZero, Commit;
    CommitBin(cfg, s, x, StartABAFromRoundZero(p, input), es, {});
  }

  lemma StepBin(cfg: Config, s: Sys, e: Event)
    requires BinInv(cfg, s) && Enabled(cfg, s, e)
    ensures BinInv(cfg, Next(cfg, s, e))
  {
    var x := e.x;
    var k := s.slots[x];
    hide BinInv, HandleAt, Commit;
    match e
    case Propose(_, input) => ProposeBin(cfg, s, x, input);
    case Deliver(_, m) =>
      SlotBin(cfg, s, x, Take(k, m));
      HandleBin(cfg, s.(slots := s.slots[x := Take(k, m)]), x, m);
    case Resume(_, m) =>
      SlotBin(cfg, s, x, PutAway(k, m));
      HandleBin(cfg, s.(slots := s.slots[x := PutAway(k, m)]), x, m);
    case Inject(_, m) =>
      SlotBin(cfg, s, x, k.(todo := k.todo + multiset{m}));
  }

  lemma InitBin(cfg: Config)
    requires Sound(cfg)
    ensures BinInv(cfg, Init(cfg))
  {
    QuorumArithmetic(cfg.n);
    forall x | x in Correct(cfg)
      ensures BinIs(Initial(x, cfg.n), false)
    {
      var p := Initial(x, cfg.n);
      assert forall r: nat, v :: At(p.bvalMap, (r, v)) == {};
    }
  }

  lemma {:induction false} RunKeepsBin(cfg: Config, tr: seq<Sys>, i: nat)
    requires Sound(cfg) && Run(cfg, tr) && i < |tr|
    ensures BinInv(cfg, tr[i])
  {
    if i > 0 {
      hide BinInv, Next, Enabled;
      RunKeepsBin(cfg, tr, i - 1);
      assert Step(cfg, tr[i - 1], tr[i - 1 + 1]);
      var e :| Enabled(cfg, tr[i - 1], e) && tr[i] == Next(cfg, tr[i - 1], e);
      StepBin(cfg, tr[i - 1], e);
    } else {
      InitBin(cfg);
    }
  }

  /** In every run with up to f Byzantine nodes, bin_values of a correct node holds exactly the values with a
      quorum of counted BVALs; and 1 in round 0, if f+1 BVALs for it are counted or the node proposed it. */
  lemma BinExactly(cfg: Config, tr: seq<Sys>, i: nat, x: int, r: nat, v: int)
    requires Sound(cfg) && Run(cfg, tr) && i < |tr| && x in Correct(cfg)
    ensures |tr[i].slots| == cfg.n
    ensures var p := tr[i].slots[x].node;
      var count := |At(p.bvalMap, (r, v))|;
      v in SetAt(p.binValues, r) <==> IsBit(v) && (count >= Q(cfg.n) || (r == 0 && v == 1 && (count >= SQ(cfg.n) || Estimate(x, 0, 1) in tr[i].ests)))
  {
    RunKeepsBin(cfg, tr, i);
    var p := tr[i].slots[x].node;
    assert BinAt(p, Estimate(x, 0, 1) in tr[i].ests, r, v);
  }

  /** A proposal is broadcast at once, without a majority. */
  lemma ProposalIsSent(p: Node, input: int)
    ensures Bval(p.id, 0, input, BOTTOM) in StartABAFromRoundZero(p, input).out
  {
    CachedKeeps(p, 0);
    var w := SendProposal(HandleCachedMsg(p, 0), input);
    assert w.out[|p.out|] == Bval(p.id, 0, input, BOTTOM);
    hide HandleCachedMsg, SendProposal, SendAux;
    if input == 1 {
      var z := w.(binValues := AddTo(w.binValues, 0, 1));
      ProceedSays(z, 0, 1);
    }
  }

  lemma ProceedSays(z: Node, r: nat, v: int)
    ensures z.out <= ProceedToAux(z, r, v).out
  {
    var u := z.(binValues := AddTo(z.binValues, r, v), instancestatus := AUX);
    SendAuxSays(u, r, v);
    hide SendAux, AddTo;
  }
}
