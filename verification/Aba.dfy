/** One node of the binary agreement (src/aba/pisa), for a single instance: its state, the effect
    of each handler on it, and the handlers themselves. */
module Aba {
  import opened Quorum
  import Sets

  datatype Msg =
    | Bval(src: int, round: nat, value: int, maj: int)
    | Aux(src: int, round: nat, value: int, maj: int)

  const READY := 0
  const AUX := 1
  const DECIDED := 2
  const TERMINATE := 3

  /** Value 2 stands for "no preference" both as a vote and as a majority. */
  const BOTTOM := 2

  /** `out` is what has been broadcast and `spawned` which cached messages have been handed to
      handlers of their own since the current event began. */
  datatype Node = Node(
    id: int,
    n: nat,
    round: nat,
    maj: map<nat, int>,
    delta: map<nat, int>,
    coinr: map<nat, int>,
    majs: map<nat, set<int>>,
    bvals: map<nat, set<int>>,
    binValues: map<nat, set<int>>,
    bvalMap: map<(nat, int), set<int>>,
    auxvals: map<nat, multiset<int>>,
    auxmajvals: map<nat, multiset<int>>,
    auxnodes: map<nat, set<int>>,
    instancestatus: int,
    finalstatus: int,
    decidedround: nat,
    decidedvalue: int,
    cachedMsg: map<nat, multiset<Msg>>,
    out: seq<Msg>,
    spawned: multiset<Msg>)

  // -------------------------------------------------- reading the keyed maps

  function SetAt(m: map<nat, set<int>>, r: nat): set<int> {
    if r in m then m[r] else {}
  }

  function BagAt<T>(m: map<nat, multiset<T>>, r: nat): multiset<T> {
    if r in m then m[r] else multiset{}
  }

  /** A missing entry of an IntIntMapArr reads as -1. */
  function IntAt(m: map<nat, int>, r: nat): int {
    if r in m then m[r] else -1
  }

  function AddTo(m: map<nat, set<int>>, r: nat, v: int): map<nat, set<int>> {
    m[r := SetAt(m, r) + {v}]
  }

  function CountIn<T>(m: map<nat, multiset<T>>, r: nat, v: T): map<nat, multiset<T>> {
    m[r := BagAt(m, r) + multiset{v}]
  }

  function Kinds(b: multiset<int>): set<int> {
    set v | v in b
  }

  // ------------------------------------------------------- effect of a handler

  function Initial(id: int, n: nat): Node {
    Node(id, n, 0, map[], map[], map[], map[], map[], map[], map[], map[], map[], map[],
         READY, READY, 0, -1, map[], [], multiset{})
  }

  function Send(s: Node, m: Msg): Node {
    s.(out := s.out + [m])
  }

  function CacheMsg(s: Node, m: Msg): Node {
    s.(cachedMsg := CountIn(s.cachedMsg, m.round, m))
  }

  function HandleCachedMsg(s: Node, r: nat): Node {
    if s.round != r || s.finalstatus == TERMINATE then s
    else s.(cachedMsg := s.cachedMsg - {r}, spawned := s.spawned + BagAt(s.cachedMsg, r))
  }

  lemma CachedKeeps(s: Node, r: nat)
    ensures var t := HandleCachedMsg(s, r);
            && t.id == s.id && t.n == s.n && t.round == s.round && t.maj == s.maj && t.delta == s.delta
            && t.coinr == s.coinr && t.majs == s.majs && t.bvals == s.bvals && t.binValues == s.binValues
            && t.bvalMap == s.bvalMap && t.auxvals == s.auxvals && t.auxmajvals == s.auxmajvals
            && t.auxnodes == s.auxnodes && t.instancestatus == s.instancestatus && t.finalstatus == s.finalstatus
            && t.decidedround == s.decidedround && t.decidedvalue == s.decidedvalue && t.out == s.out
  {
    if s.round != r || s.finalstatus == TERMINATE {
    } else {
    }
  }

  function SendBval(s: Node, r: nat, v: int): Node {
    if v in SetAt(s.bvals, r) then s
    else Send(s.(bvals := AddTo(s.bvals, r, v)), Bval(s.id, r, v, IntAt(s.maj, r)))
  }

  /** Whether the node commits to the value it relays, or sends no preference. */
  predicate Commits(s: Node, r: nat, v: int) {
    r == 0 || Favours(IntAt(s.coinr, r - 1), SetAt(s.majs, r), v)
  }

  /** A value that differs from the last coin needs majorities without the coin's value and without
      BOTTOM; one that agrees with the coin needs majorities without the other value. */
  predicate Favours(c: int, seen: set<int>, v: int) {
    || (v == 1 - c && c !in seen && BOTTOM !in seen)
    || (v == c && 1 - c !in seen)
  }

  function SendAux(s: Node, r: nat, v: int): Node {
    if Commits(s, r, v) then Send(s.(delta := s.delta[r := v]), Aux(s.id, r, v, v))
    else Send(s, Aux(s.id, r, BOTTOM, v))
  }

  function ProceedToAux(s: Node, r: nat, v: int): Node {
    var t := s.(binValues := AddTo(s.binValues, r, v));
    if t.round != r || t.instancestatus >= AUX then t
    else
      SendAux(t.(instancestatus := AUX), r, v)
  }

  function RecordBval(s: Node, m: Msg): Node {
    s.(bvalMap := if m.value == 0 || m.value == 1 then Insert(s.bvalMap, (m.round, m.value), m.src) else s.bvalMap,
       majs := AddTo(s.majs, m.round, m.maj))
  }

  function RelayBval(s: Node, m: Msg): Node {
    if Len(s.bvalMap, (m.round, m.value)) < SQ(s.n) then s
    else
      var t := SendBval(s, m.round, m.value);
      if m.round == 0 && m.value == 1 then t.(binValues := AddTo(t.binValues, m.round, m.value)) else t
  }

  function HandleBval(s: Node, m: Msg): Node {
    if m.round < s.round then s
    else if m.round > s.round then CacheMsg(s, m)
    else
      var t := RelayBval(RecordBval(HandleCachedMsg(s, s.round), m), m);
      if Len(t.bvalMap, (m.round, m.value)) >= Q(s.n) then ProceedToAux(t, m.round, m.value) else t
  }

  function StartABA(s: Node, input: int): Node {
    var r := s.round;
    var t := HandleCachedMsg(s, r);
    var u := t.(bvals := AddTo(t.bvals, r, input));
    if r == 0 then Send(u.(maj := u.maj[r := BOTTOM]), Bval(u.id, r, input, BOTTOM))
    else Send(u, Bval(u.id, r, input, IntAt(u.maj, r)))
  }

  function SendProposal(s: Node, input: int): Node {
    Send(s.(bvals := AddTo(s.bvals, 0, input), maj := s.maj[0 := BOTTOM]), Bval(s.id, 0, input, BOTTOM))
  }

  function StartABAFromRoundZero(s: Node, input: int): Node {
    var w := SendProposal(HandleCachedMsg(s, 0), input);
    if input == 1 then ProceedToAux(w.(binValues := AddTo(w.binValues, 0, 1)), 0, 1) else w
  }

  lemma SendAuxKeeps(s: Node, r: nat, v: int)
    ensures var t := SendAux(s, r, v); t == s.(delta := t.delta, out := t.out)
  {
    if Commits(s, r, v) {
    } else {
    }
  }

  lemma ProceedKeeps(s: Node, r: nat, v: int)
    ensures var t := ProceedToAux(s, r, v);
            t == s.(binValues := t.binValues, instancestatus := t.instancestatus, delta := t.delta, out := t.out)
  {
    var t := s.(binValues := AddTo(s.binValues, r, v));
    SendAuxKeeps(t.(instancestatus := AUX), r, v);
    hide SendAux;
    if t.round != r || t.instancestatus >= AUX {
    } else {
    }
  }

  lemma SendBvalKeeps(s: Node, r: nat, v: int)
    ensures var t := SendBval(s, r, v); t == s.(bvals := t.bvals, out := t.out)
  {
  }

  lemma RelayKeeps(s: Node, m: Msg)
    ensures var t := RelayBval(s, m);
            t == s.(bvals := t.bvals, binValues := t.binValues, out := t.out)
  {
    var u := SendBval(s, m.round, m.value);
    SendBvalKeeps(s, m.round, m.value);
    hide SendBval;
    if Len(s.bvalMap, (m.round, m.value)) < SQ(s.n) {
    } else if m.round == 0 && m.value == 1 {
    } else {
    }
  }

  lemma HandleBvalKeeps(s: Node, m: Msg)
    ensures var t := HandleBval(s, m);
            t == s.(majs := t.majs, bvals := t.bvals, bvalMap := t.bvalMap, binValues := t.binValues, delta := t.delta,
                    instancestatus := t.instancestatus, cachedMsg := t.cachedMsg, spawned := t.spawned, out := t.out)
  {
    if m.round == s.round {
      var a := HandleCachedMsg(s, s.round);
      CachedKeeps(s, s.round);
      var b := RecordBval(a, m);
      assert b == a.(bvalMap := b.bvalMap, majs := b.majs);
      var r := RelayBval(b, m);
      RelayKeeps(b, m);
      var t := ProceedToAux(r, m.round, m.value);
      ProceedKeeps(r, m.round, m.value);
      assert HandleBval(s, m) == t || HandleBval(s, m) == r;
      hide *;
    } else {
    }
  }

  lemma StartKeeps(s: Node, input: int)
    ensures var t := StartABA(s, input);
            t == s.(bvals := t.bvals, maj := t.maj, cachedMsg := t.cachedMsg, spawned := t.spawned, out := t.out)
            && forall r :: r > 0 ==> IntAt(t.maj, r) == IntAt(s.maj, r)
  {
    CachedKeeps(s, s.round);
    if s.round == 0 {
    } else {
    }
  }

  lemma ProposeKeeps(s: Node, input: int)
    ensures var t := StartABAFromRoundZero(s, input);
            t == s.(majs := t.majs, bvals := t.bvals, maj := t.maj, binValues := t.binValues, delta := t.delta,
                    instancestatus := t.instancestatus, cachedMsg := t.cachedMsg, spawned := t.spawned, out := t.out)
            && forall r :: r > 0 ==> IntAt(t.maj, r) == IntAt(s.maj, r)
  {
    CachedKeeps(s, 0);
    var w := SendProposal(HandleCachedMsg(s, 0), input);
    ProceedKeeps(w.(binValues := AddTo(w.binValues, 0, 1)), 0, 1);
  }

  /** What becomes of an AUX message. */
  datatype Verdict = Stale | Early | Unjustified | Invalid | Accepted

  function Judge(s: Node, m: Msg): Verdict {
    if m.round < s.round then Stale
    else if m.round > s.round then Early
    else if m.maj != BOTTOM && m.maj !in SetAt(s.binValues, m.round) then Unjustified
    else if m.value != BOTTOM && m.value !in SetAt(s.binValues, m.round) then Unjustified
    else
      var d := IntAt(s.delta, m.round);
      if s.round > 0 && (m.value == 1 - m.maj || m.maj == BOTTOM || (d != -1 && d != m.value)) then Invalid
      else Accepted
  }

  function RecordAux(s: Node, m: Msg): Node {
    s.(auxvals := CountIn(s.auxvals, m.round, m.value),
       auxmajvals := CountIn(s.auxmajvals, m.round, m.maj),
       auxnodes := AddTo(s.auxnodes, m.round, m.src))
  }

  /** The next estimate and majority, and whether the estimate is decided. */
  datatype Outcome = Outcome(est: int, maj: int, decide: bool)

  function UseCoinVal(vals: multiset<int>, c: int, r: nat, q: int): Outcome {
    if r == 0 then Outcome(c, c, false)
    else if vals[0] > q / 2 then Outcome(c, 0, false)
    else if vals[1] > q / 2 then Outcome(c, 1, false)
    else Outcome(c, BOTTOM, false)
  }

  /** The first element a Go map iteration yields. */
  ghost function Any(s: set<int>): int {
    if exists v :: v in s then var v :| v in s; v else -1
  }

  ghost function Evaluate(vals: multiset<int>, majvals: multiset<int>, r: nat, c: int, cr: int, q: int): Outcome {
    if vals[1] >= q then Outcome(1, 1, 1 == c)
    else if vals[0] >= q then Outcome(0, 0, 0 == c)
    else if r > 0 && |Kinds(vals)| == 1 && (Any(Kinds(vals)) == BOTTOM || vals[Any(Kinds(vals))] < q) then
      var v := Any(Kinds(vals));
      if v != BOTTOM && majvals[v] >= q then Outcome(v, v, v == cr && v == c)
      else if |Kinds(majvals)| == 2 then Outcome(cr, cr, false)
      else UseCoinVal(vals, c, r, q)
    else UseCoinVal(vals, c, r, q)
  }

  /** The outcome the votes a node holds for round r give, when the coin of that round shows c. */
  ghost function OutcomeOf(s: Node, r: nat, c: int): Outcome {
    Evaluate(BagAt(s.auxvals, r), BagAt(s.auxmajvals, r), r, c, if r == 0 then -1 else IntAt(s.coinr, r - 1), Q(s.n))
  }

  function Decide(s: Node, r: nat, est: int): Node {
    s.(finalstatus := DECIDED, decidedround := r, decidedvalue := est)
  }

  function EnterRound(s: Node, majr: int, c: int): Node {
    s.(round := s.round + 1, maj := s.maj[s.round + 1 := majr], coinr := s.coinr[s.round := c])
  }

  function Advance(s: Node, o: Outcome, c: int): Node {
    StartABA(EnterRound(s, o.maj, c), o.est).(instancestatus := READY)
  }

  function DecideIf(s: Node, o: Outcome): Node {
    if o.decide then Decide(s, s.round, o.est) else s
  }

  function AdvanceIf(s: Node, o: Outcome, c: int): Node {
    if s.instancestatus == AUX then Advance(s, o, c) else s
  }

  function Conclude(s: Node, o: Outcome, c: int): Node {
    AdvanceIf(DecideIf(s, o), o, c)
  }

  /** A decided node stops at the first vote it counts in a later round. */
  predicate Stops(s: Node) {
    s.instancestatus == AUX && s.decidedround != s.round && s.finalstatus == DECIDED
  }

  /** The votes of the round are evaluated. */
  predicate Due(s: Node) {
    !Stops(s) && s.finalstatus != TERMINATE && |SetAt(s.auxnodes, s.round)| >= Q(s.n)
  }

  /** What an accepted vote sets off, once recorded. */
  ghost function Progress(s: Node, c: int): Node {
    if Stops(s) then s.(finalstatus := TERMINATE)
    else if Due(s) then Conclude(s, OutcomeOf(s, s.round, c), c)
    else s
  }

  /** The node with the vote counted. */
  function Ballot(s: Node, m: Msg): Node {
    RecordAux(HandleCachedMsg(s, s.round), m)
  }

  ghost function HandleAux(s: Node, m: Msg, c: int): Node {
    match Judge(s, m)
    case Stale => s
    case Early => CacheMsg(s, m)
    case Unjustified => CacheMsg(HandleCachedMsg(s, s.round), m)
    case Invalid => HandleCachedMsg(s, s.round)
    case Accepted => Progress(Ballot(s, m), c)
  }

  ghost function HandleABAMsg(s: Node, m: Msg, c: int): Node {
    match m
    case Bval(_, _, _, _) => HandleBval(s, m)
    case Aux(_, _, _, _) => HandleAux(s, m, c)
  }

  // ------------------------------------------------------------- the handlers

  /** The package variables of src/aba/pisa, restricted to one instance. */
  class AbaNode {
    const id: int
    const n: nat
    var round: nat
    var maj: map<nat, int>
    var delta: map<nat, int>
    var coinr: map<nat, int>
    var majs: map<nat, set<int>>
    var bvals: map<nat, set<int>>
    var binValues: map<nat, set<int>>
    var bvalMap: map<(nat, int), set<int>>
    var auxvals: map<nat, multiset<int>>
    var auxmajvals: map<nat, multiset<int>>
    var auxnodes: map<nat, set<int>>
    var instancestatus: int
    var finalstatus: int
    var decidedround: nat
    var decidedvalue: int
    var cachedMsg: map<nat, multiset<Msg>>
    var out: seq<Msg>
    var spawned: multiset<Msg>

    ghost function State(): Node
      reads this
    {
      Node(id, n, round, maj, delta, coinr, majs, bvals, binValues, bvalMap, auxvals, auxmajvals, auxnodes,
           instancestatus, finalstatus, decidedround, decidedvalue, cachedMsg, out, spawned)
    }

    constructor InitABA(thisid: int, numNodes: nat)
      ensures State() == Initial(thisid, numNodes)
    {
      id, n := thisid, numNodes;
      round := 0;
      maj, delta, coinr := map[], map[], map[];
      majs, bvals, binValues, bvalMap := map[], map[], map[], map[];
      auxvals, auxmajvals, auxnodes := map[], map[], map[];
      instancestatus, finalstatus, decidedround, decidedvalue := READY, READY, 0, -1;
      cachedMsg, out, spawned := map[], [], multiset{};
    }

    method QueryStatus() returns (b: bool)
      ensures b <==> State().finalstatus >= DECIDED
    {
      b := finalstatus >= DECIDED;
    }

    method Cache(m: Msg)
      modifies this`cachedMsg
      ensures State() == CacheMsg(old(State()), m)
    {
      cachedMsg := CountIn(cachedMsg, m.round, m);
    }

    method HandleCached(r: nat)
      modifies this`cachedMsg, this`spawned
      ensures State() == HandleCachedMsg(old(State()), r)
    {
      if round != r || finalstatus == TERMINATE {
        return;
      }
      spawned := spawned + BagAt(cachedMsg, r);
      cachedMsg := cachedMsg - {r};
    }

    method BroadcastBval(r: nat, value: int)
      modifies this`bvals, this`out
      ensures State() == SendBval(old(State()), r, value)
    {
      if value in SetAt(bvals, r) {
        return;
      }
      bvals := AddTo(bvals, r, value);
      var mval := IntAt(maj, r);
      out := out + [Bval(id, r, value, mval)];
    }

    method MoveToAux(r: nat, value: int)
      modifies this`binValues, this`instancestatus, this`delta, this`out
      ensures State() == ProceedToAux(old(State()), r, value)
    {
      binValues := AddTo(binValues, r, value);
      ghost var t := State();
      assert t == old(State()).(binValues := AddTo(old(binValues), r, value));
      if round != r || instancestatus >= AUX {
        return;
      }
      instancestatus := AUX;
      assert State() == t.(instancestatus := AUX);
      BroadcastAux(r, value);
    }

    method BroadcastAux(r: nat, value: int)
      modifies this`delta, this`out
      ensures State() == SendAux(old(State()), r, value)
    {
      var proposedval := BOTTOM;
      if r == 0 {
        delta := delta[r := value];
        proposedval := value;
      }
      if r > 0 {
        if Favours(IntAt(coinr, r - 1), SetAt(majs, r), value) {
          delta := delta[r := value];
          proposedval := value;
        }
      }
      out := out + [Aux(id, r, proposedval, value)];
    }

    method HandleBVAL(m: Msg)
      requires m.Bval?
      modifies this
      ensures State() == HandleBval(old(State()), m)
    {
      if m.round < round {
        return;
      }
      if m.round > round {
        Cache(m);
        return;
      }
      HandleCached(round);
      RecordVote(m);
      RelayVote(m);
      if Len(bvalMap, (m.round, m.value)) >= Q(n) {
        MoveToAux(m.round, m.value);
      }
    }

    method RecordVote(m: Msg)
      modifies this`bvalMap, this`majs
      ensures State() == RecordBval(old(State()), m)
    {
      var key := (m.round, m.value);
      if m.value == 0 || m.value == 1 {
        bvalMap := Insert(bvalMap, key, m.src);
      }
      majs := AddTo(majs, m.round, m.maj);
    }

    method RelayVote(m: Msg)
      requires m.round == round
      modifies this`bvals, this`binValues, this`out
      ensures State() == RelayBval(old(State()), m)
    {
      if Len(bvalMap, (m.round, m.value)) >= SQ(n) {
        BroadcastBval(m.round, m.value);
        if round == 0 && m.value == 1 {
          binValues := AddTo(binValues, m.round, m.value);
        }
      }
    }

    method Start(input: int)
      modifies this
      ensures State() == StartABA(old(State()), input)
    {
      var r := round;
      HandleCached(r);
      bvals := AddTo(bvals, r, input);
      var mval;
      if r == 0 {
        maj := maj[r := BOTTOM];
        mval := BOTTOM;
      } else {
        mval := IntAt(maj, r);
      }
      out := out + [Bval(id, r, input, mval)];
    }

    method StartFromRoundZero(input: int)
      modifies this
      ensures State() == StartABAFromRoundZero(old(State()), input)
    {
      HandleCached(0);
      Announce(input);
      if input == 1 {
        binValues := AddTo(binValues, 0, 1);
        MoveToAux(0, 1);
      }
    }

    method Announce(input: int)
      modifies this`bvals, this`maj, this`out
      ensures State() == SendProposal(old(State()), input)
    {
      bvals := AddTo(bvals, 0, input);
      maj := maj[0 := BOTTOM];
      out := out + [Bval(id, 0, input, BOTTOM)];
    }

    method UseCoin(c: int, r: nat) returns (estr: int, majr: int)
      ensures Outcome(estr, majr, false) == UseCoinVal(BagAt(auxvals, r), c, r, Q(n))
    {
      estr := c;
      if r == 0 {
        majr := c;
      } else {
        var vals := BagAt(auxvals, r);
        if vals[0] > Q(n) / 2 {
          majr := 0;
        } else if vals[1] > Q(n) / 2 {
          majr := 1;
        } else {
          majr := BOTTOM;
        }
      }
    }

    method DecideValue(r: nat, estr: int)
      modifies this`finalstatus, this`decidedround, this`decidedvalue
      ensures State() == Decide(old(State()), r, estr)
    {
      finalstatus := DECIDED;
      decidedround := r;
      decidedvalue := estr;
    }

    /** The votes of a round are in: pick the next estimate and majority, deciding when the coin
        agrees. The argument c is what GetCoin returned. */
    method Choose(c: int) returns (estr: int, majr: int)
      requires exists v :: v in BagAt(auxvals, round)
      modifies this`finalstatus, this`decidedround, this`decidedvalue
      ensures var o := OutcomeOf(old(State()), old(round), c);
              estr == o.est && majr == o.maj &&
              State() == DecideIf(old(State()), o)
    {
      var r := round;
      var vals, majvals, q := BagAt(auxvals, r), BagAt(auxmajvals, r), Q(n);
      var firstauxval :| firstauxval in vals;
      if |Kinds(vals)| == 1 {
        assert firstauxval in Kinds(vals);
        SingleKind(Kinds(vals), firstauxval, Any(Kinds(vals)));
      }
      if vals[1] >= q {
        estr, majr := 1, 1;
        if estr == c {
          DecideValue(r, estr);
        }
      } else if vals[0] >= q {
        estr, majr := 0, 0;
        if estr == c {
          DecideValue(r, estr);
        }
      } else if r > 0 && ((|Kinds(vals)| == 1 && firstauxval == 2) || (|Kinds(vals)| == 1 && vals[firstauxval] < q)) {
        var cr := IntAt(coinr, r - 1);
        if firstauxval != 2 && majvals[firstauxval] >= q {
          estr, majr := firstauxval, firstauxval;
          if estr == cr && estr == c {
            DecideValue(r, estr);
          }
        } else if |Kinds(majvals)| == 2 {
          estr, majr := cr, cr;
        } else {
          estr, majr := UseCoin(c, r);
        }
      } else {
        estr, majr := UseCoin(c, r);
      }
    }

    method NextRound(estr: int, majr: int, c: int)
      modifies this
      ensures State() == Advance(old(State()), Outcome(estr, majr, false), c)
    {
      StepRound(majr, c);
      Start(estr);
      instancestatus := READY;
    }

    method StepRound(majr: int, c: int)
      modifies this`round, this`maj, this`coinr
      ensures State() == EnterRound(old(State()), majr, c)
    {
      var r := round;
      round := r + 1;
      maj := maj[r + 1 := majr];
      coinr := coinr[r := c];
    }

    method FinishVote(c: int)
      requires exists v :: v in BagAt(auxvals, round)
      modifies this
      ensures State() == Progress(old(State()), c)
    {
      if instancestatus == AUX && decidedround != round && finalstatus == DECIDED {
        finalstatus := TERMINATE;
        return;
      }
      if finalstatus == TERMINATE {
        return;
      }
      if |SetAt(auxnodes, round)| >= Q(n) {
        var estr, majr := Choose(c);
        if instancestatus == AUX {
          NextRound(estr, majr, c);
        }
      }
    }

    /** The checks an AUX message of the current round goes through. */
    method Vet(m: Msg) returns (v: Verdict)
      requires m.round == round
      ensures v == Judge(State(), m)
    {
      var bin := SetAt(binValues, m.round);
      if m.maj != 2 && m.maj !in bin {
        return Unjustified;
      }
      if m.value != 2 && m.value !in bin {
        return Unjustified;
      }
      var deltav := IntAt(delta, m.round);
      var exist := deltav != -1;
      if round > 0 {
        if m.value == 1 - m.maj || m.maj == 2 || (exist && deltav != m.value) {
          return Invalid;
        }
      }
      return Accepted;
    }

    method RecordAuxVote(m: Msg)
      modifies this`auxvals, this`auxmajvals, this`auxnodes
      ensures State() == RecordAux(old(State()), m)
      ensures m.value in BagAt(auxvals, m.round)
    {
      ghost var s := State();
      auxvals := CountIn(auxvals, m.round, m.value);
      assert State() == s.(auxvals := CountIn(s.auxvals, m.round, m.value));
      auxmajvals := CountIn(auxmajvals, m.round, m.maj);
      auxnodes := AddTo(auxnodes, m.round, m.src);
    }

    method HandleAUX(m: Msg, c: int)
      requires m.Aux?
      modifies this
      ensures State() == HandleAux(old(State()), m, c)
    {
      if m.round < round {
        return;
      }
      if m.round > round {
        Cache(m);
        return;
      }
      HandleCached(round);
      var verdict := Vet(m);
      assert verdict == Judge(old(State()), m);
      hide Judge, Progress, CacheMsg, HandleCachedMsg, RecordAux;
      if verdict == Unjustified {
        Cache(m);
      } else if verdict == Accepted {
        CountVote(m, c);
      }
    }

    method CountVote(m: Msg, c: int)
      requires m.round == round
      modifies this
      ensures State() == Progress(RecordAux(old(State()), m), c)
    {
      RecordAuxVote(m);
      FinishVote(c);
    }
  }

  lemma SingleKind(s: set<int>, a: int, b: int)
    requires |s| == 1 && a in s && b in s
    ensures a == b
  {
    if a != b {
      Sets.SubsetCard({a, b}, s);
    }
  }
}
