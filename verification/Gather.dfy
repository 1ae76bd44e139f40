/** Index gather (src/indexgather) at one node, for one view. */
module Gather {
  import opened Quorum

  datatype Msg =
    | Inform(src: int, vec: seq<int>)
    | Ack(src: int, dest: int)
    | Prepare(src: int, vec: seq<int>)

  /** `valid` is the node's current vector: empty until the first update, entries 0 or 1 after. */
  datatype State = State(
    id: int,
    n: nat,
    valid: seq<int>,
    acks: set<int>,
    prepares: set<int>,
    setvalue: seq<int>,
    decided: seq<int>,
    final: bool,
    out: seq<Msg>)

  function Initial(id: int, n: nat): State {
    State(id, n, [], {}, {}, [], [], false, [])
  }

  /** Every 1 of vec is a non-zero of valid; two vectors that cannot be compared are not included. */
  ghost predicate Included(vec: seq<int>, valid: seq<int>) {
    && |vec| == |valid| > 0
    && forall i :: 0 <= i < |vec| && vec[i] == 1 ==> valid[i] != 0
  }

  ghost predicate Binary(vec: seq<int>) {
    forall i :: 0 <= i < |vec| ==> vec[i] == 0 || vec[i] == 1
  }

  ghost function OnesAt(vec: seq<int>): set<int> {
    set i | 0 <= i < |vec| && vec[i] == 1
  }

  method IfincludeVec(vec: seq<int>, valid: seq<int>) returns (b: bool)
    ensures b <==> Included(vec, valid)
    ensures b <==> |vec| == |valid| > 0 && forall i :: 0 <= i < |vec| && vec[i] == 1 ==> valid[i] != 0
  {
    if |vec| == 0 || |valid| == 0 || |vec| != |valid| {
      return false;
    }
    for i := 0 to |vec|
      invariant forall j :: 0 <= j < i && vec[j] == 1 ==> valid[j] != 0
    {
      if vec[i] == 1 && valid[i] == 0 {
        return false;
      }
    }
    return true;
  }

  // ----------------------------------------- the handlers as functions

  ghost function HandleInform(s: State, m: Msg): State
    requires m.Inform?
  {
    if Included(m.vec, s.valid) then s.(out := s.out + [Ack(s.id, m.src)]) else s
  }

  function HandleAck(s: State, m: Msg): State {
    var t := s.(acks := s.acks + {m.src});
    if |t.acks| >= Q(s.n) then t.(out := t.out + [Prepare(s.id, s.valid)]) else t
  }

  /** One round of the loop in HandlePrepare, which the code repeats for ever. */
  ghost function HandlePrepare(s: State, m: Msg): State
    requires m.Prepare?
  {
    if Included(m.vec, s.valid) then
      var t := s.(setvalue := s.setvalue + [m.src], prepares := s.prepares + {m.src});
      if |t.prepares| >= Q(s.n) then t.(decided := t.setvalue, final := true) else t
    else s
  }

  ghost function Handle(s: State, m: Msg): State {
    match m
    case Inform(_, _) => HandleInform(s, m)
    case Ack(_, _) => HandleAck(s, m)
    case Prepare(_, _) => HandlePrepare(s, m)
  }

  // ------------------------------------------------------- the handlers

  class GatherNode {
    const id: int
    const n: nat
    var valid: seq<int>
    var acks: Counter<()>
    var prepares: Counter<()>
    var setvalue: seq<int>
    var decidedvalue: seq<int>
    var finalstatus: bool
    var out: seq<Msg>

    ghost function View(): State
      reads this
    {
      State(id, n, valid, At(acks, ()), At(prepares, ()), setvalue, decidedvalue, finalstatus, out)
    }

    constructor Init(thisid: int, numNodes: nat)
      ensures View() == Initial(thisid, numNodes)
    {
      id, n, valid, acks, prepares := thisid, numNodes, [], map[], map[];
      setvalue, decidedvalue, finalstatus, out := [], [], false, [];
    }

    method UpdateList(input: seq<int>)
      modifies this
      ensures View() == old(View()).(valid := input)
    {
      valid := input;
    }

    method Start()
      modifies this
      ensures View() == old(View()).(out := old(out) + [Inform(id, old(valid))])
    {
      out := out + [Inform(id, valid)];
    }

    method OnInform(m: Msg) returns (acked: bool)
      requires m.Inform?
      modifies this
      ensures View() == HandleInform(old(View()), m)
      ensures acked <==> Included(m.vec, old(valid))
    {
      acked := IfincludeVec(m.vec, valid);
      if acked {
        out := out + [Ack(id, m.src)];
      }
    }

    method OnAck(m: Msg)
      modifies this
      ensures View() == HandleAck(old(View()), m)
    {
      acks := Insert(acks, (), m.src);
      if Len(acks, ()) >= Q(n) {
        out := out + [Prepare(id, valid)];
      }
    }

    method OnPrepare(m: Msg)
      requires m.Prepare?
      modifies this
      ensures View() == HandlePrepare(old(View()), m)
    {
      var included := IfincludeVec(m.vec, valid);
      if included {
        var tmp := setvalue;
        tmp := tmp + [m.src];
        setvalue := tmp;
        prepares := Insert(prepares, (), m.src);
        if Len(prepares, ()) >= Q(n) {
          decidedvalue := setvalue;
          finalstatus := true;
        }
      }
    }

    method QueryStatus() returns (b: bool)
      ensures b == View().final
    {
      b := finalstatus;
    }
  }
}

/** Index gather as a system with up to f Byzantine nodes, and its common core. */
module GatherSystem {
  import opened Wrappers
  import opened Sets
  import opened Quorum
  import opened Gather

  datatype Config = Config(n: nat, faulty: set<int>)

  ghost predicate Sound(cfg: Config) {
    cfg.n >= 1 && cfg.faulty <= Ids(cfg.n) && |cfg.faulty| <= F(cfg.n)
  }

  function Correct(cfg: Config): set<int> {
    Ids(cfg.n) - cfg.faulty
  }

  /** History: who was the first correct node to send PREPARE, the vector it had informed the others
      of, and the correct nodes that had acknowledged that vector by then. */
  datatype First = First(node: int, core: seq<int>, ackers: set<int>)

  /** `informed[x]` is the vector of x's INFORM; `sent` the messages of correct nodes; `heard[x]` the ACKs
      handed to x, and the INFORMs and PREPAREs handed to it when it included their vectors. */
  datatype Sys = Sys(nodes: seq<State>, informed: seq<Option<seq<int>>>, sent: set<Msg>, first: Option<First>, heard: seq<set<Msg>>)

  function Init(cfg: Config): Sys {
    Sys(seq(cfg.n, x => Initial(x, cfg.n)), seq(cfg.n, x => None), {}, None, seq(cfg.n, x => {}))
  }

  /** Update: the vector of x grows. Begin: x sends its INFORM, once, when it has a quorum of ones.
      Receipt: x handles a message of a correct or of a faulty node. */
  datatype Event =
    | Update(x: int, input: seq<int>)
    | Begin(x: int)
    | Receipt(x: int, m: Msg)

  ghost predicate Grows(valid: seq<int>, input: seq<int>) {
    Binary(input) && (valid == [] || Included(valid, input))
  }

  ghost predicate Enabled(cfg: Config, s: Sys, e: Event) {
    e.x in Correct(cfg) && |s.nodes| == cfg.n && |s.informed| == cfg.n && |s.heard| == cfg.n &&
    match e
    case Update(x, input) => Grows(s.nodes[x].valid, input)
    case Begin(x) => s.informed[x] == None && |OnesAt(s.nodes[x].valid)| >= Q(cfg.n)
    case Receipt(x, m) => (m.src in cfg.faulty || m in s.sent) && (m.Ack? ==> m.dest == x)
  }

  function Outgoing(t: State): set<Msg> {
    set m | m in t.out
  }

  function Ackers(cfg: Config, sent: set<Msg>, z: int): set<int> {
    set y | y in Correct(cfg) && Ack(y, z) in sent
  }

  /** m, if it is an ACK or its vector is comparable and has every 1 of it covered. */
  ghost function Taken(valid: seq<int>, m: Msg): set<Msg> {
    if m.Ack? || (|m.vec| == |valid| > 0 && forall i :: 0 <= i < |valid| && m.vec[i] == 1 ==> valid[i] != 0) then {m} else {}
  }

  predicate Prepares(t: State) {
    exists m :: m in t.out && m.Prepare?
  }

  function FirstPrepare(cfg: Config, s: Sys, x: int, t: State): Option<First>
    requires 0 <= x < |s.informed|
  {
    if s.first.Some? then s.first
    else if Prepares(t) && s.informed[x].Some? then
      Some(First(x, s.informed[x].value, Ackers(cfg, s.sent, x)))
    else None
  }

  ghost function Next(cfg: Config, s: Sys, e: Event): Sys
    requires Enabled(cfg, s, e)
  {
    match e
    case Update(x, input) => s.(nodes := s.nodes[x := s.nodes[x].(valid := input)])
    case Begin(x) =>
      var vec := s.nodes[x].valid;
      s.(informed := s.informed[x := Some(vec)], sent := s.sent + {Inform(x, vec)})
    case Receipt(x, m) =>
      var t := Handle(s.nodes[x], m);
      s.(nodes := s.nodes[x := t.(out := [])], sent := s.sent + Outgoing(t), first := FirstPrepare(cfg, s, x, t), heard := s.heard[x := s.heard[x] + Taken(s.nodes[x].valid, m)])
  }

  ghost predicate Step(cfg: Config, s: Sys, s': Sys) {
    exists e :: Enabled(cfg, s, e) && s' == Next(cfg, s, e)
  }

  ghost predicate Run(cfg: Config, tr: seq<Sys>) {
    && |tr| > 0 && tr[0] == Init(cfg)
    && forall i :: 0 <= i < |tr| - 1 ==> Step(cfg, tr[i], tr[i + 1])
  }

  // -------------------------------------------------------- the invariant

  /** A correct source of a PREPARE that x has accepted sent a vector that x includes. */
  ghost predicate Accepted(cfg: Config, sent: set<Msg>, src: int, valid: seq<int>) {
    src in cfg.faulty || exists vec :: Prepare(src, vec) in sent && Included(vec, valid)
  }

  ghost predicate NodeOk(cfg: Config, sent: set<Msg>, p: State) {
    && p.n == cfg.n && p.out == [] && Binary(p.valid)
    && (forall y :: y in p.acks ==> y in cfg.faulty || Ack(y, p.id) in sent)
    && (forall y :: y in p.prepares ==> Accepted(cfg, sent, y, p.valid) && 0 <= y < cfg.n)
    && (p.final ==> |p.prepares| >= Q(cfg.n))
    && (p.final ==> |(set y | y in p.decided)| >= Q(cfg.n))
    && (set y | y in p.setvalue) == p.prepares
  }

  ghost predicate InformOk(cfg: Config, informed: Option<seq<int>>) {
    informed.Some? ==> |OnesAt(informed.value)| >= Q(cfg.n) && Binary(informed.value)
  }

  ghost predicate Covers(first: Option<First>, y: int, vec: seq<int>) {
    first.Some? && (y in first.value.ackers ==> Included(first.value.core, vec))
  }

  ghost predicate MsgOk(cfg: Config, s: Sys, m: Msg)
    requires |s.nodes| == cfg.n && |s.informed| == cfg.n
  {
    m.src in Correct(cfg) &&
    match m
    case Inform(x, vec) => s.informed[x] == Some(vec)
    case Ack(y, z) => z in Correct(cfg) ==> s.informed[z].Some? && Included(s.informed[z].value, s.nodes[y].valid)
    case Prepare(y, vec) => Binary(vec) && Covers(s.first, y, vec)
  }

  ghost predicate FirstOk(cfg: Config, s: Sys)
    requires |s.nodes| == cfg.n && |s.informed| == cfg.n
  {
    s.first.Some? ==>
      var f := s.first.value;
      && f.node in Correct(cfg) && s.informed[f.node] == Some(f.core)
      && f.ackers <= Ackers(cfg, s.sent, f.node) && |f.ackers| + |cfg.faulty| >= Q(cfg.n)
  }

  ghost predicate Inv(cfg: Config, s: Sys) {
    && |s.nodes| == cfg.n && |s.informed| == cfg.n && |s.heard| == cfg.n
    && (forall x :: x in Correct(cfg) ==> s.nodes[x].id == x && NodeOk(cfg, s.sent, s.nodes[x]) && InformOk(cfg, s.informed[x]))
    && (forall m :: m in s.sent ==> MsgOk(cfg, s, m))
    && FirstOk(cfg, s)
  }

  // --------------------------------------------------------- preservation

  lemma IncludedGrows(vec: seq<int>, valid: seq<int>, input: seq<int>)
    requires Included(vec, valid) && Binary(valid) && Grows(valid, input)
    ensures Included(vec, input)
  {
  }

  lemma UpdateNode(cfg: Config, sent: set<Msg>, p: State, input: seq<int>)
    requires NodeOk(cfg, sent, p) && Grows(p.valid, input)
    ensures NodeOk(cfg, sent, p.(valid := input))
  {
  }

  lemma UpdateKeeps(cfg: Config, s: Sys, x: int, input: seq<int>)
    requires Inv(cfg, s) && Enabled(cfg, s, Update(x, input))
    ensures Inv(cfg, Next(cfg, s, Update(x, input)))
  {
    var s' := Next(cfg, s, Update(x, input));
    UpdateNode(cfg, s.sent, s.nodes[x], input);
    hide NodeOk, InformOk;
    forall m | m in s'.sent
      ensures MsgOk(cfg, s', m)
    {
      assert MsgOk(cfg, s, m);
      if m.Ack? && m.src == x && m.dest in Correct(cfg) {
        BinaryAt(cfg, s, x);
        IncludedGrows(s.informed[m.dest].value, s.nodes[x].valid, input);
      }
    }
  }

  lemma BinaryAt(cfg: Config, s: Sys, x: int)
    requires Inv(cfg, s) && x in Correct(cfg)
    ensures Binary(s.nodes[x].valid)
  {
  }

  lemma NodeOkMono(cfg: Config, sent: set<Msg>, sent': set<Msg>, p: State)
    requires NodeOk(cfg, sent, p) && sent <= sent'
    ensures NodeOk(cfg, sent', p)
  {
  }

  lemma BeginKeeps(cfg: Config, s: Sys, x: int)
    requires Inv(cfg, s) && Enabled(cfg, s, Begin(x))
    ensures Inv(cfg, Next(cfg, s, Begin(x)))
  {
    var s' := Next(cfg, s, Begin(x));
    BinaryAt(cfg, s, x);
    forall y | y in Correct(cfg)
      ensures NodeOk(cfg, s'.sent, s'.nodes[y]) && InformOk(cfg, s'.informed[y])
    {
      NodeOkMono(cfg, s.sent, s'.sent, s.nodes[y]);
    }
    hide NodeOk;
    forall m | m in s'.sent
      ensures MsgOk(cfg, s', m)
    {
      if m in s.sent {
        assert MsgOk(cfg, s, m);
      }
    }
  }

  /** What one handler does to its node, given that every message known to it is in order. */
  lemma HandleNode(cfg: Config, sent: set<Msg>, p: State, m: Msg)
    requires NodeOk(cfg, sent, p) && (m.src in cfg.faulty || m in sent) && 0 <= m.src < cfg.n
    requires m.Ack? ==> m.dest == p.id
    ensures NodeOk(cfg, sent, Handle(p, m).(out := []))
    ensures Handle(p, m).valid == p.valid && Handle(p, m).id == p.id
  {
    match m
    case Inform(_, vec) =>
      assert Handle(p, m).(out := []) == p;
    case Ack(y, _) =>
      AckNode(cfg, sent, p, y);
    case Prepare(y, vec) =>
      if Included(vec, p.valid) {
        PrepareNode(cfg, sent, p, y, vec);
      }
  }

  lemma AckNode(cfg: Config, sent: set<Msg>, p: State, y: int)
    requires NodeOk(cfg, sent, p) && (y in cfg.faulty || Ack(y, p.id) in sent)
    ensures NodeOk(cfg, sent, HandleAck(p, Ack(y, p.id)).(out := []))
  {
    assert HandleAck(p, Ack(y, p.id)).(out := []) == p.(acks := p.acks + {y});
  }

  lemma PrepareNode(cfg: Config, sent: set<Msg>, p: State, y: int, vec: seq<int>)
    requires NodeOk(cfg, sent, p) && (y in cfg.faulty || Prepare(y, vec) in sent) && 0 <= y < cfg.n && Included(vec, p.valid)
    ensures NodeOk(cfg, sent, HandlePrepare(p, Prepare(y, vec)).(out := []))
  {
    var t := HandlePrepare(p, Prepare(y, vec));
    hide Included;
    assert Accepted(cfg, sent, y, p.valid);
    hide Accepted;
    SetExtend(p.setvalue, y);
    assert t.setvalue == p.setvalue + [y] && t.prepares == p.prepares + {y};
    SubsetCard(p.prepares, t.prepares);
  }

  lemma SetExtend(s: seq<int>, y: int)
    ensures (set z | z in s + [y]) == (set z | z in s) + {y}
  {
  }

  /** What a handler sends. */
  lemma HandleOut(p: State, m: Msg, o: Msg)
    requires p.out == [] && o in Handle(p, m).out
    ensures o.src == p.id
    ensures o.Inform? ==> false
    ensures o.Ack? ==> m.Inform? && o == Ack(p.id, m.src) && Included(m.vec, p.valid)
    ensures o.Prepare? ==> m.Ack? && o == Prepare(p.id, p.valid) && |p.acks + {m.src}| >= Q(p.n)
  {
  }

  /** A quorum of acknowledgements, counted with the faulty nodes, is a quorum of ackers. */
  lemma AckQuorum(cfg: Config, sent: set<Msg>, acks: set<int>, z: int)
    requires forall y :: y in acks ==> y in cfg.faulty || Ack(y, z) in sent
    requires forall m :: m in sent ==> m.src in Correct(cfg)
    requires |acks| >= Q(cfg.n)
    ensures |Ackers(cfg, sent, z)| + |cfg.faulty| >= Q(cfg.n)
  {
    var a := Ackers(cfg, sent, z);
    forall y | y in acks
      ensures y in a || y in cfg.faulty
    {
      if y !in cfg.faulty {
        assert Ack(y, z).src == y;
      }
    }
    SubsetCard(acks, a + cfg.faulty);
    assert |a + cfg.faulty| == |a| + |cfg.faulty| - |a * cfg.faulty|;
  }

  lemma AckersGrow(cfg: Config, sent: set<Msg>, sent': set<Msg>, z: int)
    requires sent <= sent'
    ensures Ackers(cfg, sent, z) <= Ackers(cfg, sent', z)
  {
  }

  /** A node that sends PREPARE has informed, and a quorum has acknowledged that. */
  lemma PreparesIsBacked(cfg: Config, s: Sys, x: int, m: Msg)
    requires Sound(cfg) && Inv(cfg, s) && Enabled(cfg, s, Receipt(x, m)) && Prepares(Handle(s.nodes[x], m))
    ensures |Ackers(cfg, s.sent, x)| + |cfg.faulty| >= Q(cfg.n) && s.informed[x].Some?
  {
    var p := s.nodes[x];
    assert NodeOk(cfg, s.sent, p);
    var o :| o in Handle(p, m).out && o.Prepare?;
    HandleOut(p, m, o);
    assert m == Ack(m.src, x);
    AckQuorum(cfg, s.sent, p.acks + {m.src}, x);
    QuorumArithmetic(cfg.n);
    var a := Ackers(cfg, s.sent, x);
    assert a != {};
    var y :| y in a;
    assert MsgOk(cfg, s, Ack(y, x));
  }

  lemma FirstKeeps(cfg: Config, s: Sys, x: int, m: Msg)
    requires Sound(cfg) && Inv(cfg, s) && Enabled(cfg, s, Receipt(x, m))
    ensures var s' := Next(cfg, s, Receipt(x, m)); FirstOk(cfg, s') && (s.first.Some? ==> s'.first == s.first)
    ensures Prepares(Handle(s.nodes[x], m)) ==> Next(cfg, s, Receipt(x, m)).first.Some?
  {
    var s' := Next(cfg, s, Receipt(x, m));
    if Prepares(Handle(s.nodes[x], m)) {
      PreparesIsBacked(cfg, s, x, m);
    }
    if s'.first.Some? {
      AckersGrow(cfg, s.sent, s'.sent, s'.first.value.node);
    }
  }

  /** The messages a handler sends are in order. */
  lemma OutputOk(cfg: Config, s: Sys, x: int, m: Msg, o: Msg)
    requires Sound(cfg) && Inv(cfg, s) && Enabled(cfg, s, Receipt(x, m)) && o in Handle(s.nodes[x], m).out
    ensures MsgOk(cfg, Next(cfg, s, Receipt(x, m)), o)
  {
    var p := s.nodes[x];
    var s' := Next(cfg, s, Receipt(x, m));
    assert NodeOk(cfg, s.sent, p);
    HandleOut(p, m, o);
    FirstKeeps(cfg, s, x, m);
    HandleNode(cfg, s.sent, p, m);
    if o.Ack? && o.dest in Correct(cfg) {
      assert MsgOk(cfg, s, m);
    } else if o.Prepare? {
      assert Prepares(Handle(p, m));
      var f := s'.first.value;
      if x in f.ackers && s.first.Some? {
        assert MsgOk(cfg, s, Ack(x, f.node));
      } else if x in f.ackers {
        assert MsgOk(cfg, s, Ack(x, x));
      }
    }
  }

  lemma ReceiptKeeps(cfg: Config, s: Sys, x: int, m: Msg)
    requires Sound(cfg) && Inv(cfg, s) && Enabled(cfg, s, Receipt(x, m))
    ensures Inv(cfg, Next(cfg, s, Receipt(x, m)))
  {
    var s' := Next(cfg, s, Receipt(x, m));
    FirstKeeps(cfg, s, x, m);
    assert m in s.sent ==> MsgOk(cfg, s, m);
    HandleNode(cfg, s.sent, s.nodes[x], m);
    hide Handle, InformOk, FirstOk;
    forall y | y in Correct(cfg)
      ensures NodeOk(cfg, s'.sent, s'.nodes[y]) && s'.nodes[y].id == y
    {
      NodeOkMono(cfg, s.sent, s'.sent, s'.nodes[y]);
    }
    hide NodeOk;
    forall o | o in s'.sent
      ensures MsgOk(cfg, s', o)
    {
      if o in s.sent {
        assert MsgOk(cfg, s, o);
      } else {
        OutputOk(cfg, s, x, m, o);
      }
    }
  }

  lemma StepKeeps(cfg: Config, s: Sys, e: Event)
    requires Sound(cfg) && Inv(cfg, s) && Enabled(cfg, s, e)
    ensures Inv(cfg, Next(cfg, s, e))
    ensures s.first.Some? ==> Next(cfg, s, e).first == s.first
  {
    match e
    case Update(x, input) => UpdateKeeps(cfg, s, x, input);
    case Begin(x) => BeginKeeps(cfg, s, x);
    case Receipt(x, m) => ReceiptKeeps(cfg, s, x, m); FirstKeeps(cfg, s, x, m);
  }

  lemma {:induction false} RunKeeps(cfg: Config, tr: seq<Sys>, i: nat)
    requires Sound(cfg) && Run(cfg, tr) && i < |tr|
    ensures Inv(cfg, tr[i])
    ensures i > 0 && tr[i - 1].first.Some? ==> tr[i].first == tr[i - 1].first
  {
    if i > 0 {
      hide Inv, Next;
      RunKeeps(cfg, tr, i - 1);
      assert Step(cfg, tr[i - 1], tr[i - 1 + 1]);
      var e :| Enabled(cfg, tr[i - 1], e) && tr[i] == Next(cfg, tr[i - 1], e);
      StepKeeps(cfg, tr[i - 1], e);
    } else {
      assert (set z: int | z in []) == {};
    }
  }

  /** Once there is a first PREPARE, it stays the first. */
  lemma {:induction false} FirstStays(cfg: Config, tr: seq<Sys>, i: nat, j: nat)
    requires Sound(cfg) && Run(cfg, tr) && i <= j < |tr| && tr[i].first.Some?
    ensures tr[j].first == tr[i].first
    decreases j
  {
    if i < j {
      FirstStays(cfg, tr, i, j - 1);
      RunKeeps(cfg, tr, j);
    }
  }

  // ------------------------------------------------------ the common core

  /** A finished node includes the core: one of the PREPAREs it accepted came from an acker. */
  lemma FinishedIncludesCore(cfg: Config, s: Sys, x: int)
    requires Sound(cfg) && Inv(cfg, s) && x in Correct(cfg) && s.nodes[x].final
    ensures s.first.Some? && Included(s.first.value.core, s.nodes[x].valid)
  {
    var p := s.nodes[x];
    assert NodeOk(cfg, s.sent, p);
    QuorumArithmetic(cfg.n);
    var good := p.prepares - cfg.faulty;
    CorrectSources(cfg, p.prepares);
    var some := Outside(p.prepares, cfg.faulty);
    var _ := AcceptedPrepare(cfg, s, some, x);
    var f := s.first.value;
    CorrectCount(cfg);
    var y := Meet(f.ackers, good, Correct(cfg));
    var vec := AcceptedPrepare(cfg, s, y, x);
    assert InformOk(cfg, s.informed[f.node]);
    CoreThrough(f.core, vec, p.valid);
  }

  lemma CoreThrough(core: seq<int>, vec: seq<int>, valid: seq<int>)
    requires Included(core, vec) && Included(vec, valid) && Binary(vec)
    ensures Included(core, valid)
  {
  }

  lemma AcceptedPrepare(cfg: Config, s: Sys, y: int, x: int) returns (vec: seq<int>)
    requires Inv(cfg, s) && x in Correct(cfg) && y in s.nodes[x].prepares && y !in cfg.faulty
    ensures Prepare(y, vec) in s.sent && Included(vec, s.nodes[x].valid) && Binary(vec) && Covers(s.first, y, vec)
  {
    assert NodeOk(cfg, s.sent, s.nodes[x]);
    assert Accepted(cfg, s.sent, y, s.nodes[x].valid);
    vec :| Prepare(y, vec) in s.sent && Included(vec, s.nodes[x].valid);
    assert MsgOk(cfg, s, Prepare(y, vec));
  }

  lemma CorrectSources(cfg: Config, srcs: set<int>)
    requires forall y :: y in srcs ==> 0 <= y < cfg.n
    ensures srcs - cfg.faulty <= Correct(cfg) && |srcs - cfg.faulty| + |cfg.faulty| >= |srcs|
  {
  }

  lemma CorrectCount(cfg: Config)
    requires Sound(cfg)
    ensures |Correct(cfg)| == cfg.n - |cfg.faulty|
  {
  }

  /** Some correct node's gather has finished. */
  ghost predicate Finished(cfg: Config, s: Sys, x: int) {
    x in Correct(cfg) && |s.nodes| == cfg.n && s.nodes[x].final
  }

  /** Common core: in every run, whatever up to f Byzantine nodes do, one vector with a quorum of
      ones, the one that the first correct node to send PREPARE had informed the others of, is
      included in the vector of every correct node from the moment its gather has finished. */
  lemma CommonCore(cfg: Config, tr: seq<Sys>, z: int) returns (first: First)
    requires Sound(cfg) && Run(cfg, tr) && Finished(cfg, tr[|tr| - 1], z)
    ensures var s := tr[|tr| - 1];
      (s.first == Some(first) && first.node in Correct(cfg) && |s.informed| == cfg.n && s.informed[first.node] == Some(first.core))
    ensures |OnesAt(first.core)| >= Q(cfg.n)
    ensures forall i, x :: 0 <= i < |tr| && Finished(cfg, tr[i], x) ==> Included(first.core, tr[i].nodes[x].valid)
  {
    var last := |tr| - 1;
    RunKeeps(cfg, tr, last);
    FinishedIncludesCore(cfg, tr[last], z);
    first := tr[last].first.value;
    assert InformOk(cfg, tr[last].informed[first.node]);
    hide Inv, Run, OnesAt, Included, Correct;
    forall i, x | 0 <= i < |tr| && Finished(cfg, tr[i], x)
      ensures Included(first.core, tr[i].nodes[x].valid)
    {
      RunKeeps(cfg, tr, i);
      FinishedIncludesCore(cfg, tr[i], x);
      FirstStays(cfg, tr, i, last);
    }
  }

  /** A finished node has decided on a list that names a quorum of distinct sources. */
  lemma FinishedList(cfg: Config, tr: seq<Sys>, i: nat, x: int)
    requires Sound(cfg) && Run(cfg, tr) && i < |tr| && Finished(cfg, tr[i], x)
    ensures |(set y | y in tr[i].nodes[x].decided)| >= Q(cfg.n)
  {
    RunKeeps(cfg, tr, i);
    assert NodeOk(cfg, tr[i].sent, tr[i].nodes[x]);
  }
}
