/** The broadcast machine of src/broadcast/rbc and src/broadcast/wrbc at one node, for a single
    instance. The two packages differ only in what they store: rbc keeps the payload, wrbc keeps
    the hash and the vector of the SEND, which it checks once more when it delivers. */
module Bracha {
  import opened Wrappers
  import opened Quorum

  /** A payload or vector; None is nil. */
  type Body = Option<seq<int>>

  /** The hash function is injective: a digest determines the body it was made from. A message may
      also carry no hash at all, or bytes that are no digest. */
  datatype Hash = NoHash | Digest(body: Body) | Junk(tag: nat)

  datatype Msg =
    | Send(src: int, hash: Hash, body: Body)
    | Echo(src: int, hash: Hash, body: Body)
    | Ready(src: int, hash: Hash, body: Body)

  datatype Mode = Rbc | Wrbc

  const IDLE := 0
  const SEND := 1
  const ECHO := 2
  const READY := 3

  /** What receivedReq holds: the payload (rbc) or the hash (wrbc). */
  datatype Stored = Payload(body: Body) | Fingerprint(hash: Hash)

  datatype State = State(
    id: int,
    n: nat,
    mode: Mode,
    rstatus: bool,
    status: int,
    cache: int,
    echoes: Counter<Hash>,
    readies: Counter<Hash>,
    req: Option<Stored>,
    list: Body,
    out: seq<Msg>)

  function Initial(id: int, n: nat, mode: Mode): State {
    State(id, n, mode, false, IDLE, IDLE, map[], map[], None, None, [])
  }

  /** The node has stored something for the instance. */
  predicate Received(s: State) {
    s.req.Some?
  }

  /** Store on behalf of an ECHO or READY message, unless something is stored already. */
  function Receive(s: State, m: Msg): State {
    if Received(s) then s
    else s.(req := Some(if s.mode == Rbc then Payload(m.body) else Fingerprint(m.hash)))
  }

  /** Store on behalf of the SEND. */
  function ReceiveSend(s: State, m: Msg): State {
    if Received(s) then s
    else if s.mode == Rbc then s.(req := Some(Payload(m.body)))
    else s.(req := Some(Fingerprint(Digest(m.body))), list := m.body)
  }

  /** wrbc forgets the vector of the SEND when it does not match the delivered hash. */
  function CheckList(s: State, m: Msg): State {
    if s.mode == Wrbc && s.list != None && Digest(s.list) != m.hash then s.(list := None) else s
  }

  function Deliver(s: State, m: Msg): State {
    if s.status == ECHO then CheckList(Receive(s, m), m).(status := READY, rstatus := true)
    else s.(cache := READY)
  }

  function SendReady(s: State, m: Msg): State {
    if s.status == SEND then s.(status := ECHO, out := s.out + [Ready(s.id, m.hash, m.body)])
    else if s.cache == READY then Deliver(s.(status := ECHO), m)
    else s.(cache := ECHO)
  }

  function EchoOf(id: int, mode: Mode, m: Msg): Msg {
    Echo(id, Digest(m.body), if mode == Rbc then m.body else None)
  }

  function Resume(s: State, m: Msg, cached: int): State {
    var t := if cached >= ECHO then SendReady(s, m) else s;
    if cached == READY then Deliver(t, m) else t
  }

  function HandleSend(s: State, m: Msg): State {
    if s.rstatus then s
    else
      var t := ReceiveSend(s.(status := SEND), m);
      Resume(t.(out := t.out + [EchoOf(s.id, s.mode, m)]), m, s.cache)
  }

  function HandleEcho(s: State, m: Msg): State {
    if s.rstatus then s
    else
      var t := s.(echoes := Insert(s.echoes, m.hash, m.src));
      if Len(t.echoes, m.hash) >= Q(s.n) then SendReady(Receive(t, m), m) else t
  }

  function HandleReady(s: State, m: Msg): State {
    if s.rstatus then s
    else
      var t := s.(readies := Insert(s.readies, m.hash, m.src));
      var u := if Len(t.readies, m.hash) == SQ(s.n) then SendReady(Receive(t, m), m) else t;
      if Len(t.readies, m.hash) >= Q(s.n) then Deliver(u, m) else u
  }

  function Handle(s: State, m: Msg): State {
    match m
    case Send(_, _, _) => HandleSend(s, m)
    case Echo(_, _, _) => HandleEcho(s, m)
    case Ready(_, _, _) => HandleReady(s, m)
  }

  // ------------------------------------------------------------- the handlers

  /** The package variables of rbc (or wrbc), restricted to one instance. */
  class BroadcastNode {
    const id: int
    const n: nat
    const mode: Mode
    var rstatus: bool
    var instancestatus: int
    var cachestatus: int
    var echoes: Counter<Hash>
    var readies: Counter<Hash>
    var receivedReq: Option<Stored>
    var receivedList: Body
    var out: seq<Msg>
    // wrbc only: the current epoch, the external predicate, and the SENDs waiting for it
    var epoch: int
    var listed: bool
    var waiting: seq<Msg>

    ghost function View(): State
      reads this
    {
      State(id, n, mode, rstatus, instancestatus, cachestatus, echoes, readies, receivedReq, receivedList, out)
    }

    constructor InitRBC(thisid: int, numNodes: nat, m: Mode)
      ensures View() == Initial(thisid, numNodes, m) && waiting == [] && !listed
    {
      id, n, mode := thisid, numNodes, m;
      rstatus, instancestatus, cachestatus := false, IDLE, IDLE;
      echoes, readies, receivedReq, receivedList := map[], map[], None, None;
      out, epoch, listed, waiting := [], 0, false, [];
    }

    method QueryStatus() returns (b: bool)
      ensures b == View().rstatus
    {
      b := rstatus;
    }

    method Store(m: Msg)
      modifies this`receivedReq
      ensures View() == Receive(old(View()), m)
    {
      if receivedReq == None {
        if mode == Rbc {
          receivedReq := Some(Payload(m.body));
        } else {
          receivedReq := Some(Fingerprint(m.hash));
        }
      }
    }

    method DeliverNow(m: Msg)
      modifies this
      ensures View() == Deliver(old(View()), m)
      ensures unchanged(`epoch) && unchanged(`listed) && unchanged(`waiting)
    {
      if instancestatus == ECHO {
        Store(m);
        assert View() == Receive(old(View()), m);
        if mode == Wrbc && receivedList != None {
          var localhash := Digest(receivedList);
          if localhash != m.hash {
            receivedList := None;
          }
        }
        instancestatus := READY;
        rstatus := true;
      } else {
        cachestatus := READY;
      }
    }

    method BroadcastReady(m: Msg)
      modifies this
      ensures View() == SendReady(old(View()), m)
      ensures unchanged(`epoch) && unchanged(`listed) && unchanged(`waiting)
    {
      if instancestatus == SEND {
        instancestatus := ECHO;
        out := out + [Ready(id, m.hash, m.body)];
      } else if cachestatus == READY {
        instancestatus := ECHO;
        assert View() == old(View()).(status := ECHO);
        DeliverNow(m);
      } else {
        cachestatus := ECHO;
      }
    }

    method StoreSend(m: Msg)
      modifies this`receivedReq, this`receivedList
      ensures View() == ReceiveSend(old(View()), m)
    {
      if receivedReq == None {
        if mode == Rbc {
          receivedReq := Some(Payload(m.body));
        } else {
          receivedReq := Some(Fingerprint(Digest(m.body)));
          receivedList := m.body;
        }
      }
    }

    method OnSend(m: Msg)
      modifies this
      ensures View() == HandleSend(old(View()), m)
      ensures unchanged(`epoch) && unchanged(`listed) && unchanged(`waiting)
    {
      if rstatus {
        return;
      }
      instancestatus := SEND;
      assert View() == old(View()).(status := SEND);
      StoreSend(m);
      out := out + [EchoOf(id, mode, m)];
      var v := cachestatus;
      if v >= ECHO {
        BroadcastReady(m);
      }
      if v == READY {
        DeliverNow(m);
      }
    }

    method OnEcho(m: Msg)
      modifies this
      ensures View() == HandleEcho(old(View()), m)
      ensures unchanged(`epoch) && unchanged(`listed) && unchanged(`waiting)
    {
      if rstatus {
        return;
      }
      echoes := Insert(echoes, m.hash, m.src);
      assert View() == old(View()).(echoes := Insert(old(echoes), m.hash, m.src));
      if Len(echoes, m.hash) >= Q(n) {
        Store(m);
        BroadcastReady(m);
      }
    }

    method OnReady(m: Msg)
      modifies this
      ensures View() == HandleReady(old(View()), m)
      ensures unchanged(`epoch) && unchanged(`listed) && unchanged(`waiting)
    {
      if rstatus {
        return;
      }
      readies := Insert(readies, m.hash, m.src);
      var count := Len(readies, m.hash);
      assert View() == old(View()).(readies := Insert(old(readies), m.hash, m.src));
      if count == SQ(n) {
        Store(m);
        BroadcastReady(m);
      }
      if count >= Q(n) {
        DeliverNow(m);
      }
    }

    /** wrbc's HandleSend: a SEND of another epoch is dropped, and one that the external predicate
        does not admit yet waits. */
    method OnWrbcSend(m: Msg, mepoch: int)
      requires mode == Wrbc && m.Send?
      modifies this
      ensures View() == if !old(rstatus) && old(epoch) == mepoch && old(listed) then HandleSend(old(View()), m) else old(View())
      ensures waiting == old(waiting) + if !old(rstatus) && old(epoch) == mepoch && !old(listed) then [m] else []
    {
      if rstatus {
        return;
      }
      if epoch != mepoch {
        return;
      }
      if !listed {
        waiting := waiting + [m];
        return;
      }
      OnSend(m);
    }
  }
}
