/** Quorum sizes and per-key counters of distinct sources (src/quorum). */
module Quorum {
  import opened Sets

  // ---------------------------------------------------------------- sizes

  /** Go's integer division, which truncates toward zero. */
  function GoDiv(a: int, b: int): int
    requires b > 0
  {
    if a >= 0 then a / b else -((-a) / b)
  }

  function F(n: int): int {
    GoDiv(n - 1, 3)
  }

  function Q(n: int): int {
    var s := n + F(n) + 1;
    GoDiv(s, 2) + (if s > 0 && s % 2 > 0 then 1 else 0)
  }

  function SQ(n: int): int {
    F(n) + 1
  }

  /** What every protocol of the stack takes from the sizes, for each group of n >= 1 nodes. */
  lemma QuorumArithmetic(n: int)
    requires n >= 1
    ensures 0 <= 3 * F(n) < n <= 3 * F(n) + 3
    ensures SQ(n) == F(n) + 1
    ensures F(n) < SQ(n) <= Q(n) <= n - F(n)
    ensures n + F(n) < 2 * Q(n) <= n + F(n) + 2
    ensures Q(n) - F(n) >= SQ(n)
    ensures n - Q(n) <= Q(n) / 2
    ensures Q(n) + SQ(n) > n <==> n % 3 != 0
    ensures 3 * Q(n) > 2 * n <==> n % 3 != 0
  {
  }

  /** Any two quorums share f+1 nodes, so one of them is correct when at most f are not. */
  lemma QuorumsShareACorrectNode(n: nat, a: set<int>, b: set<int>, bad: set<int>) returns (x: int)
    requires n >= 1 && a <= Ids(n) && b <= Ids(n)
    requires |a| >= Q(n) && |b| >= Q(n) && |bad| <= F(n)
    ensures |a * b| >= SQ(n)
    ensures x in a && x in b && x !in bad
  {
    QuorumArithmetic(n);
    Overlap(a, b, Ids(n));
    x := Outside(a * b, bad);
  }

  // ------------------------------------------------------------- counters

  type Counter<!K> = map<K, set<int>>

  function At<K>(b: Counter<K>, key: K): set<int> {
    if key in b then b[key] else {}
  }

  function Insert<K>(b: Counter<K>, key: K, id: int): Counter<K> {
    b[key := At(b, key) + {id}]
  }

  function Len<K>(b: Counter<K>, key: K): nat {
    |At(b, key)|
  }

  function Drop<K>(b: Counter<K>, key: K): Counter<K> {
    b - {key}
  }

  datatype Op<K> = Add(key: K, id: int) | Clear(key: K)

  function Apply<K>(b: Counter<K>, op: Op<K>): Counter<K> {
    match op
    case Add(key, id) => Insert(b, key, id)
    case Clear(key) => Drop(b, key)
  }

  function Replay<K>(ops: seq<Op<K>>): Counter<K> {
    if ops == [] then map[] else Apply(Replay(ops[..|ops| - 1]), ops[|ops| - 1])
  }

  /** An insertion for a key makes its count one longer, or leaves the counter as it is, and touches
      no other key. */
  lemma InsertCount<K>(b: Counter<K>, key: K, id: int)
    ensures Len(Insert(b, key, id), key) == Len(b, key) + if id in At(b, key) then 0 else 1
    ensures id in At(b, key) ==> At(Insert(b, key, id), key) == At(b, key)
    ensures forall k :: k != key ==> Len(Insert(b, key, id), k) == Len(b, k)
  {
    assert At(Insert(b, key, id), key) == At(b, key) + {id};
    if id in At(b, key) {
      assert At(b, key) + {id} == At(b, key);
    }
  }

  /** The sources added for the key after the last time it was cleared. */
  ghost predicate AddedSinceClear<K(!new)>(ops: seq<Op<K>>, key: K, id: int) {
    exists i :: 0 <= i < |ops| && ops[i] == Add(key, id) && NotClearedAfter(ops, key, i)
  }

  ghost predicate NotClearedAfter<K(!new)>(ops: seq<Op<K>>, key: K, i: nat) {
    forall j :: i < j < |ops| ==> ops[j] != Clear(key)
  }

  /** Over every sequence of insertions and clears, a counter holds exactly the distinct
      sources seen since the last clear. */
  lemma {:induction false} CounterHoldsDistinctSources<K(!new)>(ops: seq<Op<K>>, key: K, id: int)
    ensures id in At(Replay(ops), key) <==> AddedSinceClear(ops, key, id)
  {
    if ops != [] {
      var k := |ops| - 1;
      var pre := ops[..k];
      CounterHoldsDistinctSources(pre, key, id);
      if AddedSinceClear(pre, key, id) && ops[k] != Clear(key) {
        var i :| 0 <= i < k && pre[i] == Add(key, id) && NotClearedAfter(pre, key, i);
        assert ops[i] == Add(key, id);
        forall j | i < j < |ops|
          ensures ops[j] != Clear(key)
        {
          assert j < k ==> ops[j] == pre[j];
        }
        assert NotClearedAfter(ops, key, i);
      }
      if ops[k] == Add(key, id) {
        assert NotClearedAfter(ops, key, k);
      }
      if AddedSinceClear(ops, key, id) && ops[k] != Add(key, id) {
        var i :| 0 <= i < |ops| && ops[i] == Add(key, id) && NotClearedAfter(ops, key, i);
        assert i < k && pre[i] == Add(key, id);
        forall j | i < j < |pre|
          ensures pre[j] != Clear(key)
        {
          assert pre[j] == ops[j];
        }
        assert NotClearedAfter(pre, key, i);
      }
    }
  }

  /** Only an insertion for its key makes a counter reach a threshold, and from one below. */
  lemma ReachedByInsertion<K(!new)>(b: Counter<K>, op: Op<K>, key: K, t: nat)
    requires Len(b, key) < t <= Len(Apply(b, op), key)
    ensures op.Add? && op.key == key && Len(b, key) == t - 1 && Len(Apply(b, op), key) == t
  {
    match op
    case Add(k, id) => InsertCount(b, k, id);
    case Clear(k) =>
  }

  lemma ReplayEnds<K(!new)>(ops: seq<Op<K>>, key: K)
    ensures ops == [] ==> Len(Replay(ops), key) == 0
    ensures ops != [] ==> Replay(ops) == Apply(Replay(ops[..|ops| - 1]), ops[|ops| - 1])
  {
  }

  /** A counter that reaches a positive threshold passed through it with an insertion for its key,
      so the test "exactly f+1" cannot be jumped over. */
  lemma {:induction false} ThresholdIsHitExactly<K(!new)>(ops: seq<Op<K>>, key: K, t: nat) returns (i: nat)
    requires t > 0 && Len(Replay(ops), key) >= t
    ensures i < |ops| && ops[i].Add? && ops[i].key == key
    ensures Len(Replay(ops[..i]), key) == t - 1
    ensures Len(Replay(ops[..i + 1]), key) == t
  {
    hide Len, Apply, Replay;
    ReplayEnds(ops, key);
    var k := |ops| - 1;
    var pre := ops[..k];
    if Len(Replay(pre), key) >= t {
      i := ThresholdIsHitExactly(pre, key, t);
      assert pre[..i] == ops[..i] && pre[..i + 1] == ops[..i + 1];
    } else {
      i := k;
      assert ops[..k + 1] == ops;
      ReachedByInsertion(Replay(pre), ops[k], key, t);
    }
  }

  datatype Stage = PP | CM | FW

  /** One BUFFER of the package: a map from a key to the set of sources. */
  class Buffer<K(==)> {
    var buffer: Counter<K>

    constructor ()
      ensures buffer == map[]
    {
      buffer := map[];
    }

    method Init()
      modifies this
      ensures buffer == map[]
    {
      buffer := map[];
    }

    method InsertValue(input: K, nid: int)
      modifies this
      ensures buffer == Insert(old(buffer), input, nid)
    {
      if input in buffer {
        var s := buffer[input];
        if |s| == 0 {
          s := {};
        }
        s := s + {nid};
        buffer := buffer[input := s];
      } else {
        var s := {nid};
        buffer := buffer[input := s];
        assert s == At(old(buffer), input) + {nid};
      }
    }

    method GetLen(input: K) returns (len: nat)
      ensures len == Len(buffer, input)
    {
      if input in buffer {
        return |buffer[input]|;
      }
      return 0;
    }

    method Clear(input: K)
      modifies this
      ensures buffer == Drop(old(buffer), input)
    {
      if input in buffer {
        buffer := buffer - {input};
      }
    }
  }

  /** The package variables of src/quorum/quorum.go: the sizes and one buffer per stage. */
  class Quorums<K(==)> {
    var n: int
    var f: int
    var quorum: int
    var squorum: int
    const buffer: Buffer<K>
    const bufferc: Buffer<K>
    const bufferd: Buffer<K>

    ghost predicate Valid()
      reads this
    {
      && buffer != bufferc && buffer != bufferd && bufferc != bufferd
      && f == F(n) && quorum == Q(n) && squorum == SQ(n)
    }

    ghost function Stages(): seq<Counter<K>>
      reads this, buffer, bufferc, bufferd
    {
      [buffer.buffer, bufferc.buffer, bufferd.buffer]
    }

    function Index(step: Stage): nat {
      match step case PP => 0 case CM => 1 case FW => 2
    }

    constructor (num: int)
      ensures Valid() && n == num && Stages() == [map[], map[], map[]]
      ensures fresh(buffer) && fresh(bufferc) && fresh(bufferd)
    {
      buffer := new Buffer();
      bufferc := new Buffer();
      bufferd := new Buffer();
      n := num;
      f, quorum, squorum := F(num), Q(num), SQ(num);
    }

    method SetQuorumSizes(num: int)
      modifies this
      ensures n == num && f == F(num) && quorum == Q(num) && squorum == SQ(num)
    {
      n := num;
      f := GoDiv(n - 1, 3);
      quorum := GoDiv(n + f + 1, 2);
      if n + f + 1 > 0 && (n + f + 1) % 2 > 0 {
        quorum := quorum + 1;
      }
      squorum := f + 1;
    }

    method StartQuorum(num: int)
      requires Valid()
      modifies this, buffer, bufferc, bufferd
      ensures Valid() && n == num && Stages() == [map[], map[], map[]]
    {
      SetQuorumSizes(num);
      bufferd.Init();
      bufferc.Init();
      buffer.Init();
    }

    method Add(id: int, hash: K, step: Stage)
      requires Valid()
      modifies buffer, bufferc, bufferd
      ensures Valid()
      ensures Stages() == old(Stages())[Index(step) := Insert(old(Stages())[Index(step)], hash, id)]
    {
      match step
      case PP => buffer.InsertValue(hash, id);
      case CM => bufferc.InsertValue(hash, id);
      case FW => bufferd.InsertValue(hash, id);
    }

    method ClearBuffer(input: K, step: Stage)
      requires Valid()
      modifies buffer, bufferc, bufferd
      ensures Valid()
      ensures Stages() == old(Stages())[Index(step) := Drop(old(Stages())[Index(step)], input)]
    {
      match step
      case PP => buffer.Clear(input);
      case CM => bufferc.Clear(input);
      case FW => bufferd.Clear(input);
    }

    method CheckQuorum(input: K, step: Stage) returns (b: bool)
      requires Valid()
      ensures b <==> |At(Stages()[Index(step)], input)| >= Q(n)
    {
      var len: nat;
      match step {
        case PP => len := buffer.GetLen(input);
        case CM => len := bufferc.GetLen(input);
        case FW => len := bufferd.GetLen(input);
      }
      b := len >= quorum;
    }

    method CheckSmallQuorum(input: K, step: Stage) returns (b: bool)
      requires Valid()
      ensures b <==> |At(Stages()[Index(step)], input)| >= F(n) + 1
    {
      var len: nat;
      match step {
        case PP => len := buffer.GetLen(input);
        case CM => len := bufferc.GetLen(input);
        case FW => len := bufferd.GetLen(input);
      }
      b := len >= squorum;
    }

    method CheckEqualSmallQuorum(input: K) returns (b: bool)
      requires Valid()
      ensures b <==> |At(Stages()[1], input)| == F(n) + 1
    {
      var len := bufferc.GetLen(input);
      b := len == squorum;
    }
  }
}
