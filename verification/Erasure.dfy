/** The erasure-coded broadcast's split and join (src/broadcast/ecrbc/handler.go). The Reed-Solomon
    library is a parameter with the contract a coding library gives. */
module Erasure {
  import opened Wrappers
  import opened Sets

  // ---------------------------------------------------------- the library

  /** What the code uses of the library: whether it supports so many data and parity shards, the parity
      shards of some data shards, and the full list of shards made up from those present. The empty
      sequence stands for a missing shard. */
  datatype Code = Code(
    supports: (nat, nat) -> bool,
    encode: (seq<seq<Byte>>, nat) -> Option<seq<seq<Byte>>>,
    reconstruct: (seq<seq<Byte>>, nat) -> Option<seq<seq<Byte>>>)

  function Present(shards: seq<seq<Byte>>): set<int> {
    set i | 0 <= i < |shards| && shards[i] != []
  }

  /** Some shards of a word, at least s of them, each in its place. */
  predicate PartOf(shards: seq<seq<Byte>>, word: seq<seq<Byte>>, s: nat) {
    && |shards| == |word| && |Present(shards)| >= s
    && forall i :: 0 <= i < |word| ==> shards[i] == [] || shards[i] == word[i]
  }

  predicate Even(shards: seq<seq<Byte>>, size: nat) {
    forall i :: 0 <= i < |shards| ==> |shards[i]| == size
  }

  /** The library's contract: only non-empty shards of one length are encoded, and any s shards of a
      word of s data shards give the whole word back. */
  ghost predicate ReedSolomon(code: Code) {
    && (forall data, k :: |data| > 0 && code.encode(data, k).Some? ==>
      |code.encode(data, k).value| == k && |data[0]| > 0 && Even(data + code.encode(data, k).value, |data[0]|))
    && (forall data, k, shards :: |data| > 0 && code.encode(data, k).Some? && PartOf(shards, data + code.encode(data, k).value, |data|) ==>
      code.reconstruct(shards, |data|) == Some(data + code.encode(data, k).value))
    && (forall shards, s :: code.reconstruct(shards, s).Some? ==> |code.reconstruct(shards, s).value| == |shards|)
  }

  // -------------------------------------------------------- cut and join

  function Zeros(k: nat): (z: seq<Byte>)
    ensures |z| == k
  {
    seq(k, _ => 0)
  }

  /** The input without its trailing zeros. */
  function Strip(x: seq<Byte>): seq<Byte> {
    if x == [] || x[|x| - 1] != 0 then x else Strip(x[..|x| - 1])
  }

  function Concat(shards: seq<seq<Byte>>): seq<Byte> {
    if shards == [] then [] else Concat(shards[..|shards| - 1]) + shards[|shards| - 1]
  }

  /** The padding appends as many zeros as the remainder, not as many as are missing. */
  function Padded(x: seq<Byte>, size: nat): seq<Byte> {
    if size == 0 then x else x + Zeros(|x| % size)
  }

  function ShardSize(x: seq<Byte>, s: nat): nat
    requires s > 0
  {
    |Padded(x, s)| / s
  }

  function Times(a: nat, b: nat): nat {
    a * b
  }

  /** The first k pieces of length p. */
  function Pieces(x: seq<Byte>, p: nat, k: nat): (r: seq<seq<Byte>>)
    requires Times(k, p) <= |x|
    ensures |r| == k
    decreases k
  {
    if k == 0 then []
    else
      TimesStep(k - 1, p);
      Pieces(x, p, k - 1) + [x[Times(k - 1, p)..Times(k, p)]]
  }

  lemma TimesStep(k: nat, p: nat)
    ensures Times(k + 1, p) == Times(k, p) + p
  {
  }

  lemma TimesMono(j: nat, k: nat, p: nat)
    requires j <= k
    ensures Times(j, p) <= Times(k, p)
  {
  }

  /** Joining the pieces gives back what was cut. */
  lemma {:induction false} JoinPieces(x: seq<Byte>, p: nat, k: nat)
    requires Times(k, p) <= |x|
    ensures Concat(Pieces(x, p, k)) == x[..Times(k, p)]
  {
    if k == 0 {
      assert Times(0, p) == 0;
    } else {
      TimesStep(k - 1, p);
      hide Times;
      var piece, rest := x[Times(k - 1, p)..Times(k, p)], Pieces(x, p, k - 1);
      JoinPieces(x, p, k - 1);
      assert Pieces(x, p, k) == rest + [piece];
      ConcatLast(rest, piece);
      assert x[..Times(k, p)] == x[..Times(k - 1, p)] + piece;
    }
  }

  lemma ConcatLast(shards: seq<seq<Byte>>, last: seq<Byte>)
    ensures Concat(shards + [last]) == Concat(shards) + last
  {
  }

  lemma ShardsFit(x: seq<Byte>, s: nat)
    requires s > 0
    ensures Times(s, ShardSize(x, s)) <= |Padded(x, s)|
  {
  }

  // ------------------------------------------------------------- the code

  class Buffer {
    var data: seq<Byte>

    constructor (input: seq<Byte>)
      ensures data == input
    {
      data := input;
    }
  }

  method PaddingInput(input: Buffer, size: nat)
    modifies input
    ensures input.data == Padded(old(input.data), size)
  {
    if size == 0 {
      return;
    }
    var initLen := |input.data|;
    var remainder := initLen % size;
    if remainder == 0 {
      assert input.data + Zeros(0) == input.data;
      return;
    } else {
      var ending := Zeros(remainder);
      input.data := input.data + ending;
    }
  }

  /** The data shards of an input. */
  function DataShards(x: seq<Byte>, s: nat): (r: seq<seq<Byte>>)
    requires s > 0
    ensures |r| == s
  {
    ShardsFit(x, s);
    Pieces(Padded(x, s), ShardSize(x, s), s)
  }

  lemma {:induction false} PieceAt(x: seq<Byte>, p: nat, k: nat, i: nat)
    requires Times(k, p) <= |x| && i < k
    ensures Times(i, p) <= Times(i + 1, p) <= |x| && Pieces(x, p, k)[i] == x[Times(i, p)..Times(i + 1, p)]
  {
    TimesStep(k - 1, p);
    TimesMono(i + 1, k, p);
    TimesStep(i, p);
    hide Times;
    if i < k - 1 {
      PieceAt(x, p, k - 1, i);
    }
  }

  /** Data shard i holds the bytes from i*p on of the input with its padding, p being the shard length, which is
      the whole number of times that the shards fit into it. */
  lemma ShardHolds(x: seq<Byte>, s: nat, i: nat, j: nat)
    requires i < s && j < ShardSize(x, s)
    ensures |DataShards(x, s)[i]| == ShardSize(x, s) && i * ShardSize(x, s) + j < |x| + |x| % s
    ensures DataShards(x, s)[i][j] == var at := i * ShardSize(x, s) + j; if at < |x| then x[at] else 0
  {
    var p := ShardSize(x, s);
    ShardsFit(x, s);
    PieceAt(Padded(x, s), p, s, i);
    TimesStep(i, p);
    assert Times(i, p) == i * p;
    hide Times, ShardSize, Pieces;
  }

  predicate Encodable(code: Code, x: seq<Byte>, s: nat, t: nat) {
    0 < s <= t && code.supports(s, t - s) && code.encode(DataShards(x, s), t - s).Some?
  }

  /** All shards of an input: the data shards and the parity shards the library makes from them. */
  function Codeword(code: Code, x: seq<Byte>, s: nat, t: nat): seq<seq<Byte>>
    requires Encodable(code, x, s, t)
  {
    DataShards(x, s) + code.encode(DataShards(x, s), t - s).value
  }

  /** Pads the input, cuts it into data shards and has the library add the parity shards; it fails for
      zero data shards and where the library refuses. */
  method ErasureEncoding(code: Code, input: seq<Byte>, dataShards: nat, totalShards: nat) returns (data: array<seq<Byte>>, ok: bool)
    requires ReedSolomon(code)
    ensures ok <==> Encodable(code, input, dataShards, totalShards)
    ensures ok ==> data[..] == Codeword(code, input, dataShards, totalShards)
  {
    hide ReedSolomon;
    if dataShards == 0 || totalShards < dataShards || !code.supports(dataShards, totalShards - dataShards) {
      data := new seq<Byte>[0];
      return data, false;
    }
    var buffer := new Buffer(input);
    PaddingInput(buffer, dataShards);
    data := Cut(buffer.data, input, dataShards, totalShards);
    var parity := code.encode(data[..dataShards], totalShards - dataShards);
    if parity == None {
      return data, false;
    }
    ParityLength(code, data[..dataShards], totalShards - dataShards);
    forall i | 0 <= i < |parity.value| {
      data[dataShards + i] := parity.value[i];
    }
    ok := true;
    assert data[..] == DataShards(input, dataShards) + parity.value;
  }

  lemma ParityLength(code: Code, data: seq<seq<Byte>>, k: nat)
    requires ReedSolomon(code) && |data| > 0 && code.encode(data, k).Some?
    ensures |code.encode(data, k).value| == k && |data[0]| > 0 && Even(data + code.encode(data, k).value, |data[0]|)
  {
  }

  /** The loop that cuts the padded input into the data shards, with room for the parity shards. */
  method Cut(padded: seq<Byte>, ghost input: seq<Byte>, dataShards: nat, totalShards: nat) returns (data: array<seq<Byte>>)
    requires 0 < dataShards <= totalShards && padded == Padded(input, dataShards)
    ensures data.Length == totalShards && fresh(data)
    ensures data[..dataShards] == DataShards(input, dataShards)
  {
    ShardsFit(input, dataShards);
    data := new seq<Byte>[totalShards];
    var paritySize := |padded| / dataShards;
    assert paritySize == ShardSize(input, dataShards);
    hide Times, ShardSize, Padded;
    TimesZero(paritySize);
    for i := 0 to totalShards
      invariant i <= dataShards ==> Times(i, paritySize) <= |padded| && data[..i] == Pieces(padded, paritySize, i)
      invariant i > dataShards ==> data[..dataShards] == Pieces(padded, paritySize, dataShards)
    {
      data[i] := Zeros(paritySize);
      if i < dataShards {
        TimesStep(i, paritySize);
        TimesMono(i + 1, dataShards, paritySize);
        data[i] := padded[Times(i, paritySize)..Times(i + 1, paritySize)];
        assert data[..i + 1] == data[..i] + [data[i]];
      }
    }
  }

  lemma TimesZero(p: nat)
    ensures Times(0, p) == 0
  {
  }

  /** The full list of shards that the library makes of those at hand, or None where it fails. */
  function Filled(code: Code, shards: seq<seq<Byte>>, s: nat): Option<seq<seq<Byte>>> {
    if s == 0 || |shards| < s || !code.supports(s, |shards| - s) then None else code.reconstruct(shards, s)
  }

  /** What the shards at hand decode to; nothing where the library fails. */
  function Decoded(code: Code, shards: seq<seq<Byte>>, s: nat): seq<Byte> {
    match Filled(code, shards, s)
    case None => []
    case Some(word) => if |word| < s then [] else Strip(Concat(word[..s]))
  }

  /** Has the library fill in the missing shards, joins the data shards and drops the trailing zeros.
      Both callers use f+1 as the number of data shards. */
  method DecodeData(code: Code, data: array<seq<Byte>>, dataShards: nat) returns (entire: seq<Byte>)
    requires ReedSolomon(code)
    modifies data
    ensures entire == Decoded(code, old(data[..]), dataShards)
    ensures data[..] == if Filled(code, old(data[..]), dataShards).Some? then Filled(code, old(data[..]), dataShards).value else old(data[..])
  {
    if dataShards == 0 || data.Length < dataShards || !code.supports(dataShards, data.Length - dataShards) {
      return [];
    }
    var word := code.reconstruct(data[..], dataShards);
    assert word == Filled(code, old(data[..]), dataShards);
    if word == None {
      return [];
    }
    assert |word.value| == data.Length;
    forall i | 0 <= i < data.Length {
      data[i] := word.value[i];
    }
    assert data[..] == word.value;
    entire := [];
    for i := 0 to dataShards
      invariant data[..] == word.value
      invariant entire == Concat(word.value[..i])
    {
      entire := entire + data[i];
      assert word.value[..i + 1][..i] == word.value[..i];
    }
    while true
      invariant data[..] == word.value
      invariant Strip(entire) == Strip(Concat(word.value[..dataShards]))
      decreases |entire|
    {
      if |entire| == 0 {
        return [];
      }
      if entire[|entire| - 1] == 0 {
        entire := entire[..|entire| - 1];
      } else {
        return;
      }
    }
  }

  /** All senders are nodes 0, ..., t-1. */
  predicate InRange(ids: seq<int>, t: nat) {
    forall k :: 0 <= k < |ids| ==> 0 <= ids[k] < t
  }

  /** Each fragment in the place of its sender, a later one replacing an earlier one. */
  function Placed(ids: seq<int>, frags: seq<seq<Byte>>, t: nat): (r: seq<seq<Byte>>)
    requires |ids| == |frags| && InRange(ids, t)
    ensures |r| == t
  {
    if ids == [] then seq(t, _ => [])
    else Placed(ids[..|ids| - 1], frags[..|ids| - 1], t)[ids[|ids| - 1] := frags[|ids| - 1]]
  }

  /** The fragments received so far, decoded. */
  method ErasureDecoding(code: Code, ids: seq<int>, frags: seq<seq<Byte>>, dataShards: nat, totalShards: nat)
    returns (data: array<seq<Byte>>, entire: seq<Byte>)
    requires ReedSolomon(code) && |ids| == |frags| && InRange(ids, totalShards)
    ensures data.Length == totalShards && entire == Decoded(code, Placed(ids, frags, totalShards), dataShards)
    ensures var shards := Placed(ids, frags, totalShards); data[..] == if Filled(code, shards, dataShards).Some? then Filled(code, shards, dataShards).value else shards
  {
    hide ReedSolomon, Decoded, Filled;
    data := new seq<Byte>[totalShards](_ => []);
    assert data[..] == Placed(ids[..0], frags[..0], totalShards);
    for k := 0 to |ids|
      invariant data[..] == Placed(ids[..k], frags[..k], totalShards)
    {
      data[ids[k]] := frags[k];
      assert ids[..k + 1][..k] == ids[..k] && frags[..k + 1][..k] == frags[..k];
    }
    assert ids[..|ids|] == ids && frags[..|ids|] == frags;
    entire := DecodeData(code, data, dataShards);
  }

  // ----------------------------------------------------------- round trip

  /** What the data shards of x decode to. */
  function Recovered(x: seq<Byte>, s: nat): seq<Byte>
    requires s > 0
  {
    Strip(Concat(DataShards(x, s)))
  }

  /** The remainder of the padding is large enough to make up one more byte per shard. */
  predicate PaddingReaches(length: nat, s: nat)
    requires s > 0
  {
    length % s == 0 || 2 * (length % s) >= s
  }

  lemma ShardSizeExact(x: seq<Byte>, s: nat)
    requires s > 0
    ensures ShardSize(x, s) == |x| / s + if 2 * (|x| % s) >= s then 1 else 0
  {
    var q, r := |x| / s, |x| % s;
    var l := |Padded(x, s)|;
    assert |x| == s * q + r && l == s * q + 2 * r;
    if 2 * r >= s {
      Quotient(l, s, q + 1, 2 * r - s);
    } else {
      Quotient(l, s, q, 2 * r);
    }
  }

  lemma Quotient(l: nat, s: nat, q: nat, r: nat)
    requires s > 0 && l == s * q + r && r < s
    ensures l / s == q
  {
    var e := l / s - q;
    assert l == s * (l / s) + l % s;
    assert s * e == r - l % s;
    Far(s, e);
  }

  lemma Far(s: int, e: int)
    requires s > 0
    ensures e >= 1 ==> s * e >= s
    ensures e <= -1 ==> s * e <= -s
  {
  }

  lemma {:induction false} StripZeros(x: seq<Byte>, k: nat)
    ensures Strip(x + Zeros(k)) == Strip(x)
  {
    if k > 0 {
      var y := x + Zeros(k);
      assert y[..|y| - 1] == x + Zeros(k - 1);
      StripZeros(x, k - 1);
    } else {
      assert x + Zeros(0) == x;
    }
  }

  /** Strip removes exactly the zeros at the end. */
  lemma {:induction false} StripSpec(x: seq<Byte>)
    ensures Strip(x) <= x
    ensures forall i :: |Strip(x)| <= i < |x| ==> x[i] == 0
    ensures Strip(x) == [] || Strip(x)[|Strip(x)| - 1] != 0
  {
    if x != [] && x[|x| - 1] == 0 {
      StripSpec(x[..|x| - 1]);
    }
  }

  /** How many bytes of the input survive the cut. */
  function Kept(length: nat, s: nat): nat
    requires s > 0
  {
    if PaddingReaches(length, s) then length else length - length % s
  }

  lemma CutLength(x: seq<Byte>, s: nat)
    requires s > 0
    ensures Times(s, ShardSize(x, s)) == |x| - |x| % s + if 2 * (|x| % s) >= s then s else 0
  {
    ShardSizeExact(x, s);
    assert |x| == s * (|x| / s) + |x| % s;
    hide ShardSize;
    if 2 * (|x| % s) >= s {
      assert s * (|x| / s + 1) == s * (|x| / s) + s;
    }
  }

  lemma DataRoundTrip(x: seq<Byte>, s: nat)
    requires s > 0
    ensures Recovered(x, s) == Strip(x[..Kept(|x|, s)])
  {
    var r, p, y := |x| % s, ShardSize(x, s), Padded(x, s);
    ShardsFit(x, s);
    JoinPieces(y, p, s);
    CutLength(x, s);
    hide Times, ShardSize, Strip, Concat, Pieces;
    if 2 * r >= s {
      assert y[..Times(s, p)] == x + Zeros(s - r);
      StripZeros(x, s - r);
      assert x[..|x|] == x;
    } else {
      assert y[..Times(s, p)] == x[..|x| - r];
    }
  }

  /** Every shard has at least one byte exactly when the input has half a byte per data shard. */
  lemma ShardSizePositive(x: seq<Byte>, s: nat)
    requires s > 0
    ensures ShardSize(x, s) > 0 <==> 2 * |x| >= s
  {
    ShardSizeExact(x, s);
    hide ShardSize;
    if |x| < s {
      Quotient(|x|, s, 0, |x|);
      assert |x| % s == |x|;
    } else if |x| / s == 0 {
      assert |x| == s * 0 + |x| % s;
    }
  }

  /** A shorter input, and with it the empty one, is refused. */
  lemma ShortInputsAreRefused(code: Code, x: seq<Byte>, s: nat, t: nat)
    requires ReedSolomon(code) && Encodable(code, x, s, t)
    ensures 2 * |x| >= s
  {
    var data := DataShards(x, s);
    ParityLength(code, data, t - s);
    PieceLength(Padded(x, s), ShardSize(x, s), s, 0);
    hide *;
    ShardSizePositive(x, s);
  }

  lemma {:induction false} PieceLength(x: seq<Byte>, p: nat, k: nat, i: nat)
    requires Times(k, p) <= |x| && i < k
    ensures |Pieces(x, p, k)[i]| == p
  {
    TimesStep(k - 1, p);
    if i < k - 1 {
      PieceLength(x, p, k - 1, i);
    }
  }

  // ------------------------------------------------- from any s fragments

  function Senders(ids: seq<int>): set<int> {
    set i | i in ids
  }

  /** Every fragment is the shard of its node. */
  predicate Fragments(word: seq<seq<Byte>>, ids: seq<int>, frags: seq<seq<Byte>>) {
    |ids| == |frags| && forall k :: 0 <= k < |ids| ==> 0 <= ids[k] < |word| && frags[k] == word[ids[k]]
  }

  /** Fragments of the word of x from at least s different nodes, in any order and with repeats. */
  predicate FragmentsOf(code: Code, x: seq<Byte>, s: nat, t: nat, ids: seq<int>, frags: seq<seq<Byte>>) {
    && Encodable(code, x, s, t) && |Senders(ids)| >= s
    && InRange(ids, t) && Fragments(Codeword(code, x, s, t), ids, frags)
  }

  lemma {:induction false} PlacedAt(word: seq<seq<Byte>>, ids: seq<int>, frags: seq<seq<Byte>>, i: nat)
    requires Fragments(word, ids, frags) && i < |word|
    ensures Placed(ids, frags, |word|)[i] == if i in ids then word[i] else []
  {
    if ids != [] {
      var l := |ids| - 1;
      PlacedAt(word, ids[..l], frags[..l], i);
      assert ids == ids[..l] + [ids[l]];
    }
  }

  /** A shard is at hand exactly when its node has sent it, and then it is the right one. */
  predicate SentShards(shards: seq<seq<Byte>>, word: seq<seq<Byte>>, ids: seq<int>) {
    |shards| == |word| && forall i :: 0 <= i < |word| ==> shards[i] == if i in ids then word[i] else []
  }

  lemma PlacedAreSent(word: seq<seq<Byte>>, ids: seq<int>, frags: seq<seq<Byte>>)
    requires Fragments(word, ids, frags)
    ensures SentShards(Placed(ids, frags, |word|), word, ids)
  {
    var shards := Placed(ids, frags, |word|);
    forall i | 0 <= i < |word|
      ensures shards[i] == if i in ids then word[i] else []
    {
      PlacedAt(word, ids, frags, i);
    }
    hide Placed;
  }

  lemma SendersPresent(shards: seq<seq<Byte>>, word: seq<seq<Byte>>, ids: seq<int>)
    requires SentShards(shards, word, ids) && InRange(ids, |word|) && forall i :: 0 <= i < |word| ==> |word[i]| > 0
    ensures |Senders(ids)| <= |Present(shards)|
  {
    forall i | i in Senders(ids)
      ensures i in Present(shards)
    {
      assert |shards[i]| > 0;
    }
    SubsetCard(Senders(ids), Present(shards));
  }

  lemma SentArePart(shards: seq<seq<Byte>>, word: seq<seq<Byte>>, ids: seq<int>, s: nat)
    requires SentShards(shards, word, ids) && |Present(shards)| >= s
    ensures PartOf(shards, word, s)
  {
    hide Present;
  }

  lemma PlacedIsPart(word: seq<seq<Byte>>, ids: seq<int>, frags: seq<seq<Byte>>, s: nat)
    requires Fragments(word, ids, frags) && InRange(ids, |word|)
    requires |Senders(ids)| >= s && forall i :: 0 <= i < |word| ==> |word[i]| > 0
    ensures PartOf(Placed(ids, frags, |word|), word, s)
  {
    PlacedAreSent(word, ids, frags);
    hide *;
    SendersPresent(Placed(ids, frags, |word|), word, ids);
    SentArePart(Placed(ids, frags, |word|), word, ids, s);
  }

  /** Any s fragments give the whole word, so every node also has its own fragment to send on. */
  lemma AnyFragmentsDecode(code: Code, x: seq<Byte>, s: nat, t: nat, ids: seq<int>, frags: seq<seq<Byte>>)
    requires ReedSolomon(code) && FragmentsOf(code, x, s, t, ids, frags)
    ensures Filled(code, Placed(ids, frags, t), s) == Some(Codeword(code, x, s, t))
    ensures Decoded(code, Placed(ids, frags, t), s) == Recovered(x, s)
  {
    hide Strip, Concat, DataShards, Senders;
    var data := DataShards(x, s);
    var word := Codeword(code, x, s, t);
    ParityLength(code, data, t - s);
    PlacedIsPart(word, ids, frags, s);
    assert word[..s] == data;
  }

  /** The exact round trip: whatever s fragments arrive, decoding returns the input without trailing
      zeros when the remainder is zero or at least half a row, and otherwise the first s * (L / s) bytes
      without trailing zeros. */
  lemma RoundTrip(code: Code, x: seq<Byte>, s: nat, t: nat, ids: seq<int>, frags: seq<seq<Byte>>)
    requires ReedSolomon(code) && FragmentsOf(code, x, s, t, ids, frags)
    ensures Decoded(code, Placed(ids, frags, t), s) == Strip(x[..Kept(|x|, s)])
  {
    hide *;
    EncodableHasShards(code, x, s, t, ids, frags);
    AnyFragmentsDecode(code, x, s, t, ids, frags);
    DataRoundTrip(x, s);
  }

  lemma EncodableHasShards(code: Code, x: seq<Byte>, s: nat, t: nat, ids: seq<int>, frags: seq<seq<Byte>>)
    requires FragmentsOf(code, x, s, t, ids, frags)
    ensures 0 < s <= t && |ids| == |frags| && InRange(ids, t)
  {
  }

  /** No byte is cut off, or the bytes that are cut off are all zero. */
  predicate NothingLost(x: seq<Byte>, s: nat)
    requires s > 0
  {
    PaddingReaches(|x|, s) || forall i :: |x| - |x| % s <= i < |x| ==> x[i] == 0
  }

  lemma StripLonger(x: seq<Byte>, k: nat, i: nat)
    requires k <= i < |x| && x[i] != 0
    ensures |Strip(x)| > k && Strip(x) != Strip(x[..k])
  {
    StripSpec(x);
    StripSpec(x[..k]);
  }

  lemma StripShorter(x: seq<Byte>, k: nat)
    requires k <= |x| && forall i :: k <= i < |x| ==> x[i] == 0
    ensures Strip(x) == Strip(x[..k])
  {
    assert x == x[..k] + Zeros(|x| - k);
    StripZeros(x[..k], |x| - k);
  }

  /** So decoding gives the input without trailing zeros if and only if the remainder is zero or at
      least half a row, or the bytes that were cut off were all zero. */
  lemma RoundTripExactly(code: Code, x: seq<Byte>, s: nat, t: nat, ids: seq<int>, frags: seq<seq<Byte>>)
    requires ReedSolomon(code) && FragmentsOf(code, x, s, t, ids, frags)
    ensures Decoded(code, Placed(ids, frags, t), s) == Strip(x) <==> NothingLost(x, s)
  {
    RoundTrip(code, x, s, t, ids, frags);
    EncodableHasShards(code, x, s, t, ids, frags);
    hide Decoded, Strip, FragmentsOf, ReedSolomon, Placed;
    var k := Kept(|x|, s);
    if PaddingReaches(|x|, s) {
      assert x[..k] == x;
    } else if i :| k <= i < |x| && x[i] != 0 {
      StripLonger(x, k, i);
    } else {
      StripShorter(x, k);
    }
  }

  /** And it gives the input itself if and only if the padding reaches and the input does not end in a
      zero. */
  lemma RoundTripIsIdentity(code: Code, x: seq<Byte>, s: nat, t: nat, ids: seq<int>, frags: seq<seq<Byte>>)
    requires ReedSolomon(code) && FragmentsOf(code, x, s, t, ids, frags)
    ensures |x| > 0
    ensures Decoded(code, Placed(ids, frags, t), s) == x <==> PaddingReaches(|x|, s) && x[|x| - 1] != 0
  {
    RoundTrip(code, x, s, t, ids, frags);
    EncodableHasShards(code, x, s, t, ids, frags);
    ShortInputsAreRefused(code, x, s, t);
    hide Decoded, ReedSolomon, Placed;
    var k := Kept(|x|, s);
    StripSpec(x[..k]);
    StripSpec(x);
    if PaddingReaches(|x|, s) {
      assert x[..k] == x;
    }
  }
}
