/** The byte forms of integers and integer vectors (src/utils/utils.go). */
module Codec {

  import opened Wrappers

  const TWO_32: int := 0x1_0000_0000
  const TWO_31: int := 0x8000_0000
  const TWO_64: int := 0x1_0000_0000_0000_0000
  const TWO_63: int := 0x8000_0000_0000_0000

  predicate Int32(i: int) {
    -TWO_31 <= i < TWO_31
  }

  predicate Int64(i: int) {
    -TWO_63 <= i < TWO_63
  }

  /** The signed number with the given low bits: the conversions int32(i) and int64(i). */
  function Signed(u: int, half: int): int {
    if u < half then u else u - 2 * half
  }

  // ---------------------------------------------------- 32-bit, little-endian

  function Write32(i: int): (b: seq<Byte>)
    ensures |b| == 4
  {
    var u := i % TWO_32;
    [u % 256, u / 256 % 256, u / 256 / 256 % 256, u / 256 / 256 / 256]
  }

  function Unsigned32(b: seq<Byte>): int
    requires |b| == 4
  {
    (b[0] as int) + 256 * ((b[1] as int) + 256 * ((b[2] as int) + 256 * (b[3] as int)))
  }

  function Read32(b: seq<Byte>): int
    requires |b| == 4
  {
    Signed(Unsigned32(b), TWO_31)
  }

  lemma LowByte(b: int, rest: int)
    requires 0 <= b < 256
    ensures (b + 256 * rest) % 256 == b && (b + 256 * rest) / 256 == rest
  {
  }

  lemma ReadWrite32(i: int)
    ensures Read32(Write32(i)) == Signed(i % TWO_32, TWO_31)
    ensures Read32(Write32(i)) == i <==> Int32(i)
  {
  }

  lemma WriteRead32(b: seq<Byte>)
    requires |b| == 4
    ensures Write32(Read32(b)) == b && Int32(Read32(b))
  {
    var z: int := b[3];
    var y, x: int := (b[2] as int) + 256 * z, (b[1] as int) + 256 * ((b[2] as int) + 256 * z);
    LowByte(b[0], x);
    LowByte(b[1], y);
    LowByte(b[2], z);
    assert Unsigned32(b) == b[0] + 256 * x;
    SignedLow(Unsigned32(b));
  }

  lemma SignedLow(u: int)
    requires 0 <= u < TWO_32
    ensures Signed(u, TWO_31) % TWO_32 == u && Int32(Signed(u, TWO_31))
  {
  }

  function Encoded(ints: seq<int>): seq<Byte> {
    if ints == [] then [] else Encoded(ints[..|ints| - 1]) + Write32(ints[|ints| - 1])
  }

  function Decoded(data: seq<Byte>): (r: seq<int>)
    ensures |r| == |data| / 4
  {
    seq(|data| / 4, i requires 0 <= i < |data| / 4 => Read32(data[4 * i..4 * i + 4]))
  }

  method IntsToBytes(ints: seq<int>) returns (buf: seq<Byte>)
    ensures buf == Encoded(ints)
  {
    buf := [];
    for i := 0 to |ints|
      invariant buf == Encoded(ints[..i])
    {
      buf := buf + Write32(ints[i]);
      assert ints[..i + 1][..i] == ints[..i];
    }
    assert ints[..|ints|] == ints;
  }

  method BytesToInts(data: seq<Byte>) returns (ints: array<int>)
    ensures ints[..] == Decoded(data)
  {
    ints := new int[|data| / 4];
    var buf := data;
    for i := 0 to ints.Length
      invariant buf == data[4 * i..]
      invariant ints[..i] == Decoded(data)[..i]
    {
      ints[i] := Read32(buf[..4]);
      assert buf[..4] == data[4 * i..4 * i + 4];
      buf := buf[4..];
      assert ints[..i + 1] == ints[..i] + [ints[i]];
    }
    assert ints[..ints.Length] == ints[..];
    assert Decoded(data)[..ints.Length] == Decoded(data);
  }

  lemma {:induction false} EncodedLength(ints: seq<int>)
    ensures |Encoded(ints)| == 4 * |ints|
  {
    if ints != [] {
      EncodedLength(ints[..|ints| - 1]);
    }
  }

  lemma {:induction false} EncodedAt(ints: seq<int>, i: nat)
    requires i < |ints|
    ensures |Encoded(ints)| == 4 * |ints| && Encoded(ints)[4 * i..4 * i + 4] == Write32(ints[i])
  {
    var m := |ints| - 1;
    EncodedLength(ints);
    EncodedLength(ints[..m]);
    var last := Write32(ints[m]);
    if i < m {
      EncodedAt(ints[..m], i);
      assert Encoded(ints)[4 * i..4 * i + 4] == Encoded(ints[..m])[4 * i..4 * i + 4];
    } else {
      assert Encoded(ints)[4 * m..4 * m + 4] == last;
    }
  }

  /** Decoding an encoded vector gives each entry cut to 32 bits, so the vector itself exactly when
      every entry is a 32-bit number. */
  lemma IntsRoundTrip(ints: seq<int>)
    ensures |Decoded(Encoded(ints))| == |ints|
    ensures forall i :: 0 <= i < |ints| ==> Decoded(Encoded(ints))[i] == Signed(ints[i] % TWO_32, TWO_31)
    ensures Decoded(Encoded(ints)) == ints <==> forall i :: 0 <= i < |ints| ==> Int32(ints[i])
  {
    EncodedLength(ints);
    var d := Decoded(Encoded(ints));
    forall i | 0 <= i < |ints|
      ensures d[i] == Signed(ints[i] % TWO_32, TWO_31) && (d[i] == ints[i] <==> Int32(ints[i]))
    {
      EncodedAt(ints, i);
      ReadWrite32(ints[i]);
    }
    hide Decoded, Encoded, Int32, Signed;
    assert d == ints <==> forall i :: 0 <= i < |ints| ==> d[i] == ints[i];
  }

  lemma {:induction false} EncodedUnique(ints: seq<int>, data: seq<Byte>)
    requires |data| == 4 * |ints| && forall i :: 0 <= i < |ints| ==> Write32(ints[i]) == data[4 * i..4 * i + 4]
    ensures Encoded(ints) == data
  {
    if ints != [] {
      var m := |ints| - 1;
      var pre := data[..4 * m];
      forall i | 0 <= i < m
        ensures Write32(ints[..m][i]) == pre[4 * i..4 * i + 4]
      {
        assert pre[4 * i..4 * i + 4] == data[4 * i..4 * i + 4];
      }
      EncodedUnique(ints[..m], pre);
      assert data == pre + data[4 * m..4 * m + 4];
    }
  }

  /** Encoding a decoded vector gives the bytes back, except up to three at the end that make no
      whole entry. */
  lemma BytesRoundTrip(data: seq<Byte>)
    ensures Encoded(Decoded(data)) == data[..4 * (|data| / 4)]
  {
    var ints, pre := Decoded(data), data[..4 * (|data| / 4)];
    forall i | 0 <= i < |ints|
      ensures Write32(ints[i]) == pre[4 * i..4 * i + 4]
    {
      WriteRead32(data[4 * i..4 * i + 4]);
      assert pre[4 * i..4 * i + 4] == data[4 * i..4 * i + 4];
    }
    EncodedUnique(ints, pre);
  }

  // ------------------------------------------------------- 64-bit, big-endian

  /** The lowest k bytes, highest first. */
  function BigEndian(u: nat, k: nat): (b: seq<Byte>)
    ensures |b| == k
  {
    if k == 0 then [] else BigEndian(u / 256, k - 1) + [u % 256]
  }

  function Value(b: seq<Byte>): nat {
    if b == [] then 0 else 256 * Value(b[..|b| - 1]) + b[|b| - 1]
  }

  function Capacity(k: nat): nat {
    if k == 0 then 1 else 256 * Capacity(k - 1)
  }

  lemma {:induction false} ValueOfBytes(u: nat, k: nat)
    requires u < Capacity(k)
    ensures Value(BigEndian(u, k)) == u
  {
    if k > 0 {
      ValueOfBytes(u / 256, k - 1);
      var b := BigEndian(u, k);
      assert b[..|b| - 1] == BigEndian(u / 256, k - 1);
    }
  }

  lemma {:induction false} BytesOfValue(b: seq<Byte>)
    ensures Value(b) < Capacity(|b|) && BigEndian(Value(b), |b|) == b
  {
    if b != [] {
      var pre, c := b[..|b| - 1], b[|b| - 1];
      BytesOfValue(pre);
      assert Value(b) / 256 == Value(pre) && Value(b) % 256 == c;
      assert b == pre + [c];
    }
  }

  lemma Capacity8()
    ensures Capacity(8) == TWO_64
  {
  }

  function IntToBytes(n: int): (b: seq<Byte>)
    ensures |b| == 8
  {
    BigEndian(n % TWO_64, 8)
  }

  /** Fewer than eight bytes read as zero; bytes after the eighth are ignored. */
  function BytesToInt(bys: seq<Byte>): int {
    if |bys| < 8 then 0 else Signed(Value(bys[..8]), TWO_63)
  }

  /** Every 64-bit number is recovered from its bytes, whatever follows them, and no other is. */
  lemma IntRoundTrip(n: int, rest: seq<Byte>)
    ensures BytesToInt(IntToBytes(n) + rest) == n <==> Int64(n)
  {
    Capacity8();
    ValueOfBytes(n % TWO_64, 8);
    hide BigEndian, Value;
    assert (IntToBytes(n) + rest)[..8] == IntToBytes(n);
  }

  /** Eight bytes are recovered from the number they make. */
  lemma ByteRoundTrip(b: seq<Byte>)
    requires |b| >= 8
    ensures IntToBytes(BytesToInt(b)) == b[..8] && Int64(BytesToInt(b))
  {
    Capacity8();
    BytesOfValue(b[..8]);
    hide BigEndian, Value;
    assert BytesToInt(b) % TWO_64 == Value(b[..8]);
  }

  // ------------------------------------------------------ which byte is where

  /** Byte j of a number, byte 0 being the lowest. */
  function ByteOf(u: nat, j: nat): nat {
    if j == 0 then u % 256 else ByteOf(u / 256, j - 1)
  }

  /** Each entry of a vector takes four bytes, the lowest first. */
  lemma EntryBytes(ints: seq<int>, i: nat, j: nat)
    requires i < |ints| && j < 4
    ensures |Encoded(ints)| == 4 * |ints| && Encoded(ints)[4 * i + j] as int == ByteOf(ints[i] % TWO_32, j)
  {
    EncodedAt(ints, i);
    WriteBytes(ints[i], j);
    hide Encoded, Write32, ByteOf;
    assert Encoded(ints)[4 * i..4 * i + 4][j] == Encoded(ints)[4 * i + j];
  }

  lemma WriteBytes(n: int, j: nat)
    requires j < 4
    ensures Write32(n)[j] as int == ByteOf(n % TWO_32, j)
  {
    var u: nat := n % TWO_32;
    var x, y, z := u / 256, u / 256 / 256, u / 256 / 256 / 256;
    assert z < 256;
    assert ByteOf(u, 0) == u % 256;
    assert ByteOf(u, 1) == ByteOf(x, 0);
    assert ByteOf(u, 2) == ByteOf(x, 1) == ByteOf(y, 0);
    assert ByteOf(u, 3) == ByteOf(x, 2) == ByteOf(y, 1) == ByteOf(z, 0);
  }

  lemma {:induction false} BigEndianAt(u: nat, k: nat, j: nat)
    requires j < k
    ensures BigEndian(u, k)[k - 1 - j] as int == ByteOf(u, j)
  {
    if j > 0 {
      BigEndianAt(u / 256, k - 1, j - 1);
    }
  }

  /** A single number takes eight bytes, the lowest last. */
  lemma NumberBytes(n: int, j: nat)
    requires j < 8
    ensures IntToBytes(n)[7 - j] as int == ByteOf(n % TWO_64, j)
  {
    BigEndianAt(n % TWO_64, 8, j);
  }
}
