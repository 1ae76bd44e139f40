/** The four-word form of 256-bit numbers (src/cryptolib/threshprf/prf_p256.go). */
module Limbs {
  import opened Field

  const WORD: nat := 0x1_0000_0000_0000_0000
  const TWO_256: nat := WORD * WORD * WORD * WORD

  /** The little-endian words of a big.Int, without leading zero words. */
  function Bits(x: nat): seq<nat> {
    if x == 0 then [] else [x % WORD] + Bits(x / WORD)
  }

  predicate IsLimbs(l: seq<nat>) {
    |l| == 4 && l[0] < WORD && l[1] < WORD && l[2] < WORD && l[3] < WORD
  }

  function FromLimbs(l: seq<nat>): nat
    requires |l| == 4
  {
    ((l[3] * WORD + l[2]) * WORD + l[1]) * WORD + l[0]
  }

  /** The lowest four words. */
  function ToLimbs(x: nat): (l: seq<nat>)
    ensures IsLimbs(l)
  {
    [x % WORD, (x / WORD) % WORD, (x / WORD / WORD) % WORD, (x / WORD / WORD / WORD) % WORD]
  }

  lemma BitsAt(x: nat)
    ensures forall i :: 0 <= i < 4 ==> ToLimbs(x)[i] == if i < |Bits(x)| then Bits(x)[i] else 0
  {
    var y := x / WORD;
    var z := y / WORD;
    var w := z / WORD;
    assert x > 0 ==> Bits(x) == [x % WORD] + Bits(y);
    assert y > 0 ==> Bits(y) == [y % WORD] + Bits(z);
    assert z > 0 ==> Bits(z) == [z % WORD] + Bits(w);
    assert w > 0 ==> Bits(w) == [w % WORD] + Bits(w / WORD);
  }

  method BiginttoU64(x: nat) returns (out: seq<nat>)
    ensures out == ToLimbs(x)
  {
    var in64 := Bits(x);
    BitsAt(x);
    out := [0, 0, 0, 0];
    if |in64| < 4 {
      for i := 0 to |in64|
        invariant |out| == 4 && forall j :: 0 <= j < i ==> out[j] == in64[j]
      {
        out := out[i := in64[i]];
      }
      for j := |in64| to 4
        invariant |out| == 4 && forall l :: 0 <= l < j ==> out[l] == if l < |in64| then in64[l] else 0
      {
        out := out[j := 0];
      }
    } else {
      out := [in64[0], in64[1], in64[2], in64[3]];
    }
  }

  /** The words are the digits in base 2^64, lowest first. */
  lemma LimbsWeigh(l: seq<nat>)
    requires |l| == 4
    ensures FromLimbs(l) == l[0] + WORD * l[1] + WORD * WORD * l[2] + WORD * WORD * WORD * l[3]
  {
  }

  method U64toBigint(l: seq<nat>) returns (out: nat)
    requires |l| == 4
    ensures out == FromLimbs(l)
  {
    out := l[3];
    out := out * WORD + l[2];
    out := out * WORD + l[1];
    out := out * WORD + l[0];
  }

  /** Converting to four words and back gives the number modulo 2^256, so the number itself exactly
      when it is below 2^256. */
  lemma LimbsRoundTrip(x: nat)
    ensures FromLimbs(ToLimbs(x)) == x % TWO_256
    ensures FromLimbs(ToLimbs(x)) == x <==> x < TWO_256
  {
    var y := x / WORD;
    var z := y / WORD;
    var w := z / WORD;
    assert x == FromLimbs(ToLimbs(x)) + TWO_256 * (w / WORD);
    Remainder(x, TWO_256, w / WORD, FromLimbs(ToLimbs(x)));
  }

  /** Every four words are recovered from the number they make. */
  lemma NumberRoundTrip(l: seq<nat>)
    requires IsLimbs(l)
    ensures FromLimbs(l) < TWO_256 && ToLimbs(FromLimbs(l)) == l
  {
    var x := FromLimbs(l);
    Remainder(x, WORD, (l[3] * WORD + l[2]) * WORD + l[1], l[0]);
    Remainder((l[3] * WORD + l[2]) * WORD + l[1], WORD, l[3] * WORD + l[2], l[1]);
    Remainder(l[3] * WORD + l[2], WORD, l[3], l[2]);
    Remainder(l[3], WORD, 0, l[3]);
  }
}
