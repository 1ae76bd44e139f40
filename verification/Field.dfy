/** Arithmetic modulo a prime, as math/big does it: Mod is Euclidean and ModInverse uses the
    extended Euclidean algorithm. */
module Field {

  /** x and y leave the same remainder. */
  predicate Cong(x: int, y: int, m: nat)
    requires m > 0
  {
    x % m == y % m
  }

  predicate Prime(p: nat) {
    p > 1 && forall d {:trigger p % d} :: 1 < d < p ==> p % d != 0
  }

  // ---------------------------------------------------------- congruences

  lemma {:induction false} Remainder(x: int, m: nat, q: int, r: int)
    requires m > 0 && x == m * q + r && 0 <= r < m
    ensures x % m == r && x / m == q
  {
    var e := x / m - q;
    assert x == m * (x / m) + x % m;
    assert m * e == r - x % m;
    MultipleIsFar(m, e);
  }

  lemma MultipleIsFar(m: int, e: int)
    requires m > 0
    ensures e >= 1 ==> m * e >= m
    ensures e <= -1 ==> m * e <= -m
  {
  }

  /** Congruent numbers differ by a multiple of m, and conversely. */
  lemma {:induction false} CongMultiple(x: int, y: int, m: nat, k: int)
    requires m > 0 && x == y + m * k
    ensures Cong(x, y, m)
  {
    assert y == m * (y / m) + y % m;
    assert x == m * (y / m + k) + y % m;
    Remainder(x, m, y / m + k, y % m);
  }

  lemma CongWitness(x: int, y: int, m: nat) returns (k: int)
    requires m > 0 && Cong(x, y, m)
    ensures x == y + m * k
  {
    k := x / m - y / m;
    assert x == m * (x / m) + x % m;
    assert y == m * (y / m) + y % m;
  }

  lemma CongMod(x: int, m: nat)
    requires m > 0
    ensures Cong(x % m, x, m)
  {
  }

  lemma CongAdd(a: int, b: int, c: int, d: int, m: nat)
    requires m > 0 && Cong(a, b, m) && Cong(c, d, m)
    ensures Cong(a + c, b + d, m)
  {
    var k := CongWitness(a, b, m);
    var l := CongWitness(c, d, m);
    assert a + c == (b + d) + m * (k + l);
    CongMultiple(a + c, b + d, m, k + l);
  }

  lemma CongSub(a: int, b: int, c: int, d: int, m: nat)
    requires m > 0 && Cong(a, b, m) && Cong(c, d, m)
    ensures Cong(a - c, b - d, m)
  {
    var k := CongWitness(a, b, m);
    var l := CongWitness(c, d, m);
    assert a - c == (b - d) + m * (k - l);
    CongMultiple(a - c, b - d, m, k - l);
  }

  lemma CongMul(a: int, b: int, c: int, d: int, m: nat)
    requires m > 0 && Cong(a, b, m) && Cong(c, d, m)
    ensures Cong(a * c, b * d, m)
  {
    var k := CongWitness(a, b, m);
    var l := CongWitness(c, d, m);
    ProductOfSums(b, d, m, k, l);
    CongMultiple(a * c, b * d, m, b * l + k * d + m * k * l);
  }

  lemma ProductOfSums(b: int, d: int, m: int, k: int, l: int)
    ensures (b + m * k) * (d + m * l) == b * d + m * (b * l + k * d + m * k * l)
  {
  }

  // ------------------------------------------------------ Bezout, inverses

  /** The extended Euclidean algorithm. */
  function EGcd(a: nat, b: nat): (r: (nat, int, int))
    requires a > 0 || b > 0
    ensures r.0 > 0
    decreases b
  {
    if b == 0 then (a, 1, 0)
    else
      var (g, x, y) := EGcd(b, a % b);
      (g, y, x - (a / b) * y)
  }

  /** The first component divides both numbers and is a combination of them. */
  lemma {:induction false} EGcdSpec(a: nat, b: nat)
    requires a > 0 || b > 0
    ensures var (g, x, y) := EGcd(a, b); g == a * x + b * y && a % g == 0 && b % g == 0
    decreases b
  {
    if b == 0 {
      Remainder(a, a, 1, 0);
    } else {
      var q, r := a / b, a % b;
      var (g, x, y) := EGcd(b, r);
      EGcdSpec(b, r);
      assert a == b * q + r;
      BezoutStep(a, b, q, r, g, x, y);
      DividesCombination(b, r, q, g);
    }
  }

  lemma BezoutStep(a: int, b: int, q: int, r: int, g: int, x: int, y: int)
    requires a == b * q + r && g == b * x + r * y
    ensures g == a * y + b * (x - q * y)
  {
  }

  lemma DividesCombination(b: int, r: int, q: int, g: nat)
    requires g > 0 && b % g == 0 && r % g == 0
    ensures (b * q + r) % g == 0
  {
    CongMul(b, 0, q, q, g);
    CongAdd(b * q, 0, r, 0, g);
  }

  /** big.Int.ModInverse(b, p): when there is no inverse the number is left as it is. */
  function ModInverse(b: nat, p: nat): int
    requires p > 1
  {
    var (g, x, _) := EGcd(b, p);
    if g == 1 then x % p else b
  }

  lemma Inverse(b: nat, p: nat)
    requires Prime(p) && b % p != 0
    ensures Cong(b * ModInverse(b, p), 1, p)
  {
    EGcdSpec(b, p);
    var (g, x, y) := EGcd(b, p);
    CoprimeToPrime(b, p, g);
    CongMultiple(b * x, 1, p, -y);
    CongMod(x, p);
    CongMul(b, b, x % p, x, p);
  }

  lemma CoprimeToPrime(b: nat, p: nat, g: nat)
    requires Prime(p) && b % p != 0 && g > 0 && b % g == 0 && p % g == 0
    ensures g == 1
  {
    if g > p {
      Remainder(p, g, 0, p);
    }
  }

  /** A factor that is not a multiple of the prime can be cancelled. */
  lemma Cancel(c: int, a: int, b: int, p: nat)
    requires Prime(p) && c % p != 0 && Cong(c * a, c * b, p)
    ensures Cong(a, b, p)
  {
    var d := c % p;
    CongMod(c, p);
    CongMod(d, p);
    Inverse(d, p);
    var i := ModInverse(d, p);
    CongMul(c, d, i, i, p);
    CongMul(c * i, 1, a, a, p);
    CongMul(c * i, 1, b, b, p);
    CongMul(i, i, c * a, c * b, p);
    assert i * (c * a) == (c * i) * a && i * (c * b) == (c * i) * b;
  }

  /** Where there is an inverse the result times the number is 1; where there is none it is the
      number itself, so a bottom of zero stays zero. */
  lemma NoInverse(b: nat, p: nat)
    requires Prime(p) && b < p
    ensures b == 0 ==> ModInverse(b, p) == 0
    ensures b > 0 ==> Cong(b * ModInverse(b, p), 1, p)
  {
    if b == 0 {
      EGcdSpec(0, p);
      assert EGcd(0, p) == (p, 0, 1) by {
        Remainder(0, p, 0, 0);
      }
    } else {
      Remainder(b, p, 0, b);
      Inverse(b, p);
    }
  }

  /** A product is a multiple of a prime only if a factor is. */
  lemma ProductNotZero(a: int, b: int, p: nat)
    requires Prime(p) && a % p != 0 && b % p != 0
    ensures (a * b) % p != 0
  {
    if (a * b) % p == 0 {
      assert Cong(a * b, a * 0, p);
      Cancel(a, b, 0, p);
    }
  }
}
