/** Lagrange interpolation modulo a prime: the weights of Compute_Lagrangeinter recover every
    polynomial with at most as many coefficients as there are points. */
module Lagrange {
  import opened Field

  /** The polynomial with the given coefficients, lowest first. */
  function Eval(a: seq<int>, x: int): int {
    if a == [] then 0 else a[0] + x * Eval(a[1..], x)
  }

  /** The product of x - ids[j] over all j but i. */
  function Product(ids: seq<int>, i: int, x: int): int {
    if ids == [] then 1
    else
      var m := |ids| - 1;
      Product(ids[..m], i, x) * (if i == m then 1 else x - ids[m])
  }

  /** The weight of point i for the value at x. */
  function Weight(ids: seq<int>, i: nat, x: int, p: nat): int
    requires p > 1 && i < |ids|
  {
    ((Product(ids, i, x) % p) * ModInverse(Product(ids, i, ids[i]) % p, p)) % p
  }

  function Weights(ids: seq<int>, x: int, p: nat): (w: seq<int>)
    requires p > 1
    ensures |w| == |ids|
  {
    seq(|ids|, i requires 0 <= i < |ids| => Weight(ids, i, x, p))
  }

  function Dot(w: seq<int>, v: seq<int>): int
    requires |w| == |v|
  {
    if w == [] then 0
    else
      var m := |w| - 1;
      Dot(w[..m], v[..m]) + w[m] * v[m]
  }

  predicate Distinct(ids: seq<int>, p: nat)
    requires p > 0
  {
    forall i, j :: 0 <= i < |ids| && 0 <= j < |ids| && i != j ==> (ids[i] - ids[j]) % p != 0
  }

  lemma DistinctParts(ids: seq<int>, p: nat)
    requires p > 0 && Distinct(ids, p) && ids != []
    ensures Distinct(ids[..|ids| - 1], p) && Distinct(ids[1..], p)
  {
  }

  // ------------------------------------------------------------- products

  lemma {:induction false} ProductFirst(ids: seq<int>, i: int, x: int)
    requires ids != []
    ensures Product(ids, i, x) == (if i == 0 then 1 else x - ids[0]) * Product(ids[1..], i - 1, x)
  {
    var m := |ids| - 1;
    if m == 0 {
      assert ids[..0] == [] && ids[1..] == [];
    } else {
      ProductFirst(ids[..m], i, x);
      assert ids[..m][1..] == ids[1..][..m - 1];
      var c := if i == 0 then 1 else x - ids[0];
      var d := if i == m then 1 else x - ids[m];
      var r := Product(ids[1..][..m - 1], i - 1, x);
      assert Product(ids[1..], i - 1, x) == r * d;
      assert (c * r) * d == c * (r * d);
    }
  }

  lemma {:induction false} ProductNonZero(ids: seq<int>, i: int, x: int, p: nat)
    requires Prime(p)
    requires forall j :: 0 <= j < |ids| && j != i ==> (x - ids[j]) % p != 0
    ensures Product(ids, i, x) % p != 0
  {
    if ids == [] {
      Remainder(1, p, 0, 1);
    } else {
      var m := |ids| - 1;
      ProductNonZero(ids[..m], i, x, p);
      var d := if i == m then 1 else x - ids[m];
      if i == m {
        Remainder(1, p, 0, 1);
      }
      ProductNotZero(Product(ids[..m], i, x), d, p);
    }
  }

  // -------------------------------------------------------------- weights

  lemma BottomNonZero(ids: seq<int>, i: nat, p: nat)
    requires Prime(p) && i < |ids| && Distinct(ids, p)
    ensures Product(ids, i, ids[i]) % p != 0
  {
    ProductNonZero(ids, i, ids[i], p);
  }

  /** The weight times its bottom is its top. */
  lemma WeightSpec(ids: seq<int>, i: nat, x: int, p: nat)
    requires Prime(p) && i < |ids| && Distinct(ids, p)
    ensures Cong(Product(ids, i, ids[i]) * Weight(ids, i, x, p), Product(ids, i, x), p)
  {
    var t, b := Product(ids, i, x), Product(ids, i, ids[i]);
    BottomNonZero(ids, i, p);
    hide Product, ModInverse, Prime, Distinct;
    WeightAlgebra(t, b, p);
  }

  lemma WeightAlgebra(t: int, b: int, p: nat)
    requires Prime(p) && b % p != 0
    ensures Cong(b * (((t % p) * ModInverse(b % p, p)) % p), t, p)
  {
    CongMod(b, p);
    CongMod(t, p);
    Inverse(b % p, p);
    CongMod((t % p) * ModInverse(b % p, p), p);
    hide Prime, ModInverse;
    FractionAlgebra(b, b % p, ((t % p) * ModInverse(b % p, p)) % p, ModInverse(b % p, p), t % p, t, p);
  }

  lemma FractionAlgebra(b: int, c: int, w: int, i: int, u: int, t: int, p: nat)
    requires p > 0 && Cong(b, c, p) && Cong(w, u * i, p) && Cong(c * i, 1, p) && Cong(u, t, p)
    ensures Cong(b * w, t, p)
  {
    CongMul(b, c, w, u * i, p);
    CongMul(c * i, 1, u, t, p);
    assert c * (u * i) == (c * i) * u;
  }

  /** Two weights with tops and bottoms in the ratios v and u. */
  lemma WeightRatio(w: int, w': int, b: int, t: int, u: int, v: int, p: nat)
    requires Prime(p) && b % p != 0
    requires Cong((b * u) * w, t * v, p) && Cong(b * w', t, p)
    ensures Cong(w * u, w' * v, p)
  {
    CongMul(b * w', t, v, v, p);
    assert (b * w') * v == b * (w' * v);
    assert (b * u) * w == b * (w * u);
    Cancel(b, w * u, w' * v, p);
  }

  lemma WeightWithoutLast(ids: seq<int>, i: nat, x: int, p: nat)
    requires Prime(p) && Distinct(ids, p) && i < |ids| - 1
    ensures var m := |ids| - 1;
      Cong(Weight(ids, i, x, p) * (ids[i] - ids[m]), Weight(ids[..m], i, x, p) * (x - ids[m]), p)
  {
    var m := |ids| - 1;
    var s := ids[..m];
    assert s[i] == ids[i];
    assert Distinct(s, p);
    WeightSpec(ids, i, x, p);
    WeightSpec(s, i, x, p);
    BottomNonZero(s, i, p);
    assert Product(ids, i, ids[i]) == Product(s, i, ids[i]) * (ids[i] - ids[m]);
    assert Product(ids, i, x) == Product(s, i, x) * (x - ids[m]);
    hide Product, Weight, Prime, Distinct;
    WeightRatio(Weight(ids, i, x, p), Weight(s, i, x, p), Product(s, i, ids[i]), Product(s, i, x), ids[i] - ids[m], x - ids[m], p);
  }

  lemma WeightWithoutFirst(ids: seq<int>, i: nat, x: int, p: nat)
    requires Prime(p) && p > 1 && Distinct(ids, p) && 0 < i < |ids|
    ensures Cong(Weight(ids, i, x, p) * (ids[i] - ids[0]), Weight(ids[1..], i - 1, x, p) * (x - ids[0]), p)
  {
    hide Product, Weight, Prime, Distinct, Cong;
    var s := ids[1..];
    assert s[i - 1] == ids[i];
    DistinctParts(ids, p);
    WeightSpec(ids, i, x, p);
    WeightSpec(s, i - 1, x, p);
    BottomNonZero(s, i - 1, p);
    ProductFirst(ids, i, ids[i]);
    ProductFirst(ids, i, x);
    var b, t := Product(s, i - 1, ids[i]), Product(s, i - 1, x);
    Swap(ids[i] - ids[0], b);
    Swap(x - ids[0], t);
    var bottom, top := Product(ids, i, ids[i]), Product(ids, i, x);
    assert bottom == b * (ids[i] - ids[0]);
    assert top == t * (x - ids[0]);
    assert b % p != 0;
    assert Cong(bottom * Weight(ids, i, x, p), top, p);
    assert Cong(b * Weight(s, i - 1, x, p), t, p);
    WeightRatio(Weight(ids, i, x, p), Weight(s, i - 1, x, p), b, t, ids[i] - ids[0], x - ids[0], p);
  }

  lemma Swap(a: int, b: int)
    ensures a * b == b * a
  {
  }

  // ----------------------------------------------------------------- sums

  lemma {:induction false} DotFirst(w: seq<int>, v: seq<int>)
    requires |w| == |v| > 0
    ensures Dot(w, v) == w[0] * v[0] + Dot(w[1..], v[1..])
  {
    var m := |w| - 1;
    if m == 0 {
      assert w[1..] == [] && w[..0] == [];
    } else {
      DotFirst(w[..m], v[..m]);
      assert w[..m][1..] == w[1..][..m - 1] && v[..m][1..] == v[1..][..m - 1];
    }
  }

  /** Sums of pairwise congruent terms, scaled. */
  lemma {:induction false} DotCong(w: seq<int>, v: seq<int>, w': seq<int>, v': seq<int>, c: int, p: nat)
    requires p > 0 && |w| == |v| == |w'| == |v'|
    requires forall i :: 0 <= i < |w| ==> Cong(w[i] * v[i], (w'[i] * c) * v'[i], p)
    ensures Cong(Dot(w, v), c * Dot(w', v'), p)
  {
    if w != [] {
      var m := |w| - 1;
      DotCong(w[..m], v[..m], w'[..m], v'[..m], c, p);
      CongAdd(Dot(w[..m], v[..m]), c * Dot(w'[..m], v'[..m]), w[m] * v[m], (w'[m] * c) * v'[m], p);
      assert (w'[m] * c) * v'[m] == c * (w'[m] * v'[m]);
      Distribute(c, Dot(w'[..m], v'[..m]), w'[m] * v'[m]);
    }
  }

  lemma Distribute(c: int, a: int, b: int)
    ensures c * (a + b) == c * a + c * b
  {
  }

  lemma {:induction false} DotSplit(w: seq<int>, f: seq<int>, a: int, u: seq<int>, s: seq<int>, b: int, g: seq<int>)
    requires |w| == |f| == |u| == |s| == |g|
    requires forall i :: 0 <= i < |w| ==> f[i] == a * u[i] + s[i] + b * g[i]
    ensures Dot(w, f) == a * Dot(w, u) + Dot(w, s) + b * Dot(w, g)
  {
    if w != [] {
      var m := |w| - 1;
      DotSplit(w[..m], f[..m], a, u[..m], s[..m], b, g[..m]);
      SplitTerm(w[m], a, u[m], s[m], b, g[m]);
    }
  }

  lemma SplitTerm(w: int, a: int, u: int, s: int, b: int, g: int)
    ensures w * (a * u + s + b * g) == a * (w * u) + w * s + b * (w * g)
  {
  }

  function Constant(n: nat, c: int): (r: seq<int>)
    ensures |r| == n
  {
    seq(n, _ => c)
  }

  /** The values g[i], each multiplied by its point's distance to c. */
  function Shifted(ids: seq<int>, c: int, g: seq<int>): (r: seq<int>)
    requires |ids| == |g|
    ensures |r| == |ids|
  {
    seq(|ids|, i requires 0 <= i < |ids| => (ids[i] - c) * g[i])
  }

  /** Shifting by the last point removes it from the sum. */
  lemma DropLast(ids: seq<int>, g: seq<int>, x: int, p: nat)
    requires Prime(p) && p > 1 && Distinct(ids, p) && |ids| == |g| > 0
    ensures var m := |ids| - 1;
      Cong(Dot(Weights(ids, x, p), Shifted(ids, ids[m], g)), (x - ids[m]) * Dot(Weights(ids[..m], x, p), g[..m]), p)
  {
    hide Weight, Prime, Distinct, Cong;
    var m := |ids| - 1;
    var w, v := Weights(ids, x, p), Shifted(ids, ids[m], g);
    var w', g' := Weights(ids[..m], x, p), g[..m];
    assert v[m] == 0;
    assert Dot(w, v) == Dot(w[..m], v[..m]);
    forall i | 0 <= i < m
      ensures Cong(w[..m][i] * v[..m][i], (w'[i] * (x - ids[m])) * g'[i], p)
    {
      DropLastTerm(ids, i, g[i], x, p);
    }
    hide Dot, Weights, Shifted;
    DotCong(w[..m], v[..m], w', g', x - ids[m], p);
  }

  lemma DropLastTerm(ids: seq<int>, j: nat, g: int, x: int, p: nat)
    requires Prime(p) && p > 1 && Distinct(ids, p) && j < |ids| - 1
    ensures var m := |ids| - 1;
      Cong(Weight(ids, j, x, p) * ((ids[j] - ids[m]) * g), (Weight(ids[..m], j, x, p) * (x - ids[m])) * g, p)
  {
    hide Weight, Prime, Distinct, Cong;
    var m := |ids| - 1;
    var w, w' := Weight(ids, j, x, p), Weight(ids[..m], j, x, p);
    WeightWithoutLast(ids, j, x, p);
    CongScale(w * (ids[j] - ids[m]), w' * (x - ids[m]), g, p);
    assert w * ((ids[j] - ids[m]) * g) == (w * (ids[j] - ids[m])) * g;
  }

  lemma DropFirst(ids: seq<int>, g: seq<int>, x: int, p: nat)
    requires Prime(p) && p > 1 && Distinct(ids, p) && |ids| == |g| > 0
    ensures Cong(Dot(Weights(ids, x, p), Shifted(ids, ids[0], g)), (x - ids[0]) * Dot(Weights(ids[1..], x, p), g[1..]), p)
  {
    hide Weight, Prime, Distinct, Cong;
    var w, v := Weights(ids, x, p), Shifted(ids, ids[0], g);
    var w', g' := Weights(ids[1..], x, p), g[1..];
    DotFirst(w, v);
    assert v[0] == 0;
    assert Dot(w, v) == Dot(w[1..], v[1..]);
    forall i | 0 <= i < |ids| - 1
      ensures Cong(w[1..][i] * v[1..][i], (w'[i] * (x - ids[0])) * g'[i], p)
    {
      DropFirstTerm(ids, i + 1, g[i + 1], x, p);
    }
    hide Dot, Weights, Shifted;
    DotCong(w[1..], v[1..], w', g', x - ids[0], p);
  }

  lemma DropFirstTerm(ids: seq<int>, j: nat, g: int, x: int, p: nat)
    requires Prime(p) && p > 1 && Distinct(ids, p) && 0 < j < |ids|
    ensures Cong(Weight(ids, j, x, p) * ((ids[j] - ids[0]) * g), (Weight(ids[1..], j - 1, x, p) * (x - ids[0])) * g, p)
  {
    hide Weight, Prime, Distinct, Cong;
    var w, w' := Weight(ids, j, x, p), Weight(ids[1..], j - 1, x, p);
    WeightWithoutFirst(ids, j, x, p);
    CongScale(w * (ids[j] - ids[0]), w' * (x - ids[0]), g, p);
    assert w * ((ids[j] - ids[0]) * g) == (w * (ids[j] - ids[0])) * g;
  }

  lemma CongScale(a: int, b: int, g: int, p: nat)
    requires p > 0 && Cong(a, b, p)
    ensures Cong(a * g, b * g, p)
  {
    CongMul(a, b, g, g, p);
  }

  // ----------------------------------------------------- the interpolation

  /** The weights sum to one. */
  lemma {:induction false} WeightsSumToOne(ids: seq<int>, x: int, p: nat)
    requires Prime(p) && p > 1 && Distinct(ids, p) && |ids| > 0
    ensures Cong(Dot(Weights(ids, x, p), Constant(|ids|, 1)), 1, p)
    decreases |ids|
  {
    hide Weight, Prime;
    var m := |ids| - 1;
    var w, u := Weights(ids, x, p), Constant(|ids|, 1);
    if m == 0 {
      OneWeight(ids, x, p);
    } else {
      var l, k := ids[0], ids[m];
      DistinctParts(ids, p);
      assert (l - k) % p != 0;
      hide Distinct, Cong;
      DropLast(ids, u, x, p);
      DropFirst(ids, u, x, p);
      WeightsSumToOne(ids[..m], x, p);
      WeightsSumToOne(ids[1..], x, p);
      assert u[..m] == Constant(m, 1) && u[1..] == Constant(m, 1);
      TwoShifts(w, ids, l, k, u);
      hide Dot, Weights, Shifted, Constant;
      SumAlgebra(l, k, x, Dot(w, u), Dot(w, Shifted(ids, k, u)), Dot(w, Shifted(ids, l, u)),
                 Dot(Weights(ids[..m], x, p), u[..m]), Dot(Weights(ids[1..], x, p), u[1..]), p);
    }
  }

  lemma OneWeight(ids: seq<int>, x: int, p: nat)
    requires Prime(p) && p > 1 && Distinct(ids, p) && |ids| == 1
    ensures Cong(Dot(Weights(ids, x, p), Constant(1, 1)), 1, p)
  {
    WeightSpec(ids, 0, x, p);
    hide Weight, Prime, Distinct, Cong;
    var w, u := Weights(ids, x, p), Constant(1, 1);
    assert ids[..0] == [] && w[..0] == [] && u[..0] == [];
    assert Product(ids, 0, ids[0]) == 1 && Product(ids, 0, x) == 1;
    assert Dot(w, u) == w[0] * 1 == w[0] == 1 * w[0];
  }

  /** Shifting by k and by l differ by the constant l - k. */
  lemma TwoShifts(w: seq<int>, ids: seq<int>, l: int, k: int, u: seq<int>)
    requires |w| == |ids| == |u| && forall i :: 0 <= i < |u| ==> u[i] == 1
    ensures Dot(w, Shifted(ids, k, u)) == (l - k) * Dot(w, u) + Dot(w, Shifted(ids, l, u)) + 0 * Dot(w, u)
  {
    var a, b := Shifted(ids, k, u), Shifted(ids, l, u);
    forall i | 0 <= i < |ids|
      ensures a[i] == (l - k) * u[i] + b[i] + 0 * u[i]
    {
      assert a[i] == (ids[i] - k) * 1 && b[i] == (ids[i] - l) * 1;
    }
    DotSplit(w, a, l - k, u, b, 0, u);
  }

  lemma SumAlgebra(l: int, k: int, x: int, sum: int, a: int, b: int, s: int, t: int, p: nat)
    requires Prime(p) && (l - k) % p != 0
    requires a == (l - k) * sum + b + 0 * sum
    requires Cong(a, (x - k) * s, p) && Cong(b, (x - l) * t, p) && Cong(s, 1, p) && Cong(t, 1, p)
    ensures Cong(sum, 1, p)
  {
    CongMul(x - k, x - k, s, 1, p);
    CongMul(x - l, x - l, t, 1, p);
    CongSub(a, (x - k) * 1, b, (x - l) * 1, p);
    assert (x - k) * 1 - (x - l) * 1 == (l - k) * 1;
    Cancel(l - k, sum, 1, p);
  }

  function Values(a: seq<int>, ids: seq<int>): (r: seq<int>)
    ensures |r| == |ids|
  {
    seq(|ids|, i requires 0 <= i < |ids| => Eval(a, ids[i]))
  }

  /** Horner's rule at every point, around the shift by k. */
  lemma HornerSplit(w: seq<int>, ids: seq<int>, a: seq<int>, k: int)
    requires |w| == |ids| && a != []
    ensures var g := Values(a[1..], ids);
      Dot(w, Values(a, ids)) == a[0] * Dot(w, Constant(|ids|, 1)) + Dot(w, Shifted(ids, k, g)) + k * Dot(w, g)
  {
    var f, u, g := Values(a, ids), Constant(|ids|, 1), Values(a[1..], ids);
    var s := Shifted(ids, k, g);
    forall i | 0 <= i < |ids|
      ensures f[i] == a[0] * u[i] + s[i] + k * g[i]
    {
      HornerTerm(a[0], ids[i], k, g[i]);
    }
    DotSplit(w, f, a[0], u, s, k, g);
  }

  /** Interpolation: for every polynomial with at most as many coefficients as there are points, and
      points that are distinct modulo the prime, the weighted sum of its values is its value at x. */
  lemma {:induction false} Interpolates(ids: seq<int>, a: seq<int>, x: int, p: nat)
    requires Prime(p) && p > 1 && Distinct(ids, p) && |a| <= |ids|
    ensures Cong(Dot(Weights(ids, x, p), Values(a, ids)), Eval(a, x), p)
    decreases |a|
  {
    hide Weight, Prime, Distinct;
    if a == [] {
      DotZero(Weights(ids, x, p), Values(a, ids));
    } else {
      var m := |ids| - 1;
      var rest, k := a[1..], ids[m];
      var w, g := Weights(ids, x, p), Values(rest, ids);
      assert g[..m] == Values(rest, ids[..m]);
      hide Values, Cong, Dot, Weights, Shifted, Constant;
      WeightsSumToOne(ids, x, p);
      DropLast(ids, g, x, p);
      DistinctParts(ids, p);
      Interpolates(ids[..m], rest, x, p);
      Interpolates(ids, rest, x, p);
      HornerSplit(w, ids, a, k);
      HornerAlgebra(a[0], k, x, Dot(w, Constant(|ids|, 1)), Dot(w, Shifted(ids, k, g)), Dot(w, g),
                    Dot(Weights(ids[..m], x, p), g[..m]), Eval(rest, x), p);
    }
  }

  lemma {:induction false} DotZero(w: seq<int>, f: seq<int>)
    requires |w| == |f| && forall i :: 0 <= i < |f| ==> f[i] == 0
    ensures Dot(w, f) == 0
  {
    if w != [] {
      DotZero(w[..|w| - 1], f[..|w| - 1]);
    }
  }

  lemma HornerTerm(a: int, y: int, k: int, g: int)
    ensures a + y * g == a * 1 + (y - k) * g + k * g
  {
  }

  lemma HornerAlgebra(a: int, k: int, x: int, one: int, s: int, g: int, r: int, e: int, p: nat)
    requires p > 0
    requires Cong(one, 1, p) && Cong(s, (x - k) * r, p) && Cong(r, e, p) && Cong(g, e, p)
    ensures Cong(a * one + s + k * g, a + x * e, p)
  {
    CongMul(a, a, one, 1, p);
    CongMul(x - k, x - k, r, e, p);
    CongMul(k, k, g, e, p);
    CongAdd(a * one, a * 1, s, (x - k) * e, p);
    CongAdd(a * one + s, a * 1 + (x - k) * e, k * g, k * e, p);
    assert a * 1 + (x - k) * e + k * e == a + x * e;
  }
}
