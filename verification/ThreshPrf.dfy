/** The threshold pseudo-random function (src/cryptolib/threshprf/prf_p256.go). Points are modelled by
    their exponents modulo the group order: the point s*G is the number s % Order(). */
module ThreshPrf {
  import opened Wrappers
  import opened Field
  import opened Lagrange
  import opened Limbs

  /** The order of the P-256 group (FIPS 186-4, appendix D.1.2.3). */
  function Order(): (p: nat)
    ensures 1 < p < TWO_256
  {
    0xffffffff00000000ffffffffffffffffbce6faada7179e84f3b9cac2fc632551
  }

  // -------------------------------------------------------------- dealing

  function Power(x: int, e: nat): int {
    if e == 0 then 1 else Power(x, e - 1) * x
  }

  /** Four words of an array, as a number. */
  function NumberAt(a: array<nat>, i: nat): nat
    requires 4 * i + 4 <= a.Length
    reads a
  {
    FromLimbs([a[4 * i], a[4 * i + 1], a[4 * i + 2], a[4 * i + 3]])
  }

  /** The coefficients held in an array of words. */
  function Coefficients(ra64: seq<nat>, k: nat): (a: seq<int>)
    requires |ra64| >= 4 * k
    ensures |a| == k
  {
    seq(k, j requires 0 <= j < k => FromLimbs(ra64[4 * j..4 * j + 4]))
  }

  lemma {:induction false} EvalLast(a: seq<int>, c: int, x: int)
    ensures Eval(a + [c], x) == Eval(a, x) + c * Power(x, |a|)
  {
    if a == [] {
      assert a + [c] == [c] && [c][1..] == [];
    } else {
      EvalLast(a[1..], c, x);
      assert (a + [c])[1..] == a[1..] + [c];
      EvalLastAlgebra(x, Eval(a[1..], x), c, Power(x, |a| - 1));
    }
  }

  lemma EvalLastAlgebra(x: int, e: int, c: int, q: int)
    ensures x * (e + c * q) == x * e + c * (q * x)
  {
  }

  /** One round of the dealer's inner loop. */
  lemma DealStep(sk: int, e: int, c: int, q: int, p: nat)
    requires p > 0 && Cong(sk, e, p)
    ensures (sk + (c * (q % p)) % p) % p == (e + c * q) % p
  {
    CongMod(q, p);
    CongMul(c, c, q % p, q, p);
    CongMod(c * (q % p), p);
    CongAdd(sk, e, (c * (q % p)) % p, c * q, p);
  }

  method PutLimbs(a: array<nat>, i: nat, x: nat)
    requires 4 * i + 4 <= a.Length && x < TWO_256
    modifies a
    ensures NumberAt(a, i) == x
    ensures forall j :: 0 <= j < a.Length && !(4 * i <= j < 4 * i + 4) ==> a[j] == old(a[j])
  {
    var tp64 := BiginttoU64(x);
    a[4 * i], a[4 * i + 1], a[4 * i + 2], a[4 * i + 3] := tp64[0], tp64[1], tp64[2], tp64[3];
    LimbsRoundTrip(x);
    assert [a[4 * i], a[4 * i + 1], a[4 * i + 2], a[4 * i + 3]] == tp64;
  }

  /** The secret key of one node: the inner loop of the dealer. */
  method DealOne(ra64: seq<nat>, i: nat, k: nat) returns (sk: nat)
    requires k > 0 && |ra64| == 4 * k
    ensures sk == Eval(Coefficients(ra64, k), i) % Order()
  {
    hide Order, FromLimbs;
    ghost var a := Coefficients(ra64, k);
    var tp64 := ra64[0..4];
    sk := U64toBigint(tp64);
    assert a[..1] == [a[0]] && a[0] == sk;
    EvalLast([], a[0], i);
    for j := 1 to k
      invariant 0 <= sk && Cong(sk, Eval(a[..j], i), Order())
    {
      var tpbig := U64toBigint(ra64[4 * j..4 * j + 4]);
      assert tpbig == a[j];
      var ibig := Power(i, j) % Order();
      tpbig := (tpbig * ibig) % Order();
      EvalLast(a[..j], a[j], i);
      assert a[..j + 1] == a[..j] + [a[j]];
      DealStep(sk, Eval(a[..j], i), a[j], Power(i, j), Order());
      sk := (sk + tpbig) % Order();
      CongMod(Eval(a[..j + 1], i), Order());
    }
    assert a[..k] == a;
    sk := sk % Order();
  }

  /** The dealer: node i gets the value of the polynomial at i, for i = 0, ..., n-1, and the public
      key that is the base point times it. */
  method GenKeyDealer(n: nat, k: nat, ra64: seq<nat>) returns (vk: array<nat>, sk64: array<nat>)
    requires k > 0 && |ra64| == 4 * k
    ensures vk.Length == n && sk64.Length == 4 * n
    ensures forall i :: 0 <= i < n ==> NumberAt(sk64, i) == Eval(Coefficients(ra64, k), i) % Order()
    ensures forall i :: 0 <= i < n ==> vk[i] == NumberAt(sk64, i)
  {
    hide Order, Eval;
    vk := new nat[n];
    sk64 := new nat[4 * n];
    for i := 0 to n
      invariant forall l :: 0 <= l < i ==> NumberAt(sk64, l) == Eval(Coefficients(ra64, k), l) % Order()
      invariant forall l :: 0 <= l < i ==> vk[l] == NumberAt(sk64, l)
    {
      var skbig := DealOne(ra64, i, k);
      label Before:
      PutLimbs(sk64, i, skbig);
      vk[i] := skbig;
      forall l | 0 <= l < i
        ensures NumberAt(sk64, l) == old@Before(NumberAt(sk64, l))
      {
      }
    }
  }

  // -------------------------------------------------------------- weights

  lemma ProductStep(ids: seq<int>, j: nat, i: int, x: int)
    requires j < |ids|
    ensures Product(ids[..j + 1], i, x) == Product(ids[..j], i, x) * (if i == j then 1 else x - ids[j])
  {
    assert ids[..j + 1][..j] == ids[..j];
  }

  lemma ModStep(t: int, e: int, d: int, p: nat)
    requires p > 0 && t == e % p
    ensures (t * d) % p == (e * d) % p
  {
    CongMod(e, p);
    CongMul(t, e, d, d, p);
  }

  /** Top and bottom of one weight: the inner loop of Compute_Lagrangeinter. */
  method Fraction(idarr: seq<int>, k: nat, i: nat, id: int) returns (top: nat, bottom: nat)
    requires i < k <= |idarr|
    ensures top == Product(idarr[..k], i, id) % Order()
    ensures bottom == Product(idarr[..k], i, idarr[i]) % Order()
  {
    hide Order, Product;
    top, bottom := 1, 1;
    EmptyProduct(i, id);
    EmptyProduct(i, idarr[i]);
    assert idarr[..0] == [];
    for j := 0 to k
      invariant top == Product(idarr[..j], i, id) % Order()
      invariant bottom == Product(idarr[..j], i, idarr[i]) % Order()
    {
      ProductStep(idarr, j, i, id);
      ProductStep(idarr, j, i, idarr[i]);
      ModStep(top, Product(idarr[..j], i, id), id - idarr[j], Order());
      ModStep(bottom, Product(idarr[..j], i, idarr[i]), idarr[i] - idarr[j], Order());
      if i != j {
        var subTop := id - idarr[j];
        top := (top * subTop) % Order();
        var subBott := idarr[i] - idarr[j];
        bottom := (bottom * subBott) % Order();
      }
    }
  }

  lemma EmptyProduct(i: int, x: int)
    ensures Product([], i, x) % Order() == 1
  {
  }

  /** The weights of the first k points for the value at id, four words each; nil when there are
      fewer than k points. */
  method ComputeLagrangeinter(idarr: seq<int>, k: nat, id: int) returns (lag: array?<nat>)
    ensures lag == null <==> |idarr| < k
    ensures lag != null ==> lag.Length == 4 * k && fresh(lag)
    ensures lag != null ==> forall i :: 0 <= i < k ==> NumberAt(lag, i) == Weight(idarr[..k], i, id, Order())
  {
    if |idarr| < k {
      return null;
    }
    hide Order, Product;
    lag := new nat[4 * k];
    for i := 0 to k
      invariant forall l :: 0 <= l < i ==> NumberAt(lag, l) == Weight(idarr[..k], l, id, Order())
    {
      var top, bottom := Fraction(idarr, k, i, id);
      var inverse := ModInverse(bottom, Order());
      top := (top * inverse) % Order();
      assert top == Weight(idarr[..k], i, id, Order());
      label Before:
      PutLimbs(lag, i, top);
      forall l | 0 <= l < i
        ensures NumberAt(lag, l) == old@Before(NumberAt(lag, l))
      {
      }
    }
  }

  // ------------------------------------------------------------ combining

  /** The combination of k shares: the point that the first k shares make. */
  function Combined(ids: seq<int>, shares: seq<int>, k: nat): int
    requires k <= |ids| && k <= |shares|
  {
    Dot(Weights(ids[..k], 0, Order()), shares[..k]) % Order()
  }

  lemma DotPrefix(w: seq<int>, v: seq<int>, i: nat)
    requires i < |w| == |v|
    ensures Dot(w[..i + 1], v[..i + 1]) == Dot(w[..i], v[..i]) + w[i] * v[i]
  {
    assert w[..i + 1][..i] == w[..i] && v[..i + 1][..i] == v[..i];
  }

  lemma CombineStep(t: int, e: int, v: int, w: int, p: nat)
    requires p > 0 && t == e % p
    ensures ((v * w) % p + t) % p == (e + w * v) % p
  {
    CongMod(v * w, p);
    CongMod(e, p);
    CongAdd((v * w) % p, v * w, t, e, p);
    assert v * w == w * v;
  }

  /** The result is the hash of the combined point; prf stands for the encoding and the hash. */
  method ComputePrfFromShares(idarr: seq<int>, k: nat, shares: seq<nat>, prf: int -> Digest) returns (outs: Digest)
    requires k <= |idarr| && k <= |shares|
    ensures outs == prf(Combined(idarr, shares, k))
  {
    var lagrang := ComputeLagrangeinter(idarr, k, 0);
    hide Order, Product, Weight, Dot, NumberAt;
    ghost var w, v := Weights(idarr[..k], 0, Order()), shares[..k];
    var point := 0;
    assert w[..0] == [] && v[..0] == [];
    NoPoint();
    for i := 0 to k
      invariant point == Dot(w[..i], v[..i]) % Order()
      invariant forall l :: 0 <= l < k ==> NumberAt(lagrang, l) == w[l]
    {
      var lambda := NumberAt(lagrang, i);
      var g := (shares[i] * lambda) % Order();
      assert shares[i] == v[i];
      DotPrefix(w, v, i);
      CombineStep(point, Dot(w[..i], v[..i]), v[i], w[i], Order());
      if i == 0 {
        SinglePoint(g, v[0] * w[0], Order());
        point := g;
      } else {
        point := (g + point) % Order();
      }
    }
    assert w[..k] == w && v[..k] == v;
    outs := prf(point);
  }

  lemma NoPoint()
    ensures Dot([], []) % Order() == 0
  {
  }

  lemma SinglePoint(g: int, x: int, p: nat)
    requires p > 0 && g == x % p
    ensures (g + 0) % p == g
  {
  }

  // ------------------------------------------------- what it all computes

  /** The shares of the point h for the polynomial a. */
  predicate SharesOf(h: int, a: seq<int>, ids: seq<int>, shares: seq<int>) {
    |ids| == |shares| && forall i :: 0 <= i < |ids| ==> Cong(shares[i], h * Eval(a, ids[i]), Order())
  }

  /** Different ids of nodes stay different modulo the order. */
  predicate NodeIds(ids: seq<int>) {
    && (forall i :: 0 <= i < |ids| ==> 0 <= ids[i] < Order())
    && (forall i, j :: 0 <= i < j < |ids| ==> ids[i] != ids[j])
  }

  lemma NodeIdsDistinct(ids: seq<int>)
    requires NodeIds(ids)
    ensures Distinct(ids, Order())
  {
  }

  /** Reconstruction: for every polynomial dealt with at most k coefficients and every k distinct
      nodes, their shares of a point combine to the dealt secret times the point. */
  lemma SharesGiveSecret(h: int, a: seq<int>, ids: seq<int>, shares: seq<int>, k: nat)
    requires Prime(Order()) && k <= |ids| && NodeIds(ids[..k]) && SharesOf(h, a, ids, shares)
    requires 0 < |a| <= k
    ensures Combined(ids, shares, k) == (h * a[0]) % Order()
  {
    hide Order, Prime, NodeIds;
    var s, v, w := ids[..k], shares[..k], Weights(ids[..k], 0, Order());
    var u := Values(a, s);
    NodeIdsDistinct(s);
    Interpolates(s, a, 0, Order());
    forall i | 0 <= i < k
      ensures Cong(w[i] * v[i], (w[i] * h) * u[i], Order())
    {
      ShareTerm(w[i], v[i], h, u[i], Order());
    }
    DotCong(w, v, w, u, h, Order());
    hide Dot, Weights;
    CongMul(h, h, Dot(w, u), Eval(a, 0), Order());
  }

  lemma ShareTerm(w: int, v: int, h: int, u: int, p: nat)
    requires p > 0 && Cong(v, h * u, p)
    ensures Cong(w * v, (w * h) * u, p)
  {
    CongMul(w, w, v, h * u, p);
    assert w * (h * u) == (w * h) * u;
  }

  /** The dealt keys are shares of the base point for the dealt polynomial. */
  lemma DealtShare(h: int, a: seq<int>, i: nat, sk: nat)
    requires sk == Eval(a, i) % Order()
    ensures Cong((h * sk) % Order(), h * Eval(a, i), Order())
  {
    hide Order;
    CongMod(h * sk, Order());
    CongMod(Eval(a, i), Order());
    CongMul(h, h, sk, Eval(a, i), Order());
  }

  // ------------------------------------------------------ the share proof

  /** A share and its proof: the point, the challenge, the response. */
  datatype Share = Share(g: nat, c: nat, z: nat)

  /** The six points that are hashed: base, public key, first commitment, hashed message, share,
      second commitment. */
  function Transcript(vk: int, t1: int, h: int, g: int, t2: int): seq<int> {
    [1 % Order(), vk, t1, h, g, t2]
  }

  /** The first commitment as the verifier rebuilds it from the response. */
  function Rebuilt(base: int, z: int, key: int, c: int): int {
    ((z * base) % Order() + (-((c * key) % Order()))) % Order()
  }

  /** What a node with secret key sk makes for the message C, with nonce s. */
  function HonestShare(C: seq<int>, sk: nat, vk: int, s: nat, hash: seq<int> -> nat, sha: seq<int> -> nat): Share {
    var h := hash(C) % Order();
    var g := (h * sk) % Order();
    var c := sha(Transcript(vk, s % Order(), h, g, (h * s) % Order()));
    Share(g, c, (c * sk + s) % Order())
  }

  /** The six positions of the list that is hashed: the base, the public key, a commitment, the hashed
      message, the share, a second commitment. */
  predicate Hashed(l: seq<int>, vk: int, h: int, g: int) {
    && |l| == 6 && l[0] == 1 && l[1] == vk && l[3] == h && l[4] == g
    && 0 <= l[2] < Order() && 0 <= l[5] < Order()
  }

  /** l is what a node with this key and nonce hashes, and share what it makes of it. */
  predicate MadeFrom(l: seq<int>, sk: nat, vk: int, s: nat, h: int, share: Share, sha: seq<int> -> nat) {
    && Hashed(l, vk, h, share.g) && l[2] == s % Order() && l[5] == (h * s) % Order()
    && share.g == (h * sk) % Order() && share.c == sha(l) && share.z == (share.c * sk + s) % Order()
  }

  lemma HonestMade(C: seq<int>, sk: nat, vk: int, s: nat, hash: seq<int> -> nat, sha: seq<int> -> nat)
    ensures exists l :: MadeFrom(l, sk, vk, s, hash(C) % Order(), HonestShare(C, sk, vk, s, hash, sha), sha)
  {
    OneReduced();
    hide Order;
    var h := hash(C) % Order();
    var l := Transcript(vk, s % Order(), h, (h * sk) % Order(), (h * s) % Order());
    assert MadeFrom(l, sk, vk, s, h, HonestShare(C, sk, vk, s, hash, sha), sha);
  }

  method ComputeShare(C: seq<int>, sk: nat, vk: int, s: nat, hash: seq<int> -> nat, sha: seq<int> -> nat) returns (share: Option<Share>)
    ensures C == [] ==> share == None
    ensures C != [] ==> share == Some(HonestShare(C, sk, vk, s, hash, sha))
    ensures C != [] ==> exists l :: MadeFrom(l, sk, vk, s, hash(C) % Order(), share.value, sha)
  {
    hide Order;
    if |C| == 0 {
      return None;
    }
    var h := hash(C) % Order();
    var g := (h * sk) % Order();
    var commit := s % Order();
    var commitCap := (h * s) % Order();
    var hIn := [1 % Order()];
    hIn := hIn + [vk];
    hIn := hIn + [commit];
    hIn := hIn + [h];
    hIn := hIn + [g];
    hIn := hIn + [commitCap];
    assert hIn == Transcript(vk, commit, h, g, commitCap);
    var c := sha(hIn);
    var z := c * sk;
    z := z + s;
    z := z % Order();
    share := Some(Share(g, c, z));
    HonestMade(C, sk, vk, s, hash, sha);
  }

  predicate Verifies(C: seq<int>, vk: int, share: Option<Share>, hash: seq<int> -> nat, sha: seq<int> -> nat) {
    C != [] && share.Some? &&
    var h := hash(C) % Order();
    var p := share.value;
    p.c == sha(Transcript(vk, Rebuilt(1, p.z, vk, p.c), h, p.g, Rebuilt(h, p.z, p.g, p.c)))
  }

  method VerifyShare(C: seq<int>, vk: int, share: Option<Share>, hash: seq<int> -> nat, sha: seq<int> -> nat) returns (ok: bool)
    ensures ok == Verifies(C, vk, share, hash, sha)
    ensures ok <==> C != [] && share.Some? && exists l :: Proves(l, vk, hash(C) % Order(), share.value, sha)
  {
    hide Order, Proves;
    if |C| == 0 || share == None {
      return false;
    }
    var p := share.value;
    AcceptedExactly(C, vk, p, hash, sha);
    var hIn := [1 % Order()];
    hIn := hIn + [vk];
    var tp := (p.z * 1) % Order();
    var tm := (p.c * vk) % Order();
    tm := -tm;
    tm := (tp + tm) % Order();
    hIn := hIn + [tm];
    var h := hash(C) % Order();
    hIn := hIn + [h];
    hIn := hIn + [p.g];
    tp := (p.z * h) % Order();
    tm := (p.c * p.g) % Order();
    tm := -tm;
    tm := (tp + tm) % Order();
    hIn := hIn + [tm];
    assert hIn == Transcript(vk, Rebuilt(1, p.z, vk, p.c), h, p.g, Rebuilt(h, p.z, p.g, p.c));
    ok := p.c == sha(hIn);
  }

  /** The response cancels the challenge: base * z - key * c is base * s when key is base * sk. */
  lemma ResponseCancels(base: int, sk: int, key: int, s: int, c: int, p: nat)
    requires p > 0 && Cong(key, base * sk, p)
    ensures ((((c * sk + s) % p) * base) % p + (-((c * key) % p))) % p == (base * s) % p
  {
    var z := (c * sk + s) % p;
    CongMod(c * sk + s, p);
    CongMul(z, c * sk + s, base, base, p);
    CongMod(z * base, p);
    CongMul(c, c, key, base * sk, p);
    CongMod(c * key, p);
    CongSub((z * base) % p, (c * sk + s) * base, (c * key) % p, c * (base * sk), p);
    ResponseAlgebra(base, sk, s, c);
  }

  lemma ResponseAlgebra(base: int, sk: int, s: int, c: int)
    ensures (c * sk + s) * base - c * (base * sk) == base * s
  {
  }

  /** Completeness of the share proof: for every message, key and nonce, the verifier rebuilds exactly
      the points the prover hashed, and so accepts under the matching public key; it accepts nothing
      for the empty message. */
  lemma HonestShareVerifies(C: seq<int>, sk: nat, s: nat, hash: seq<int> -> nat, sha: seq<int> -> nat)
    ensures Verifies(C, sk % Order(), Some(HonestShare(C, sk, sk % Order(), s, hash, sha)), hash, sha) <==> C != []
  {
    hide Order;
    var vk := sk % Order();
    var h := hash(C) % Order();
    var g := (h * sk) % Order();
    var c := sha(Transcript(vk, s % Order(), h, g, (h * s) % Order()));
    CongMod(sk, Order());
    CongMod(h * sk, Order());
    ResponseCancels(1, sk, vk, s, c, Order());
    ResponseCancels(h, sk, g, s, c, Order());
  }

  /** The commitments that make a proof for the share: what is left of the response when the challenge
      times the key, and times the share, is taken away. */
  predicate Answers(l: seq<int>, vk: int, h: int, share: Share)
    requires Hashed(l, vk, h, share.g)
  {
    Cong(l[2], share.z - share.c * vk, Order()) && Cong(l[5], share.z * h - share.c * share.g, Order())
  }

  /** Such a list proves the share. */
  predicate Proves(l: seq<int>, vk: int, h: int, share: Share, sha: seq<int> -> nat) {
    Hashed(l, vk, h, share.g) && Answers(l, vk, h, share) && sha(l) == share.c
  }

  lemma ReducedUnique(x: int, y: int, p: nat)
    requires p > 0 && 0 <= x < p && 0 <= y < p && Cong(x, y, p)
    ensures x == y
  {
    Remainder(x, p, 0, x);
    Remainder(y, p, 0, y);
  }

  lemma RebuiltIs(base: int, z: int, key: int, c: int)
    ensures 0 <= Rebuilt(base, z, key, c) < Order() && Cong(Rebuilt(base, z, key, c), z * base - c * key, Order())
  {
    hide Order;
    CongMod(z * base, Order());
    CongMod(c * key, Order());
    CongSub((z * base) % Order(), z * base, (c * key) % Order(), c * key, Order());
    CongMod((z * base) % Order() + (-((c * key) % Order())), Order());
  }

  lemma OneReduced()
    ensures 1 % Order() == 1
  {
  }

  /** A list that proves the share can only be the one that the verifier rebuilds. */
  lemma OnlyRebuilt(l: seq<int>, vk: int, h: int, share: Share)
    requires Hashed(l, vk, h, share.g)
    ensures Answers(l, vk, h, share) <==> l == Transcript(vk, Rebuilt(1, share.z, vk, share.c), h, share.g, Rebuilt(h, share.z, share.g, share.c))
  {
    var a, b := Rebuilt(1, share.z, vk, share.c), Rebuilt(h, share.z, share.g, share.c);
    OneReduced();
    RebuiltIs(1, share.z, vk, share.c);
    RebuiltIs(h, share.z, share.g, share.c);
    hide Order, Rebuilt;
    if Answers(l, vk, h, share) {
      ReducedUnique(l[2], a, Order());
      ReducedUnique(l[5], b, Order());
    }
  }

  lemma RebuiltHashed(vk: int, h: int, share: Share)
    ensures Hashed(Transcript(vk, Rebuilt(1, share.z, vk, share.c), h, share.g, Rebuilt(h, share.z, share.g, share.c)), vk, h, share.g)
  {
    OneReduced();
    RebuiltIs(1, share.z, vk, share.c);
    RebuiltIs(h, share.z, share.g, share.c);
    hide Order, Rebuilt;
  }

  /** What an accepted share is: there is a list of the base, the key, the hashed message, the share and
      the two commitments that answer the challenge, and the challenge is its hash. */
  lemma AcceptedExactly(C: seq<int>, vk: int, share: Share, hash: seq<int> -> nat, sha: seq<int> -> nat)
    ensures Verifies(C, vk, Some(share), hash, sha) <==> C != [] && exists l :: Proves(l, vk, hash(C) % Order(), share, sha)
  {
    var h := hash(C) % Order();
    var l := Transcript(vk, Rebuilt(1, share.z, vk, share.c), h, share.g, Rebuilt(h, share.z, share.g, share.c));
    RebuiltHashed(vk, h, share);
    OnlyRebuilt(l, vk, h, share);
    hide Order, Hashed, Answers, Transcript, Rebuilt;
    if k :| Proves(k, vk, h, share, sha) {
      OnlyRebuilt(k, vk, h, share);
    }
    if Verifies(C, vk, Some(share), hash, sha) {
      assert Proves(l, vk, h, share, sha);
    }
  }

  ghost predicate Injective(sha: seq<int> -> nat) {
    forall k, l :: sha(k) == sha(l) ==> k == l
  }

  /** What the challenge binds: where the hash of the list is injective, two accepted shares with one
      challenge have the same key, the same hashed message and the same share. */
  lemma ChallengeBinds(C: seq<int>, vk: int, share: Share, D: seq<int>, wk: int, other: Share, hash: seq<int> -> nat, sha: seq<int> -> nat)
    requires Injective(sha) && share.c == other.c
    requires Verifies(C, vk, Some(share), hash, sha) && Verifies(D, wk, Some(other), hash, sha)
    ensures vk == wk && hash(C) % Order() == hash(D) % Order() && share.g == other.g
  {
    AcceptedExactly(C, vk, share, hash, sha);
    AcceptedExactly(D, wk, other, hash, sha);
    hide Order, Answers, Verifies;
    var k :| Proves(k, vk, hash(C) % Order(), share, sha);
    var l :| Proves(l, wk, hash(D) % Order(), other, sha);
    assert k == l;
  }

  /** What the proof rules out: if one list has accepting responses to two challenges that differ modulo
      the order, the share is the secret key times the hashed message. So for any other share at most
      one challenge can be answered. */
  lemma TwoChallengesFixTheShare(sk: int, h: int, l: seq<int>, share: Share, other: Share)
    requires Prime(Order()) && (share.c - other.c) % Order() != 0
    requires Hashed(l, sk % Order(), h, share.g) && Answers(l, sk % Order(), h, share)
    requires Hashed(l, sk % Order(), h, other.g) && Answers(l, sk % Order(), h, other)
    ensures Cong(share.g, h * sk, Order())
  {
    hide Order, Prime;
    var p := Order();
    var vk := sk % p;
    CongMod(sk, p);
    SpecialSoundness(vk, h, share.g, share.c, share.z, other.c, other.z, p);
    CongMul(h, h, vk, sk, p);
  }

  lemma SpecialSoundness(x: int, h: int, g: int, c1: int, z1: int, c2: int, z2: int, p: nat)
    requires Prime(p) && (c1 - c2) % p != 0
    requires Cong(z1 * 1 - c1 * x, z2 * 1 - c2 * x, p) && Cong(z1 * h - c1 * g, z2 * h - c2 * g, p)
    ensures Cong(g, h * x, p)
  {
    var d := c1 - c2;
    CongMul(z1 * 1 - c1 * x, z2 * 1 - c2 * x, h, h, p);
    CongSub(z1 * h - c1 * g, z2 * h - c2 * g, (z1 * 1 - c1 * x) * h, (z2 * 1 - c2 * x) * h, p);
    SoundnessAlgebra(x, h, g, c1, z1);
    SoundnessAlgebra(x, h, g, c2, z2);
    var e := h * x - g;
    assert Cong(c1 * e, c2 * e, p);
    CongSub(c1 * e, c2 * e, c2 * e, c2 * e, p);
    assert c1 * e - c2 * e == d * e && c2 * e - c2 * e == d * 0;
    Cancel(d, e, 0, p);
    CongAdd(e, 0, g, g, p);
  }

  lemma SoundnessAlgebra(x: int, h: int, g: int, c: int, z: int)
    ensures (z * h - c * g) - (z * 1 - c * x) * h == c * (h * x - g)
  {
  }
}
