/** Cosine similarity in exact arithmetic. */
module Cosine {

  function Dot(a: seq<real>, b: seq<real>, n: nat): real
    requires n <= |a| && n <= |b|
  {
    if n == 0 then 0.0 else Dot(a, b, n - 1) + a[n - 1] * b[n - 1]
  }

  /** The sum over joined vectors is the sum of the two, and that over one coordinate its
  product. */
  lemma {:induction false} DotAppend(a: seq<real>, b: seq<real>, c: seq<real>, d: seq<real>)
    requires |a| == |b| && |c| == |d|
    ensures Dot(a + c, b + d, |a| + |c|) == Dot(a, b, |a|) + Dot(c, d, |c|)
    ensures forall x, y :: Dot([x], [y], 1) == x * y
  {
    forall x, y
      ensures Dot([x], [y], 1) == x * y
    {
      assert Dot([x], [y], 0) == 0.0;
    }
    if c == [] {
      assert a + c == a && b + d == b;
    } else {
      var c', d' := c[..|c| - 1], d[..|d| - 1];
      DotAppend(a, b, c', d');
      DotPrefix(a + c, b + d, a + c', b + d', |a| + |c'|);
      DotPrefix(c, d, c', d', |c'|);
    }
  }

  lemma {:induction false} DotPrefix(a: seq<real>, b: seq<real>, a': seq<real>, b': seq<real>, n: nat)
    requires n <= |a| && n <= |b| && n <= |a'| && n <= |b'|
    requires forall i :: 0 <= i < n ==> a[i] == a'[i] && b[i] == b'[i]
    ensures Dot(a, b, n) == Dot(a', b', n)
  {
    if n > 0 {
      DotPrefix(a, b, a', b', n - 1);
    }
  }

  lemma SquareNonNegative(x: real)
    ensures x * x >= 0.0
  {
  }

  lemma {:induction false} NormNonNegative(a: seq<real>, n: nat)
    requires n <= |a|
    ensures Dot(a, a, n) >= 0.0
  {
    if n > 0 {
      NormNonNegative(a, n - 1);
      SquareNonNegative(a[n - 1]);
    }
  }

  lemma PositiveFactor(a: real, x: real)
    requires a > 0.0 && a * x >= 0.0
    ensures x >= 0.0
  {
  }

  lemma PositiveProduct(x: real, y: real, q: real)
    requires x > 0.0 && y > 0.0 && q == x * y
    ensures q > 0.0
  {
  }

  lemma OnlyZero(d: real, q: real)
    requires q == d * d && q <= 0.0
    ensures d == 0.0
  {
    if d > 0.0 {
      PositiveProduct(d, d, q);
    } else if d < 0.0 {
      PositiveProduct(-d, -d, q);
    }
  }

  lemma ScaledCross(a: real, b: real, d: real, x: real, y: real)
    requires d * d <= a * b
    ensures a * (a * y * y + b * x * x - 2.0 * d * x * y) >= 0.0
  {
    var p, q := a * y, d * x;
    SquareNonNegative(p - q);
    assert (p - q) * (p - q) == p * p - 2.0 * p * q + q * q;
    SquareNonNegative(x);
    assert (a * b - d * d) * (x * x) >= 0.0;
    assert a * (b * x * x) - q * q == (a * b - d * d) * (x * x) by {
      assert a * (b * x * x) == (a * b) * (x * x);
      assert q * q == (d * d) * (x * x);
    }
    assert a * (a * y * y) == p * p;
    assert a * (2.0 * d * x * y) == 2.0 * p * q;
  }

  /** The cross term of one more coordinate. */
  lemma CrossTerm(a: real, b: real, d: real, x: real, y: real)
    requires a >= 0.0 && b >= 0.0 && d * d <= a * b
    ensures 2.0 * d * x * y <= a * y * y + b * x * x
  {
    if a == 0.0 {
      var q := d * d;
      assert a * b == 0.0;
      assert q <= 0.0;
      OnlyZero(d, q);
      SquareNonNegative(x);
      assert 2.0 * d * x * y == 0.0 && a * y * y == 0.0;
      assert b * (x * x) >= 0.0;
      assert b * x * x == b * (x * x);
    } else {
      ScaledCross(a, b, d, x, y);
      PositiveFactor(a, a * y * y + b * x * x - 2.0 * d * x * y);
    }
  }

  lemma OneTerm(a: seq<real>, b: seq<real>, n: nat)
    requires 0 < n <= |a| && n <= |b|
    ensures Dot(a, b, n) == Dot(a, b, n - 1) + a[n - 1] * b[n - 1]
  {
  }

  /** Cauchy-Schwarz for the loop sums. */
  lemma {:induction false} CauchySchwarz(a: seq<real>, b: seq<real>, n: nat)
    requires n <= |a| && n <= |b|
    ensures Dot(a, b, n) * Dot(a, b, n) <= Dot(a, a, n) * Dot(b, b, n)
  {
    if n > 0 {
      CauchySchwarz(a, b, n - 1);
      NormNonNegative(a, n - 1);
      NormNonNegative(b, n - 1);
      OneTerm(a, a, n);
      OneTerm(b, b, n);
      OneTerm(a, b, n);
      Extend(Dot(a, a, n - 1), Dot(b, b, n - 1), Dot(a, b, n - 1), a[n - 1], b[n - 1],
             Dot(a, b, n), Dot(a, a, n), Dot(b, b, n));
    }
  }

  lemma Extend(na: real, nb: real, d: real, x: real, y: real, d': real, na': real, nb': real)
    requires na >= 0.0 && nb >= 0.0 && d * d <= na * nb
    requires d' == d + x * y && na' == na + x * x && nb' == nb + y * y
    ensures d' * d' <= na' * nb'
  {
    CrossTerm(na, nb, d, x, y);
    var s, t := x * x, y * y;
    assert (d + x * y) * (d + x * y) == d * d + 2.0 * d * x * y + s * t by {
      assert (x * y) * (x * y) == s * t;
    }
    assert (na + s) * (nb + t) == na * nb + na * t + nb * s + s * t;
  }

  /** What `x ** 0.5` promises. */
  ghost predicate IsSquareRoot(root: real -> real) {
    forall x :: x >= 0.0 ==> root(x) >= 0.0 && root(x) * root(x) == x
  }

  lemma RootBound(d: real, na: real, nb: real, ra: real, rb: real)
    requires d * d <= na * nb && ra >= 0.0 && rb >= 0.0 && ra * ra == na && rb * rb == nb
    requires na != 0.0 && nb != 0.0
    ensures ra * rb > 0.0 && d <= ra * rb
    ensures d / (ra * rb) <= 1.0
  {
    var p := ra * rb;
    assert p * p == na * nb by {
      assert p * p == (ra * ra) * (rb * rb);
    }
    assert ra > 0.0 && rb > 0.0;
    assert p > 0.0;
    if d > p {
      SquaresOrdered(p, d);
      assert false;
    }
    DivideBound(d, p);
  }

  lemma SquaresOrdered(p: real, d: real)
    requires 0.0 < p < d
    ensures p * p < d * d
  {
    assert p * p < p * d;
    assert p * d < d * d;
  }

  lemma DivideBound(d: real, p: real)
    requires p > 0.0 && d <= p
    ensures d / p <= 1.0
  {
  }

  /** The cosine of an angle from the inner product and the norms, with negative ones and
  those of a zero vector taken as zero. */
  ghost predicate IsCosine(sim: real, dot: real, na: real, nb: real, ra: real, rb: real) {
    && (na == 0.0 || nb == 0.0 || dot <= 0.0 ==> sim == 0.0)
    && (na != 0.0 && nb != 0.0 && dot >= 0.0 ==> sim * (ra * rb) == dot)
  }

  /** The three sums the loop accumulates. */
  method Sums(a: seq<real>, b: seq<real>, n: nat) returns (dot: real, na: real, nb: real)
    requires n <= |a| && n <= |b|
    ensures dot == Dot(a, b, n) && na == Dot(a, a, n) && nb == Dot(b, b, n)
    ensures dot * dot <= na * nb && na >= 0.0 && nb >= 0.0
  {
    dot, na, nb := 0.0, 0.0, 0.0;
    for i := 0 to n
      invariant dot == Dot(a, b, i) && na == Dot(a, a, i) && nb == Dot(b, b, i)
    {
      dot := dot + a[i] * b[i];
      na := na + a[i] * a[i];
      nb := nb + b[i] * b[i];
    }
    CauchySchwarz(a, b, n);
    NormNonNegative(a, n);
    NormNonNegative(b, n);
  }

  ghost predicate IsSimilarity(sim: real, a: seq<real>, b: seq<real>, n: nat, root: real -> real)
    requires n <= |a| && n <= |b|
  {
    var na, nb := Dot(a, a, n), Dot(b, b, n);
    IsCosine(sim, Dot(a, b, n), na, nb, root(na), root(nb))
  }

  lemma QuotientIs(dot: real, p: real, sim: real)
    requires p > 0.0 && sim == dot / p
    ensures sim * p == dot && (dot <= 0.0 ==> sim <= 0.0) && (sim < 0.0 ==> dot < 0.0)
  {
    if dot > 0.0 {
      PositiveFactor(p, sim);
    } else {
      PositiveFactor(p, -sim);
    }
  }

  /** The similarity of any two vectors, over their common coordinates, lies in [0, 1] and
  is the cosine of their angle unless that is negative: the clamp at one never changes
  anything. */
  method Similarity(a: seq<real>, b: seq<real>, root: real -> real) returns (sim: real)
    requires IsSquareRoot(root)
    ensures 0.0 <= sim <= 1.0 && IsSimilarity(sim, a, b, if |a| < |b| then |a| else |b|, root)
  {
    var n := if |a| < |b| then |a| else |b|;
    if n == 0 {
      return 0.0;
    }
    var dot, na, nb := Sums(a, b, n);
    if na == 0.0 || nb == 0.0 {
      return 0.0;
    }
    RootBound(dot, na, nb, root(na), root(nb));
    ghost var p := root(na) * root(nb);
    sim := dot / (root(na) * root(nb));
    assert p > 0.0 && sim == dot / p <= 1.0;
    QuotientIs(dot, p, sim);
    if sim < 0.0 {
      return 0.0;
    }
    if sim > 1.0 {
      return 1.0;
    }
  }

  // ---- what the similarity depends on ------------------------------------------------------

  lemma SameQuotient(x: real, y: real, p: real)
    requires p != 0.0 && x * p == y * p
    ensures x == y
  {
    assert (x - y) * p == 0.0;
  }

  lemma RootsPositive(na: real, nb: real, ra: real, rb: real)
    requires na != 0.0 && nb != 0.0 && ra >= 0.0 && rb >= 0.0 && ra * ra == na && rb * rb == nb
    ensures ra * rb > 0.0
  {
    assert ra > 0.0 && rb > 0.0;
    PositiveProduct(ra, rb, ra * rb);
  }

  /** A vector that is not zero has similarity one with itself. */
  lemma SelfSimilarity(sim: real, na: real, ra: real)
    requires na > 0.0 && ra >= 0.0 && ra * ra == na && IsCosine(sim, na, na, na, ra, ra)
    ensures sim == 1.0
  {
    SameQuotient(sim, 1.0, na);
  }

  function Scaled(s: real, a: seq<real>): seq<real> {
    seq(|a|, i requires 0 <= i < |a| => s * a[i])
  }

  function Times(s: real, t: real, x: real): real {
    s * t * x
  }

  lemma {:induction false} DotScaled(s: real, t: real, a: seq<real>, b: seq<real>, n: nat)
    requires n <= |a| && n <= |b|
    ensures Dot(Scaled(s, a), Scaled(t, b), n) == Times(s, t, Dot(a, b, n))
  {
    if n > 0 {
      DotScaled(s, t, a, b, n - 1);
      FourReals(s, a[n - 1], t, b[n - 1]);
      Distribute(s * t, Dot(a, b, n - 1), a[n - 1] * b[n - 1]);
    }
  }

  lemma FourReals(s: real, x: real, t: real, y: real)
    ensures (s * x) * (t * y) == (s * t) * (x * y)
  {
    assert (s * x) * (t * y) == s * (x * (t * y));
    assert x * (t * y) == t * (x * y);
    assert s * (t * (x * y)) == (s * t) * (x * y);
  }

  lemma Distribute(c: real, x: real, y: real)
    ensures c * (x + y) == c * x + c * y
  {
  }

  lemma RootScaled(s: real, na: real, ra: real, rs: real)
    requires s > 0.0 && ra >= 0.0 && ra * ra == na && rs >= 0.0 && rs * rs == s * s * na
    ensures rs == s * ra
  {
    FourReals(s, ra, s, ra);
    var p := s * ra;
    assert p >= 0.0 && p * p == rs * rs;
    if rs > p {
      Squares(p, rs);
    } else if p > rs {
      Squares(rs, p);
    }
  }

  lemma Squares(p: real, q: real)
    requires 0.0 <= p < q
    ensures p * p < q * q
  {
    var d := (q - p) * (q + p);
    PositiveProduct(q - p, q + p, d);
    assert d == q * q - p * p;
  }

  lemma ScaledZero(c: real, x: real)
    requires c > 0.0
    ensures (c * x == 0.0 <==> x == 0.0) && (c * x <= 0.0 <==> x <= 0.0)
  {
    if x > 0.0 {
      PositiveProduct(c, x, c * x);
    } else if x < 0.0 {
      PositiveProduct(c, -x, c * -x);
      assert c * -x == -(c * x);
    }
  }

  lemma Cancelled(sim: real, sim': real, c: real, p: real, x: real, dot: real)
    requires c > 0.0 && p > 0.0 && x == c * p && sim * p == dot && sim' * x == c * dot
    ensures sim' == sim
  {
    PositiveProduct(c, p, x);
    assert sim * x == c * (sim * p);
    SameQuotient(sim', sim, x);
  }

  lemma ScaledCosine(sim: real, sim': real, s: real, t: real, dot: real, na: real, nb: real, ra: real, rb: real,
                     dot': real, na': real, nb': real, ra': real, rb': real)
    requires s > 0.0 && t > 0.0 && ra >= 0.0 && rb >= 0.0 && ra * ra == na && rb * rb == nb
    requires dot' == Times(s, t, dot) && na' == Times(s, s, na) && nb' == Times(t, t, nb) && ra' == s * ra && rb' == t * rb
    requires IsCosine(sim, dot, na, nb, ra, rb) && IsCosine(sim', dot', na', nb', ra', rb')
    ensures sim' == sim
  {
    PositiveProduct(s, t, s * t);
    PositiveProduct(s, s, s * s);
    PositiveProduct(t, t, t * t);
    ScaledZero(s * t, dot);
    ScaledZero(s * s, na);
    ScaledZero(t * t, nb);
    if na != 0.0 && nb != 0.0 && dot > 0.0 {
      RootsPositive(na, nb, ra, rb);
      FourReals(s, ra, t, rb);
      Cancelled(sim, sim', s * t, ra * rb, ra' * rb', dot);
    }
  }

  lemma ScaledNorm(s: real, a: seq<real>, n: nat, root: real -> real)
    requires IsSquareRoot(root) && s > 0.0 && n <= |a|
    ensures var na, na' := Dot(a, a, n), Dot(Scaled(s, a), Scaled(s, a), n);
      na >= 0.0 && na' >= 0.0 && na' == Times(s, s, na) && root(na') == s * root(na)
  {
    DotScaled(s, s, a, a, n);
    NormNonNegative(a, n);
    NormNonNegative(Scaled(s, a), n);
    var na, na' := Dot(a, a, n), Dot(Scaled(s, a), Scaled(s, a), n);
    RootScaled(s, na, root(na), root(na'));
  }

  /** Only the directions of the vectors matter: scaling them by positive factors does not
  change their similarity. */
  lemma ScaleInvariant(a: seq<real>, b: seq<real>, n: nat, s: real, t: real, root: real -> real, sim: real, sim': real)
    requires IsSquareRoot(root) && s > 0.0 && t > 0.0 && n <= |a| && n <= |b|
    requires IsSimilarity(sim, a, b, n, root) && IsSimilarity(sim', Scaled(s, a), Scaled(t, b), n, root)
    ensures sim' == sim
  {
    DotScaled(s, t, a, b, n);
    ScaledNorm(s, a, n, root);
    ScaledNorm(t, b, n, root);
    var na, nb := Dot(a, a, n), Dot(b, b, n);
    var na', nb' := Dot(Scaled(s, a), Scaled(s, a), n), Dot(Scaled(t, b), Scaled(t, b), n);
    ScaledCosine(sim, sim', s, t, Dot(a, b, n), na, nb, root(na), root(nb),
                 Dot(Scaled(s, a), Scaled(t, b), n), na', nb', root(na'), root(nb'));
  }
}
