/** Divisibility facts behind double hashing. */
module NumberTheory {

  predicate Times(q: int, d: int, n: int) {
    n == q * d
  }

  ghost predicate Divides(d: int, n: int) {
    exists q :: Times(q, d, n)
  }

  function Gcd(a: nat, b: nat): (g: nat)
    requires a > 0 || b > 0
    ensures g > 0
    decreases b
  {
    if b == 0 then a else Gcd(b, a % b)
  }

  lemma DividesIntro(d: int, n: int, q: int)
    requires n == q * d
    ensures Divides(d, n)
  {
    assert Times(q, d, n);
  }

  lemma Quotient(d: int, n: int) returns (q: int)
    requires Divides(d, n)
    ensures n == q * d
  {
    q :| Times(q, d, n);
  }

  lemma Regroup(a: int, p: int, b: int, q: int, d: int)
    ensures a * (p * d) + b * (q * d) == (a * p + b * q) * d
  {
    assert a * (p * d) == (a * p) * d;
    assert b * (q * d) == (b * q) * d;
  }

  lemma DividesSum(d: int, x: int, y: int, a: int, b: int)
    requires Divides(d, x) && Divides(d, y)
    ensures Divides(d, a * x + b * y)
  {
    var p := Quotient(d, x);
    var q := Quotient(d, y);
    Regroup(a, p, b, q, d);
    DividesIntro(d, a * x + b * y, a * p + b * q);
  }

  lemma SwapCoefficients(a: int, b: int, q: int, r: int, u: int, v: int)
    requires a == q * b + r
    ensures u * b + v * r == v * a + (u - v * q) * b
  {
    assert v * a == v * (q * b) + v * r;
    assert v * (q * b) == (v * q) * b;
  }

  /** The greatest common divisor divides both numbers and is a combination of them. */
  lemma {:induction false} GcdBezout(a: nat, b: nat) returns (x: int, y: int)
    requires a > 0 || b > 0
    ensures Gcd(a, b) == x * a + y * b
    ensures Divides(Gcd(a, b), a) && Divides(Gcd(a, b), b)
    decreases b
  {
    if b == 0 {
      x, y := 1, 0;
      DividesIntro(a, a, 1);
      DividesIntro(a, 0, 0);
    } else {
      var q, r := a / b, a % b;
      var u, v := GcdBezout(b, r);
      x, y := v, u - v * q;
      SwapCoefficients(a, b, q, r, u, v);
      DividesSum(Gcd(a, b), b, r, q, 1);
    }
  }

  lemma MulCancel(a: int, b: int, c: int)
    requires a * c == b * c && c != 0
    ensures a == b
  {
  }

  /** Dividing out the greatest common divisor is exact. */
  lemma ExactQuotient(m: nat, h: nat) returns (p: nat)
    requires m > 0
    ensures p == m / Gcd(m, h) && m == p * Gcd(m, h) && p > 0
  {
    var g := Gcd(m, h);
    var _, _ := GcdBezout(m, h);
    var q := Quotient(g, m);
    p := m / g;
    DivideBack(q, g, m);
  }

  lemma MulSign(q: int, g: int)
    requires g > 0
    ensures q <= 0 ==> q * g <= 0
  {
  }

  lemma DivideBack(q: int, g: nat, m: nat)
    requires g > 0 && m > 0 && m == q * g
    ensures m / g == q && q > 0
  {
    MulSign(q, g);
    var p, r := m / g, m % g;
    assert m == p * g + r;
    assert r == (q - p) * g by {
      assert (q - p) * g == q * g - p * g;
    }
    NoSmallMultiple(g, r, q - p);
    MulCancel(p, q, g);
  }

  /** If `g = x*m + y*h` and `m` divides `d*h` then `m` divides `d*g`. */
  lemma Euclid(m: int, h: int, d: int, g: int, x: int, y: int, q: int)
    requires g == x * m + y * h && d * h == q * m
    ensures d * g == (d * x + y * q) * m
  {
    assert d * (y * h) == y * (d * h);
    assert y * (q * m) == (y * q) * m;
    assert d * (x * m) == (d * x) * m;
    assert d * g == d * (x * m) + d * (y * h);
  }

  /** `m` divides `d * h` exactly when `m / gcd(m, h)` divides `d`. */
  lemma DividesProduct(m: nat, h: nat, d: int)
    requires m > 0
    ensures Divides(m, d * h) <==> Divides(m / Gcd(m, h), d)
  {
    var g := Gcd(m, h);
    var p := ExactQuotient(m, h);
    if Divides(m, d * h) {
      var x, y := GcdBezout(m, h);
      var q := Quotient(m, d * h);
      Euclid(m, h, d, g, x, y, q);
      var c := d * x + y * q;
      assert c * (p * g) == (c * p) * g;
      MulCancel(d, c * p, g);
      DividesIntro(p, d, c);
    }
    if Divides(p, d) {
      ScaleUp(m, h, d, g, p);
    }
  }

  lemma FourFactors(q: int, p: int, k: int, g: int)
    ensures (q * p) * (k * g) == (q * k) * (p * g)
  {
    assert (q * p) * (k * g) == q * (p * (k * g));
    assert p * (k * g) == k * (p * g);
    assert q * (k * (p * g)) == (q * k) * (p * g);
  }

  lemma ScaleUp(m: nat, h: nat, d: int, g: nat, p: nat)
    requires m > 0 && g == Gcd(m, h) && m == p * g && Divides(p, d)
    ensures Divides(m, d * h)
  {
    var _, _ := GcdBezout(m, h);
    var q := Quotient(p, d);
    var k := Quotient(g, h);
    FourFactors(q, p, k, g);
    DividesIntro(m, d * h, q * k);
  }

  lemma Differences(m: int, a: int, b: int, qa: int, qb: int, ra: int, rb: int, q: int)
    requires a == qa * m + ra && b == qb * m + rb
    ensures ra == rb ==> a - b == (qa - qb) * m
    ensures a - b == q * m ==> ra - rb == (q - qa + qb) * m
  {
    assert (q - qa + qb) * m == q * m - qa * m + qb * m;
  }

  /** Two numbers leave the same remainder exactly when `m` divides their difference. */
  lemma SameRemainder(m: nat, a: int, b: int)
    requires m > 0
    ensures a % m == b % m <==> Divides(m, a - b)
  {
    var qa, qb := a / m, b / m;
    if a % m == b % m {
      Differences(m, a, b, qa, qb, a % m, b % m, 0);
      DividesIntro(m, a - b, qa - qb);
    }
    if Divides(m, a - b) {
      var q := Quotient(m, a - b);
      Differences(m, a, b, qa, qb, a % m, b % m, q);
      NoSmallMultiple(m, a % m - b % m, q - qa + qb);
    }
  }

  /** The only multiple of `m` strictly between `-m` and `m` is zero. */
  lemma NoSmallMultiple(m: int, n: int, q: int)
    requires m > 0 && n == q * m && -m < n && n < m
    ensures n == 0 && q == 0
  {
    if q != 0 {
      MulAtLeast(m, q);
      assert false;
    }
  }

  lemma MulAtLeast(m: int, q: int)
    requires m > 0
    ensures q >= 1 ==> q * m >= m
    ensures q <= -1 ==> q * m <= -m
  {
    if q >= 1 {
      assert (q - 1) * m >= 0;
    } else if q <= -1 {
      assert (q + 1) * m <= 0;
    }
  }
}
