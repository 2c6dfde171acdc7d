/** Facts about the reals that several components need: what is used of exp and ln, integer powers, ceilings. */
module RealFacts {

  ghost predicate ExpOrder(exp: real -> real, x: real, y: real) { x <= y ==> exp(x) <= exp(y) }

  ghost predicate ExpPositive(exp: real -> real, x: real) { exp(x) > 0.0 }

  /** All that the proofs use of the exponential: it is positive, 1 at 0, and non-decreasing. */
  ghost predicate IsExp(exp: real -> real) {
    && exp(0.0) == 1.0
    && (forall x :: ExpPositive(exp, x))
    && (forall x, y :: ExpOrder(exp, x, y))
  }

  ghost predicate LnOrder(ln: real -> real, x: real, y: real) { 0.0 < x < y ==> ln(x) < ln(y) }

  ghost predicate LnProduct(ln: real -> real, x: real, y: real) { 0.0 < x && 0.0 < y ==> ln(x * y) == ln(x) + ln(y) }

  /** All that the proofs use of the logarithm: strictly increasing on the positives, and the product law. */
  ghost predicate IsLn(ln: real -> real) {
    && (forall x, y :: LnOrder(ln, x, y))
    && (forall x, y :: LnProduct(ln, x, y))
  }

  ghost predicate LnTangent(ln: real -> real, x: real) { 0.0 < x ==> ln(x) <= x - 1.0 }

  /** The natural logarithm: the one that touches x - 1 from below. */
  ghost predicate IsNaturalLn(ln: real -> real) { IsLn(ln) && forall x :: LnTangent(ln, x) }

  function Max(x: real, y: real): real { if x < y then y else x }

  function Min(x: real, y: real): real { if y < x then y else x }

  function Abs(x: real): real { if x < 0.0 then -x else x }

  function Ceil(x: real): (n: int)
    ensures n as real - 1.0 < x <= n as real
  {
    -((-x).Floor)
  }

  /** The ceiling is the least integer that is not below x. */
  lemma CeilIsLeast(x: real, n: int)
    ensures x <= n as real <==> Ceil(x) <= n
  {}

  function Pow(x: real, n: nat): (r: real)
    ensures x > 0.0 ==> r > 0.0
  {
    if n == 0 then 1.0 else Pow(x, n - 1) * x
  }

  function Factorial(n: nat): (r: nat)
    ensures r > 0
  {
    if n == 0 then 1 else Factorial(n - 1) * n
  }

  lemma MulMono(x: real, y: real, k: real)
    requires x <= y && 0.0 <= k
    ensures x * k <= y * k
  {}

  lemma MulMonoStrict(x: real, y: real, k: real)
    requires x < y && 0.0 < k
    ensures x * k < y * k
  {}

  lemma MulMono2(x: real, y: real, x': real, y': real)
    requires 0.0 <= x <= x' && 0.0 <= y <= y'
    ensures 0.0 <= x * y <= x' * y'
  {
    MulMono(x, x', y);
    MulMono(y, y', x');
  }

  /** Multiplication under a name that proofs can hide, so that the solver sees products as atoms. */
  function Mul(x: real, y: real): real { x * y }

  lemma MulPositive(x: real, y: real)
    ensures x > 0.0 && y > 0.0 ==> Mul(x, y) > 0.0
    ensures x >= 0.0 && y >= 0.0 ==> Mul(x, y) >= 0.0
    ensures x == 0.0 || y == 0.0 ==> Mul(x, y) == 0.0
  {}

  lemma MulNegations(x: real, y: real)
    ensures Mul(-x, -y) == Mul(x, y)
  {}

  lemma SquarePositive(x: real)
    requires x != 0.0
    ensures Mul(x, x) > 0.0
  {
    hide Mul;
    MulPositive(x, x);
    MulPositive(-x, -x);
    MulNegations(x, x);
  }

  lemma MulOrder(k: real, x: real, y: real)
    requires k >= 0.0 && x <= y
    ensures Mul(k, x) <= Mul(k, y)
  {}

  lemma MulCancel(k: real, x: real, y: real)
    requires k > 0.0 && Mul(k, x) <= Mul(k, y)
    ensures x <= y
  {
    if y < x { MulMonoStrict(y, x, k); }
  }

  lemma MulDistributes(k: real, x: real, y: real)
    ensures Mul(k, x + y) == Mul(k, x) + Mul(k, y) && Mul(x + y, k) == Mul(x, k) + Mul(y, k)
  {}

  lemma MulInterchange(a: real, b: real, c: real, d: real)
    ensures Mul(Mul(a, b), Mul(c, d)) == Mul(Mul(a, c), Mul(b, d)) == Mul(Mul(a, d), Mul(c, b))
  {}

  lemma MulCommutes(x: real, y: real)
    ensures Mul(x, y) == Mul(y, x)
  {}

  lemma MeanOfSquares(p: real, q: real)
    ensures 2.0 * Mul(p, q) <= Mul(p, p) + Mul(q, q)
  {
    var d := p - q;
    assert d * d >= 0.0;
    assert d * d == p * p - 2.0 * (p * q) + q * q;
  }

  lemma QuotientMul(x: real, d: real)
    requires d > 0.0
    ensures Mul(x / d, d) == x
  {}

  lemma PositiveProduct(x: real, y: real)
    requires 0.0 < x && 0.0 < y
    ensures x * y > 0.0
  {}

  /** Comparing a quotient is comparing products. */
  lemma Quotient(q: real, x: real, d: real, y: real)
    requires d > 0.0 && q * d == x
    ensures q <= y <==> x <= y * d
    ensures y <= q <==> y * d <= x
  {
    if q < y { MulMonoStrict(q, y, d); }
    if y < q { MulMonoStrict(y, q, d); }
  }

  lemma DivLe(x: real, d: real, y: real)
    requires d > 0.0
    ensures x / d <= y <==> x <= y * d
  {
    Quotient(x / d, x, d, y);
  }

  lemma DivMono(x: real, y: real, d: real)
    requires d > 0.0 && x <= y
    ensures x / d <= y / d
  {
    Quotient(x / d, x, d, y / d);
  }

  lemma LeDiv(x: real, d: real, y: real)
    requires d > 0.0
    ensures y <= x / d <==> y * d <= x
  {
    Quotient(x / d, x, d, y);
  }

  lemma PositiveQuotient(x: real, y: real)
    requires 0.0 < x && 0.0 < y
    ensures x / y > 0.0
  {
    DivLe(x, y, 0.0);
  }

  /** Cross-multiplication. */
  lemma DivCompare(x: real, d: real, y: real, e: real)
    requires d > 0.0 && e > 0.0
    ensures x / d <= y / e <==> x * e <= y * d
  {
    DivLe(x, d, y / e);
    var q := y / e;
    assert q * e == y;
    assert (q * d) * e == (q * e) * d;
    if x <= q * d { MulMono(x, q * d, e); } else { MulMonoStrict(q * d, x, e); }
  }

  /** ln turns integer powers into multiples. */
  lemma {:induction false} LnPow(ln: real -> real, x: real, n: nat)
    requires IsLn(ln) && x > 0.0
    ensures ln(Pow(x, n)) == n as real * ln(x)
  {
    if n == 0 {
      assert LnProduct(ln, 1.0, 1.0);
    } else {
      LnPow(ln, x, n - 1);
      assert LnProduct(ln, Pow(x, n - 1), x);
      MulDistributes(ln(x), (n - 1) as real, 1.0);
    }
  }

  /** ln reflects the order of positive numbers. */
  lemma LnCompare(ln: real -> real, x: real, y: real)
    requires IsLn(ln) && x > 0.0 && y > 0.0
    ensures x <= y <==> ln(x) <= ln(y)
  {
    if x < y { assert LnOrder(ln, x, y); } else if y < x { assert LnOrder(ln, y, x); }
  }

  lemma LnOne(ln: real -> real)
    requires IsLn(ln)
    ensures ln(1.0) == 0.0
  {
    assert LnProduct(ln, 1.0, 1.0);
  }

  lemma LnQuotient(ln: real -> real, x: real, y: real)
    requires IsLn(ln) && x > 0.0 && y > 0.0
    ensures x / y > 0.0 && ln(x / y) == ln(x) - ln(y)
  {
    PositiveQuotient(x, y);
    LnFactor(ln, x / y, x, y);
  }

  lemma LnFactor(ln: real -> real, q: real, x: real, y: real)
    requires IsLn(ln) && q > 0.0 && y > 0.0 && q * y == x
    ensures ln(q) == ln(x) - ln(y)
  {
    assert LnProduct(ln, q, y);
  }

  /** (1 - x) / x and 1 - x bracket ln(1 / x). */
  lemma LnBracket(ln: real -> real, x: real)
    requires IsNaturalLn(ln) && x > 0.0
    ensures ln(x) <= x - 1.0 && -ln(x) <= 1.0 / x - 1.0
  {
    LnOne(ln);
    LnQuotient(ln, 1.0, x);
    assert LnTangent(ln, x) && LnTangent(ln, 1.0 / x);
  }
}
