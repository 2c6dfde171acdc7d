/** Erlang B/C arithmetic and the server search (server/QueueMath.h), over the reals. */
module QueueMath {
  import opened Options
  import opened RealFacts

  const BIG: real := 1000000000000000000.0

  // ---------------------------------------------------------------- textbook formulas

  /** a^k / k! */
  function Term(a: real, k: nat): real {
    Pow(a, k) / (Factorial(k) as real)
  }

  /** The sum of a^i / i! over i <= k. */
  function TermSum(a: real, k: nat): real {
    if k == 0 then Term(a, 0) else TermSum(a, k - 1) + Term(a, k)
  }

  lemma TermStep(a: real, k: nat)
    requires k > 0
    ensures Term(a, k) * k as real == Term(a, k - 1) * a
  {
    hide Pow, Factorial;
    assert Pow(a, k) == Pow(a, k - 1) * a && Factorial(k) == Factorial(k - 1) * k by { PowStep(a, k); }
    QuotientStep(Pow(a, k - 1), Factorial(k - 1) as real, a, k as real);
  }

  lemma PowStep(a: real, k: nat)
    requires k > 0
    ensures Pow(a, k) == Pow(a, k - 1) * a && Factorial(k) == Factorial(k - 1) * k
  {}

  /** (p a) / (f r) * r == (p / f) a. */
  lemma QuotientStep(p: real, f: real, a: real, r: real)
    requires f > 0.0 && r > 0.0
    ensures f * r > 0.0 && p * a / (f * r) * r == p / f * a
  {
    PositiveProduct(f, r);
    var t, u := p * a / (f * r), p / f;
    CancelFactor(t, u, p, f, a, r);
  }

  lemma CancelFactor(t: real, u: real, p: real, f: real, a: real, r: real)
    requires f > 0.0 && t * (f * r) == p * a && u * f == p
    ensures t * r == u * a
  {
    assert (t * r) * f == (u * a) * f;
    assert (t * r - u * a) * f == 0.0;
  }

  lemma {:induction false} TermSumPositive(a: real, k: nat)
    requires a > 0.0
    ensures Term(a, k) > 0.0 && TermSum(a, k) >= Term(a, k)
  {
    LeDiv(Pow(a, k), Factorial(k) as real, 0.0);
    DivLe(Pow(a, k), Factorial(k) as real, 0.0);
    if k > 0 { TermSumPositive(a, k - 1); }
  }

  /** Blocking probability of M/M/c/c in closed form. */
  function ErlangB(c: nat, a: real): real
    requires a > 0.0
  {
    TermSumPositive(a, c);
    Term(a, c) / TermSum(a, c)
  }

  /** Waiting probability of M/M/c in closed form, with the same limits as the code outside 0 < a < c. */
  function WaitProb(c: int, a: real): real {
    if c <= 0 then 1.0
    else if a <= 0.0 then 0.0
    else if a >= c as real then 1.0
    else
      TermSumPositive(a, c);
      TermSumPositive(a, c - 1);
      LessThanOne(a, c as real);
      var w := Term(a, c) / (1.0 - a / c as real);
      PositiveQuotient(Term(a, c), 1.0 - a / c as real);
      w / (TermSum(a, c - 1) + w)
  }

  lemma LessThanOne(x: real, y: real)
    requires 0.0 <= x < y
    ensures 0.0 <= x / y < 1.0
  {
    LeDiv(x, y, 0.0);
    LeDiv(x, y, 1.0);
  }

  // ---------------------------------------------------------------- Erlang B

  /** The recursion the code iterates. */
  lemma ErlangBStep(c: nat, a: real)
    requires c > 0 && a > 0.0
    ensures c as real + a * ErlangB(c - 1, a) > 0.0
    ensures ErlangB(c, a) == a * ErlangB(c - 1, a) / (c as real + a * ErlangB(c - 1, a))
  {
    hide Term;
    TermStep(a, c);
    TermSumPositive(a, c);
    TermSumPositive(a, c - 1);
    BlockingStep(c as real, a, Term(a, c - 1), TermSum(a, c - 1), Term(a, c));
  }

  /** The step for any terms t and t' that relate like two consecutive ones, s being the sum up to t. */
  lemma BlockingStep(k: real, a: real, t: real, s: real, t': real)
    requires k > 0.0 && a > 0.0 && t > 0.0 && s > 0.0 && t' > 0.0 && t' * k == t * a
    ensures k + a * (t / s) > 0.0
    ensures t' / (s + t') == a * (t / s) / (k + a * (t / s))
  {
    var b := t / s;
    PositiveQuotient(t, s);
    PositiveProduct(a, b);
    assert b * s == t;
    CrossTerms(k, a, b, s, t, t');
    QuotientsEqual(t', s + t', a * b, k + a * b);
  }

  lemma CrossTerms(k: real, a: real, b: real, s: real, t: real, t': real)
    requires b * s == t && t' * k == t * a
    ensures t' * (k + a * b) == a * b * (s + t')
  {
    var x := a * b;
    MulDistributes(t', k, x);
    MulDistributes(x, s, t');
    assert x * s == a * (b * s);
  }

  lemma QuotientsEqual(x: real, d: real, y: real, e: real)
    requires d > 0.0 && e > 0.0 && x * e == y * d
    ensures x / d == y / e
  {
    DivCompare(x, d, y, e);
    DivCompare(y, e, x, d);
  }

  lemma {:induction false} ErlangBRange(c: nat, a: real)
    requires a > 0.0
    ensures 0.0 < ErlangB(c, a) <= 1.0
  {
    TermSumPositive(a, c);
    PositiveQuotient(Term(a, c), TermSum(a, c));
    DivLe(Term(a, c), TermSum(a, c), 1.0);
  }

  /** The carried load never exceeds the number of servers. */
  lemma {:induction false} CarriedLoad(c: nat, a: real)
    requires a > 0.0
    ensures a * (1.0 - ErlangB(c, a)) <= c as real
  {
    if c == 0 {
      assert ErlangB(0, a) == 1.0;
    } else {
      CarriedLoad(c - 1, a);
      ErlangBStep(c, a);
      ErlangBRange(c - 1, a);
      ErlangBRange(c, a);
      CarriedStep(c as real, a, ErlangB(c - 1, a), ErlangB(c, a));
    }
  }

  lemma CarriedStep(k: real, a: real, b: real, q: real)
    requires k + a * b > 0.0 && q == a * b / (k + a * b) && q <= 1.0 && a * (1.0 - b) <= k - 1.0
    ensures a * (1.0 - q) <= k
  {
    var d := k + a * b;
    Distributed(a, b);
    Remainder(k, a * b, q);
    MulMono(a, d, 1.0 - q);
  }

  lemma Distributed(a: real, b: real)
    ensures a * (1.0 - b) == a - a * b
  {}

  lemma Remainder(k: real, x: real, q: real)
    requires k + x > 0.0 && q == x / (k + x)
    ensures (k + x) * (1.0 - q) == k
  {
    var d := k + x;
    assert q * d == x;
    Distributed(d, q);
  }

  /** One more server never blocks more. */
  lemma ErlangBDecreasing(c: nat, a: real)
    requires a > 0.0
    ensures ErlangB(c + 1, a) <= ErlangB(c, a)
  {
    hide ErlangB;
    ErlangBStep(c + 1, a);
    ErlangBRange(c, a);
    CarriedLoad(c, a);
    var k, b := (c + 1) as real, ErlangB(c, a);
    assert a <= k + a * b;
    MulMono(a, k + a * b, b);
    DivLe(a * b, k + a * b, b);
  }

  /** More offered load never blocks less. */
  lemma {:induction false} ErlangBIncreasingInLoad(c: nat, a: real, a': real)
    requires 0.0 < a <= a'
    ensures ErlangB(c, a) <= ErlangB(c, a')
  {
    assert ErlangB(0, a) == ErlangB(0, a') == 1.0;
    hide ErlangB;
    if c > 0 {
      ErlangBIncreasingInLoad(c - 1, a, a');
      ErlangBStep(c, a);
      ErlangBStep(c, a');
      ErlangBRange(c - 1, a);
      var k, x, y := c as real, a * ErlangB(c - 1, a), a' * ErlangB(c - 1, a');
      MulMono2(a, ErlangB(c - 1, a), a', ErlangB(c - 1, a'));
      MulMono(x, y, k);
      DivCompare(x, k + x, y, k + y);
    }
  }

  // ---------------------------------------------------------------- Erlang C

  /** The last line of erlangC, on a blocking probability b and a utilisation rho. */
  function FromBlocking(b: real, rho: real): real
    requires 0.0 < b && 0.0 <= rho <= 1.0
  {
    assert 1.0 - rho + rho * b > 0.0 by { FromBlockingDefined(b, rho); }
    b / (1.0 - rho + rho * b)
  }

  lemma FromBlockingDefined(b: real, rho: real)
    requires 0.0 < b && 0.0 <= rho <= 1.0
    ensures 1.0 - rho + rho * b > 0.0
  {
    if rho == 1.0 {} else { assert rho * b >= 0.0; }
  }

  lemma FromBlockingMonotoneInB(b: real, b': real, rho: real)
    requires 0.0 < b <= b' && 0.0 <= rho <= 1.0
    ensures 0.0 < FromBlocking(b, rho) <= FromBlocking(b', rho)
  {
    FromBlockingDefined(b, rho);
    FromBlockingDefined(b', rho);
    CrossMultiplied(b, b', rho);
    BlockingOrder(b, 1.0 - rho + rho * b, b', 1.0 - rho + rho * b');
  }

  lemma BlockingOrder(b: real, d: real, b': real, d': real)
    requires 0.0 < b && 0.0 < d && 0.0 < d' && b * d' <= b' * d
    ensures 0.0 < b / d <= b' / d'
  {
    PositiveQuotient(b, d);
    DivCompare(b, d, b', d');
  }

  lemma CrossMultiplied(b: real, b': real, rho: real)
    requires b <= b' && rho <= 1.0
    ensures b * (1.0 - rho + rho * b') <= b' * (1.0 - rho + rho * b)
  {
    MulMono(b, b', 1.0 - rho);
    assert b * (1.0 - rho + rho * b') == b * (1.0 - rho) + rho * (b * b');
    assert b' * (1.0 - rho + rho * b) == b' * (1.0 - rho) + rho * (b * b');
  }

  lemma FromBlockingMonotoneInRho(b: real, rho: real, rho': real)
    requires 0.0 < b <= 1.0 && 0.0 <= rho <= rho' <= 1.0
    ensures FromBlocking(b, rho) <= FromBlocking(b, rho') <= 1.0
  {
    FromBlockingDefined(b, rho);
    FromBlockingDefined(b, rho');
    DenominatorOrder(b, rho, rho');
    DenominatorOrder(b, rho', 1.0);
    ShrinkingDenominator(b, 1.0 - rho + rho * b, 1.0 - rho' + rho' * b);
  }

  lemma DenominatorOrder(b: real, rho: real, rho': real)
    requires b <= 1.0 && rho <= rho'
    ensures 1.0 - rho' + rho' * b <= 1.0 - rho + rho * b
  {
    MulMono(rho, rho', 1.0 - b);
  }

  lemma ShrinkingDenominator(b: real, d: real, d': real)
    requires 0.0 < b <= d' <= d
    ensures b / d <= b / d' <= 1.0
  {
    MulMono(d', d, b);
    DivCompare(b, d, b, d');
    DivLe(b, d', 1.0);
  }

  lemma FromBlockingMonotone(b: real, rho: real, b': real, rho': real)
    requires 0.0 < b <= b' <= 1.0 && 0.0 <= rho <= rho' <= 1.0
    ensures 0.0 < FromBlocking(b, rho) <= FromBlocking(b', rho') <= 1.0
  {
    hide FromBlocking;
    FromBlockingMonotoneInB(b, b', rho);
    FromBlockingMonotoneInRho(b', rho, rho');
  }

  /** The value the code computes from Erlang B is the closed form of Erlang C. */
  lemma WaitProbFromBlocking(c: int, a: real)
    requires c > 0 && 0.0 < a < c as real
    ensures 0.0 < ErlangB(c, a) && 0.0 <= a / c as real <= 1.0
    ensures WaitProb(c, a) == FromBlocking(ErlangB(c, a), a / c as real)
  {
    hide Term;
    LessThanOne(a, c as real);
    ErlangBRange(c, a);
    TermSumPositive(a, c);
    TermSumPositive(a, c - 1);
    var u := 1.0 - a / c as real;
    PositiveQuotient(Term(a, c), u);
    ErlangAlgebra(Term(a, c), TermSum(a, c - 1), u);
  }

  /** (t/u) / (s + t/u) and b / (u + (1-u) b) with b = t / (s+t) are both t / (s u + t). */
  lemma ErlangAlgebra(t: real, s: real, u: real)
    requires t > 0.0 && s > 0.0 && 0.0 < u <= 1.0
    ensures t / u > 0.0 && t / (s + t) > 0.0 && u + (1.0 - u) * (t / (s + t)) > 0.0
    ensures (t / u) / (s + t / u) == (t / (s + t)) / (u + (1.0 - u) * (t / (s + t)))
  {
    PositiveQuotient(t, u);
    PositiveQuotient(t, s + t);
    MulMono(0.0, 1.0 - u, t / (s + t));
    ErlangCross(t, s, u, t / u, t / (s + t));
  }

  lemma ErlangCross(t: real, s: real, u: real, w: real, b: real)
    requires t > 0.0 && s > 0.0 && 0.0 < u && w > 0.0 && b > 0.0
    requires w * u == t && b * (s + t) == t && u + (1.0 - u) * b > 0.0
    ensures w / (s + w) == b / (u + (1.0 - u) * b)
  {
    var f := u + (1.0 - u) * b;
    // b s = t (1 - b), so w f = w u + w (1-u) b = t + w b - t b = b s + b w
    assert w * f == w * u + w * b - (w * u) * b;
    assert w * f == b * (s + w);
    QuotientsEqual(w, s + w, b, f);
  }

  /** The formula meets the a >= c branch: at a == c it gives 1. */
  lemma WaitProbMeetsSaturation(c: nat)
    requires c > 0
    ensures 0.0 < ErlangB(c, c as real)
    ensures FromBlocking(ErlangB(c, c as real), 1.0) == 1.0 == WaitProb(c, c as real)
  {
    ErlangBRange(c, c as real);
  }

  lemma WaitProbRange(c: int, a: real)
    ensures 0.0 <= WaitProb(c, a) <= 1.0
  {
    if c > 0 && 0.0 < a < c as real {
      WaitProbFromBlocking(c, a);
      ErlangBRange(c, a);
      FromBlockingMonotone(ErlangB(c, a), a / c as real, ErlangB(c, a), a / c as real);
    }
  }

  /** One more server never makes waiting likelier. */
  lemma WaitProbDecreasing(c: int, a: real)
    requires c > 0
    ensures WaitProb(c + 1, a) <= WaitProb(c, a)
  {
    WaitProbRange(c + 1, a);
    if 0.0 < a < c as real {
      WaitProbFromBlocking(c, a);
      WaitProbFromBlocking(c + 1, a);
      ErlangBDecreasing(c, a);
      ErlangBRange(c, a);
      DivCompare(a, (c + 1) as real, a, c as real);
      FromBlockingMonotone(ErlangB(c + 1, a), a / (c + 1) as real, ErlangB(c, a), a / c as real);
    }
  }

  /** More offered load never makes waiting less likely. */
  lemma WaitProbIncreasingInLoad(c: int, a: real, a': real)
    requires a <= a'
    ensures WaitProb(c, a) <= WaitProb(c, a')
  {
    WaitProbRange(c, a);
    WaitProbRange(c, a');
    if c > 0 && 0.0 < a && a' < c as real {
      WaitProbFromBlocking(c, a);
      WaitProbFromBlocking(c, a');
      ErlangBIncreasingInLoad(c, a, a');
      ErlangBRange(c, a');
      DivMono(a, a', c as real);
      FromBlockingMonotone(ErlangB(c, a), a / c as real, ErlangB(c, a'), a' / c as real);
    }
  }

  /** The recursion both implementations iterate computes the closed form of Erlang B. */
  method ErlangBLoop(c: nat, a: real) returns (b: real)
    requires a > 0.0
    ensures b == ErlangB(c, a)
  {
    assert ErlangB(0, a) == 1.0;
    hide *;
    b := 1.0;
    for k := 1 to c + 1
      invariant b == ErlangB(k - 1, a)
    {
      ErlangBStep(k, a);
      b := a * b / (k as real + a * b);
    }
  }

  /** erlangC returns the closed form of the M/M/c waiting probability. */
  method ErlangC(c: int, a: real) returns (r: real)
    ensures r == WaitProb(c, a)
    ensures 0.0 <= r <= 1.0
  {
    hide ErlangB, TermSum, Term;
    WaitProbRange(c, a);
    if c <= 0 { return 1.0; }
    if a <= 0.0 { return 0.0; }
    if a >= c as real { return 1.0; }
    hide WaitProb;
    var b := ErlangBLoop(c, a);
    var rho := a / c as real;
    WaitProbFromBlocking(c, a);
    FromBlockingDefined(b, rho);
    r := b / (1.0 - rho + rho * b);
  }

  // ---------------------------------------------------------------- waiting-time tail

  /** Half the summed squared variations, kept away from 0. */
  function Variation(ca2: real, cs2: real): (v: real)
    ensures v > 0.0
  {
    Max((ca2 + cs2) / 2.0, 0.001)
  }

  /** The exponential factor of the tail: s is the spare service rate. */
  function Decay(exp: real -> real, s: real, t: real, v: real): real
    requires v > 0.0
  {
    exp(-s * t / v)
  }

  /** P(Wq > t), with the code's limits. */
  function WaitTail(exp: real -> real, c: int, lam: real, mu: real, t: real, ca2: real, cs2: real): real {
    if lam <= 0.0 then 0.0
    else if mu <= 0.0 || c <= 0 then 1.0
    else if lam / mu >= c as real then 1.0
    else Below(exp, c, lam / mu, Spare(c, lam, mu), t, Variation(ca2, cs2))
  }

  /** The tail in one formula, with s the spare service rate and v the variation of at least 0.001. */
  lemma WaitTailIs(exp: real -> real, c: int, lam: real, mu: real, t: real, ca2: real, cs2: real, s: real, v: real)
    ensures lam <= 0.0 ==> WaitTail(exp, c, lam, mu, t, ca2, cs2) == 0.0
    ensures lam > 0.0 && (mu <= 0.0 || c <= 0 || lam >= c as real * mu) ==>
      WaitTail(exp, c, lam, mu, t, ca2, cs2) == 1.0
    ensures lam > 0.0 && mu > 0.0 && c > 0 && lam < c as real * mu ==>
      s == c as real * mu - lam && v == (if ca2 + cs2 < 0.002 then 0.001 else (ca2 + cs2) / 2.0) ==>
      WaitTail(exp, c, lam, mu, t, ca2, cs2) == WaitProb(c, lam / mu) * exp(-s * t / v)
  {
    hide WaitProb, Spare, Decay;
    if mu > 0.0 { LeDiv(lam, mu, c as real); }
    SpareIs(c, lam, mu);
    DecayIs(exp, s, t, Variation(ca2, cs2));
  }

  lemma SpareIs(c: int, lam: real, mu: real)
    ensures Spare(c, lam, mu) == c as real * mu - lam
  {}

  lemma DecayIs(exp: real -> real, s: real, t: real, v: real)
    requires v > 0.0
    ensures Decay(exp, s, t, v) == exp(-s * t / v)
  {}

  /** The service rate that the load leaves. */
  function Spare(c: int, lam: real, mu: real): real { c as real * mu - lam }

  /** The tail with load a below saturation and spare service rate s. */
  function Below(exp: real -> real, c: int, a: real, s: real, t: real, v: real): real
    requires v > 0.0
  {
    WaitProb(c, a) * Decay(exp, s, t, v)
  }

  method TailBelow(exp: real -> real, c: int, a: real, s: real, t: real, v: real) returns (r: real)
    requires v > 0.0
    ensures r == Below(exp, c, a, s, t, v)
  {
    hide WaitProb;
    var w := ErlangC(c, a);
    r := w * exp(-s * t / v);
  }

  method PWaitGt(exp: real -> real, c: int, lam: real, mu: real, t: real, ca2: real, cs2: real) returns (r: real)
    ensures r == WaitTail(exp, c, lam, mu, t, ca2, cs2)
  {
    hide WaitProb, Spare, Below;
    if lam <= 0.0 { return 0.0; }
    if mu <= 0.0 || c <= 0 { return 1.0; }
    var a := lam / mu;
    if a >= c as real { return 1.0; }
    var v := (ca2 + cs2) / 2.0;
    if v < 0.001 { v := 0.001; }
    assert v == Variation(ca2, cs2);
    r := TailBelow(exp, c, a, Spare(c, lam, mu), t, v);
  }

  /** More spare rate never lengthens the tail, and with none left it is at most 1. */
  lemma DecayMonotone(exp: real -> real, s: real, s': real, t: real, v: real)
    requires IsExp(exp) && t >= 0.0 && v > 0.0 && 0.0 <= s <= s'
    ensures 0.0 <= Decay(exp, s', t, v) <= Decay(exp, s, t, v) <= 1.0
  {
    MulMono(-s', -s, t);
    MulMono(-s, 0.0, t);
    DivLe(-s * t, v, 0.0);
    DivMono(-s' * t, -s * t, v);
    var e, e' := -s * t / v, -s' * t / v;
    assert ExpOrder(exp, e', e) && ExpOrder(exp, e, 0.0) && ExpPositive(exp, e');
  }

  lemma SpareFacts(c: int, lam: real, mu: real)
    requires mu > 0.0
    ensures lam / mu < c as real ==> Spare(c, lam, mu) >= 0.0
    ensures Spare(c, lam, mu) <= Spare(c + 1, lam, mu)
  {
    LeDiv(lam, mu, c as real);
    MulMono(c as real, (c + 1) as real, mu);
  }

  /** The tail is no longer where the waiting probability is no larger and the spare rate no smaller. */
  lemma BelowMonotone(exp: real -> real, c: int, a: real, s: real, c': int, a': real, s': real, t: real, v: real)
    requires IsExp(exp) && t >= 0.0 && v > 0.0 && 0.0 <= s' <= s && WaitProb(c, a) <= WaitProb(c', a')
    ensures 0.0 <= Below(exp, c, a, s, t, v) <= Below(exp, c', a', s', t, v) <= 1.0
  {
    hide WaitProb, Decay, IsExp;
    WaitProbRange(c, a);
    WaitProbRange(c', a');
    DecayMonotone(exp, s', s, t, v);
    MulMono2(WaitProb(c, a), Decay(exp, s, t, v), WaitProb(c', a'), Decay(exp, s', t, v));
    MulMono2(WaitProb(c', a'), Decay(exp, s', t, v), 1.0, 1.0);
  }

  lemma WaitTailRange(exp: real -> real, c: int, lam: real, mu: real, t: real, ca2: real, cs2: real)
    requires IsExp(exp) && t >= 0.0
    ensures 0.0 <= WaitTail(exp, c, lam, mu, t, ca2, cs2) <= 1.0
  {
    hide WaitProb, Spare, Below;
    if lam > 0.0 && mu > 0.0 && c > 0 && lam / mu < c as real {
      SpareFacts(c, lam, mu);
      var s := Spare(c, lam, mu);
      BelowMonotone(exp, c, lam / mu, s, c, lam / mu, s, t, Variation(ca2, cs2));
    }
  }

  lemma WaitTailDecreasing(exp: real -> real, c: int, lam: real, mu: real, t: real, ca2: real, cs2: real)
    requires IsExp(exp) && t >= 0.0 && c > 0
    ensures WaitTail(exp, c + 1, lam, mu, t, ca2, cs2) <= WaitTail(exp, c, lam, mu, t, ca2, cs2)
  {
    hide WaitProb, Spare, Below;
    WaitTailRange(exp, c + 1, lam, mu, t, ca2, cs2);
    if lam > 0.0 && mu > 0.0 && lam / mu < c as real {
      SpareFacts(c, lam, mu);
      WaitProbDecreasing(c, lam / mu);
      BelowMonotone(exp, c + 1, lam / mu, Spare(c + 1, lam, mu), c, lam / mu, Spare(c, lam, mu), t,
                    Variation(ca2, cs2));
    }
  }

  lemma WaitTailIncreasingInRate(exp: real -> real, c: int, lam: real, lam': real, mu: real, t: real, ca2: real,
                                 cs2: real)
    requires IsExp(exp) && t >= 0.0 && lam <= lam'
    ensures WaitTail(exp, c, lam, mu, t, ca2, cs2) <= WaitTail(exp, c, lam', mu, t, ca2, cs2)
  {
    hide WaitProb, Spare, Below;
    WaitTailRange(exp, c, lam, mu, t, ca2, cs2);
    WaitTailRange(exp, c, lam', mu, t, ca2, cs2);
    if lam > 0.0 && mu > 0.0 && c > 0 {
      DivMono(lam, lam', mu);
      if lam' / mu < c as real {
        SpareFacts(c, lam', mu);
        SpareFallsInRate(c, lam, lam', mu);
        WaitProbIncreasingInLoad(c, lam / mu, lam' / mu);
        BelowMonotone(exp, c, lam / mu, Spare(c, lam, mu), c, lam' / mu, Spare(c, lam', mu), t, Variation(ca2, cs2));
      }
    }
  }

  /** More variable arrivals or services never shorten the wait. */
  lemma WaitTailRisesWithVariation(exp: real -> real, c: int, lam: real, mu: real, t: real, ca2: real, cs2: real,
                                   ca2': real, cs2': real)
    requires IsExp(exp) && t >= 0.0 && ca2 + cs2 <= ca2' + cs2'
    ensures WaitTail(exp, c, lam, mu, t, ca2, cs2) <= WaitTail(exp, c, lam, mu, t, ca2', cs2')
  {
    hide WaitProb, Spare, Decay;
    if lam > 0.0 && mu > 0.0 && c > 0 && lam / mu < c as real {
      SpareFacts(c, lam, mu);
      WaitProbRange(c, lam / mu);
      DecayRises(exp, Spare(c, lam, mu), t, Variation(ca2, cs2), Variation(ca2', cs2'));
      MulOrder(WaitProb(c, lam / mu), Decay(exp, Spare(c, lam, mu), t, Variation(ca2, cs2)),
               Decay(exp, Spare(c, lam, mu), t, Variation(ca2', cs2')));
    }
  }

  lemma DecayRises(exp: real -> real, s: real, t: real, v: real, v': real)
    requires IsExp(exp) && s >= 0.0 && t >= 0.0 && 0.0 < v <= v'
    ensures Decay(exp, s, t, v) <= Decay(exp, s, t, v')
  {
    MulMono(0.0, s, t);
    QuotientFalls(-s * t, v, v');
    assert ExpOrder(exp, -s * t / v, -s * t / v');
  }

  /**
   * The correction stretches the conditional wait by v = (ca2 + cs2) / 2: the corrected tail at v t is the uncorrected
   * tail of M/M/c at t. The factor is never below 0.001.
   */
  lemma CorrectionStretches(exp: real -> real, c: int, lam: real, mu: real, t: real, ca2: real, cs2: real, v: real)
    requires c > 0 && mu > 0.0
    requires v == if ca2 + cs2 < 0.002 then 0.001 else (ca2 + cs2) / 2.0
    ensures WaitTail(exp, c, lam, mu, v * t, ca2, cs2) == PyWaitTail(exp, c, lam, mu, t)
  {
    hide WaitProb, Spare, Below, PyBelow;
    DivLe(lam, mu, 0.0);
    assert v == Variation(ca2, cs2);
    BelowStretches(exp, c, lam / mu, Spare(c, lam, mu), t, v, v * t);
  }

  lemma BelowStretches(exp: real -> real, c: int, a: real, s: real, t: real, v: real, x: real)
    requires v > 0.0 && x == v * t
    ensures PyBelow(exp, c, a, s, t) == if a <= 0.0 then 0.0 else Below(exp, c, a, s, x, v)
  {
    hide WaitProb, Decay, PyDecay;
    DecayStretches(exp, s, t, v);
  }

  lemma DecayStretches(exp: real -> real, s: real, t: real, v: real)
    requires v > 0.0
    ensures Decay(exp, s, v * t, v) == PyDecay(exp, s, t)
  {
    assert -s * (v * t) == (-s * t) * v;
    assert -s * (v * t) / v == -s * t;
  }

  lemma SpareFallsInRate(c: int, lam: real, lam': real, mu: real)
    requires lam <= lam'
    ensures Spare(c, lam', mu) <= Spare(c, lam, mu)
  {}

  // ---------------------------------------------------------------- the server search

  /** The utilisation of c servers. */
  function Rho(c: int, lam: real, mu: real): real
    requires c > 0 && mu != 0.0
  {
    assert c as real * mu != 0.0;
    lam / (c as real * mu)
  }

  lemma RhoFalls(c: int, lam: real, mu: real)
    requires c > 0 && mu > 0.0
    ensures if lam > 0.0 then Rho(c + 1, lam, mu) <= Rho(c, lam, mu) else Rho(c, lam, mu) <= Rho(c + 1, lam, mu) <= 0.0
  {
    MulMonoStrict(0.0, c as real, mu);
    MulMonoStrict(c as real, (c + 1) as real, mu);
    DivLe(lam, (c + 1) as real * mu, 0.0);
    QuotientFalls(lam, c as real * mu, (c + 1) as real * mu);
  }

  lemma QuotientFalls(x: real, d: real, d': real)
    requires 0.0 < d <= d'
    ensures if x > 0.0 then x / d' <= x / d else x / d <= x / d'
  {
    if x > 0.0 { MulMono(d, d', x); } else { MulMono(d, d', -x); }
    DivCompare(x, d', x, d);
    DivCompare(x, d, x, d');
  }

  lemma RhoRisesInRate(c: int, lam: real, lam': real, mu: real)
    requires c > 0 && mu > 0.0 && lam <= lam'
    ensures Rho(c, lam, mu) <= Rho(c, lam', mu)
  {
    MulMonoStrict(0.0, c as real, mu);
    DivMono(lam, lam', c as real * mu);
  }

  /** What minServers looks for: utilisation and tail both within their targets. */
  predicate Feasible(exp: real -> real, c: int, lam: real, mu: real, t: real, p: real, rhoMax: real, ca2: real,
                     cs2: real)
    requires c > 0 && mu > 0.0
  {
    Rho(c, lam, mu) <= rhoMax && WaitTail(exp, c, lam, mu, t, ca2, cs2) <= p
  }

  /** Without division: the load stays within the utilisation target, and the tail within its own. */
  lemma FeasibleIs(exp: real -> real, c: int, lam: real, mu: real, t: real, p: real, rhoMax: real, ca2: real, cs2: real)
    requires c > 0 && mu > 0.0
    ensures Feasible(exp, c, lam, mu, t, p, rhoMax, ca2, cs2) <==>
      lam <= rhoMax * (c as real * mu) && WaitTail(exp, c, lam, mu, t, ca2, cs2) <= p
  {
    hide WaitTail;
    MulMonoStrict(0.0, c as real, mu);
    DivLe(lam, c as real * mu, rhoMax);
  }

  /** A server count that meets the targets keeps meeting them when servers are added. */
  lemma {:induction false} FeasibleUpward(exp: real -> real, c: int, c': int, lam: real, mu: real, t: real, p: real,
                                          rhoMax: real, ca2: real, cs2: real)
    requires IsExp(exp) && t >= 0.0 && mu > 0.0 && lam > 0.0 && 0 < c <= c'
    requires Feasible(exp, c, lam, mu, t, p, rhoMax, ca2, cs2)
    ensures Feasible(exp, c', lam, mu, t, p, rhoMax, ca2, cs2)
    decreases c' - c
  {
    hide Rho, WaitTail, IsExp;
    if c < c' {
      RhoFalls(c, lam, mu);
      WaitTailDecreasing(exp, c, lam, mu, t, ca2, cs2);
      FeasibleUpward(exp, c + 1, c', lam, mu, t, p, rhoMax, ca2, cs2);
    }
  }

  /** Servers that suffice for a rate suffice for every smaller positive rate. */
  lemma FeasibleForLowerRate(exp: real -> real, c: int, lam: real, lam': real, mu: real, t: real, p: real,
                             rhoMax: real, ca2: real, cs2: real)
    requires IsExp(exp) && t >= 0.0 && mu > 0.0 && lam <= lam' && 0 < c
    requires Feasible(exp, c, lam', mu, t, p, rhoMax, ca2, cs2)
    ensures Feasible(exp, c, lam, mu, t, p, rhoMax, ca2, cs2)
  {
    hide Rho, WaitTail, IsExp;
    RhoRisesInRate(c, lam, lam', mu);
    WaitTailIncreasingInRate(exp, c, lam, lam', mu, t, ca2, cs2);
  }

  /** What the search must return: the least feasible count up to cMax, and cMax when there is none. */
  ghost predicate IsMinServers(exp: real -> real, r: int, lam: real, mu: real, t: real, p: real, rhoMax: real,
                               ca2: real, cs2: real, cMax: int)
  {
    var top := if cMax < 1 then 1 else cMax;
    && 1 <= r <= top
    && if lam <= 0.0 then r == 1
       else if mu <= 0.0 then r == top
       else
         && (forall c {:trigger Feasible(exp, c, lam, mu, t, p, rhoMax, ca2, cs2)} ::
               1 <= c < r ==> !Feasible(exp, c, lam, mu, t, p, rhoMax, ca2, cs2))
         && (r < top ==> Feasible(exp, r, lam, mu, t, p, rhoMax, ca2, cs2))
  }

  method MinServers(exp: real -> real, lam: real, mu: real, t: real, p: real, rhoMax: real, ca2: real, cs2: real,
                    cMax: int)
    returns (r: int)
    ensures IsMinServers(exp, r, lam, mu, t, p, rhoMax, ca2, cs2, cMax)
  {
    hide Rho, WaitTail;
    var top := cMax;
    if top < 1 { top := 1; }
    if lam <= 0.0 { return 1; }
    if mu <= 0.0 { return top; }
    var c := 1;
    while c <= top
      invariant 1 <= c <= top + 1
      invariant forall i :: 1 <= i < c ==> !Feasible(exp, i, lam, mu, t, p, rhoMax, ca2, cs2)
    {
      if Rho(c, lam, mu) <= rhoMax {
        var w := PWaitGt(exp, c, lam, mu, t, ca2, cs2);
        if w <= p { return c; }
      }
      c := c + 1;
    }
    r := top;
  }

  /** The search is exact: a count up to cMax meets the targets precisely from the result on, if any does. */
  lemma SearchIsExact(exp: real -> real, r: int, lam: real, mu: real, t: real, p: real, rhoMax: real, ca2: real,
                      cs2: real, cMax: int, c: int)
    requires IsExp(exp) && t >= 0.0 && lam > 0.0 && mu > 0.0 && 1 <= c <= cMax
    requires IsMinServers(exp, r, lam, mu, t, p, rhoMax, ca2, cs2, cMax)
    ensures Feasible(exp, c, lam, mu, t, p, rhoMax, ca2, cs2)
       <==> r <= c && Feasible(exp, r, lam, mu, t, p, rhoMax, ca2, cs2)
  {
    if Feasible(exp, c, lam, mu, t, p, rhoMax, ca2, cs2) {
      assert r <= c;
    } else if r <= c && Feasible(exp, r, lam, mu, t, p, rhoMax, ca2, cs2) {
      FeasibleUpward(exp, r, c, lam, mu, t, p, rhoMax, ca2, cs2);
    }
  }

  /** More arrivals never ask for fewer servers. */
  lemma SearchMonotoneInRate(exp: real -> real, r: int, r': int, lam: real, lam': real, mu: real, t: real, p: real,
                             rhoMax: real, ca2: real, cs2: real, cMax: int)
    requires IsExp(exp) && t >= 0.0 && lam <= lam'
    requires IsMinServers(exp, r, lam, mu, t, p, rhoMax, ca2, cs2, cMax)
    requires IsMinServers(exp, r', lam', mu, t, p, rhoMax, ca2, cs2, cMax)
    ensures r <= r'
  {
    if lam > 0.0 && mu > 0.0 && r' < r {
      FeasibleForLowerRate(exp, r', lam, lam', mu, t, p, rhoMax, ca2, cs2);
    }
  }

  /** More variation never asks for fewer servers. */
  lemma SearchMonotoneInVariation(exp: real -> real, r: int, r': int, lam: real, mu: real, t: real, p: real,
                                  rhoMax: real, ca2: real, cs2: real, ca2': real, cs2': real, cMax: int)
    requires IsExp(exp) && t >= 0.0 && ca2 + cs2 <= ca2' + cs2'
    requires IsMinServers(exp, r, lam, mu, t, p, rhoMax, ca2, cs2, cMax)
    requires IsMinServers(exp, r', lam, mu, t, p, rhoMax, ca2', cs2', cMax)
    ensures r <= r'
  {
    if lam > 0.0 && mu > 0.0 && r' < r {
      FeasibleForLessVariation(exp, r', lam, mu, t, p, rhoMax, ca2, cs2, ca2', cs2');
    }
  }

  lemma FeasibleForLessVariation(exp: real -> real, c: int, lam: real, mu: real, t: real, p: real, rhoMax: real,
                                 ca2: real, cs2: real, ca2': real, cs2': real)
    requires IsExp(exp) && t >= 0.0 && ca2 + cs2 <= ca2' + cs2' && c > 0 && mu > 0.0
    ensures Feasible(exp, c, lam, mu, t, p, rhoMax, ca2', cs2') ==>
      Feasible(exp, c, lam, mu, t, p, rhoMax, ca2, cs2)
  {
    hide WaitTail, Rho;
    WaitTailRisesWithVariation(exp, c, lam, mu, t, ca2, cs2, ca2', cs2');
  }

  // ---------------------------------------------------------------- the Python search of the experiments

  /** p_wait_gt of expcommon.py: no variation correction, and no guard for lam <= 0. */
  function PyDecay(exp: real -> real, s: real, t: real): real { exp(-s * t) }

  function PyWaitTail(exp: real -> real, c: int, lam: real, mu: real, t: real): real
    requires mu != 0.0
  {
    if lam / mu >= c as real then 1.0
    else PyBelow(exp, c, lam / mu, Spare(c, lam, mu), t)
  }

  function PyBelow(exp: real -> real, c: int, a: real, s: real, t: real): real {
    PyErlangC(c, a) * PyDecay(exp, s, t)
  }

  /** erlang_c of expcommon.py: the same two limits in the same order, and the same loop. */
  function PyErlangC(c: int, a: real): real {
    if a <= 0.0 then 0.0 else WaitProb(c, a)
  }

  predicate PyFeasible(exp: real -> real, c: int, lam: real, mu: real, t: real, p: real, rhoMax: real)
    requires c > 0 && mu != 0.0
  {
    Rho(c, lam, mu) <= rhoMax && PyWaitTail(exp, c, lam, mu, t) <= p
  }

  ghost predicate IsMinServersErlang(exp: real -> real, r: Option<int>, lam: real, mu: real, t: real, p: real,
                                     rhoMax: real, cMax: int)
    requires mu != 0.0
  {
    match r
    case Some(v) =>
      && 1 <= v <= cMax && PyFeasible(exp, v, lam, mu, t, p, rhoMax)
      && forall c {:trigger PyFeasible(exp, c, lam, mu, t, p, rhoMax)} :: 1 <= c < v ==>
           !PyFeasible(exp, c, lam, mu, t, p, rhoMax)
    case None =>
      forall c {:trigger PyFeasible(exp, c, lam, mu, t, p, rhoMax)} :: 1 <= c <= cMax ==>
        !PyFeasible(exp, c, lam, mu, t, p, rhoMax)
  }

  method PyErlang(c: int, a: real) returns (r: real)
    ensures r == PyErlangC(c, a)
  {
    hide WaitProb;
    if a <= 0.0 { return 0.0; }
    r := ErlangC(c, a);
  }

  method PyPWaitGt(exp: real -> real, c: int, lam: real, mu: real, t: real) returns (r: real)
    requires mu != 0.0
    ensures r == PyWaitTail(exp, c, lam, mu, t)
  {
    hide PyBelow, Spare;
    var a := lam / mu;
    if a >= c as real { return 1.0; }
    r := PyTailBelow(exp, c, a, Spare(c, lam, mu), t);
  }

  method PyTailBelow(exp: real -> real, c: int, a: real, s: real, t: real) returns (r: real)
    ensures r == PyBelow(exp, c, a, s, t)
  {
    hide PyErlangC;
    var w := PyErlang(c, a);
    r := w * exp(-s * t);
  }

  method MinServersErlang(exp: real -> real, lam: real, mu: real, t: real, p: real, rhoMax: real, cMax: int)
    returns (r: Option<int>)
    requires mu != 0.0
    ensures IsMinServersErlang(exp, r, lam, mu, t, p, rhoMax, cMax)
  {
    hide Rho, PyWaitTail;
    var c := 1;
    while c <= cMax
      invariant 1 <= c && (c <= cMax + 1 || c == 1)
      invariant forall i :: 1 <= i < c ==> !PyFeasible(exp, i, lam, mu, t, p, rhoMax)
    {
      if Rho(c, lam, mu) <= rhoMax {
        var w := PyPWaitGt(exp, c, lam, mu, t);
        if w <= p { return Some(c); }
      }
      c := c + 1;
    }
    r := None;
  }

  lemma TailsAgree(exp: real -> real, c: int, lam: real, mu: real, t: real)
    requires c > 0 && mu > 0.0
    ensures WaitTail(exp, c, lam, mu, t, 1.0, 1.0) == PyWaitTail(exp, c, lam, mu, t)
  {
    hide WaitProb, Spare, Decay, PyDecay;
    DivLe(lam, mu, 0.0);
    DecaysAgree(exp, Spare(c, lam, mu), t);
  }

  lemma DecaysAgree(exp: real -> real, s: real, t: real)
    ensures Variation(1.0, 1.0) == 1.0 && Decay(exp, s, t, 1.0) == PyDecay(exp, s, t)
  {
    assert -s * t / 1.0 == -s * t;
  }

  /** With unit variations the two implementations agree wherever the Python search finds a count within cMax. */
  lemma SearchesAgree(exp: real -> real, r: int, py: Option<int>, lam: real, mu: real, t: real, p: real, rhoMax: real,
                      cMax: int, pyMax: int)
    requires mu > 0.0 && IsExp(exp)
    requires IsMinServers(exp, r, lam, mu, t, p, rhoMax, 1.0, 1.0, cMax)
    requires IsMinServersErlang(exp, py, lam, mu, t, p, rhoMax, pyMax)
    ensures py.Some? && py.value <= cMax ==> r == py.value
    ensures lam > 0.0 && py.None? && 1 <= cMax <= pyMax ==> r == cMax
  {
    forall c | 1 <= c
      ensures Feasible(exp, c, lam, mu, t, p, rhoMax, 1.0, 1.0) == PyFeasible(exp, c, lam, mu, t, p, rhoMax)
    {
      TailsAgree(exp, c, lam, mu, t);
    }
    if py.Some? && py.value <= cMax && lam <= 0.0 {
      IdleRateTakesOneServer(exp, py.value, lam, mu, t, p, rhoMax);
    }
  }

  /** For lam <= 0 the tail is 0 at every count, and the utilisation is least at one server. */
  lemma IdleRateTakesOneServer(exp: real -> real, c: int, lam: real, mu: real, t: real, p: real, rhoMax: real)
    requires mu > 0.0 && lam <= 0.0 && c >= 1 && PyFeasible(exp, c, lam, mu, t, p, rhoMax)
    ensures PyFeasible(exp, 1, lam, mu, t, p, rhoMax)
  {
    hide Rho, PyWaitTail;
    TailsAgree(exp, c, lam, mu, t);
    TailsAgree(exp, 1, lam, mu, t);
    RhoIdle(c, lam, mu);
  }

  lemma {:induction false} RhoIdle(c: int, lam: real, mu: real)
    requires c >= 1 && mu > 0.0 && lam <= 0.0
    ensures Rho(1, lam, mu) <= Rho(c, lam, mu)
    decreases c
  {
    hide Rho;
    if c > 1 {
      RhoIdle(c - 1, lam, mu);
      RhoFalls(c - 1, lam, mu);
    }
  }

  // ---------------------------------------------------------------- queue-length floors

  /** K ~ rho (Ca2 + Cs2) / (2 (1 - rho)) ln(rho / eps), 0 below eps and BIG at saturation. */
  function KFloor(ln: real -> real, rho: real, ca2: real, cs2: real, eps: real): real
    requires eps > 0.0
  {
    if rho <= eps then 0.0
    else if rho >= 0.999 then BIG
    else Demand(ln, rho, ca2 + cs2, eps)
  }

  function Demand(ln: real -> real, rho: real, v: real, eps: real): real
    requires rho < 1.0 && eps > 0.0
  {
    rho * v / (2.0 * (1.0 - rho)) * ln(rho / eps)
  }

  /**
   * More utilization never asks for a shorter queue, up to the jump to BIG at saturation: there it does if and only if
   * the formula has already exceeded BIG.
   */
  lemma KFloorRisesIff(ln: real -> real, rho: real, rho': real, ca2: real, cs2: real, eps: real)
    requires IsLn(ln) && eps > 0.0 && ca2 + cs2 >= 0.0 && rho <= rho'
    ensures KFloor(ln, rho, ca2, cs2, eps) <= KFloor(ln, rho', ca2, cs2, eps) <==>
      rho' <= eps || rho' < 0.999 || KFloor(ln, rho, ca2, cs2, eps) <= BIG
  {
    hide Demand, IsLn;
    if eps < rho' < 0.999 { DemandRises(ln, if eps < rho then rho else rho', rho', ca2 + cs2, eps); }
  }

  /** Service times that vary enough bring the formula over BIG at half load: from there to saturation it falls. */
  lemma KFloorFalls(ln: real -> real) returns (cs2: real)
    requires IsLn(ln)
    ensures cs2 >= 0.0 && KFloor(ln, 0.5, 1.0, cs2, 0.0001) > KFloor(ln, 0.999, 1.0, cs2, 0.0001) == BIG
  {
    LnOne(ln);
    assert LnOrder(ln, 1.0, 5000.0);
    var l := ln(5000.0);
    cs2 := 4.0 * BIG / l;
    PositiveQuotient(4.0 * BIG, l);
    assert cs2 * l == 4.0 * BIG;
    HalfLoad(cs2, l);
    assert 0.5 / 0.0001 == 5000.0;
  }

  lemma HalfLoad(x: real, l: real)
    ensures 0.5 * (1.0 + x) / (2.0 * (1.0 - 0.5)) * l == 0.5 * l + 0.5 * (x * l)
  {}

  lemma DemandRises(ln: real -> real, rho: real, rho': real, v: real, eps: real)
    requires IsLn(ln) && 0.0 < eps < rho <= rho' < 0.999 && v >= 0.0
    ensures 0.0 <= Demand(ln, rho, v, eps) <= Demand(ln, rho', v, eps)
  {
    var d, d' := 2.0 * (1.0 - rho), 2.0 * (1.0 - rho');
    var f, f' := rho * v / d, rho' * v / d';
    MulMono2(rho, v, rho', v);
    MulMono2(rho * v, d', rho' * v, d);
    DivCompare(rho * v, d, rho' * v, d');
    LeDiv(rho * v, d, 0.0);
    LnOne(ln);
    LeDiv(rho, eps, 1.0);
    DivMono(rho, rho', eps);
    LnCompare(ln, 1.0, rho / eps);
    LnCompare(ln, rho / eps, rho' / eps);
    MulMono2(f, ln(rho / eps), f', ln(rho' / eps));
  }

  /** P(Lq >= n) = C(c, a) rho^n is within eps. */
  predicate LossWithin(c: int, a: real, eps: real, n: nat)
    requires c >= 1
  {
    WaitProb(c, a) * Pow(a / c as real, n) <= eps
  }

  /** Below saturation, kFloorMMc returns the least K from which the loss is within eps. */
  method KFloorMMc(ln: real -> real, c: int, a: real, eps: real) returns (k: real)
    requires IsLn(ln) && c >= 1 && eps > 0.0
    ensures a / c as real >= 0.999 ==> k == BIG
    ensures a / c as real < 0.999 ==> k >= 0.0 && k == k.Floor as real
    ensures a / c as real < 0.999 ==> forall n: nat :: LossWithin(c, a, eps, n) <==> k <= n as real
  {
    hide WaitProb;
    var rho := a / c as real;
    if rho >= 0.999 { return BIG; }
    DivLe(a, c as real, 1.0);
    var pw := ErlangC(c, a);
    if pw <= eps {
      k := 0.0;
      forall n: nat ensures LossWithin(c, a, eps, n) {
        GeometricTailShrinks(c, a, eps, n);
      }
      return;
    }
    LoadPositive(c, a, eps);
    LnOne(ln);
    assert LnOrder(ln, rho, 1.0);
    LnQuotient(ln, eps, pw);
    var q := ln(eps / pw) / ln(rho);
    k := Ceil(q) as real;
    forall n: nat ensures LossWithin(c, a, eps, n) <==> k <= n as real {
      TailInLogarithms(ln, pw, rho, eps, n);
      CeilIsLeast(q, n);
    }
    LnCompare(ln, pw, eps);
    NegativeQuotient(ln(eps / pw), ln(rho));
  }

  lemma LoadPositive(c: int, a: real, eps: real)
    requires c >= 1 && eps > 0.0 && WaitProb(c, a) > eps
    ensures a > 0.0 && a / c as real > 0.0
  {
    PositiveQuotient(if a > 0.0 then a else 1.0, c as real);
  }

  lemma NegativeQuotient(x: real, y: real)
    requires x < 0.0 && y < 0.0
    ensures x / y > 0.0
  {
    assert x / y == -x / -y;
    PositiveQuotient(-x, -y);
  }

  lemma GeometricTailShrinks(c: int, a: real, eps: real, n: nat)
    requires c >= 1 && a < c as real && eps > 0.0 && WaitProb(c, a) <= eps
    ensures LossWithin(c, a, eps, n)
  {
    hide WaitProb, Pow;
    WaitProbRange(c, a);
    var rho := a / c as real;
    if a <= 0.0 {
      WaitProbIdle(c, a);
      assert 0.0 * Pow(rho, n) == 0.0;
    } else {
      LessThanOne(a, c as real);
      PowAtMostOne(rho, n);
      MulMono2(WaitProb(c, a), Pow(rho, n), WaitProb(c, a), 1.0);
    }
  }

  lemma WaitProbIdle(c: int, a: real)
    requires c >= 1 && a <= 0.0
    ensures WaitProb(c, a) == 0.0
  {}

  lemma {:induction false} PowAtMostOne(x: real, n: nat)
    requires 0.0 <= x <= 1.0
    ensures 0.0 <= Pow(x, n) <= 1.0
  {
    if n > 0 {
      PowAtMostOne(x, n - 1);
      MulMono2(Pow(x, n - 1), x, 1.0, 1.0);
    }
  }

  lemma NegativeScale(q: real, y: real, l: real)
    requires l < 0.0
    ensures q <= y <==> y * l <= q * l
  {
    if q <= y { MulMono(q, y, -l); } else { MulMonoStrict(y, q, -l); }
  }

  lemma DivByNegative(x: real, l: real, y: real)
    requires l < 0.0
    ensures x / l <= y <==> y * l <= x
  {
    var q := x / l;
    assert q * l == x;
    NegativeScale(q, y, l);
  }

  /** pw rho^n <= eps, compared through logarithms. */
  lemma TailInLogarithms(ln: real -> real, pw: real, rho: real, eps: real, n: nat)
    requires IsLn(ln) && pw > 0.0 && 0.0 < rho && ln(rho) < 0.0 && eps > 0.0
    ensures pw * Pow(rho, n) <= eps <==> ln(eps / pw) / ln(rho) <= n as real
  {
    hide IsLn;
    var w := Pow(rho, n);
    LnQuotient(ln, eps, pw);
    LeDiv(eps, pw, w);
    assert w * pw == pw * w;
    LnCompare(ln, w, eps / pw);
    LnPow(ln, rho, n);
    DivByNegative(ln(eps / pw), ln(rho), n as real);
  }

  // ---------------------------------------------------------------- the approximation against the exact value

  /** One server waits with the probability of being busy. */
  lemma OneServer(a: real)
    requires 0.0 < a < 1.0
    ensures WaitProb(1, a) == a
  {
    TermSumPositive(a, 0);
    TermStep(a, 1);
    assert Term(a, 0) == 1.0 && TermSum(a, 0) == 1.0 && Term(a, 1) == a;
    OneServerAlgebra(a);
  }

  lemma OneServerAlgebra(a: real)
    requires 0.0 < a < 1.0
    ensures var w := a / (1.0 - a / 1.0); w / (1.0 + w) == a
  {
    var w := a / (1.0 - a / 1.0);
    assert w * (1.0 - a) == a;
    assert w == a * (1.0 + w);
  }

  /**
   * For M/M/1 below saturation kFloor is never more than the least queue length that meets the loss target, and
   * 1 / rho times it always meets the target.
   */
  lemma KFloorBrackets(ln: real -> real, a: real, eps: real, n: nat)
    requires IsNaturalLn(ln) && 0.0 < eps < a < 0.999
    ensures LossWithin(1, a, eps, n) ==> KFloor(ln, a, 1.0, 1.0, eps) <= n as real
    ensures KFloor(ln, a, 1.0, 1.0, eps) <= a * n as real ==> LossWithin(1, a, eps, n)
  {
    hide LossWithin, KFloor, IsNaturalLn;
    LossOfOneServer(ln, a, eps, n);
    LogRates(ln, a, eps);
    DemandOfUnit(ln, a, eps);
    BracketAlgebra(a, ln(a / eps), -ln(a), n as real);
  }

  lemma LossOfOneServer(ln: real -> real, a: real, eps: real, n: nat)
    requires IsNaturalLn(ln) && 0.0 < eps < a < 0.999
    ensures ln(a) < 0.0 && (LossWithin(1, a, eps, n) <==> ln(a / eps) / -ln(a) <= n as real)
  {
    hide WaitProb, Pow, IsNaturalLn;
    OneServer(a);
    LogRates(ln, a, eps);
    TailInLogarithms(ln, a, a, eps, n);
    SignsCancel(ln(a / eps), ln(a));
    assert a / 1 as real == a;
  }

  lemma SignsCancel(l: real, r: real)
    requires r < 0.0
    ensures -l / r == l / -r
  {
    var q := l / -r;
    assert q * -r == l;
    assert q * r == -l;
  }

  lemma LogRates(ln: real -> real, a: real, eps: real)
    requires IsNaturalLn(ln) && 0.0 < eps < a < 1.0
    ensures IsLn(ln) && ln(a / eps) > 0.0 && ln(eps / a) == -ln(a / eps) && ln(a) < 0.0
    ensures 1.0 - a <= -ln(a) <= 1.0 / a - 1.0
  {
    LnBracket(ln, a);
    LnQuotient(ln, a, eps);
    LnQuotient(ln, eps, a);
    assert LnOrder(ln, eps, a);
  }

  lemma DemandOfUnit(ln: real -> real, a: real, eps: real)
    requires 0.0 < eps < a < 0.999
    ensures KFloor(ln, a, 1.0, 1.0, eps) == a / (1.0 - a) * ln(a / eps)
  {
    assert a * (1.0 + 1.0) / (2.0 * (1.0 - a)) == a / (1.0 - a) by { HalvesCancel(a, 1.0 - a); }
  }

  lemma HalvesCancel(x: real, y: real)
    requires y > 0.0
    ensures x * (1.0 + 1.0) / (2.0 * y) == x / y
  {
    QuotientsEqual(x * 2.0, 2.0 * y, x, y);
  }

  /** With 1 - a <= r <= (1 - a) / a: a l / (1 - a) <= l / r <= l / (1 - a). */
  lemma BracketAlgebra(a: real, l: real, r: real, n: real)
    requires 0.0 < a < 1.0 && l > 0.0 && 1.0 - a <= r <= 1.0 / a - 1.0
    ensures l / r <= n ==> a / (1.0 - a) * l <= n
    ensures a / (1.0 - a) * l <= a * n ==> l / r <= n
  {
    var u, f := 1.0 - a, a / (1.0 - a);
    assert f * u == a;
    Inverse(a, r);
    DivLe(l, r, n);
    if l / r <= n { NeedsLess(a, u, f, l, r, n); }
    if f * l <= a * n { SufficesMore(a, u, f, l, r, n); }
  }

  lemma Inverse(a: real, r: real)
    requires 0.0 < a && r <= 1.0 / a - 1.0
    ensures r * a <= 1.0 - a
  {
    MulMono(r, 1.0 / a - 1.0, a);
    var i := 1.0 / a;
    assert i * a == 1.0;
    Distributed(a, i);
  }

  lemma NeedsLess(a: real, u: real, f: real, l: real, r: real, n: real)
    requires 0.0 < a && 0.0 < u && f * u == a && r > 0.0 && r * a <= u && 0.0 < l <= n * r
    ensures f * l <= n
  {
    if n < 0.0 { MulMonoStrict(n, 0.0, r); }
    MulMono(l, n * r, a);
    MulMono(r * a, u, n);
    Regrouped(n, r, a);
    Cancels(f, l, n, u);
  }

  lemma Regrouped(n: real, r: real, a: real)
    ensures n * r * a == r * a * n
  {}

  lemma SufficesMore(a: real, u: real, f: real, l: real, r: real, n: real)
    requires 0.0 < a && 0.0 < u <= r && f * u == a && 0.0 < l && f * l <= a * n
    ensures l <= n * r
  {
    MulMono(f * l, a * n, u);
    Regrouped(f, l, u);
    Regrouped(a, n, u);
    assert l * (f * u) == f * l * u && n * u * a == a * n * u;
    if n * u < l { MulMonoStrict(n * u, l, a); }
    if n < 0.0 { MulMonoStrict(n, 0.0, u); } else { MulMono(u, r, n); }
  }

  lemma Cancels(f: real, l: real, n: real, u: real)
    requires u > 0.0 && f * u * l <= n * u
    ensures f * l <= n
  {
    assert (f * l) * u <= n * u;
    if n < f * l { MulMonoStrict(n, f * l, u); }
  }

  /** Below saturation the asked length is proportional to the variation. */
  lemma KFloorScales(ln: real -> real, rho: real, ca2: real, cs2: real, eps: real)
    requires eps > 0.0 && rho < 0.999
    ensures KFloor(ln, rho, ca2, cs2, eps) == (ca2 + cs2) / 2.0 * KFloor(ln, rho, 1.0, 1.0, eps)
  {
    if rho > eps { Proportional(rho, ca2 + cs2, 2.0 * (1.0 - rho), ln(rho / eps)); }
  }

  lemma Proportional(x: real, v: real, d: real, l: real)
    requires d > 0.0
    ensures x * v / d * l == v / 2.0 * (x * 2.0 / d * l)
  {
    var q := x / d;
    assert q * d == x;
    assert x * v / d == q * v by { assert (q * v) * d == x * v; }
    assert x * 2.0 / d == q * 2.0 by { assert (q * 2.0) * d == x * 2.0; }
  }
}
