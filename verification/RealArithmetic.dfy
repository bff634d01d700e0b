/**
 Products of reals under a name, with the laws the flow proofs use.  Proofs hide the
 definition and reason with the laws only, which keeps non-linear arithmetic out of them.
 */
module RealArithmetic {

  function Times(a: real, b: real): real {
    a * b
  }

  lemma TimesMonotone(a: real, b: real, c: real)
    requires a <= b && c >= 0.0
    ensures Times(a, c) <= Times(b, c)
    ensures Times(c, a) <= Times(c, b)
  {
    assert (b - a) * c >= 0.0;
  }

  lemma TimesAssociates(a: real, b: real, c: real)
    ensures Times(Times(a, b), c) == Times(a, Times(b, c))
  {
  }

  lemma TimesCommutes(a: real, b: real)
    ensures Times(a, b) == Times(b, a)
  {
  }

  lemma TimesDistributes(a: real, b: real, c: real)
    ensures Times(a, b + c) == Times(a, b) + Times(a, c)
    ensures Times(b + c, a) == Times(b, a) + Times(c, a)
  {
  }

  lemma TimesUnits(a: real)
    ensures Times(1.0, a) == a == Times(a, 1.0)
    ensures Times(0.0, a) == 0.0 == Times(a, 0.0)
  {
  }

  lemma TimesSign(a: real, b: real)
    requires a >= 0.0 && b >= 0.0
    ensures Times(a, b) >= 0.0
    ensures a > 0.0 && b > 0.0 ==> Times(a, b) > 0.0
  {
    assert a * b >= 0.0;
  }

  lemma Quotient(a: real, b: real)
    requires 0.0 < a && 0.0 < b
    ensures (a / b) * b == a && 0.0 < a / b
    ensures a < b ==> a / b < 1.0
  {
    var q := a / b;
    assert q * b == a;
    if q <= 0.0 {
      TimesSign(-q, b);
    }
    if q >= 1.0 {
      TimesSign(q - 1.0, b);
    }
  }

  lemma TimesCancels(t: real, s: real)
    requires t > 0.0 && Times(t, s) == t
    ensures s == 1.0
  {
    assert t * (s - 1.0) == 0.0;
  }

  lemma TimesLess(a: real, b: real, c: real)
    requires a < b && c > 0.0
    ensures Times(a, c) < Times(b, c)
    ensures Times(c, a) < Times(c, b)
  {
    TimesSign(b - a, c);
    TimesDistributes(c, b - a, a);
  }

  lemma QuotientBack(a: real, c: real)
    requires a >= 0.0 && c > 0.0
    ensures a / c >= 0.0 && a == Times(a / c, c)
  {
  }
}
