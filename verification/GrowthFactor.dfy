/**
 The dual length of an edge is multiplied by 1 + e * u / c each time u units are pushed
 through it.  To bound the flow an edge has carried by its length, without fractional powers,
 this module uses the piecewise linear interpolation of (1 + e)^t between natural numbers.
 */
module GrowthFactor {
  import opened RealArithmetic

  ghost function Pow(b: real, n: nat): real {
    if n == 0 then 1.0 else Times(b, Pow(b, n - 1))
  }

  ghost function Linear(e: real, r: real): real {
    1.0 + Times(e, r)
  }

  /** (1 + e)^t at natural t, linear in between. */
  ghost function Interp(e: real, t: real): real
    requires t >= 0.0
  {
    Times(Pow(1.0 + e, t.Floor), Linear(e, t - t.Floor as real))
  }

  lemma {:induction false} PowPositive(b: real, n: nat)
    requires b > 0.0
    ensures Pow(b, n) > 0.0
  {
    hide Times;
    if n > 0 {
      PowPositive(b, n - 1);
      TimesSign(b, Pow(b, n - 1));
    }
  }

  lemma {:induction false} PowMonotone(b: real, m: nat, n: nat)
    requires b >= 1.0 && m <= n
    ensures Pow(b, m) <= Pow(b, n)
    decreases n
  {
    hide Times;
    if m < n {
      PowMonotone(b, m, n - 1);
      PowPositive(b, n - 1);
      TimesMonotone(1.0, b, Pow(b, n - 1));
      TimesUnits(Pow(b, n - 1));
    }
  }

  lemma LinearBounds(e: real, r: real)
    requires e > 0.0 && 0.0 <= r <= 1.0
    ensures 1.0 <= Linear(e, r) <= 1.0 + e
  {
    hide Times;
    TimesSign(e, r);
    TimesMonotone(r, 1.0, e);
    TimesUnits(e);
  }

  lemma LinearSplit(e: real, r: real, s: real)
    requires e > 0.0 && r >= 0.0 && s >= 0.0
    ensures Linear(e, r + s) <= Times(Linear(e, r), Linear(e, s))
  {
    hide Times;
    var x, y := Times(e, r), Times(e, s);
    TimesSign(e, r);
    TimesSign(e, s);
    TimesSign(x, y);
    TimesDistributes(e, r, s);
    TimesDistributes(1.0 + x, 1.0, y);
    TimesDistributes(y, 1.0, x);
    TimesUnits(1.0 + x);
    TimesUnits(y);
  }

  lemma LinearCarry(e: real, r: real, s: real)
    requires e > 0.0 && 0.0 <= r <= 1.0 && 0.0 <= s <= 1.0
    ensures Times(1.0 + e, Linear(e, r + s - 1.0)) <= Times(Linear(e, r), Linear(e, s))
  {
    var gap := (1.0 - r) * (1.0 - s);
    TimesSign(1.0 - r, 1.0 - s);
    TimesSign(gap, e * e);
    assert (1.0 + e * r) * (1.0 + e * s) - (1.0 + e) * (1.0 + e * (r + s - 1.0)) == (e * e) * gap;
  }

  lemma InterpAt(e: real, t: real, n: nat, r: real)
    requires t == n as real + r && 0.0 <= r < 1.0
    ensures Interp(e, t) == Times(Pow(1.0 + e, n), Linear(e, r))
  {
    hide Times;
    assert t.Floor == n;
    assert t - t.Floor as real == r;
  }

  /** Within one unit step the interpolation grows by at most the linear factor. */
  lemma InterpStep(e: real, t: real, s: real)
    requires e > 0.0 && t >= 0.0 && 0.0 <= s <= 1.0
    ensures Interp(e, t + s) <= Times(Interp(e, t), Linear(e, s))
  {
    hide Times;
    var n := t.Floor;
    var r := t - n as real;
    var q, a, k := Pow(1.0 + e, n), Linear(e, r), Linear(e, s);
    PowPositive(1.0 + e, n);
    InterpAt(e, t, n, r);
    TimesAssociates(q, a, k);
    if r + s < 1.0 {
      InterpAt(e, t + s, n, r + s);
      LinearSplit(e, r, s);
      TimesMonotone(Linear(e, r + s), Times(a, k), q);
    } else {
      var z := Linear(e, r + s - 1.0);
      InterpAt(e, t + s, n + 1, r + s - 1.0);
      LinearCarry(e, r, s);
      TimesMonotone(Times(1.0 + e, z), Times(a, k), q);
      TimesCommutes(1.0 + e, q);
      TimesAssociates(q, 1.0 + e, z);
    }
  }

  lemma InterpUnit(e: real, t: real)
    requires t >= 0.0
    ensures Interp(e, t + 1.0) == Times(1.0 + e, Interp(e, t))
  {
    hide Times;
    var n := t.Floor;
    InterpAt(e, t, n, t - n as real);
    InterpAt(e, t + 1.0, n + 1, t - n as real);
    TimesAssociates(1.0 + e, Pow(1.0 + e, n), Linear(e, t - n as real));
  }

  lemma InterpBounds(e: real, t: real)
    requires e > 0.0 && t >= 0.0
    ensures 0.0 < Pow(1.0 + e, t.Floor) <= Interp(e, t) <= Pow(1.0 + e, t.Floor + 1)
  {
    hide Times;
    var q := Pow(1.0 + e, t.Floor);
    PowPositive(1.0 + e, t.Floor);
    LinearBounds(e, t - t.Floor as real);
    TimesMonotone(1.0, Linear(e, t - t.Floor as real), q);
    TimesMonotone(Linear(e, t - t.Floor as real), 1.0 + e, q);
    TimesCommutes(1.0 + e, q);
    TimesUnits(q);
  }

  lemma InterpMonotone(e: real, t: real, t': real)
    requires e > 0.0 && 0.0 <= t <= t'
    ensures Interp(e, t) <= Interp(e, t')
  {
    hide Times;
    InterpBounds(e, t);
    InterpBounds(e, t');
    if t.Floor == t'.Floor {
      TimesMonotone(t - t.Floor as real, t' - t.Floor as real, e);
      TimesMonotone(Linear(e, t - t.Floor as real), Linear(e, t' - t.Floor as real), Pow(1.0 + e, t.Floor));
    } else {
      PowMonotone(1.0 + e, t.Floor + 1, t'.Floor);
    }
  }

  /** At natural arguments the interpolation is the power itself. */
  lemma InterpAtNat(e: real, n: nat)
    ensures Interp(e, n as real) == Pow(1.0 + e, n)
  {
    hide Times;
    InterpAt(e, n as real, n, 0.0);
    TimesUnits(e);
    TimesUnits(Pow(1.0 + e, n));
  }

  lemma LinearIncreases(e: real, r: real, r': real)
    requires e > 0.0 && r < r'
    ensures Linear(e, r) < Linear(e, r')
  {
    TimesLess(r, r', e);
  }

  lemma LinearUnits(e: real)
    ensures Linear(e, 0.0) == 1.0 && Linear(e, 1.0) == 1.0 + e
  {
  }

  lemma PowUnits(b: real)
    ensures Pow(b, 0) == 1.0 && Pow(b, 1) == b
  {
    assert Pow(b, 1) == Times(b, Pow(b, 0));
  }

  lemma InterpIncreases(e: real, t: real, t': real)
    requires e > 0.0 && 0.0 <= t < t'
    ensures Interp(e, t) < Interp(e, t')
  {
    hide Times, Linear;
    var n := t.Floor;
    var q := Pow(1.0 + e, n);
    PowPositive(1.0 + e, n);
    if n == t'.Floor {
      LinearIncreases(e, t - n as real, t' - n as real);
      TimesLess(Linear(e, t - n as real), Linear(e, t' - n as real), q);
    } else {
      LinearIncreases(e, t - n as real, 1.0);
      LinearUnits(e);
      TimesLess(Linear(e, t - n as real), 1.0 + e, q);
      TimesCommutes(1.0 + e, q);
      PowMonotone(1.0 + e, n + 1, t'.Floor);
      InterpBounds(e, t');
    }
  }

  // ---------- the logarithm ----------

  /**
   x is the logarithm of 1 / delta to base 1 + e: the fractions a / b up to x are exactly those with
   (1 + e)^a <= (1 / delta)^b.
   */
  ghost predicate IsLog(e: real, delta: real, x: real) {
    forall a: nat, b: nat {:trigger Pow(1.0 + e, a), Pow(delta, b)} :: b > 0 ==>
      (Times(Pow(1.0 + e, a), Pow(delta, b)) <= 1.0 <==> a as real <= Times(x, b as real))
  }

  /** The interpolation grows at most multiplicatively over any distance. */
  lemma {:induction false} InterpSum(e: real, t: real, s: real)
    requires e > 0.0 && t >= 0.0 && s >= 0.0
    ensures Interp(e, t + s) <= Times(Interp(e, t), Interp(e, s))
    decreases s.Floor
  {
    hide Times, Interp, Pow, Linear;
    if s < 1.0 {
      InterpStep(e, t, s);
      InterpAt(e, s, 0, s);
      PowUnits(1.0 + e);
      TimesUnits(Linear(e, s));
    } else {
      InterpSum(e, t, s - 1.0);
      InterpUnit(e, t + (s - 1.0));
      InterpUnit(e, s - 1.0);
      TimesMonotone(Interp(e, t + (s - 1.0)), Times(Interp(e, t), Interp(e, s - 1.0)), 1.0 + e);
      TimesCommutes(1.0 + e, Interp(e, s - 1.0));
      TimesCommutes(1.0 + e, Times(Interp(e, t), Interp(e, s - 1.0)));
      TimesAssociates(Interp(e, t), Interp(e, s - 1.0), 1.0 + e);
    }
  }

  lemma {:induction false} PowProduct(a: real, b: real, n: nat)
    ensures Pow(Times(a, b), n) == Times(Pow(a, n), Pow(b, n))
  {
    if n > 0 {
      PowProduct(a, b, n - 1);
      Rearranged(a, b, Pow(a, n - 1), Pow(b, n - 1));
    }
  }

  lemma Rearranged(a: real, b: real, c: real, d: real)
    ensures Times(Times(a, b), Times(c, d)) == Times(Times(a, c), Times(b, d))
  {
    hide Times;
    TimesAssociates(a, b, Times(c, d));
    TimesAssociates(b, c, d);
    TimesCommutes(b, c);
    TimesAssociates(c, b, d);
    TimesAssociates(a, c, Times(b, d));
  }

  lemma {:induction false} PowBelowOne(b: real, n: nat)
    requires 0.0 < b < 1.0
    ensures Pow(b, n) <= 1.0 && (n > 0 ==> Pow(b, n) < 1.0)
  {
    hide Times;
    if n > 0 {
      PowBelowOne(b, n - 1);
      PowPositive(b, n - 1);
      TimesLess(b, 1.0, Pow(b, n - 1));
      TimesUnits(Pow(b, n - 1));
    }
  }

  /** So taking a power of the interpolation overestimates. */
  lemma {:induction false} InterpPower(e: real, s: real, n: nat)
    requires e > 0.0 && s >= 0.0
    ensures Times(n as real, s) >= 0.0 && Interp(e, Times(n as real, s)) <= Pow(Interp(e, s), n)
  {
    hide Times, Interp;
    TimesSign(n as real, s);
    if n == 0 {
      TimesUnits(s);
      InterpAtNat(e, 0);
    } else {
      var t := Times((n - 1) as real, s);
      InterpPower(e, s, n - 1);
      InterpBounds(e, s);
      TimesDistributes(s, (n - 1) as real, 1.0);
      TimesUnits(s);
      InterpSum(e, t, s);
      TimesMonotone(Interp(e, t), Pow(Interp(e, s), n - 1), Interp(e, s));
      TimesCommutes(Interp(e, t), Interp(e, s));
    }
  }

  /** A step so small that y stays below 1. */
  lemma SmallStep(e: real, y: real) returns (q: nat)
    requires e > 0.0 && 0.0 < y < 1.0
    ensures q > 0 && Times(y, Linear(e, 1.0 / q as real)) < 1.0
  {
    assert e * y > 0.0;
    Quotient(e * y, 1.0 - y);
    var z := e * y / (1.0 - y);
    q := z.Floor + 1;
    assert z < q as real;
    var s := 1.0 / q as real;
    assert s * q as real == 1.0;
    assert z * (1.0 - y) == e * y;
    TimesLess(z, q as real, 1.0 - y);
    assert e * y < q as real * (1.0 - y);
    TimesLess(e * y, q as real * (1.0 - y), s);
    assert (q as real * (1.0 - y)) * s == (1.0 - y) * (s * q as real);
    assert y * (1.0 + e * s) == y + (e * y) * s;
  }

  /** At the logarithm the interpolation has reached 1 / delta, and the power below it has not passed it. */
  lemma LogBounds(e: real, delta: real, x: real)
    requires e > 0.0 && 0.0 < delta < 1.0 && IsLog(e, delta, x)
    ensures x >= 0.0
    ensures Times(delta, Pow(1.0 + e, x.Floor)) <= 1.0 <= Times(delta, Interp(e, x))
  {
    hide Times, Interp, Pow;
    LogAtNat(e, delta, x, 0);
    LogAtNat(e, delta, x, if x >= 0.0 then x.Floor else 0);
    PowUnits(1.0 + e);
    TimesUnits(delta);
    assert 0 as real <= x;
    assert x.Floor as real <= x;
    if Times(delta, Interp(e, x)) < 1.0 {
      LogNotPassed(e, delta, x);
    }
  }

  /** Of the whole powers exactly those up to the logarithm stay within 1 / delta. */
  lemma LogAtNat(e: real, delta: real, x: real, k: nat)
    requires IsLog(e, delta, x)
    ensures Times(delta, Pow(1.0 + e, k)) <= 1.0 <==> k as real <= x
  {
    hide Times, Pow;
    PowUnits(delta);
    TimesUnits(x);
    TimesCommutes(delta, Pow(1.0 + e, k));
    assert Times(Pow(1.0 + e, k), Pow(delta, 1)) <= 1.0 <==> k as real <= Times(x, 1 as real);
  }

  lemma LogNotPassed(e: real, delta: real, x: real)
    requires e > 0.0 && 0.0 < delta < 1.0 && x >= 0.0 && IsLog(e, delta, x)
    ensures Times(delta, Interp(e, x)) >= 1.0
  {
    hide Times, Interp, Pow, Linear;
    var y := Times(delta, Interp(e, x));
    InterpBounds(e, x);
    TimesSign(delta, Interp(e, x));
    if y < 1.0 {
      var q := SmallStep(e, y);
      var a, s := JustAbove(x, q);
      var b := Times(delta, Interp(e, s));
      StepBelow(e, delta, x, s, q);
      assert Times(q as real, s) == a as real;
      InterpPower(e, s, q);
      InterpAtNat(e, a);
      PowPositive(delta, q);
      InterpBounds(e, s);
      TimesSign(delta, Interp(e, s));
      PowProduct(delta, Interp(e, s), q);
      TimesMonotone(Pow(1.0 + e, a), Pow(Interp(e, s), q), Pow(delta, q));
      TimesCommutes(Pow(1.0 + e, a), Pow(delta, q));
      PowBelowOne(b, q);
    }
  }

  /** The least multiple of 1 / q above x. */
  lemma JustAbove(x: real, q: nat) returns (a: nat, s: real)
    requires x >= 0.0 && q > 0
    ensures x < s <= x + 1.0 / q as real && Times(q as real, s) == a as real && a as real > Times(x, q as real)
  {
    var xq := x * q as real;
    assert xq >= 0.0;
    a := xq.Floor + 1;
    s := a as real / q as real;
    assert s * q as real == a as real;
    var step := 1.0 / q as real;
    assert step * q as real == 1.0;
    if s <= x {
      TimesMonotone(s, x, q as real);
    }
    if s > x + step {
      TimesLess(x + step, s, q as real);
      TimesDistributes(q as real, x, step);
    }
  }

  lemma StepBelow(e: real, delta: real, x: real, s: real, q: nat)
    requires e > 0.0 && delta > 0.0 && q > 0 && 0.0 <= x < s <= x + 1.0 / q as real
    requires Times(Times(delta, Interp(e, x)), Linear(e, 1.0 / q as real)) < 1.0
    ensures Times(delta, Interp(e, s)) < 1.0
  {
    hide Times, Interp, Linear;
    var step := 1.0 / q as real;
    Quotient(1.0, q as real);
    UnitFraction(q);
    InterpMonotone(e, s, x + step);
    InterpStep(e, x, step);
    TimesMonotone(Interp(e, s), Times(Interp(e, x), Linear(e, step)), delta);
    TimesAssociates(delta, Interp(e, x), Linear(e, step));
  }

  lemma UnitFraction(q: nat)
    requires q > 0
    ensures 0.0 < 1.0 / q as real <= 1.0
  {
  }

  lemma {:induction false} PowSum(b: real, m: nat, n: nat)
    ensures Pow(b, m + n) == Times(Pow(b, m), Pow(b, n))
  {
    hide Times;
    if m == 0 {
      TimesUnits(Pow(b, n));
    } else {
      PowSum(b, m - 1, n);
      TimesAssociates(b, Pow(b, m - 1), Pow(b, n));
    }
  }

  lemma {:induction false} PowPower(b: real, m: nat, n: nat)
    ensures Pow(Pow(b, m), n) == Pow(b, m * n)
  {
    hide Times;
    if n > 0 {
      PowPower(b, m, n - 1);
      PowSum(b, m, m * (n - 1));
      assert m + m * (n - 1) == m * n;
    }
  }

  lemma {:induction false} PowOfOne(n: nat)
    ensures Pow(1.0, n) == 1.0
  {
    if n > 0 {
      PowOfOne(n - 1);
    }
  }

  /** If 1 / delta is a power of 1 + e, its exponent is the logarithm. */
  lemma LogOfPower(e: real, delta: real, k: nat)
    requires e > 0.0 && delta > 0.0 && Times(delta, Pow(1.0 + e, k)) == 1.0
    ensures IsLog(e, delta, k as real)
  {
    hide Times, Pow;
    forall a: nat, b: nat {:trigger Pow(1.0 + e, a), Pow(delta, b)} | b > 0
      ensures Times(Pow(1.0 + e, a), Pow(delta, b)) <= 1.0 <==> a as real <= Times(k as real, b as real)
    {
      FractionOfPower(e, delta, k, a, b);
    }
  }

  lemma FractionOfPower(e: real, delta: real, k: nat, a: nat, b: nat)
    requires e > 0.0 && delta > 0.0 && Times(delta, Pow(1.0 + e, k)) == 1.0
    ensures Times(Pow(1.0 + e, a), Pow(delta, b)) <= 1.0 <==> a as real <= Times(k as real, b as real)
  {
    hide Times, Pow;
    var x, d := 1.0 + e, Pow(delta, b);
    PowProduct(delta, Pow(x, k), b);
    PowPower(x, k, b);
    PowOfOne(b);
    assert Times(d, Pow(x, k * b)) == 1.0;
    TimesCommutes(d, Pow(x, k * b));
    PowPositive(delta, b);
    RealProduct(k, b);
    if a <= k * b {
      PowMonotone(x, a, k * b);
      TimesMonotone(Pow(x, a), Pow(x, k * b), d);
    } else {
      PowMonotone(x, k * b + 1, a);
      PowSum(x, 1, k * b);
      PowUnits(x);
      PowPositive(x, k * b);
      TimesLess(1.0, x, Pow(x, k * b));
      TimesUnits(Pow(x, k * b));
      TimesLess(Pow(x, k * b), Pow(x, a), d);
    }
  }

  lemma RealProduct(k: nat, b: nat)
    ensures Times(k as real, b as real) == (k * b) as real
  {
  }
}
