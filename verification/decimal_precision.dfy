/** Exactly which decimals survive the way through JSON. */
module DecimalPrecision {
  import opened Powers
  import opened DecimalRules
  import opened DecimalLaws
  import opened Binary64

  const TWO_53: real := 9_007_199_254_740_992.0
  const TEN_15: real := 1_000_000_000_000_000.0

  /** A normal form that passes the digit gate on its mantissa. */
  predicate Short(d: Decimal) {
    Normal(d) && Abs(d.mantissa) < 1_000_000_000_000_000
  }

  /** `n` times `t`. */
  ghost function Units(n: int, t: real): real {
    n as real * t
  }

  lemma UnitsAdd(a: int, b: int, t: real)
    ensures Units(a + b, t) == Units(a, t) + Units(b, t) && Units(1, t) == t && Units(0, t) == 0.0
    ensures Units(-a, t) == -Units(a, t)
  {
    var x, y := a as real, b as real;
    assert (x + y) * t == x * t + y * t;
    assert (-x) * t == -(x * t);
  }

  lemma UnitsOrder(a: int, b: int, t: real)
    requires t > 0.0
    ensures Units(a, t) < Units(b, t) <==> a < b
  {
    Cancel(a, b, t);
  }

  lemma SizeOf(n: int, t: real)
    requires t > 0.0
    ensures Size(Units(n, t)) == Units(Abs(n), t)
  {
    hide Units;
    UnitsOrder(n, 0, t);
    UnitsAdd(n, 0, t);
  }

  /** A short decimal is less than `10^15` units of its own last place. */
  lemma ShortSize(d: Decimal)
    requires Short(d)
    ensures Size(Value(d)) < TEN_15 * Ten(-d.scale)
  {
    hide Ten;
    var t := Ten(-d.scale);
    SizeOf(d.mantissa, t);
    UnitsOrder(Abs(d.mantissa), 1_000_000_000_000_000, t);
  }

  /** Different decimals differ by at least one unit of the finer one's last place. */
  lemma Gap(a: Decimal, b: Decimal)
    requires b.scale <= a.scale && Value(a) != Value(b)
    ensures Distance(Value(a), Value(b)) >= Ten(-a.scale)
  {
    hide Ten, Pow, Value;
    var t := Ten(-a.scale);
    OnGrid(a, a.scale);
    OnGrid(b, a.scale);
    var x, y := On(a, a.scale), On(b, a.scale);
    if x < y {
      Monotone((x + 1) as real, y as real, t);
      assert (x + 1) as real * t == x as real * t + t;
    } else {
      assert x != y;
      Monotone((y + 1) as real, x as real, t);
      assert (y + 1) as real * t == y as real * t + t;
    }
  }

  lemma TenAt(k: int, n: nat, factor: nat)
    requires Pow(10, n) == factor
    ensures Ten(k + n) == factor as real * Ten(k)
  {
    hide Pow, Ten;
    TenAdd(k, n);
  }

  /** The decimal places around the smallest binary64 step. */
  lemma Places()
    ensures Ten(-323) == 10.0 * Ten(-324) && Ten(-309) == TEN_15 * Ten(-324)
    ensures 2.0 * Ten(-324) < Step() < Ten(-323)
    ensures Ten(-309) < TWO_53 * Step() <= TEN_15
  {
    hide Pow, Ten, Step;
    Grids();
    SafeMantissa();
    TenStep(-324);
    TenAt(-324, 15, 1_000_000_000_000_000);
    assert -324 + 15 == -309;
    StepIsSmall();
  }

  /** The same in whole units. */
  lemma EdgeInUnits()
    ensures Units(1_000_000_000_000_000, Ten(-324)) == Ten(-309) == Units(100_000_000_000_000, Ten(-323))
    ensures 2.0 * (Ten(-309) - Ten(-324)) < Units(EDGE, Step()) < 2.0 * Ten(-309)
  {
    hide Pow, Ten, Step;
    Places();
    Grids();
  }

  lemma OnUnits(d: Decimal, scale: int)
    requires d.scale <= scale
    ensures Value(d) == Units(On(d, scale), Ten(-scale))
  {
    OnGrid(d, scale);
  }

  lemma StepIsSmall()
    ensures Step() <= 1.0 / TWO_53
  {
    hide Pow, Step;
    Reciprocals(1, 1074);
    SmallPowers();
    PowGrows(2, 64, 1074);
    var p := Pow(2, 1074) as real;
    assert p >= TWO_53;
    Inverse(p, Step());
    Monotone(TWO_53, p, Step());
  }

  // ----- rounding cannot close the gap -----

  /** Two values further apart than the last place of either cannot both be within `2^-53` of one double. */
  lemma RelativeGap(va: real, vb: real, r: real, t: real)
    requires Distance(va, vb) >= t > 0.0 && Size(va) < TEN_15 * t
    ensures TWO_53 * Distance(r, va) > Size(va) || TWO_53 * Distance(r, vb) > Size(vb)
  {
  }

  /** A value below `2^52` steps and one above `2^53` do not round to one double. */
  lemma FarApart(va: real, vb: real, r: real, step: real)
    requires step > 0.0 && Size(va) < TWO_53 / 2.0 * step && TWO_53 * step < Size(vb)
    ensures Distance(r, va) > step / 2.0 || TWO_53 * Distance(r, vb) > Size(vb)
  {
    if TWO_53 * Distance(r, vb) <= Size(vb) {
      assert Size(r) >= Size(vb) - Size(vb) / TWO_53;
      assert Size(r) >= (TWO_53 - 1.0) * step;
      assert Distance(r, va) >= Size(r) - Size(va);
    }
  }

  /** Rounding two values to one double, both are small or both are large. */
  lemma SharedDouble(va: real, vb: real, r: real)
    requires Nearest(va, r) && Nearest(vb, r) && Size(va) <= TEN_15 && Size(vb) <= TEN_15
    ensures (Distance(r, va) <= Step() / 2.0 && Distance(r, vb) <= Step() / 2.0)
            || (TWO_53 * Distance(r, va) <= Size(va) && TWO_53 * Distance(r, vb) <= Size(vb))
  {
    hide Nearest, Step;
    OneError(va, r);
    OneError(vb, r);
    if Size(va) < TWO_53 / 2.0 * Step() && TWO_53 * Step() < Size(vb) {
      FarApart(va, vb, r, Step());
    }
    if Size(vb) < TWO_53 / 2.0 * Step() && TWO_53 * Step() < Size(va) {
      FarApart(vb, va, r, Step());
    }
  }

  lemma OneError(v: real, r: real)
    requires Nearest(v, r) && Size(v) <= TEN_15
    ensures Size(v) <= TWO_53 * Step() ==> Distance(r, v) <= Step() / 2.0
    ensures TWO_53 / 2.0 * Step() <= Size(v) ==> TWO_53 * Distance(r, v) <= Size(v)
  {
    hide Nearest, Step;
    if Size(v) <= TWO_53 * Step() {
      SmallError(v, r);
    }
    if TWO_53 / 2.0 * Step() <= Size(v) {
      RelativeError(v, r);
    }
  }

  /** A short decimal with its last place at `10^-324` or below is less than `10^-309`. */
  lemma FineIsSmall(d: Decimal)
    requires Short(d) && d.scale >= 324
    ensures Size(Value(d)) < Ten(-309)
  {
    hide Pow, Ten, Step, Value;
    ShortSize(d);
    Places();
    TenGrows(-d.scale, d.scale - 324);
    assert -d.scale + (d.scale - 324) == -324;
  }

  /** A short decimal of at least `10^-309` has its last place at `10^-323` or above. */
  lemma CoarseEnough(d: Decimal)
    requires Short(d) && Size(Value(d)) >= Ten(-309)
    ensures d.scale <= 323 && Ten(-d.scale) >= Ten(-323)
  {
    hide Pow, Ten, Step, Value;
    if d.scale >= 324 {
      FineIsSmall(d);
    } else {
      TenGrows(-323, 323 - d.scale);
      assert -323 + (323 - d.scale) == -d.scale;
    }
  }

  /** Above `10^-309` short decimals round to different doubles. */
  lemma NoneShared(a: Decimal, b: Decimal, r: real)
    requires Short(a) && Short(b) && Nearest(Value(a), r) && Nearest(Value(b), r)
    requires Ten(-309) <= Size(Value(a)) <= TEN_15 && Ten(-309) <= Size(Value(b)) <= TEN_15
    requires b.scale <= a.scale
    ensures Value(a) == Value(b)
  {
    hide Pow, Ten, Step, Value, Nearest;
    if Value(a) != Value(b) {
      Gap(a, b);
      ShortSize(a);
      RelativeGap(Value(a), Value(b), r, Ten(-a.scale));
      CoarseEnough(a);
      Places();
      SharedDouble(Value(a), Value(b), r);
    }
  }

  // ----- the edge itself -----

  /** Whole units of `t` below `limit` units are at least one unit below. */
  lemma OneUnitBelow(n: int, limit: nat, t: real)
    requires t > 0.0 && Size(Units(n, t)) < Units(limit, t)
    ensures Size(Units(n, t)) <= Units(limit, t) - t
  {
    hide Units;
    SizeOf(n, t);
    UnitsOrder(Abs(n), limit, t);
    UnitsOrder(limit - 1, Abs(n), t);
    UnitsAdd(limit - 1, 1, t);
  }

  lemma OneUnitAbove(n: int, limit: nat, t: real)
    requires t > 0.0 && Size(Units(n, t)) > Units(limit, t)
    ensures Size(Units(n, t)) >= Units(limit, t) + t
  {
    hide Units;
    SizeOf(n, t);
    UnitsOrder(limit, Abs(n), t);
    UnitsOrder(Abs(n), limit + 1, t);
    UnitsAdd(limit, 1, t);
  }

  /** A short decimal below `10^-309` is at least `10^-324` below. */
  lemma BelowEdge(d: Decimal)
    requires Short(d) && Size(Value(d)) < Ten(-309)
    ensures Size(Value(d)) <= Ten(-309) - Ten(-324)
  {
    hide Pow, Ten, Step, Value, Units, On;
    Places();
    if d.scale <= 324 {
      EdgeInUnits();
      OnUnits(d, 324);
      OneUnitBelow(On(d, 324), 1_000_000_000_000_000, Ten(-324));
    } else {
      ShortSize(d);
      TenGrows(-d.scale, d.scale - 325);
      assert -d.scale + (d.scale - 325) == -325;
      TenStep(-325);
    }
  }

  /** A short decimal above `10^-309` is at least `10^-323` above. */
  lemma AboveEdge(d: Decimal)
    requires Short(d) && Size(Value(d)) > Ten(-309)
    ensures Size(Value(d)) >= Ten(-309) + Ten(-323)
  {
    hide Pow, Ten, Step, Value, Units, On;
    CoarseEnough(d);
    EdgeInUnits();
    OnUnits(d, 323);
    OneUnitAbove(On(d, 323), 100_000_000_000_000, Ten(-323));
  }

  /** `10^-309` rounds up to a double nothing below it rounds to: between them lies an odd number of half steps. */
  lemma EdgeIsAlone(v: real, other: real, r: real)
    requires IsDouble(r) && Size(v) == Ten(-309) && Size(other) <= Ten(-309) - Ten(-324)
    ensures Distance(r, v) > Step() / 2.0 || Distance(r, other) > Step() / 2.0
  {
    hide Pow, Ten, Step, IsDouble, Units;
    EdgeInUnits();
    var s := Step();
    var n := DoubleInUnits(r);
    UnitsAdd(n, 0, s);
    if v > 0.0 {
      EdgePositive(n, EDGE, s, v, other);
    } else {
      EdgePositive(-n, EDGE, s, -v, -other);
    }
  }

  lemma DoubleInUnits(r: real) returns (n: int)
    requires IsDouble(r)
    ensures r == Units(n, Step())
  {
    n := DoublesAreSteps(r);
  }

  lemma EdgePositive(n: int, edge: int, s: real, v: real, other: real)
    requires s > 0.0 && edge % 2 == 1 && 2.0 * other < Units(edge, s) < 2.0 * v
    ensures Distance(Units(n, s), v) > s / 2.0 || Distance(Units(n, s), other) > s / 2.0
  {
    hide Units;
    UnitsAdd(n, n, s);
    UnitsAdd(2 * n, 1, s);
    UnitsAdd(1, 0, s);
    UnitsAdd(2 * n, -1, s);
    UnitsOrder(2 * n - 1, edge, s);
    UnitsOrder(edge, 2 * n + 1, s);
    assert n + n == 2 * n;
  }

  /** Nothing below `10^-309` rounds to the double of a short decimal of at least `10^-309`. */
  lemma NoneFromBelow(a: Decimal, b: Decimal, r: real)
    requires Short(a) && Short(b) && Nearest(Value(a), r) && Nearest(Value(b), r)
    requires Ten(-309) <= Size(Value(a)) <= TEN_15
    ensures Ten(-309) <= Size(Value(b))
  {
    hide Pow, Ten, Step, Value;
    if Size(Value(b)) < Ten(-309) {
      Places();
      BelowEdge(b);
      hide Nearest;
      OneError(Value(a), r);
      OneError(Value(b), r);
      if TWO_53 * Step() < Size(Value(a)) {
        BelowHalf(b);
        FarApart(Value(b), Value(a), r, Step());
      } else if Size(Value(a)) == Ten(-309) {
        assert IsDouble(r) by { IsOne(Value(a), r); }
        EdgeIsAlone(Value(a), Value(b), r);
      } else {
        AboveEdge(a);
      }
    }
  }

  lemma IsOne(v: real, r: real)
    requires Nearest(v, r)
    ensures IsDouble(r)
  {
  }

  lemma BelowHalf(b: Decimal)
    requires Size(Value(b)) < Ten(-309)
    ensures Size(Value(b)) < TWO_53 / 2.0 * Step()
  {
    hide Pow, Ten, Step, Value;
    Places();
  }

  // ----- emission as a whole -----

  /** What the digit gate leaves for a floating-point number: few digits, a fraction, and its nearest double. */
  lemma NumberMeans(lib: Library, d: Decimal)
    requires Faithful(lib) && DecimalToJson(lib, d).Number?
    ensures var v, r := Normalize(d), DecimalToJson(lib, d).double;
            Short(v) && Value(v) == Value(d) && v.scale > 0 && Size(Value(v)) <= TEN_15
            && Nearest(Value(v), r) && r != 0.0
  {
    hide Ten, Pow, Value, Nearest, On, Digits;
    var v := Normalize(d);
    NormalizeKeepsValue(d);
    SafeMantissa();
    DigitsBound(Abs(v.mantissa), 15);
    if v.scale <= 0 {
      SafeIntegerFits(v);
    }
    IntegerValue(v);
    ShortSize(v);
    TenGrows(-v.scale, v.scale);
    UnitPower();
    assert -v.scale + v.scale == 0;
  }

  /** An integer within the digit gate fits 64 bits, so it never becomes a floating-point number. */
  lemma SafeIntegerFits(v: Decimal)
    requires Normal(v) && v.scale <= 0 && CanonicalDigits(v) <= F64_SAFE_DIGITS
    ensures I64_MIN <= ToInteger(v) <= I64_MAX
  {
    hide Pow;
    var p := Pow(10, -v.scale);
    if v.mantissa != 0 {
      AbsOfProduct(v.mantissa, p);
      DigitsOfMultiple(Abs(v.mantissa), -v.scale);
      DigitsBound(Abs(v.mantissa * p), 15);
      SafeMantissa();
    }
  }

  /** No other number has the JSON of `d`. */
  ghost predicate Lossless(lib: Library, d: Decimal) {
    forall other :: DecimalToJson(lib, other) == DecimalToJson(lib, d) ==> Value(other) == Value(d)
  }

  lemma IntegerMeans(lib: Library, d: Decimal)
    requires DecimalToJson(lib, d).Integer?
    ensures Value(d) == DecimalToJson(lib, d).value as real
  {
    hide Ten, Pow, Value, Digits;
    NormalizeKeepsValue(d);
    IntegerValue(Normalize(d));
  }

  lemma TextMeans(lib: Library, a: Decimal, b: Decimal)
    requires Faithful(lib) && DecimalToJson(lib, a).Text? && DecimalToJson(lib, b) == DecimalToJson(lib, a)
    ensures Value(a) == Value(b)
  {
    hide Ten, Pow, Value, Digits, Nearest;
    NormalizeKeepsValue(a);
    NormalizeKeepsValue(b);
  }

  lemma NumberFromEdge(lib: Library, a: Decimal, b: Decimal)
    requires Faithful(lib) && DecimalToJson(lib, a).Number? && DecimalToJson(lib, b) == DecimalToJson(lib, a)
    requires Size(Value(a)) >= Ten(-309)
    ensures Value(a) == Value(b)
  {
    hide Ten, Pow, Value, Nearest, Faithful, DecimalToJson;
    NumberMeans(lib, a);
    NumberMeans(lib, b);
    var x, y, r := Normalize(a), Normalize(b), DecimalToJson(lib, a).double;
    NoneFromBelow(x, y, r);
    if y.scale <= x.scale {
      NoneShared(x, y, r);
    } else {
      NoneShared(y, x, r);
    }
  }

  // ----- below the edge every number has a twin -----

  /** A neighbour on a grid finer than half a step, towards the double, rounds strictly to it. */
  lemma NeighbourIsCloser(v: real, r: real, t: real, step: real)
    requires 0.0 < t < step / 2.0 && Distance(r, v) <= step / 2.0
    ensures Distance(r, if v <= r then v + t else v - t) < step / 2.0
  {
  }

  /** Strictly within half a step there is only one double. */
  lemma OnlyDouble(v: real, r: real, nearest: real)
    requires IsDouble(r) && Distance(r, v) < Step() / 2.0 && Nearest(v, nearest)
    ensures nearest == r
  {
    hide Pow, Step, Units;
    var m := DoubleInUnits(r);
    var n := DoubleInUnits(nearest);
    assert Distance(nearest, v) <= Distance(r, v);
    UnitsAdd(1, 0, Step());
    UnitsAdd(m, 1, Step());
    UnitsAdd(n, 1, Step());
    UnitsOrder(n, m + 1, Step());
    UnitsOrder(m, n + 1, Step());
  }

  lemma {:induction false} StripIsShort(mantissa: int, scale: int)
    requires mantissa != 0 && Abs(mantissa) <= 1_000_000_000_000_000
    ensures Abs(Strip(mantissa, scale).mantissa) < 1_000_000_000_000_000
    decreases Abs(mantissa)
  {
    if mantissa % 10 == 0 {
      StripIsShort(mantissa / 10, scale - 1);
    }
  }

  /** A decimal of few units whose value lies strictly between 0 and 1 is rounded, not refused. */
  lemma SmallFractionIsNumber(lib: Library, d: Decimal)
    requires Faithful(lib) && Abs(d.mantissa) <= 1_000_000_000_000_000 && 0.0 < Size(Value(d)) < 1.0
    ensures var w := Normalize(d);
            && lib.double(w).Some? && Nearest(Value(d), lib.double(w).value)
            && (lib.double(w).value != 0.0 ==> DecimalToJson(lib, d) == Number(lib.double(w).value))
  {
    hide Pow, Ten, Nearest, Digits, On;
    assert d.mantissa != 0 by {
      MantissaUnits(d);
      UnitsAdd(0, 0, Ten(-d.scale));
    }
    hide Value;
    var w := Normalize(d);
    NormalizeKeepsValue(d);
    StripIsShort(d.mantissa, d.scale);
    SafeMantissa();
    DigitsBound(Abs(w.mantissa), 15);
    IntegerValue(w);
    assert w.scale > 0;
  }

  /** On the grid of `10^-324` or its own, whichever is finer, a short decimal below `10^-309` is few units. */
  lemma FewUnits(v: Decimal) returns (scale: int, m: int)
    requires Short(v) && Size(Value(v)) < Ten(-309)
    ensures Value(v) == Units(m, Ten(-scale)) && Abs(m) < 1_000_000_000_000_000 && Ten(-scale) <= Ten(-324)
  {
    hide Pow, Ten, Value, Units, On;
    if v.scale <= 324 {
      scale := 324;
      m := On(v, 324);
      OnUnits(v, 324);
      EdgeInUnits();
      SizeOf(m, Ten(-324));
      UnitsOrder(Abs(m), 1_000_000_000_000_000, Ten(-324));
    } else {
      scale := v.scale;
      m := v.mantissa;
      MantissaUnits(v);
      TenGrows(-scale, scale - 324);
      assert -scale + (scale - 324) == -324;
    }
  }

  lemma MantissaUnits(d: Decimal)
    ensures Value(d) == Units(d.mantissa, Ten(-d.scale))
  {
  }

  lemma Neighbour(m: int, scale: int, up: bool)
    ensures Value(Decimal(m + if up then 1 else -1, scale))
            == if up then Units(m, Ten(-scale)) + Ten(-scale) else Units(m, Ten(-scale)) - Ten(-scale)
  {
    hide Pow, Ten, Units;
    MantissaUnits(Decimal(m + if up then 1 else -1, scale));
    UnitsAdd(m, 1, Ten(-scale));
    UnitsAdd(m, -1, Ten(-scale));
    UnitsAdd(1, 0, Ten(-scale));
  }

  /** A double other than zero is at least one step away from it. */
  lemma AtLeastOneStep(r: real)
    requires IsDouble(r) && r != 0.0
    ensures Size(r) >= Step()
  {
    hide Pow, Step, Units;
    var n := DoubleInUnits(r);
    SizeOf(n, Step());
    UnitsAdd(1, 0, Step());
    UnitsOrder(Abs(n), 1, Step());
  }

  /** Below `10^-309` another decimal, one unit away, is emitted as the same number. */
  lemma Twin(lib: Library, d: Decimal) returns (other: Decimal)
    requires Faithful(lib) && DecimalToJson(lib, d).Number? && Size(Value(d)) < Ten(-309)
    ensures DecimalToJson(lib, other) == DecimalToJson(lib, d) && Value(other) != Value(d)
  {
    hide Pow, Ten, Step, Value, Nearest, Faithful, DecimalToJson, Units, IsDouble, Normalize;
    NumberMeans(lib, d);
    var v, r := Normalize(d), DecimalToJson(lib, d).double;
    IsOne(Value(v), r);
    var scale, m := FewUnits(v);
    var up := Value(v) <= r;
    other := Decimal(m + if up then 1 else -1, scale);
    Neighbour(m, scale, up);
    Places();
    OneError(Value(v), r);
    NeighbourIsCloser(Value(v), r, Ten(-scale), Step());
    AtLeastOneStep(r);
    TinyEdge();
    SmallFractionIsNumber(lib, other);
    OnlyDouble(Value(other), r, lib.double(Normalize(other)).value);
  }

  lemma TinyEdge()
    ensures Ten(-309) + Ten(-324) < 1.0
  {
    hide Pow, Ten;
    TenGrows(-324, 15);
    TenGrows(-309, 308);
    TenStep(-1);
    UnitPower();
    assert -324 + 15 == -309 && -309 + 308 == -1;
  }
}
