/** Binary64 numbers of any exponent upwards, and how far rounding to a nearest one is off. */
module Binary64 {
  import opened Powers
  import opened DecimalRules
  import opened DecimalLaws

  /** A binary64 number (of any exponent upwards): at most 53 bits, in units of `2^-1074`. */
  ghost predicate IsDouble(x: real) {
    exists k: int, j: nat :: IsDoubleAs(x, k, j)
  }

  ghost predicate IsDoubleAs(x: real, k: int, j: nat) {
    -0x20_0000_0000_0000 <= k <= 0x20_0000_0000_0000 && x == (k * Pow(2, j)) as real * Step()
  }

  function Distance(x: real, y: real): real {
    if x < y then y - x else x - y
  }

  function Size(x: real): real {
    if x < 0.0 then -x else x
  }

  /** `r` is a binary64 number and none is closer to `v`. */
  ghost predicate Nearest(v: real, r: real) {
    IsDouble(r) && forall x :: IsDouble(x) ==> Distance(r, v) <= Distance(x, v)
  }

  /** The conversion rounds to nearest wherever the digit gate lets it run, and the text determines the number. */
  ghost predicate Faithful(lib: Library) {
    && (forall d :: CanonicalDigits(d) <= F64_SAFE_DIGITS ==>
                      lib.double(d).Some? && Nearest(Value(d), lib.double(d).value))
    && (forall a, b :: Normal(a) && Normal(b) && lib.display(a) == lib.display(b) ==> a == b)
  }

  /** Every binary64 number is a whole number of steps. */
  lemma DoublesAreSteps(x: real) returns (n: int)
    requires IsDouble(x)
    ensures x == n as real * Step()
  {
    var k, j: nat :| IsDoubleAs(x, k, j);
    n := k * Pow(2, j);
  }

  /** The distance between neighbouring doubles of one exponent: `2^j` steps. */
  ghost function Stride(j: nat): real {
    Pow(2, j) as real * Step()
  }

  lemma StrideDoubles(j: nat)
    ensures Stride(0) == Step() && Stride(j) > 0.0 && Stride(j + 1) == 2.0 * Stride(j)
  {
    PowZero(2);
    PowStep(2, j + 1);
    hide Pow, Step;
    StridePositive(Pow(2, j), Step());
    TwiceAsReal(Pow(2, j), Step());
  }

  /** A value of at most `2^53` strides has a double within half a stride. */
  lemma NearbyDouble(v: real, j: nat) returns (x: real)
    requires Size(v) <= 9_007_199_254_740_992.0 * Stride(j)
    ensures IsDouble(x) && Distance(x, v) <= Stride(j) / 2.0
  {
    hide Pow, Step, Stride, IsDouble, Strides;
    StrideDoubles(j);
    var t := Stride(j);
    var q, k := InStrides(v, t);
    x := Strides(k as real, t);
    MultipleIsDouble(k, j);
    StridesLaws(q, t);
    StridesLaws(k as real, t);
    StridesOrder(k as real, q + 0.5, t);
    StridesOrder(q + 0.5, k as real + 1.0, t);
  }

  lemma StridePositive(p: nat, s: real)
    requires p > 0 && s > 0.0
    ensures p as real * s > 0.0
  {
  }

  lemma QuotientBound(q: real, stride: real, v: real)
    requires stride > 0.0 && q * stride == v && Size(v) <= 9_007_199_254_740_992.0 * stride
    ensures -9_007_199_254_740_992.0 <= q <= 9_007_199_254_740_992.0
  {
    Monotone(q, 9_007_199_254_740_992.0, stride);
    Monotone(-9_007_199_254_740_992.0, q, stride);
    assert -9_007_199_254_740_992.0 * stride == -(9_007_199_254_740_992.0 * stride);
  }

  /** Below `2^53` steps rounding is off by at most half a step. */
  lemma SmallError(v: real, r: real)
    requires Nearest(v, r) && Size(v) <= 9_007_199_254_740_992.0 * Step()
    ensures Distance(r, v) <= Step() / 2.0
  {
    hide Pow, Step, Stride, IsDouble;
    StrideDoubles(0);
    var x := NearbyDouble(v, 0);
  }

  lemma TwiceAsReal(p: nat, s: real)
    ensures (2 * p) as real * s == 2.0 * (p as real * s)
  {
    var x := p as real;
    assert (2 * p) as real == 2.0 * x;
    assert (2.0 * x) * s == 2.0 * (x * s);
  }

  lemma Inverse(x: real, y: real)
    requires x > 0.0 && y == 1.0 / x
    ensures x * y == 1.0
  {
  }

  lemma {:induction false} PowReaches(n: nat)
    ensures Pow(2, n) > n
  {
    if n > 0 {
      PowReaches(n - 1);
    }
  }

  /** Strides grow beyond every bound. */
  lemma StrideReaches(n: nat)
    ensures Stride(1074 + n) > n as real
  {
    hide Pow, Step;
    PowReaches(n);
    PowAdd(2, 1074, n);
    Reciprocals(1, 1074);
    var p, q, s := Pow(2, 1074), Pow(2, n), Step();
    Inverse(p as real, s);
    Associate(q, p, s);
    assert (q * p) as real * s == q as real * 1.0;
    assert Pow(2, 1074 + n) == q * p;
  }

  /**
   * The exponent a value is rounded at: at most `2^53` strides, and at least `2^52` of them unless it is the smallest.
   */
  lemma {:induction false} BinadeFrom(v: real, j: nat) returns (i: nat)
    requires Size(v) <= 9_007_199_254_740_992.0 * Stride(j)
    ensures Size(v) <= 9_007_199_254_740_992.0 * Stride(i)
    ensures i == 0 || 4_503_599_627_370_496.0 * Stride(i) <= Size(v)
    decreases j
  {
    hide Stride;
    if j == 0 || 4_503_599_627_370_496.0 * Stride(j) <= Size(v) {
      i := j;
    } else {
      StrideDoubles(j - 1);
      i := BinadeFrom(v, j - 1);
    }
  }

  lemma Binade(v: real) returns (i: nat)
    ensures Size(v) <= 9_007_199_254_740_992.0 * Stride(i)
    ensures i == 0 || 4_503_599_627_370_496.0 * Stride(i) <= Size(v)
  {
    hide Stride;
    var n: nat := Size(v).Floor + 1;
    StrideReaches(n);
    i := BinadeFrom(v, 1074 + n);
  }

  /** From `2^52` steps on, rounding is off by at most `2^-53` of the value. */
  lemma RelativeError(v: real, r: real)
    requires Nearest(v, r) && 4_503_599_627_370_496.0 * Step() <= Size(v)
    ensures 9_007_199_254_740_992.0 * Distance(r, v) <= Size(v)
  {
    hide Pow, Step, Stride, IsDouble;
    StrideDoubles(0);
    var i := Binade(v);
    var x := NearbyDouble(v, i);
  }

  // ----- every value has a nearest number -----

  lemma {:induction false} StrideGrows(i: nat, j: nat)
    requires i <= j
    ensures Stride(i) <= Stride(j)
  {
    hide Stride;
    if i < j {
      StrideGrows(i, j - 1);
      StrideDoubles(j - 1);
    }
  }

  /** `q` times `t`. */
  ghost function Strides(q: real, t: real): real {
    q * t
  }

  lemma StridesLaws(q: real, t: real)
    requires t > 0.0
    ensures Strides(q + 1.0, t) == Strides(q, t) + t && Strides(q - 1.0, t) == Strides(q, t) - t
    ensures Strides(q + 0.5, t) == Strides(q, t) + t / 2.0 && Strides(-q, t) == -Strides(q, t)
  {
    assert (q + 1.0) * t == q * t + t && (q - 1.0) * t == q * t - t;
    assert (q + 0.5) * t == q * t + t / 2.0 && (-q) * t == -(q * t);
  }

  lemma StridesOrder(x: real, y: real, t: real)
    requires t > 0.0
    ensures Strides(x, t) <= Strides(y, t) <==> x <= y
  {
    Monotone(x, y, t);
  }

  /** Rounding a quotient to a whole number gives the nearest multiple. */
  lemma NearestMultiple(q: real, k: int, n: int, t: real)
    requires t > 0.0 && k as real <= q + 0.5 < k as real + 1.0
    ensures Distance(Strides(k as real, t), Strides(q, t)) <= Distance(Strides(n as real, t), Strides(q, t))
  {
    hide Strides;
    var x, y := k as real, n as real;
    StridesLaws(q, t);
    StridesLaws(x, t);
    StridesOrder(x, q + 0.5, t);
    StridesOrder(q + 0.5, x + 1.0, t);
    StridesOrder(y, x - 1.0, t);
    StridesOrder(x + 1.0, y, t);
    assert n < k ==> y <= x - 1.0;
    assert k < n ==> x + 1.0 <= y;
  }

  /** A double of a larger or equal exponent is a multiple of the stride; one of a smaller exponent is smaller. */
  lemma DoubleOnStride(k: int, j: nat, i: nat)
    requires j >= i
    ensures (k * Pow(2, j)) as real * Step() == (k * Pow(2, j - i)) as real * Stride(i)
  {
    hide Pow, Step;
    PowAdd(2, j - i, i);
    var p, q, s := Pow(2, j - i), Pow(2, i), Step();
    assert k * (p * q) == (k * p) * q;
    Associate(k * p, q, s);
  }

  lemma MantissaBound(k: int, t: real)
    requires t > 0.0 && -0x20_0000_0000_0000 <= k <= 0x20_0000_0000_0000
    ensures Size(k as real * t) <= 9_007_199_254_740_992.0 * t
  {
    var x := k as real;
    Monotone(x, 9_007_199_254_740_992.0, t);
    Monotone(-9_007_199_254_740_992.0, x, t);
    assert -9_007_199_254_740_992.0 * t == -(9_007_199_254_740_992.0 * t);
  }

  lemma SmallerExponent(x: real, k: int, j: nat, i: nat)
    requires j < i && IsDoubleAs(x, k, j)
    ensures Size(x) <= 4_503_599_627_370_496.0 * Stride(i)
  {
    hide Pow, Step, Stride;
    StrideGrows(j, i - 1);
    StrideDoubles(i - 1);
    StrideDoubles(j);
    DoubleOnStride(k, j, j);
    PowZero(2);
    assert k * Pow(2, j - j) == k;
    MantissaBound(k, Stride(j));
  }

  /** Where a value is rounded, numbers of a smaller exponent are no nearer than the nearest multiple of the stride. */
  lemma SmallerIsNoNearer(q: real, k: int, t: real, x: real)
    requires t > 0.0 && k as real <= q + 0.5 < k as real + 1.0
    requires Size(x) <= 4_503_599_627_370_496.0 * t <= Size(Strides(q, t))
    ensures Distance(Strides(k as real, t), Strides(q, t)) <= Distance(x, Strides(q, t))
  {
    var edge: int := 4_503_599_627_370_496;
    assert Strides(edge as real, t) == 4_503_599_627_370_496.0 * t;
    hide Strides;
    NearestMultiple(q, k, edge, t);
    NearestMultiple(q, k, -edge, t);
    StridesLaws(edge as real, t);
    assert (-edge) as real == -(edge as real);
  }

  lemma OnStride(x: real, m: int, j: nat, i: nat) returns (n: int)
    requires j >= i && IsDoubleAs(x, m, j)
    ensures x == Strides(n as real, Stride(i))
  {
    DoubleOnStride(m, j, i);
    n := m * Pow(2, j - i);
  }

  lemma NoneNearer(q: real, k: int, i: nat, x: real)
    requires k as real <= q + 0.5 < k as real + 1.0 && IsDouble(x)
    requires i == 0 || 4_503_599_627_370_496.0 * Stride(i) <= Size(Strides(q, Stride(i)))
    ensures Distance(Strides(k as real, Stride(i)), Strides(q, Stride(i))) <= Distance(x, Strides(q, Stride(i)))
  {
    hide Pow, Step, Stride, IsDoubleAs, Strides;
    StrideDoubles(i);
    var m: int, j: nat :| IsDoubleAs(x, m, j);
    if j >= i {
      var n := OnStride(x, m, j, i);
      NearestMultiple(q, k, n, Stride(i));
    } else {
      SmallerExponent(x, m, j, i);
      SmallerIsNoNearer(q, k, Stride(i), x);
    }
  }

  lemma MultipleIsDouble(k: int, i: nat)
    requires -0x20_0000_0000_0000 <= k <= 0x20_0000_0000_0000
    ensures IsDouble(Strides(k as real, Stride(i)))
  {
    hide Pow, Step;
    Associate(k, Pow(2, i), Step());
    assert IsDoubleAs(Strides(k as real, Stride(i)), k, i);
  }

  /** A value in strides, rounded to a whole number of them. */
  lemma InStrides(v: real, t: real) returns (q: real, k: int)
    requires t > 0.0 && Size(v) <= 9_007_199_254_740_992.0 * t
    ensures v == Strides(q, t) && k as real <= q + 0.5 < k as real + 1.0
    ensures -0x20_0000_0000_0000 <= k <= 0x20_0000_0000_0000
  {
    q := v / t;
    assert q * t == v;
    QuotientBound(q, t, v);
    k := (q + 0.5).Floor;
  }

  /** Every value has a nearest binary64 number. */
  lemma NearestExists(v: real) returns (r: real)
    ensures Nearest(v, r)
  {
    hide Pow, Step, Stride, IsDouble, Strides;
    var i := Binade(v);
    StrideDoubles(i);
    var q, k := InStrides(v, Stride(i));
    r := Strides(k as real, Stride(i));
    MultipleIsDouble(k, i);
    forall x | IsDouble(x) ensures Distance(r, v) <= Distance(x, v) {
      NoneNearer(q, k, i, x);
    }
  }
}
