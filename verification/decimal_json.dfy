/** The JSON shape of exact numbers. */
module DecimalRules {
  import opened Common
  import opened Powers

  /** `mantissa * 10^-scale`. */
  datatype Decimal = Decimal(mantissa: int, scale: int)

  /** A JSON integer, a JSON number carrying a binary64 value, or a string. */
  datatype Json = Integer(value: int) | Number(double: real) | Text(text: string)

  /** The unseen conversions: to binary64, and to decimal text. */
  datatype Library = Library(double: Decimal -> Option<real>, display: Decimal -> string)

  const I64_MIN: int := -0x8000_0000_0000_0000
  const I64_MAX: int := 0x7fff_ffff_ffff_ffff

  const F64_SAFE_DIGITS: nat := 15

  function Abs(n: int): nat {
    if n < 0 then -n else n
  }

  function Strip(mantissa: int, scale: int): Decimal
    requires mantissa != 0
    decreases Abs(mantissa)
  {
    if mantissa % 10 == 0 then Strip(mantissa / 10, scale - 1) else Decimal(mantissa, scale)
  }

  /** Without trailing zeros; zero has scale 0. */
  function Normalize(d: Decimal): Decimal {
    if d.mantissa == 0 then Decimal(0, 0) else Strip(d.mantissa, d.scale)
  }

  /** Decimal digits; zero has one. */
  function Digits(n: nat): nat {
    if n < 10 then 1 else 1 + Digits(n / 10)
  }

  predicate IsInteger(d: Decimal) {
    d.scale <= 0 || d.mantissa % Pow(10, d.scale) == 0
  }

  function ToInteger(d: Decimal): int {
    if d.scale <= 0 then d.mantissa * Pow(10, -d.scale) else d.mantissa / Pow(10, d.scale)
  }

  function ToI64(d: Decimal): Option<int> {
    var n := ToInteger(d);
    if I64_MIN <= n <= I64_MAX then Some(n) else None
  }

  /** Mantissa digits and the zeros a negative scale stands for. */
  function CanonicalDigits(d: Decimal): nat {
    Digits(Abs(d.mantissa)) + if d.scale < 0 then -d.scale else 0
  }

  function DecimalToJson(lib: Library, d: Decimal): Json {
    var normalized := Normalize(d);
    if IsInteger(normalized) && ToI64(normalized).Some? then Integer(ToI64(normalized).value)
    else if CanonicalDigits(normalized) <= F64_SAFE_DIGITS && lib.double(normalized).Some?
            && lib.double(normalized).value != 0.0
    then Number(lib.double(normalized).value)
    else Text(lib.display(normalized))
  }

  datatype Cell = Int(signed: int) | UInt(unsigned: nat) | Exact(decimal: Decimal)

  /** The numeric cells; `digits` writes an integer in decimal. */
  function Encode(lib: Library, digits: nat -> string, cell: Cell): Json {
    match cell
    case Int(v) => Integer(v)
    case UInt(v) => if v <= I64_MAX then Integer(v) else Text(digits(v))
    case Exact(d) => DecimalToJson(lib, d)
  }
}

/** Decimals are emitted by value, and without loss wherever binary64 is fine enough. */
module DecimalLaws {
  import opened Powers
  import opened DecimalRules

  // ----- values -----

  function Value(d: Decimal): real {
    d.mantissa as real * Ten(-d.scale)
  }

  /** `d` as a multiple of `10^-scale`. */
  function On(d: Decimal, scale: int): int
    requires d.scale <= scale
  {
    d.mantissa * Pow(10, scale - d.scale)
  }

  lemma OnGrid(d: Decimal, scale: int)
    requires d.scale <= scale
    ensures Value(d) == On(d, scale) as real * Ten(-scale)
  {
    hide Ten, Pow;
    var n := scale - d.scale;
    TenAdd(-scale, n);
    Associate(d.mantissa, Pow(10, n), Ten(-scale));
  }

  lemma Associate(m: int, p: int, t: real)
    ensures m as real * (p as real * t) == (m * p) as real * t
  {
    var x, y := m as real, p as real;
    assert (m * p) as real == x * y;
    assert x * (y * t) == (x * y) * t;
  }

  predicate Normal(d: Decimal) {
    d == Decimal(0, 0) || d.mantissa % 10 != 0
  }

  lemma DropZero(m: int, scale: int)
    ensures m as real * Ten(-(scale - 1)) == (10 * m) as real * Ten(-scale)
  {
    hide Ten;
    TenStep(-scale);
    assert -(scale - 1) == -scale + 1;
    Associate(m, 10, Ten(-scale));
  }

  lemma {:induction false} StripKeepsValue(mantissa: int, scale: int)
    requires mantissa != 0
    ensures Value(Strip(mantissa, scale)) == mantissa as real * Ten(-scale)
    ensures Normal(Strip(mantissa, scale)) && Strip(mantissa, scale).mantissa != 0
            && Strip(mantissa, scale).scale <= scale
    decreases Abs(mantissa)
  {
    hide Ten;
    if mantissa % 10 == 0 {
      StripKeepsValue(mantissa / 10, scale - 1);
      DropZero(mantissa / 10, scale);
      assert mantissa == 10 * (mantissa / 10);
    }
  }

  /** Normalizing keeps the value. */
  lemma NormalizeKeepsValue(d: Decimal)
    ensures Value(Normalize(d)) == Value(d) && Normal(Normalize(d))
  {
    hide Ten;
    if d.mantissa != 0 {
      StripKeepsValue(d.mantissa, d.scale);
    }
  }

  lemma Monotone(x: real, y: real, t: real)
    requires t > 0.0
    ensures x * t <= y * t <==> x <= y
  {
    if x < y {
      assert (y - x) * t > 0.0;
      assert (y - x) * t == y * t - x * t;
    } else if y < x {
      assert (x - y) * t > 0.0;
      assert (x - y) * t == x * t - y * t;
    }
  }

  lemma Cancel(a: int, b: int, t: real)
    requires t > 0.0
    ensures a as real * t == b as real * t <==> a == b
    ensures a as real * t < b as real * t <==> a < b
  {
    Monotone(a as real, b as real, t);
    Monotone(b as real, a as real, t);
  }

  lemma CoarserIsMultiple(a: int, b: int, p: nat)
    requires p > 0 && a == b * (10 * p)
    ensures a % 10 == 0 && (a == 0 ==> b == 0)
  {
    assert b * (10 * p) == 10 * (b * p);
    assert b != 0 ==> b * (10 * p) != 0;
  }

  /** On the finer of two grids, equal values are equal integers. */
  lemma EqualOnGrid(a: Decimal, b: Decimal)
    requires Value(a) == Value(b) && b.scale < a.scale
    ensures a.mantissa == b.mantissa * (10 * Pow(10, a.scale - b.scale - 1))
  {
    hide Ten, Pow, Value;
    OnGrid(a, a.scale);
    OnGrid(b, a.scale);
    Cancel(On(a, a.scale), On(b, a.scale), Ten(-a.scale));
    PowZero(10);
    PowStep(10, a.scale - b.scale);
    assert On(a, a.scale) == a.mantissa * 1;
  }

  /** A value has one normal form: of two equal values neither has the larger scale. */
  lemma NotFiner(a: Decimal, b: Decimal)
    requires Normal(a) && Normal(b) && Value(a) == Value(b)
    ensures a.scale <= b.scale
  {
    if a.scale > b.scale {
      hide Ten, Pow, Value;
      EqualOnGrid(a, b);
      CoarserIsMultiple(a.mantissa, b.mantissa, Pow(10, a.scale - b.scale - 1));
    }
  }

  lemma SameScale(a: Decimal, b: Decimal)
    requires a.scale == b.scale && Value(a) == Value(b)
    ensures a.mantissa == b.mantissa
  {
    hide Ten;
    Cancel(a.mantissa, b.mantissa, Ten(-a.scale));
  }

  lemma NormalFormIsUnique(a: Decimal, b: Decimal)
    requires Normal(a) && Normal(b) && Value(a) == Value(b)
    ensures a == b
  {
    hide Ten, Value;
    NotFiner(a, b);
    NotFiner(b, a);
    SameScale(a, b);
  }

  /** Every way of writing a number has the same JSON shape. */
  lemma ShapeDependsOnValue(lib: Library, a: Decimal, b: Decimal)
    requires Value(a) == Value(b)
    ensures DecimalToJson(lib, a) == DecimalToJson(lib, b)
  {
    NormalizeKeepsValue(a);
    NormalizeKeepsValue(b);
    NormalFormIsUnique(Normalize(a), Normalize(b));
  }

  // ----- digits -----

  lemma {:induction false} DigitsBound(n: nat, k: nat)
    requires k > 0
    ensures Digits(n) <= k <==> n < Pow(10, k)
  {
    PowStep(10, k);
    PowZero(10);
    if n >= 10 {
      if k > 1 {
        DigitsBound(n / 10, k - 1);
      }
    } else {
      PowGrows(10, 1, k);
      PowStep(10, 1);
    }
  }

  lemma SafeMantissa()
    ensures Pow(10, F64_SAFE_DIGITS) == 1_000_000_000_000_000
    ensures Pow(10, 18) == 1_000_000_000_000_000_000
  {
    PowAdd(10, 9, 9);
    PowAdd(10, 9, 6);
  }

  lemma MultipleOfTen(m: int, p: nat)
    requires p > 0
    ensures m % (10 * p) == 0 ==> m % 10 == 0
  {
    if m % (10 * p) == 0 {
      var q := m / (10 * p);
      assert m == (10 * p) * q == 10 * (p * q);
    }
  }

  /** The integer a decimal without fraction stands for, and how large it is at least. */
  lemma IntegerValue(d: Decimal)
    requires Normal(d)
    ensures IsInteger(d) <==> d.scale <= 0
    ensures d.scale <= 0 ==> Value(d) == ToInteger(d) as real
  {
    hide Ten;
    if d.scale > 0 {
      PowStep(10, d.scale);
      MultipleOfTen(d.mantissa, Pow(10, d.scale - 1));
    } else {
      OnGrid(d, 0);
      assert Ten(0) == 1.0 by { UnitPower(); }
    }
  }

  lemma UnitPower()
    ensures Ten(0) == 1.0
  {
  }

  lemma {:induction false} DigitsOfMultiple(n: nat, k: nat)
    requires n > 0
    ensures Digits(n * Pow(10, k)) == Digits(n) + k
  {
    if k == 0 {
      PowZero(10);
    } else {
      PowStep(10, k);
      DigitsOfMultiple(n, k - 1);
      var p := Pow(10, k - 1);
      assert n * (10 * p) == 10 * (n * p);
      assert n * p > 0;
    }
  }

  lemma AbsOfProduct(m: int, p: nat)
    ensures Abs(m * p) == Abs(m) * p
  {
    if m < 0 {
      assert m * p == -(Abs(m) * p);
      assert Abs(m) * p >= 0;
    } else {
      assert m * p >= 0;
    }
  }

  /** An integer is emitted exactly, as a JSON integer when it fits and never as a floating-point number. */
  lemma IntegersAreExact(lib: Library, d: Decimal, n: int)
    requires Value(d) == n as real
    ensures DecimalToJson(lib, d) == if I64_MIN <= n <= I64_MAX then Integer(n) else Text(lib.display(Normalize(d)))
  {
    hide Pow, Ten, Value;
    var v := Normalize(d);
    NormalizeKeepsValue(d);
    WholeHasNoFraction(v, n);
    IntegerValue(v);
    assert ToInteger(v) == n;
    if !(I64_MIN <= n <= I64_MAX) {
      SafeMantissa();
      var p := Pow(10, -v.scale);
      assert n == v.mantissa * p;
      AbsOfProduct(v.mantissa, p);
      assert Abs(n) >= 1_000_000_000_000_000_000;
      assert v.mantissa != 0;
      DigitsBound(Abs(n), 18);
      DigitsOfMultiple(Abs(v.mantissa), -v.scale);
    }
  }

  lemma WholeHasNoFraction(v: Decimal, n: int)
    requires Normal(v) && Value(v) == n as real
    ensures v.scale <= 0
  {
    hide Ten;
    if v.scale > 0 {
      var whole := Normalize(Decimal(n, 0));
      assert Value(Decimal(n, 0)) == n as real by { UnitPower(); }
      NormalizeKeepsValue(Decimal(n, 0));
      NormalFormIsUnique(v, whole);
      if n != 0 {
        StripKeepsValue(n, 0);
      }
      assert false;
    }
  }

  /** An integer has the same shape whichever kind of cell holds it, as far as it fits. */
  lemma SameIntegerSameShape(lib: Library, digits: nat -> string, n: int, d: Decimal)
    requires Value(d) == n as real && I64_MIN <= n <= I64_MAX
    ensures Encode(lib, digits, Exact(d)) == Encode(lib, digits, Int(n)) == Integer(n)
    ensures n >= 0 ==> Encode(lib, digits, UInt(n)) == Integer(n)
  {
    IntegersAreExact(lib, d, n);
  }
}
