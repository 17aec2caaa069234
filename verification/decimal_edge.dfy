/** The exact condition under which a decimal survives the way through JSON, in terms a caller can check. */
module DecimalEdge {
  import opened Common
  import opened Powers
  import opened DecimalRules
  import opened DecimalLaws
  import opened Binary64
  import opened DecimalPrecision

  // ----- half a step is no short decimal -----

  lemma {:induction false} PowersOfFiveAreOdd(n: nat)
    ensures Pow(5, n) % 2 == 1
  {
    if n > 0 {
      PowersOfFiveAreOdd(n - 1);
    }
  }

  lemma Cancelled(p: nat, a: nat, b: nat)
    requires p > 0 && p * a == p * b
    ensures a == b
  {
  }

  lemma CrossMultiplied(m: nat, a: nat, b: nat)
    requires a > 0 && b > 0 && m as real * (1.0 / a as real) == (1.0 / b as real) / 2.0
    ensures 2 * (b * m) == a
  {
    var x, y, z := m as real, a as real, b as real;
    var p, q := 1.0 / y, 1.0 / z;
    Inverse(y, p);
    Inverse(z, q);
    assert 2.0 * (x * p) == q;
    assert 2.0 * (x * p) * (y * z) == 2.0 * (z * x) * (y * p);
    assert q * (y * z) == y * (z * q);
    assert (b * m) as real == z * x;
    assert 2.0 * (z * x) == y;
  }

  lemma Regrouped(p: nat, h: nat, m: nat)
    ensures 2 * ((p * h) * m) == p * (2 * (h * m))
  {
    assert (p * h) * m == p * (h * m);
  }

  /** `2^-1075` is no multiple of `10^-338`: it would make a power of five even. */
  lemma HalfStepOffGrid(m: nat)
    ensures Units(m, Ten(-338)) != Step() / 2.0
  {
    hide Pow, Ten, Step;
    Reciprocals(338, 1074);
    if m as real * Ten(-338) == Step() / 2.0 {
      CrossMultiplied(m, Pow(10, 338), Pow(2, 1074));
      PowMultiplies(2, 5, 338);
      PowAdd(2, 338, 736);
      Regrouped(Pow(2, 338), Pow(2, 736), m);
      Cancelled(Pow(2, 338), 2 * (Pow(2, 736) * m), Pow(5, 338));
      PowersOfFiveAreOdd(338);
    }
  }

  lemma TinyIsLess(d: Decimal)
    requires Short(d) && d.scale > 338
    ensures Size(Value(d)) < Step() / 2.0
  {
    hide Pow, Ten, Step, Value;
    ShortSize(d);
    Places();
    TenGrows(-d.scale, d.scale - 339);
    assert -d.scale + (d.scale - 339) == -339;
    SafeMantissa();
    TenAt(-339, 15, 1_000_000_000_000_000);
    assert -339 + 15 == -324;
  }

  /** No short decimal is exactly half a step, so none of them is a tie with zero. */
  lemma HalfStepIsNotShort(d: Decimal)
    requires Short(d)
    ensures Size(Value(d)) != Step() / 2.0
  {
    hide Pow, Ten, Step, Value, Units, On;
    if d.scale > 338 {
      TinyIsLess(d);
    } else {
      OnUnits(d, 338);
      SizeOf(On(d, 338), Ten(-338));
      HalfStepOffGrid(Abs(On(d, 338)));
    }
  }

  // ----- what is emitted as a number below the edge -----

  /** Beyond half a step, one step away from zero is nearer than zero. */
  lemma ZeroIsFarther(v: real)
    requires Size(v) > Step() / 2.0
    ensures !Nearest(v, 0.0)
  {
    PowZero(2);
    hide Pow, Step;
    assert IsDoubleAs(Step(), 1, 0) && IsDoubleAs(-Step(), -1, 0);
    assert IsDouble(Step()) && IsDouble(-Step());
    assert Step() > 0.0;
  }

  /** The guards of the floating-point branch on a decimal below `10^-309`: few digits, and not rounded to zero. */
  ghost predicate Emitted(d: Decimal) {
    CanonicalDigits(Normalize(d)) <= F64_SAFE_DIGITS && Size(Value(d)) > Step() / 2.0
  }

  lemma EmittedIsNumber(lib: Library, d: Decimal)
    requires Faithful(lib) && Emitted(d) && Size(Value(d)) < Ten(-309)
    ensures DecimalToJson(lib, d).Number?
  {
    var v := Normalize(d);
    NormalizeKeepsValue(d);
    NormalizeKeepsValue(v);
    NormalFormIsUnique(Normalize(v), v);
    hide Pow, Ten, Value, Nearest, Digits, Step, Normalize;
    SafeMantissa();
    DigitsBound(Abs(v.mantissa), 15);
    TinyEdge();
    Places();
    SmallFractionIsNumber(lib, v);
    ZeroIsFarther(Value(v));
    ShapeDependsOnValue(lib, d, v);
  }

  lemma NumberIsEmitted(lib: Library, d: Decimal)
    requires Faithful(lib) && DecimalToJson(lib, d).Number?
    ensures Emitted(d)
  {
    assert CanonicalDigits(Normalize(d)) <= F64_SAFE_DIGITS;
    hide Pow, Ten, Value, Nearest, Step, Faithful, DecimalToJson, CanonicalDigits;
    NumberMeans(lib, d);
    var v, r := Normalize(d), DecimalToJson(lib, d).double;
    IsOne(Value(v), r);
    AtLeastOneStep(r);
    OneError(Value(v), r);
    HalfStepIsNotShort(v);
    Places();
  }

  /** Below `10^-309`, exactly the decimals within the digit gate that exceed half a step are emitted as numbers. */
  lemma NumberExactly(lib: Library, d: Decimal)
    requires Faithful(lib) && Size(Value(d)) < Ten(-309)
    ensures DecimalToJson(lib, d).Number? <==> Emitted(d)
  {
    hide Emitted, Faithful, Value, Ten, DecimalToJson;
    if DecimalToJson(lib, d).Number? {
      NumberIsEmitted(lib, d);
    }
    if Emitted(d) {
      EmittedIsNumber(lib, d);
    }
  }

  /**
   * Exactly what is lost: a decimal is determined by what it is emitted as, unless it is within the digit gate, above
   * half a step and below `10^-309` in size.
   */
  lemma LosslessExactly(lib: Library, d: Decimal)
    requires Faithful(lib)
    ensures Lossless(lib, d)
            <==> !(CanonicalDigits(Normalize(d)) <= F64_SAFE_DIGITS && Step() / 2.0 < Size(Value(d)) < Ten(-309))
  {
    hide Pow, Ten, Value, Faithful, DecimalToJson, Step, CanonicalDigits, Normalize;
    if Size(Value(d)) < Ten(-309) {
      NumberExactly(lib, d);
    }
    if DecimalToJson(lib, d).Number? && Size(Value(d)) < Ten(-309) {
      var other := Twin(lib, d);
    } else {
      forall other | DecimalToJson(lib, other) == DecimalToJson(lib, d) ensures Value(other) == Value(d) {
        if DecimalToJson(lib, d).Number? {
          NumberFromEdge(lib, d, other);
        } else if DecimalToJson(lib, d).Integer? {
          IntegerMeans(lib, d);
          IntegerMeans(lib, other);
        } else {
          TextMeans(lib, d, other);
        }
      }
    }
  }

  // ----- the condition is met -----

  /** `10^-310` is emitted as a number that another decimal is emitted as, too. */
  lemma LossyExample(lib: Library)
    requires Faithful(lib)
    ensures DecimalToJson(lib, Decimal(1, 310)).Number? && Size(Value(Decimal(1, 310))) < Ten(-309)
    ensures !Lossless(lib, Decimal(1, 310))
  {
    var d := Decimal(1, 310);
    assert Normalize(d) == d && CanonicalDigits(d) == 1;
    MantissaUnits(d);
    hide Pow, Ten, Value, Faithful, DecimalToJson, Step, Units;
    UnitsAdd(1, 0, Ten(-310));
    TenStep(-310);
    TenGrows(-323, 13);
    assert -323 + 13 == -310;
    Places();
    NumberExactly(lib, d);
    LosslessExactly(lib, d);
  }

  // ----- the assumptions can be met -----

  function Repeated(n: nat, c: char): string {
    seq(n, _ => c)
  }

  function Code(n: int): nat {
    if n < 0 then 2 * -n - 1 else 2 * n
  }

  /** A text that determines both numbers, in unary. */
  function Unary(d: Decimal): string {
    Repeated(Code(d.mantissa), 'm') + Repeated(Code(d.scale), 's')
  }

  lemma UnaryDiffers(a: Decimal, b: Decimal)
    requires Code(a.mantissa) < Code(b.mantissa)
    ensures Unary(a) != Unary(b)
  {
    var m := Code(a.mantissa);
    if |Unary(a)| == |Unary(b)| {
      assert Unary(a)[m] == 's' && Unary(b)[m] == 'm';
    }
  }

  lemma UnaryDetermines(a: Decimal, b: Decimal)
    requires Unary(a) == Unary(b)
    ensures a == b
  {
    if Code(a.mantissa) < Code(b.mantissa) {
      UnaryDiffers(a, b);
    } else if Code(b.mantissa) < Code(a.mantissa) {
      UnaryDiffers(b, a);
    } else {
      assert |Unary(a)| == |Unary(b)|;
    }
  }

  /**
   * There are conversions as the lemmas assume them: every value has a nearest number, and a text can hold a decimal.
   */
  lemma FaithfulExists() returns (lib: Library)
    ensures Faithful(lib)
  {
    hide Pow, Ten, Value, Nearest, Normal, CanonicalDigits, Unary;
    forall d: Decimal ensures exists r :: Nearest(Value(d), r) {
      var r := NearestExists(Value(d));
    }
    lib := Library((d: Decimal) => var r :| Nearest(Value(d), r); Some(r), Unary);
    forall a, b | Normal(a) && Normal(b) && lib.display(a) == lib.display(b) ensures a == b {
      UnaryDetermines(a, b);
    }
  }
}
