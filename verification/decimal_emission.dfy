/** The JSON shape of every decimal, told from its value. */
module DecimalEmission {
  import opened Powers
  import opened DecimalRules
  import opened DecimalLaws
  import opened Binary64
  import opened DecimalEdge

  predicate Whole(x: real) {
    x == x.Floor as real
  }

  /** The value can be written with at most 15 digits behind which no zeros are left out. */
  ghost predicate FewDigits(x: real) {
    exists m: int, s: nat :: Written(x, m, s)
  }

  predicate Written(x: real, m: int, s: nat) {
    -1_000_000_000_000_000 < m < 1_000_000_000_000_000 && x == Value(Decimal(m, s))
  }

  lemma {:induction false} StripShrinks(mantissa: int, scale: int)
    requires mantissa != 0
    ensures Abs(Strip(mantissa, scale).mantissa) <= Abs(mantissa)
    decreases Abs(mantissa)
  {
    if mantissa % 10 == 0 {
      StripShrinks(mantissa / 10, scale - 1);
    }
  }

  /** A fraction passes the digit gate exactly if it can be written with few digits. */
  lemma GateExactly(d: Decimal)
    requires !Whole(Value(d))
    ensures CanonicalDigits(Normalize(d)) <= F64_SAFE_DIGITS <==> FewDigits(Value(d))
    ensures Normalize(d).scale > 0
  {
    hide Ten, Pow, Value, Digits;
    var v := Normalize(d);
    NormalizeKeepsValue(d);
    FractionHasScale(v);
    SafeMantissa();
    DigitsBound(Abs(v.mantissa), 15);
    if CanonicalDigits(v) <= F64_SAFE_DIGITS {
      assert Written(Value(d), v.mantissa, v.scale);
    }
    if m: int, s: nat :| Written(Value(d), m, s) {
      var w := Decimal(m, s);
      NormalizeKeepsValue(w);
      NormalFormIsUnique(Normalize(w), v);
      if m != 0 { StripShrinks(m, s); }
    }
  }

  lemma FractionHasScale(v: Decimal)
    requires Normal(v) && !Whole(Value(v))
    ensures v.scale > 0 && !IsInteger(v)
  {
    hide Ten, Pow, Value;
    IntegerValue(v);
    assert v.scale <= 0 ==> Value(v).Floor == ToInteger(v);
  }

  /**
   * A fraction is emitted as a number exactly if it can be written with at most 15 digits and is more than half the
   * smallest binary64 step away from zero; the number is a nearest one, and equal if the fraction is one itself.
   */
  lemma FractionExactly(lib: Library, d: Decimal)
    requires Faithful(lib) && !Whole(Value(d))
    ensures !DecimalToJson(lib, d).Integer?
    ensures DecimalToJson(lib, d).Number? <==> FewDigits(Value(d)) && Size(Value(d)) > Step() / 2.0
    ensures DecimalToJson(lib, d).Number? ==> Nearest(Value(d), DecimalToJson(lib, d).double)
    ensures DecimalToJson(lib, d).Number? && IsDouble(Value(d)) ==> DecimalToJson(lib, d).double == Value(d)
  {
    hide Ten, Pow, Value, Digits, Nearest, Step, FewDigits, CanonicalDigits;
    var v := Normalize(d);
    NormalizeKeepsValue(d);
    GateExactly(d);
    FractionHasScale(v);
    if CanonicalDigits(v) <= F64_SAFE_DIGITS {
      ConvertedNearest(lib, v);
      if Size(Value(d)) > Step() / 2.0 {
        ZeroIsFarther(Value(d));
      }
      NearestOfDouble(Value(v), lib.double(v).value);
    }
    if DecimalToJson(lib, d).Number? {
      NumberIsEmitted(lib, d);
      EmittedParts(d);
    }
  }

  lemma EmittedParts(d: Decimal)
    requires Emitted(d)
    ensures CanonicalDigits(Normalize(d)) <= F64_SAFE_DIGITS && Size(Value(d)) > Step() / 2.0
  {
  }

  lemma ConvertedNearest(lib: Library, v: Decimal)
    requires Faithful(lib) && CanonicalDigits(v) <= F64_SAFE_DIGITS
    ensures lib.double(v).Some? && Nearest(Value(v), lib.double(v).value)
  {
  }

  lemma NearestOfDouble(x: real, r: real)
    requires Nearest(x, r)
    ensures IsDouble(x) ==> r == x
  {
    hide IsDouble;
    if IsDouble(x) {
      assert Distance(r, x) <= Distance(x, x);
    }
  }

  /** What is not emitted as a number is the text of its one normal form. */
  lemma TextExactly(lib: Library, d: Decimal)
    ensures DecimalToJson(lib, d).Text? ==>
              forall v :: Normal(v) && Value(v) == Value(d) ==> DecimalToJson(lib, d).text == lib.display(v)
  {
    hide Ten, Pow, Value;
    NormalizeKeepsValue(d);
    forall v | Normal(v) && Value(v) == Value(d) ensures v == Normalize(d) {
      NormalFormIsUnique(v, Normalize(d));
    }
  }

  /** One and a half is emitted as just that number. */
  lemma OneAndAHalf(lib: Library)
    requires Faithful(lib)
    ensures DecimalToJson(lib, Decimal(15, 1)).Number?
  {
    var d := Decimal(15, 1);
    assert Value(d) == 1.5 by {
      PowStep(10, 1);
      PowZero(10);
    }
    assert 1.5.Floor == 1;
    assert Written(1.5, 15, 1);
    StepIsSmall();
    FractionExactly(lib, d);
  }

  lemma StepIsSmall()
    ensures Step() / 2.0 < 1.5
  {
  }

  /** An unsigned cell beyond 64 signed bits is its digits as text, as an exact one of that value is its display. */
  lemma LargeUnsigned(lib: Library, digits: nat -> string, n: nat, d: Decimal)
    requires Value(d) == n as real && n > 0x7fff_ffff_ffff_ffff
    ensures Encode(lib, digits, UInt(n)) == Text(digits(n))
    ensures Encode(lib, digits, Exact(d)) == Text(lib.display(Normalize(d)))
  {
    IntegersAreExact(lib, d, n);
  }
}
