/** Powers, and how the decimal and binary grids near the smallest binary64 numbers lie against each other. */
module Powers {
  function Pow(b: nat, n: nat): (r: nat)
    ensures b > 0 ==> r > 0
  {
    if n == 0 then 1 else b * Pow(b, n - 1)
  }

  lemma {:induction false} PowAdd(b: nat, m: nat, n: nat)
    ensures Pow(b, m + n) == Pow(b, m) * Pow(b, n)
  {
    if m > 0 {
      PowAdd(b, m - 1, n);
      Reassociate(b, Pow(b, m - 1), Pow(b, n));
      assert Pow(b, m + n) == b * Pow(b, m - 1 + n);
    }
  }

  lemma Reassociate(b: nat, x: nat, y: nat)
    ensures b * (x * y) == (b * x) * y
  {
  }

  lemma PowZero(b: nat)
    ensures Pow(b, 0) == 1
  {
  }

  lemma PowStep(b: nat, n: nat)
    requires n > 0
    ensures Pow(b, n) == b * Pow(b, n - 1)
  {
  }

  lemma Swap(a: nat, b: nat, x: nat, y: nat)
    ensures (a * b) * (x * y) == (a * x) * (b * y)
  {
    assert b * (x * y) == x * (b * y);
  }

  lemma {:induction false} PowMultiplies(a: nat, b: nat, n: nat)
    ensures Pow(a * b, n) == Pow(a, n) * Pow(b, n)
  {
    if n > 0 {
      PowStep(a * b, n);
      PowStep(a, n);
      PowStep(b, n);
      hide Pow;
      PowMultiplies(a, b, n - 1);
      Swap(a, b, Pow(a, n - 1), Pow(b, n - 1));
    }
  }

  lemma {:induction false} PowGrows(b: nat, m: nat, n: nat)
    requires b > 0 && m <= n
    ensures Pow(b, m) <= Pow(b, n)
  {
    if m < n {
      PowGrows(b, m, n - 1);
      assert Pow(b, n - 1) <= b * Pow(b, n - 1) by {
        var x := Pow(b, n - 1);
        assert b * x - x == (b - 1) * x;
      }
    }
  }

  lemma Times(b: nat, m: nat, n: nat, x: nat, y: nat)
    requires Pow(b, m) == x && Pow(b, n) == y
    ensures Pow(b, m + n) == x * y
  {
    PowAdd(b, m, n);
  }

  lemma SmallPowers()
    ensures Pow(2, 64) == 0x1_0000_0000_0000_0000 && Pow(2, 46) == 0x4000_0000_0000
    ensures Pow(5, 64) == 542101086242752217003726400434970855712890625
    ensures Pow(5, 4) == 625
  {
    assert Pow(2, 8) == 0x100 && Pow(5, 8) == 390625;
    Times(2, 8, 8, 0x100, 0x100);
    Times(2, 16, 16, 0x1_0000, 0x1_0000);
    Times(2, 32, 32, 0x1_0000_0000, 0x1_0000_0000);
    assert Pow(2, 6) == 0x40;
    Times(2, 6, 8, 0x40, 0x100);
    Times(2, 14, 32, 0x4000, 0x1_0000_0000);
    Times(5, 8, 8, 390625, 390625);
    Times(5, 16, 16, 152587890625, 152587890625);
    Times(5, 32, 32, 23283064365386962890625, 23283064365386962890625);
  }

  /** Twice the decimal `10^-309`, in units of the smallest binary64 step and rounded down: an odd number. */
  const EDGE: nat := 404804506614621

  /** The grids of `2^-1074` and `10^-324` as integers: the first is between twice and ten times the second. */
  lemma GridsCompared()
    ensures 2 * Pow(2, 750) < Pow(5, 324) < 10 * Pow(2, 750)
    ensures 2 * (1_000_000_000_000_000 - 1) * Pow(2, 750) < EDGE * Pow(5, 324) < 2 * 1_000_000_000_000_000 * Pow(2, 750)
  {
    SmallPowers();
    hide Pow;
    var t, f := 0x1_0000_0000_0000_0000, 542101086242752217003726400434970855712890625;
    Times(2, 64, 64, t, t);
    Times(2, 128, 128, t * t, t * t);
    Times(2, 256, 256, t * t * (t * t), t * t * (t * t));
    Times(2, 512, 128, t * t * (t * t) * (t * t * (t * t)), t * t);
    Times(2, 640, 64, t * t * (t * t) * (t * t * (t * t)) * (t * t), t);
    Times(2, 704, 46, t * t * (t * t) * (t * t * (t * t)) * (t * t) * t, 0x4000_0000_0000);
    Times(5, 64, 64, f, f);
    Times(5, 128, 128, f * f, f * f);
    Times(5, 256, 64, f * f * (f * f), f);
    Times(5, 320, 4, f * f * (f * f) * f, 625);
  }

  // ----- powers of ten as reals -----

  function Ten(k: int): (r: real)
    ensures r > 0.0
  {
    if k >= 0 then Pow(10, k) as real else 1.0 / Pow(10, -k) as real
  }

  lemma TenStep(k: int)
    ensures Ten(k + 1) == 10.0 * Ten(k)
  {
    if k < 0 {
      var x := Pow(10, -k - 1) as real;
      assert Pow(10, -k) as real == 10.0 * x;
      assert 1.0 / x == 10.0 * (1.0 / (10.0 * x));
    }
  }

  lemma TenTimes(x: nat, t: real)
    ensures 10.0 * (x as real * t) == (10 * x) as real * t
  {
    var r := x as real;
    assert (10 * x) as real == 10.0 * r;
    assert 10.0 * (r * t) == (10.0 * r) * t;
  }

  lemma Reciprocals(m: int, n: nat)
    requires m > 0
    ensures Pow(10, m) > 0 && Ten(-m) == 1.0 / Pow(10, m) as real
    ensures n == 1074 ==> Pow(2, n) > 0 && Step() == 1.0 / Pow(2, n) as real
  {
  }

  lemma {:induction false} TenAdd(k: int, n: nat)
    ensures Ten(k + n) == Pow(10, n) as real * Ten(k)
  {
    hide Pow, Ten;
    var t := Ten(k);
    if n == 0 {
      PowZero(10);
      assert 1.0 * t == t;
    } else {
      PowStep(10, n);
      TenAdd(k, n - 1);
      TenStep(k + n - 1);
      TenTimes(Pow(10, n - 1), t);
      assert Ten(k + n) == 10.0 * Ten(k + (n - 1));
    }
  }

  lemma {:induction false} TenGrows(k: int, n: nat)
    ensures Ten(k) <= Ten(k + n)
  {
    if n > 0 {
      TenGrows(k, n - 1);
      TenStep(k + n - 1);
    }
  }

  /** The step between the smallest binary64 numbers, `2^-1074`. */
  ghost function Step(): (r: real)
    ensures r > 0.0
  {
    1.0 / Pow(2, 1074) as real
  }

  lemma Ratios(a: nat, b: nat, x: nat, y: nat)
    requires x > 0 && y > 0
    ensures a * x < b * y ==> a as real * (1.0 / y as real) < b as real * (1.0 / x as real)
    ensures a * x > b * y ==> a as real * (1.0 / y as real) > b as real * (1.0 / x as real)
  {
    var p, q := 1.0 / x as real, 1.0 / y as real;
    var ra, rb, rx, ry := a as real, b as real, x as real, y as real;
    assert rx * p == 1.0 && ry * q == 1.0 && p * q > 0.0;
    assert (ra * rx) * (p * q) == ra * q * (rx * p);
    assert (rb * ry) * (p * q) == rb * p * (ry * q);
    assert (a * x) as real == ra * rx && (b * y) as real == rb * ry;
    if a * x < b * y {
      assert (ra * rx) * (p * q) < (rb * ry) * (p * q);
    }
    if a * x > b * y {
      assert (ra * rx) * (p * q) > (rb * ry) * (p * q);
    }
  }

  /** Comparing multiples of `10^-324` and of `2^-1074` is comparing integers. */
  lemma Compared(a: nat, b: nat)
    ensures a * Pow(2, 750) < b * Pow(5, 324) ==> a as real * Ten(-324) < b as real * Step()
    ensures a * Pow(2, 750) > b * Pow(5, 324) ==> a as real * Ten(-324) > b as real * Step()
  {
    hide Pow, Ten, Step;
    Reciprocals(324, 1074);
    var p, q, r := Pow(2, 750), Pow(2, 324), Pow(5, 324);
    assert Pow(2, 1074) == p * q by {
      PowAdd(2, 750, 324);
    }
    assert Pow(10, 324) == q * r by {
      PowMultiplies(2, 5, 324);
    }
    Ratios(a, b, p * q, q * r);
    Scale(a * p, b * r, q);
    Grouped(a, b, p, q, r);
  }

  lemma Scale(x: nat, y: nat, q: nat)
    requires q > 0
    ensures x < y ==> x * q < y * q
    ensures x > y ==> x * q > y * q
  {
  }

  lemma Grouped(a: nat, b: nat, p: nat, q: nat, r: nat)
    ensures a * (p * q) == (a * p) * q && b * (q * r) == (b * r) * q
  {
  }

  lemma Grids()
    ensures 2.0 * Ten(-324) < Step() < 10.0 * Ten(-324)
    ensures 2.0 * (1_000_000_000_000_000.0 - 1.0) * Ten(-324) < EDGE as real * Step()
            < 2.0 * 1_000_000_000_000_000.0 * Ten(-324)
  {
    GridsCompared();
    hide Pow, Ten, Step;
    Compared(2, 1);
    Compared(10, 1);
    Compared(2 * (1_000_000_000_000_000 - 1), EDGE);
    Compared(2 * 1_000_000_000_000_000, EDGE);
  }
}
