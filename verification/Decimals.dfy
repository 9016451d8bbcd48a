/** Non-negative decimal amounts of money, with the default decimal context: 28 digits, rounding half to even. */
module Decimals {

  const PRECISION: nat := 28

  // coeff * 10^exp
  datatype Decimal = Decimal(coeff: nat, exp: int)

  const ZERO := Decimal(0, 0)

  function Pow10(n: nat): (p: nat)
    ensures p > 0
  {
    if n == 0 then 1 else 10 * Pow10(n - 1)
  }

  /** How many units of 10^e the amount is, for any exponent `e` not above its own: exact, never rounded. */
  function Units(d: Decimal, e: int): nat
    requires e <= d.exp
  {
    d.coeff * Pow10(d.exp - e)
  }

  function Min(a: int, b: int): int { if a <= b then a else b }

  /** Comparison of two amounts is exact: it never rounds. */
  predicate Exceeds(a: Decimal, b: Decimal)
  {
    var e := Min(a.exp, b.exp);
    Units(a, e) > Units(b, e)
  }

  function Digits(n: nat): (d: nat)
    ensures d > 0
  {
    if n < 10 then 1 else 1 + Digits(n / 10)
  }

  function HalfEven(n: nat, unit: nat): nat
    requires unit > 0
  {
    var q, r := n / unit, n % unit;
    if 2 * r > unit || (2 * r == unit && q % 2 == 1) then q + 1 else q
  }

  /** A coefficient of more than 28 digits is rounded to 28, half to even. */
  function Rounded(n: nat, e: int): Decimal
  {
    if Digits(n) <= PRECISION then Decimal(n, e)
    else
      var drop := Digits(n) - PRECISION;
      var q := HalfEven(n, Pow10(drop));
      if q == Pow10(PRECISION) then Decimal(Pow10(PRECISION - 1), e + drop + 1)
      else Decimal(q, e + drop)
  }

  function Plus(a: Decimal, b: Decimal): Decimal
  {
    var e := Min(a.exp, b.exp);
    Rounded(Units(a, e) + Units(b, e), e)
  }

  // ---------------------------------------------------------------- powers of ten

  lemma {:induction false} Pow10Add(m: nat, n: nat)
    ensures Pow10(m + n) == Pow10(m) * Pow10(n)
  {
    if m > 0 {
      Pow10Add(m - 1, n);
      calc {
        Pow10(m + n);
        10 * Pow10(m - 1 + n);
        10 * (Pow10(m - 1) * Pow10(n));
        (10 * Pow10(m - 1)) * Pow10(n);
      }
    }
  }

  lemma Associative(a: int, b: int, c: int)
    ensures a * (b * c) == (a * b) * c
  {}

  lemma Monotone(a: int, b: int, c: int)
    requires c > 0
    ensures a > b <==> a * c > b * c
  {}

  /** Counting in a smaller unit multiplies the count. */
  lemma UnitsRescale(d: Decimal, e: int, e': int)
    requires e' <= e <= d.exp
    ensures Units(d, e') == Units(d, e) * Pow10(e - e')
  {
    Pow10Add(d.exp - e, e - e');
    Associative(d.coeff, Pow10(d.exp - e), Pow10(e - e'));
  }

  /** The comparison does not depend on the unit it is made in. */
  lemma ExceedsInUnits(a: Decimal, b: Decimal, e: int)
    requires e <= a.exp && e <= b.exp
    ensures Exceeds(a, b) <==> Units(a, e) > Units(b, e)
  {
    var m := Min(a.exp, b.exp);
    UnitsRescale(a, m, e);
    UnitsRescale(b, m, e);
    Monotone(Units(a, m), Units(b, m), Pow10(m - e));
  }

  // ---------------------------------------------------------------- rounding error

  lemma {:induction false} DigitsBounds(n: nat)
    ensures n < Pow10(Digits(n))
    ensures n > 0 ==> Pow10(Digits(n) - 1) <= n
  {
    if n >= 10 {
      DigitsBounds(n / 10);
      assert Digits(n) == 1 + Digits(n / 10);
      assert Pow10(Digits(n)) == 10 * Pow10(Digits(n / 10));
      assert Pow10(Digits(n) - 1) == 10 * Pow10(Digits(n / 10) - 1);
    }
  }

  function Distance(a: int, b: int): nat { if a <= b then b - a else a - b }

  /** The chosen multiple of the unit is a nearest one; when another is just as near, the chosen one is even. */
  lemma HalfEvenIsNearest(n: nat, unit: nat, k: nat)
    requires unit > 0
    ensures var q := HalfEven(n, unit);
            && Distance(n, q * unit) <= Distance(n, k * unit)
            && (k != q && Distance(n, q * unit) == Distance(n, k * unit) ==> q % 2 == 0)
  {
    var f, r := n / unit, n % unit;
    assert n == f * unit + r;
    assert (f + 1) * unit == f * unit + unit;
    if k < f {
      AtLeastUnits(f, k + 1, unit);
      assert (k + 1) * unit == k * unit + unit;
    } else if k > f + 1 {
      AtLeastUnits(k, f + 2, unit);
      assert (f + 2) * unit == f * unit + 2 * unit;
    }
  }

  lemma HalfEvenError(n: nat, unit: nat)
    requires unit > 0
    ensures 2 * (HalfEven(n, unit) * unit) <= 2 * n + unit
    ensures 2 * n <= 2 * (HalfEven(n, unit) * unit) + unit
  {
    var q, r := n / unit, n % unit;
    assert n == q * unit + r;
    assert (q + 1) * unit == q * unit + unit;
  }

  /** A coefficient of d+1 digits or more, divided by 10^drop, still rounds to at least 10^27. */
  lemma HalfEvenKeepsDigits(n: nat)
    requires Digits(n) > PRECISION
    ensures HalfEven(n, Pow10(Digits(n) - PRECISION)) >= Pow10(PRECISION - 1)
  {
    var drop := Digits(n) - PRECISION;
    var unit := Pow10(drop);
    DigitsBounds(n);
    Pow10Add(PRECISION - 1, drop);
    QuotientAtLeast(n, unit, Pow10(PRECISION - 1));
  }

  lemma QuotientAtLeast(n: nat, unit: nat, k: nat)
    requires unit > 0 && n >= k * unit
    ensures n / unit >= k
  {
    var q, r := n / unit, n % unit;
    assert n == q * unit + r;
    assert (q + 1) * unit == q * unit + unit;
    if k > q + 1 { Monotone(k, q + 1, unit); }
  }

  lemma AtLeastUnits(q: nat, h: nat, unit: nat)
    requires q >= h && unit > 0
    ensures q * unit >= h * unit
  {
    if q > h { Monotone(q, h, unit); }
  }

  lemma HalfUnitError(n: nat, r: nat, unit: nat, h: nat)
    requires 2 * Distance(n, r) <= unit
    requires h * unit <= r
    ensures 2 * h * Distance(n, r) <= r
  {
    assert h * (2 * Distance(n, r)) <= h * unit;
  }

  lemma RoundedUnits(n: nat, e: int)
    requires Digits(n) > PRECISION
    ensures Rounded(n, e).exp >= e
    ensures Units(Rounded(n, e), e) == HalfEven(n, Pow10(Digits(n) - PRECISION)) * Pow10(Digits(n) - PRECISION)
  {
    hide Pow10, HalfEven, Digits;
    CarriedUnits(Digits(n) - PRECISION);
  }

  /** Rounding up to the next power of ten moves the exponent and keeps the amount. */
  lemma CarriedUnits(drop: nat)
    ensures Pow10(PRECISION - 1) * Pow10(drop + 1) == Pow10(PRECISION) * Pow10(drop)
  {
    hide Pow10;
    Pow10Next(drop);
    Pow10Next(PRECISION - 1);
    Associative(Pow10(PRECISION - 1), 10, Pow10(drop));
  }

  lemma Pow10Next(n: nat)
    ensures Pow10(n + 1) == 10 * Pow10(n)
  {}

  /** Rounding to 28 digits moves an amount, either way, by at most one part in 2 * 10^27 of the result. */
  lemma RoundedError(n: nat, e: int)
    ensures Rounded(n, e).exp >= e
    ensures 2 * Pow10(PRECISION - 1) * Distance(n, Units(Rounded(n, e), e)) <= Units(Rounded(n, e), e)
  {
    hide Pow10, Digits, HalfEven, Rounded, Units;
    var h := Pow10(PRECISION - 1);
    if Digits(n) <= PRECISION {
      ShortStays(n, e);
      OwnUnits(n, e, e);
      Pow10Zero();
    } else {
      var unit := Pow10(Digits(n) - PRECISION);
      HalfEvenError(n, unit);
      HalfEvenKeepsDigits(n);
      RoundedUnits(n, e);
      AtLeastUnits(HalfEven(n, unit), h, unit);
      HalfUnitError(n, Units(Rounded(n, e), e), unit, h);
    }
  }

  lemma Pow10Zero()
    ensures Pow10(0) == 1
  {}

  // ---------------------------------------------------------------- what an addition gives

  lemma Pow10Monotone(m: nat, n: nat)
    requires m <= n
    ensures Pow10(m) <= Pow10(n)
  {
    Pow10Add(m, n - m);
    AtLeastUnits(Pow10(n - m), 1, Pow10(m));
  }

  lemma FewDigits(n: nat, d: nat)
    requires d > 0
    ensures Digits(n) <= d <==> n < Pow10(d)
  {
    hide Pow10, Digits;
    DigitsBounds(n);
    if Digits(n) <= d {
      Pow10Monotone(Digits(n), d);
    } else {
      Pow10Monotone(d, Digits(n) - 1);
      Zeroth(n);
    }
  }

  lemma Zeroth(n: nat)
    ensures Digits(n) > 1 ==> n > 0
  {}

  /** The sum of two amounts, in any unit both are multiples of. */
  function Sum(a: Decimal, b: Decimal, e: int): nat
    requires e <= a.exp && e <= b.exp
  {
    Units(a, e) + Units(b, e)
  }

  /** An amount the context can hold without rounding. */
  predicate Fits(d: Decimal) { d.coeff < Pow10(PRECISION) }

  /** Addition is exact while the sum, in the smaller of the two units, has at most 28 digits. */
  lemma PlusIsExact(a: Decimal, b: Decimal)
    ensures var e := Min(a.exp, b.exp);
            Sum(a, b, e) < Pow10(PRECISION) ==> Plus(a, b) == Decimal(Sum(a, b, e), e)
  {
    hide Pow10, Digits, Units;
    var e := Min(a.exp, b.exp);
    FewDigits(Sum(a, b, e), PRECISION);
  }

  lemma ScaledDistance(n: nat, a: nat, p: nat)
    ensures Distance(n * p, a * p) == Distance(n, a) * p
  {
    if a <= n {
      assert (n - a) * p == n * p - a * p;
      if a < n && p > 0 { Monotone(n, a, p); }
    } else {
      assert (a - n) * p == a * p - n * p;
      if p > 0 { Monotone(a, n, p); }
    }
  }

  lemma ScaledNearest(n: nat, q: nat, k: nat, p: nat)
    requires Distance(n, q) <= Distance(n, k)
    ensures Distance(n * p, q * p) <= Distance(n * p, k * p)
    ensures p > 0 && Distance(n, q) < Distance(n, k) ==> Distance(n * p, q * p) < Distance(n * p, k * p)
  {
    ScaledDistance(n, q, p);
    ScaledDistance(n, k, p);
    if p > 0 && Distance(n, q) < Distance(n, k) { Monotone(Distance(n, k), Distance(n, q), p); }
    if p > 0 { AtLeastUnits(Distance(n, k), Distance(n, q), p); }
  }

  /** Rounding carries into the next power of ten only to an even coefficient. */
  lemma RoundedIsEven(n: nat, e: int)
    requires Digits(n) > PRECISION && HalfEven(n, Pow10(Digits(n) - PRECISION)) % 2 == 0
    ensures Rounded(n, e).coeff % 2 == 0
  {
    hide Pow10, HalfEven, Digits;
    EvenPower(PRECISION - 1);
  }

  lemma EvenPower(n: nat)
    requires n > 0
    ensures Pow10(n) % 2 == 0
  {
    hide Pow10;
    Pow10Next(n - 1);
    TenTimes(Pow10(n - 1));
  }

  lemma TenTimes(n: nat)
    ensures 10 * n % 2 == 0
  {}

  /** A multiple of the unit that a long coefficient is rounded to is no nearer than the rounded coefficient. */
  lemma NoMultipleIsNearer(n: nat, e: int, k: nat)
    requires Digits(n) > PRECISION
    ensures var unit, r := Pow10(Digits(n) - PRECISION), Rounded(n, e);
            && r.exp >= e
            && Distance(n, Units(r, e)) <= Distance(n, k * unit)
            && (k * unit != Units(r, e) && Distance(n, Units(r, e)) == Distance(n, k * unit) ==> r.coeff % 2 == 0)
  {
    hide Pow10, Digits, Units, Rounded, HalfEven;
    var unit := Pow10(Digits(n) - PRECISION);
    RoundedUnits(n, e);
    HalfEvenIsNearest(n, unit, k);
    if HalfEven(n, unit) % 2 == 0 { RoundedIsEven(n, e); }
  }

  /** Amounts with a smaller exponent than that unit and 28 digits lie below every number that is rounded to it. */
  lemma FinerIsBelow(n: nat, e: int, c: Decimal, u: int)
    requires Digits(n) > PRECISION && Fits(c)
    requires u <= e && u <= c.exp < e + Digits(n) - PRECISION
    ensures Units(c, u) < Pow10(PRECISION - 1) * Pow10(Digits(n) - PRECISION) * Pow10(e - u)
    ensures Pow10(PRECISION - 1) * Pow10(Digits(n) - PRECISION) <= n
  {
    hide Pow10, Digits;
    var drop := Digits(n) - PRECISION;
    DigitsBounds(n);
    Zeroth(n);
    Pow10Add(PRECISION - 1, drop);
    Pow10Add(PRECISION - 1 + drop, e - u);
    Pow10Monotone(PRECISION + (c.exp - u), PRECISION - 1 + drop + (e - u));
    Pow10Add(PRECISION, c.exp - u);
    Monotone(Pow10(PRECISION), c.coeff, Pow10(c.exp - u));
  }

  /**
   * The rounded amount is a nearest one among all amounts of 28 digits, whatever their exponents, and even on a tie.
   */
  lemma RoundedIsNearest(n: nat, e: int, c: Decimal, u: int)
    requires u <= e && u <= c.exp && Fits(c)
    ensures Rounded(n, e).exp >= e
    ensures var r, exact := Units(Rounded(n, e), u), Units(Decimal(n, e), u);
            && Distance(exact, r) <= Distance(exact, Units(c, u))
            && (r != Units(c, u) && Distance(exact, r) == Distance(exact, Units(c, u)) ==> Rounded(n, e).coeff % 2 == 0)
  {
    hide Pow10, Digits, HalfEven, Units, Rounded;
    if Digits(n) <= PRECISION {
      ShortStays(n, e);
    } else {
      var p, unit, r := Pow10(e - u), Pow10(Digits(n) - PRECISION), Rounded(n, e);
      var top := e + (Digits(n) - PRECISION);
      NoMultipleIsNearer(n, e, 0);
      UnitsRescale(r, e, u);
      assert Units(Decimal(n, e), u) == n * p by { OwnUnits(n, e, u); }
      if c.exp >= top {
        var k := Units(c, top);
        NoMultipleIsNearer(n, e, k);
        UnitsInSteps(c, top, e, u);
        ScaledNearest(n, Units(r, e), k * unit, p);
      } else {
        var k := Pow10(PRECISION - 1);
        FinerIsBelow(n, e, c, u);
        NoMultipleIsNearer(n, e, k);
        ScaledNearest(n, Units(r, e), k * unit, p);
        AtLeastUnits(n, k * unit, p);
      }
    }
  }

  lemma ShortStays(n: nat, e: int)
    requires Digits(n) <= PRECISION
    ensures Rounded(n, e) == Decimal(n, e)
  {}

  lemma OwnUnits(n: nat, e: int, u: int)
    requires u <= e
    ensures Units(Decimal(n, e), u) == n * Pow10(e - u)
  {}

  lemma UnitsInSteps(c: Decimal, top: int, e: int, u: int)
    requires u <= e <= top <= c.exp
    ensures Units(c, u) == Units(c, top) * Pow10(top - e) * Pow10(e - u)
  {
    hide Pow10, Units;
    UnitsRescale(c, top, e);
    UnitsRescale(c, e, u);
  }

  lemma RoundedFits(n: nat, e: int)
    ensures Fits(Rounded(n, e))
  {
    hide Digits, HalfEven;
    FewDigits(n, PRECISION);
    if Digits(n) > PRECISION {
      QuotientFits(n);
      Pow10Next(PRECISION - 1);
    }
  }

  lemma QuotientFits(n: nat)
    requires Digits(n) > PRECISION
    ensures HalfEven(n, Pow10(Digits(n) - PRECISION)) <= Pow10(PRECISION)
  {
    hide Pow10, Digits;
    var unit := Pow10(Digits(n) - PRECISION);
    DigitsBounds(n);
    Pow10Add(PRECISION, Digits(n) - PRECISION);
    var q := n / unit;
    assert n == q * unit + n % unit;
    if q >= Pow10(PRECISION) { AtLeastUnits(q, Pow10(PRECISION), unit); }
  }

  /**
   * The sum as the counters hold it: an amount of at most 28 digits that no amount of at most 28 digits, in whatever
   * unit, is nearer to the exact sum than, and with an even coefficient where another is as near.
   */
  lemma PlusIsNearest(a: Decimal, b: Decimal, c: Decimal, e: int)
    requires e <= a.exp && e <= b.exp && e <= c.exp && Fits(c)
    ensures e <= Plus(a, b).exp && Fits(Plus(a, b))
    ensures var exact, r := Sum(a, b, e), Units(Plus(a, b), e);
            && Distance(exact, r) <= Distance(exact, Units(c, e))
            && (r != Units(c, e) && Distance(exact, r) == Distance(exact, Units(c, e)) ==> Plus(a, b).coeff % 2 == 0)
  {
    hide Pow10, Rounded, Fits, Units;
    var m := Min(a.exp, b.exp);
    var s := Sum(a, b, m);
    RoundedFits(s, m);
    RoundedIsNearest(s, m, c, e);
    SumRescale(a, b, m, e);
    OwnUnits(s, m, e);
  }

  lemma SumRescale(a: Decimal, b: Decimal, m: int, e: int)
    requires e <= m <= a.exp && m <= b.exp
    ensures Sum(a, b, e) == Sum(a, b, m) * Pow10(m - e)
  {
    hide Pow10, Units;
    UnitsRescale(a, m, e);
    UnitsRescale(b, m, e);
    assert (Units(a, m) + Units(b, m)) * Pow10(m - e) == Units(a, m) * Pow10(m - e) + Units(b, m) * Pow10(m - e);
  }
}
