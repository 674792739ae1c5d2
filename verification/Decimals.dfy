/**
  Arbitrary-precision decimals as the order builder uses them: an integer coefficient and a
  power-of-ten exponent. `DecimalPlaces` looks at the exponent and not at the value, so 1 and
  1.00 are different decimals here, as they are there.

  What a decimal is worth is read off with `Units(d, s)`, the whole number of 10^-s it amounts
  to, at any scale s fine enough to hold it. Every operation is characterised by it.
 */
module Decimals {
  import opened Numbers

  datatype Decimal = Decimal(coef: int, exp: int)

  /** Places kept by `Div` before the half-away rounding. */
  const DIVISION_PRECISION := 16

  const ZERO := Decimal(0, 0)
  const ONE := Decimal(1, 0)

  // ---------------------------------------------------------------- powers of ten

  function Pow10(n: nat): (r: nat)
    ensures r >= 1
  {
    if n == 0 then 1 else 10 * Pow10(n - 1)
  }

  lemma {:induction false} Pow10Add(a: nat, b: nat)
    ensures Pow10(a + b) == Pow10(a) * Pow10(b)
  {
    if a == 0 {
    } else {
      Pow10Add(a - 1, b);
      assert Pow10(a + b) == 10 * Pow10(a - 1 + b);
    }
  }

  lemma PowZero()
    ensures Pow10(0) == 1
  {
  }

  lemma {:induction false} Pow10Mono(a: nat, b: nat)
    requires a <= b
    ensures Pow10(a) <= Pow10(b)
    decreases b
  {
    if a == b {
    } else {
      Pow10Mono(a, b - 1);
    }
  }

  // ---------------------------------------------------------------- the decimal operations

  function Sign(d: Decimal): int {
    if d.coef < 0 then -1 else if d.coef == 0 then 0 else 1
  }

  function Abs(n: int): nat {
    if n < 0 then -n else n
  }

  /** Integer division that truncates toward zero. */
  function Quo(a: int, b: int): int
    requires b != 0
  {
    if (a < 0) != (b < 0) then -(Abs(a) / Abs(b)) else Abs(a) / Abs(b)
  }

  function Rescale(d: Decimal, e: int): Decimal {
    if e > d.exp then Decimal(Quo(d.coef, Pow10(e - d.exp)), e)
    else Decimal(d.coef * Pow10(d.exp - e), e)
  }

  function Truncate(d: Decimal, places: int): Decimal {
    if places >= 0 && -places > d.exp then Rescale(d, -places) else d
  }

  function Add(a: Decimal, b: Decimal): Decimal {
    var e := Min(a.exp, b.exp);
    Decimal(Rescale(a, e).coef + Rescale(b, e).coef, e)
  }

  function Neg(a: Decimal): Decimal {
    Decimal(-a.coef, a.exp)
  }

  function Sub(a: Decimal, b: Decimal): Decimal {
    Add(a, Neg(b))
  }

  function Mul(a: Decimal, b: Decimal): Decimal {
    Decimal(a.coef * b.coef, a.exp + b.exp)
  }

  function Shift(a: Decimal, n: int): Decimal {
    Decimal(a.coef, a.exp + n)
  }

  function LessThan(a: Decimal, b: Decimal): bool {
    var e := Min(a.exp, b.exp);
    Rescale(a, e).coef < Rescale(b, e).coef
  }

  lemma PowNonZero(c: int, n: nat)
    requires c != 0
    ensures c * Pow10(n) != 0
  {
  }

  /** Quotient to `precision` places, with the remainder; both operands brought to integers first. */
  function QuoRem(a: Decimal, b: Decimal, precision: int): (Decimal, Decimal)
    requires b.coef != 0
  {
    var e := a.exp - b.exp + precision;
    var aa := if e < 0 then a.coef else a.coef * Pow10(e);
    var bb := if e < 0 then b.coef * Pow10(-e) else b.coef;
    var restExp := if e < 0 then a.exp else b.exp - precision;
    PowNonZero(b.coef, if e < 0 then -e else 0);
    var q := Quo(aa, bb);
    (Decimal(q, -precision), Decimal(aa - q * bb, restExp))
  }

  /** Division rounded half away from zero at `precision` places. */
  function DivRound(a: Decimal, b: Decimal, precision: int): Decimal
    requires b.coef != 0
  {
    var (q, r) := QuoRem(a, b, precision);
    var twice := Decimal(2 * Abs(r.coef), r.exp + precision);
    if LessThan(twice, Decimal(Abs(b.coef), b.exp)) then q
    else if Sign(a) * Sign(b) < 0 then Sub(q, Decimal(1, -precision))
    else Add(q, Decimal(1, -precision))
  }

  function Div(a: Decimal, b: Decimal): Decimal
    requires b.coef != 0
  {
    DivRound(a, b, DIVISION_PRECISION)
  }

  function DecimalPlaces(d: Decimal): nat {
    if d.exp < 0 then -d.exp else 0
  }

  // ---------------------------------------------------------------- what they are worth

  /** d is a whole number of 10^-s. */
  predicate Fits(d: Decimal, s: int) {
    d.exp + s >= 0
  }

  function Units(d: Decimal, s: int): int
    requires Fits(d, s)
  {
    d.coef * Pow10(d.exp + s)
  }

  lemma UnitsFiner(d: Decimal, s: int, k: nat)
    requires Fits(d, s)
    ensures Units(d, s + k) == Units(d, s) * Pow10(k)
  {
    Pow10Add(d.exp + s, k);
    hide Pow10;
    Assoc(d.coef, Pow10(d.exp + s), Pow10(k));
  }

  lemma Assoc(x: int, y: int, z: int)
    ensures (x * y) * z == x * (y * z)
  {
  }

  lemma ScaleOrder(m: int, n: int, p: int)
    requires p > 0
    ensures m < n <==> m * p < n * p
    ensures m == n <==> m * p == n * p
  {
    if m < n {
      assert (n - m) * p > 0;
    } else if n < m {
      assert (m - n) * p > 0;
    }
  }

  lemma RescaleUnits(d: Decimal, e: int, s: int)
    requires e <= d.exp && e + s >= 0
    ensures Units(Rescale(d, e), s) == Units(d, s)
  {
    Pow10Add(d.exp - e, e + s);
    hide Pow10;
    Assoc(d.coef, Pow10(d.exp - e), Pow10(e + s));
  }

  lemma LessThanUnits(a: Decimal, b: Decimal, s: int)
    requires Fits(a, s) && Fits(b, s)
    ensures LessThan(a, b) <==> Units(a, s) < Units(b, s)
  {
    var e := Min(a.exp, b.exp);
    RescaleUnits(a, e, s);
    RescaleUnits(b, e, s);
    ScaleOrder(Rescale(a, e).coef, Rescale(b, e).coef, Pow10(e + s));
  }

  lemma AddUnits(a: Decimal, b: Decimal, s: int)
    requires Fits(a, s) && Fits(b, s)
    ensures Fits(Add(a, b), s)
    ensures Units(Add(a, b), s) == Units(a, s) + Units(b, s)
  {
    var e := Min(a.exp, b.exp);
    RescaleUnits(a, e, s);
    RescaleUnits(b, e, s);
  }

  lemma SubUnits(a: Decimal, b: Decimal, s: int)
    requires Fits(a, s) && Fits(b, s)
    ensures Fits(Sub(a, b), s)
    ensures Units(Sub(a, b), s) == Units(a, s) - Units(b, s)
  {
    AddUnits(a, Neg(b), s);
  }

  lemma MulUnits(a: Decimal, sa: int, b: Decimal, sb: int)
    requires Fits(a, sa) && Fits(b, sb)
    ensures Units(Mul(a, b), sa + sb) == Units(a, sa) * Units(b, sb)
  {
    Pow10Add(a.exp + sa, b.exp + sb);
    hide Pow10;
    Regroup(a.coef, b.coef, Pow10(a.exp + sa), Pow10(b.exp + sb));
  }

  lemma Regroup(x: int, y: int, p: int, q: int)
    ensures (x * y) * (p * q) == (x * p) * (y * q)
  {
    Assoc(x, y, p * q);
    Assoc(y, p, q);
    Assoc(p, y, q);
    Assoc(x, p, y * q);
  }

  lemma UnitsSign(d: Decimal, s: int)
    requires Fits(d, s)
    ensures d.coef > 0 <==> Units(d, s) > 0
    ensures d.coef == 0 <==> Units(d, s) == 0
  {
    ScaleOrder(0, d.coef, Pow10(d.exp + s));
  }

  /** Multiplying and dividing by the same positive number. */
  lemma DivCancel(n: int, p: int)
    requires p > 0
    ensures (n * p) / p == n
  {
    DivIs(n * p, p, n);
  }

  lemma DivIs(a: int, b: int, q: int)
    requires b > 0 && q * b <= a < (q + 1) * b
    ensures a / b == q
  {
    var n := a / b;
    assert n * b <= a < (n + 1) * b;
    ScaleOrder(q, n + 1, b);
    ScaleOrder(n, q + 1, b);
  }

  /** Truncating a non-negative decimal to `places` places keeps exactly its whole units of that size. */
  lemma TruncateUnits(d: Decimal, places: int, s: int)
    requires d.coef >= 0 && 0 <= places <= s && Fits(d, s)
    ensures Fits(Truncate(d, places), places)
    ensures Units(Truncate(d, places), places) == Units(d, s) / Pow10(s - places)
    ensures Truncate(d, places).coef >= 0
  {
    if -places > d.exp {
      TruncateCoarser(d, places, s);
    } else {
      UnitsFiner(d, places, s - places);
      hide Pow10;
      DivCancel(Units(d, places), Pow10(s - places));
    }
  }

  lemma TruncateCoarser(d: Decimal, places: int, s: int)
    requires d.coef >= 0 && 0 <= places <= s && Fits(d, s) && -places > d.exp
    ensures Truncate(d, places).exp == -places
    ensures Units(Truncate(d, places), places) == Units(d, s) / Pow10(s - places)
    ensures Truncate(d, places).coef >= 0
  {
    hide Pow10;
    var k := -places - d.exp;
    TruncateCoef(d, places);
    UnitsWhole(d.coef / Pow10(k), places);
    Pow10Add(k, d.exp + s);
    DivScaled(d.coef, Pow10(k), Pow10(d.exp + s));
  }

  lemma TruncateCoef(d: Decimal, places: int)
    requires d.coef >= 0 && 0 <= places && -places > d.exp
    ensures Truncate(d, places) == Decimal(d.coef / Pow10(-places - d.exp), -places)
  {
    hide Pow10;
  }

  lemma UnitsWhole(n: int, s: int)
    ensures Units(Decimal(n, -s), s) == n
  {
  }

  /** (a·c)/(b·c) = a/b. */
  lemma DivScaled(a: int, b: int, c: int)
    requires b > 0 && c > 0
    ensures b * c > 0
    ensures (a * c) / (b * c) == a / b
  {
    var q := a / b;
    assert q * b <= a < (q + 1) * b;
    ScaleOrder(a, q * b, c);
    ScaleOrder(a, (q + 1) * b, c);
    Assoc(q, b, c);
    Assoc(q + 1, b, c);
    assert b * c > 0;
    DivIs(a * c, b * c, q);
  }

  lemma QuotientBound(a: int, b: int)
    requires b > 0
    ensures (a / b) * b <= a < (a / b + 1) * b
  {
  }

  lemma SwapFactors(q: int, b: int, c: int)
    ensures (q * c) * b == q * (b * c)
  {
    Assoc(q, c, b);
  }

  /** Dividing twice is dividing by the product. */
  lemma DivTwice(a: int, b: int, c: int)
    requires b > 0 && c > 0
    ensures b * c > 0
    ensures (a / b) / c == a / (b * c)
  {
    ScaleOrder(0, b, c);
    var n := a / b;
    QuotientBound(a, b);
    QuotientBound(n, c);
    NestedFloor(a, b, c, n, n / c);
    DivIs(a, b * c, n / c);
  }

  lemma NestedFloor(a: int, b: int, c: int, n: int, q: int)
    requires b > 0 && n * b <= a < (n + 1) * b && q * c <= n && n + 1 <= (q + 1) * c
    ensures q * (b * c) <= a < (q + 1) * (b * c)
  {
    ScaleOrder(n, q * c, b);
    ScaleOrder((q + 1) * c, n + 1, b);
    SwapFactors(q, b, c);
    SwapFactors(q + 1, b, c);
  }

  /** Truncation changes nothing when the exponent already fits. */
  lemma TruncateExact(d: Decimal, places: int)
    requires DecimalPlaces(d) <= places
    ensures Truncate(d, places) == d
  {
  }
}
