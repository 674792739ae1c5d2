/**
  Why dividing with a rounded sixteenth place and then truncating still gives an exact floor.

  `Div` rounds half away from zero at sixteen places; the market builder truncates the quotient
  to a handful of places afterwards. Rounding up could carry the quotient over a truncation
  boundary. The lemmas here show when it cannot, and where it first does.
 */
module Division {
  import opened Decimals

  /** The quotient `Div` computes for positive operands, in units of the sixteenth place. */
  function RoundedQuotient(n: int, p: int): int
    requires p > 0
  {
    if 2 * (n % p) < p then n / p else n / p + 1
  }

  lemma DivForm(a: Decimal, b: Decimal)
    requires a.coef > 0 && b.coef > 0
    requires a.exp - b.exp + DIVISION_PRECISION >= 0
    ensures var n := a.coef * Pow10(a.exp - b.exp + DIVISION_PRECISION);
            Div(a, b) == Decimal(RoundedQuotient(n, b.coef), -DIVISION_PRECISION)
  {
    var n := a.coef * Pow10(a.exp - b.exp + DIVISION_PRECISION);
    assert n >= 0;
    assert n - (n / b.coef) * b.coef == n % b.coef;
    var (q, r) := QuoRem(a, b, DIVISION_PRECISION);
    assert q == Decimal(n / b.coef, -DIVISION_PRECISION);
    assert r == Decimal(n % b.coef, b.exp - DIVISION_PRECISION);
    assert Pow10(0) == 1;
  }

  /**
    Rounding a quotient up cannot carry it across a multiple of m when n and m share a divisor g
    larger than half of p: the distance to the boundary would have to be both a multiple of g and
    at most half of p.
   */
  lemma RoundingStaysBelowBoundary(n: int, p: int, m: int, g: int)
    requires n > 0 && p > 0 && m > 0 && g > 0
    requires n % g == 0 && m % g == 0 && 2 * g > p
    ensures RoundedQuotient(n, p) / m == (n / p) / m
  {
    var q, r := n / p, n % p;
    if 2 * r >= p && (q + 1) / m != q / m {
      CarryMeansMultiple(q, m);
      DivModIs(n, p);
      DivModIs(n, g);
      DivModIs(m, g);
      assert (q + 1) * p - n == p - r;
      NoSmallGap(n / g, m / g, (q + 1) / m, g, p, p - r);
    }
  }

  /** Pointwise: the rounding shows after truncation exactly if it rounds up onto a multiple of m. */
  lemma RoundingShowsIff(n: int, p: int, m: int)
    requires n >= 0 && p > 0 && m > 0
    ensures RoundedQuotient(n, p) / m != (n / p) / m <==> 2 * (n % p) >= p && (n / p + 1) % m == 0
  {
    var q := n / p;
    if (q + 1) / m != q / m {
      CarryMeansMultiple(q, m);
      MultipleMod((q + 1) / m, m);
    } else if (q + 1) % m == 0 {
      MultipleMeansCarry(q, m);
    }
  }

  lemma MultipleMeansCarry(q: int, m: int)
    requires m > 0 && q >= 0 && (q + 1) % m == 0
    ensures (q + 1) / m != q / m
  {
    DivModIs(q + 1, m);
    var k := (q + 1) / m;
    assert q == (k - 1) * m + (m - 1);
    DivIs(q, m, k - 1);
  }

  lemma DivModIs(a: int, b: int)
    requires b > 0
    ensures a == (a / b) * b + a % b
  {
  }

  lemma NoSmallGap(i: int, j: int, k: int, g: int, p: int, gap: int)
    requires g > 0
    requires gap == (k * (j * g)) * p - i * g
    ensures !(0 < gap < g)
  {
    Factor(i, j, k, g, p);
    var w := (k * j) * p - i;
    ScaleOrder(0, w, g);
    ScaleOrder(w, 1, g);
  }

  lemma Factor(i: int, j: int, k: int, g: int, p: int)
    ensures (k * (j * g)) * p - i * g == ((k * j) * p - i) * g
  {
    Assoc(k, j, g);
    Assoc(k * j, g, p);
    Assoc(k * j, p, g);
  }

  lemma CarryMeansMultiple(q: int, m: int)
    requires m > 0 && q >= 0 && (q + 1) / m != q / m
    ensures q + 1 == ((q + 1) / m) * m
  {
    var k := q / m;
    assert k * m <= q < (k + 1) * m;
    if q + 1 < (k + 1) * m {
      DivIs(q + 1, m, k);
    } else {
      DivIs(q + 1, m, k + 1);
    }
  }

  lemma PowDivides(a: nat, b: nat)
    requires a <= b
    ensures Pow10(b) % Pow10(a) == 0
  {
    Pow10Add(b - a, a);
    MultipleMod(Pow10(b - a), Pow10(a));
  }

  lemma MultipleMod(k: int, g: int)
    requires g > 0
    ensures (k * g) % g == 0
  {
    DivCancel(k, g);
  }

  /** floor(a / b) counted in units of 10^-s, from the coefficients alone. */
  function FloorQuotient(a: Decimal, b: Decimal, s: int): int
    requires b.coef > 0 && s <= DIVISION_PRECISION
    requires a.exp - b.exp + DIVISION_PRECISION >= 0
  {
    (a.coef * Pow10(a.exp - b.exp + DIVISION_PRECISION) / b.coef) / Pow10(DIVISION_PRECISION - s)
  }

  /**
    Dividing and truncating to s places is the exact floor as soon as the coefficient of the
    divisor is below 10^g for some g not above both 16 - s and the power of ten in the numerator.
   */
  lemma TruncatedQuotient(a: Decimal, b: Decimal, s: int, g: nat)
    requires a.coef > 0 && b.coef > 0
    requires 0 <= s <= DIVISION_PRECISION
    requires g <= a.exp - b.exp + DIVISION_PRECISION && g <= DIVISION_PRECISION - s
    requires b.coef < Pow10(g)
    ensures Truncate(Div(a, b), s) == Decimal(FloorQuotient(a, b, s), -s)
  {
    hide Pow10, Div, Truncate, RoundedQuotient;
    var e := a.exp - b.exp + DIVISION_PRECISION;
    var n := a.coef * Pow10(e);
    var q := RoundedQuotient(n, b.coef);
    DivForm(a, b);
    ProductPositive(a.coef, Pow10(e));
    ScaledMultiple(a.coef, e, g);
    PowDivides(g, DIVISION_PRECISION - s);
    RoundingStaysBelowBoundary(n, b.coef, Pow10(DIVISION_PRECISION - s), Pow10(g));
    RoundedNonNegative(n, b.coef);
    TruncateSixteen(q, s);
  }

  lemma ProductPositive(a: int, b: int)
    requires a > 0 && b > 0
    ensures a * b > 0
  {
  }

  lemma ScaledMultiple(c: int, e: nat, g: nat)
    requires g <= e
    ensures (c * Pow10(e)) % Pow10(g) == 0
  {
    Pow10Add(e - g, g);
    hide Pow10;
    Assoc(c, Pow10(e - g), Pow10(g));
    MultipleMod(c * Pow10(e - g), Pow10(g));
  }

  lemma RoundedNonNegative(n: int, p: int)
    requires n >= 0 && p > 0
    ensures RoundedQuotient(n, p) >= 0
  {
  }

  lemma TruncateSixteen(q: int, s: int)
    requires q >= 0 && 0 <= s <= DIVISION_PRECISION
    ensures Truncate(Decimal(q, -DIVISION_PRECISION), s) == Decimal(q / Pow10(DIVISION_PRECISION - s), -s)
  {
    if s < DIVISION_PRECISION {
      TruncateCoef(Decimal(q, -DIVISION_PRECISION), s);
    }
  }
}
