/**
  What the amounts of an accepted order are worth, against the price and quantity asked for.

  t is the number of decimal places of the tick. Amounts in an order are whole base units (10^-6).
 */
module OrderAmounts {
  import opened Wrappers
  import opened Numbers
  import opened Decimals
  import opened Division
  import opened BookWalk
  import opened OrderBuilders
  import opened OrderTerms

  // ---------------------------------------------------------------- base units

  lemma ToFixedUnits(d: Decimal, s: int)
    requires d.coef >= 0 && Fits(d, s) && s >= USDC_DECIMALS
    ensures Fits(ToFixed(d), 0)
    ensures Units(ToFixed(d), 0) == Units(d, s) / Pow10(s - USDC_DECIMALS)
  {
    var cut := Truncate(d, USDC_DECIMALS);
    var moved := Shift(cut, USDC_DECIMALS);
    TruncateUnits(d, USDC_DECIMALS, s);
    assert Units(moved, 0) == Units(cut, USDC_DECIMALS);
    TruncateExact(moved, 0);
  }

  /** Amounts that already have at most six places keep their value. */
  lemma ToFixedExact(d: Decimal)
    requires d.coef >= 0 && DecimalPlaces(d) <= USDC_DECIMALS
    ensures Fits(ToFixed(d), 0)
    ensures Units(ToFixed(d), 0) == Units(d, USDC_DECIMALS)
  {
    ToFixedUnits(d, USDC_DECIMALS);
    PowZero();
  }

  lemma PriceBelowOne(price: Decimal, tick: Decimal, t: nat)
    requires tick.coef > 0 && InBounds(price, tick) && Fits(price, t) && Fits(tick, t)
    ensures 0 < Units(price, t) < Pow10(t)
  {
    LessThanUnits(price, tick, t);
    UnitsSign(tick, t);
    SubUnits(ONE, tick, t);
    LessThanUnits(Sub(ONE, tick), price, t);
    assert Units(ONE, t) == Pow10(t);
  }

  // ---------------------------------------------------------------- share orders

  /** The collateral of a share order: the exact product, rounded down to a base unit. */
  lemma CollateralUnits(price: Decimal, shares: Decimal, t: nat)
    requires price.coef > 0 && shares.coef > 0
    requires DecimalPlaces(price) <= t && DecimalPlaces(shares) <= LOT_SIZE_SCALE
    ensures var c := ToFixed(Truncate(Mul(shares, price), t + LOT_SIZE_SCALE));
            Fits(c, 0) && Units(c, 0) == Units(price, t) * Units(shares, USDC_DECIMALS) / Pow10(t)
  {
    var product := Mul(shares, price);
    assert product.coef >= 0;
    TruncateExact(product, t + LOT_SIZE_SCALE);
    MulUnits(shares, USDC_DECIMALS, price, t);
    ToFixedUnits(product, USDC_DECIMALS + t);
  }

  /** Up to four tick places, a lot's price in base units is a whole number. */
  lemma CollateralIsWhole(price: Decimal, shares: Decimal, t: nat)
    requires t <= 4 && Fits(price, t) && Fits(shares, LOT_SIZE_SCALE)
    ensures (Units(price, t) * Units(shares, USDC_DECIMALS)) % Pow10(t) == 0
  {
    UnitsFiner(shares, LOT_SIZE_SCALE, 4);
    Pow10Add(4 - t, t);
    hide Pow10;
    var p, u := Units(price, t), Units(shares, LOT_SIZE_SCALE);
    Assoc(u, Pow10(4 - t), Pow10(t));
    Assoc(p, u * Pow10(4 - t), Pow10(t));
    MultipleMod(p * (u * Pow10(4 - t)), Pow10(t));
  }

  lemma QuotientBounds(p: int, s: int, m: int)
    requires 0 < p < m && s > 0
    ensures var q := p * s / m;
            && 0 <= q < s
            && q * m <= p * s < (q + 1) * m
            && ((p * s) % m == 0 ==> q > 0 && q * m == p * s)
  {
    var q := p * s / m;
    DivModIs(p * s, m);
    ScaleOrder(p, m, s);
    ScaleOrder(0, p, s);
    assert m * s == s * m;
    assert q * m <= p * s < s * m;
    ScaleOrder(q, s, m);
    ScaleOrder(q, 0, m);
    if q < 0 {
      ScaleOrder(q, -1, m);
    }
  }

  ghost function Collateral(o: Order): Decimal {
    if o.side == Buy then o.makerAmount else o.takerAmount
  }

  ghost function ShareCount(o: Order): Decimal {
    if o.side == Buy then o.takerAmount else o.makerAmount
  }

  /** What any order for a number of shares must satisfy. */
  ghost predicate PricedShares(o: Order, price: Decimal, shares: Decimal, t: nat)
    requires Fits(price, t) && Fits(shares, USDC_DECIMALS)
  {
    && Fits(Collateral(o), 0) && Fits(ShareCount(o), 0)
    && Units(ShareCount(o), 0) == Units(shares, USDC_DECIMALS)
    && 0 <= Units(Collateral(o), 0) < Units(ShareCount(o), 0)
    // the exact floor of price × shares, in base units
    && Units(Collateral(o), 0) * Pow10(t) <= Units(price, t) * Units(ShareCount(o), 0)
    && Units(price, t) * Units(ShareCount(o), 0) < (Units(Collateral(o), 0) + 1) * Pow10(t)
    // and no rounding at all on the exchange's own ticks
    && (t <= 4 ==> 0 < Units(Collateral(o), 0)
                   && Units(Collateral(o), 0) * Pow10(t) == Units(price, t) * Units(ShareCount(o), 0))
  }

  lemma ShareAmountsArePriced(o: Order, price: Decimal, shares: Decimal, tick: Decimal)
    requires tick.coef > 0 && shares.coef > 0 && InBounds(price, tick)
    requires DecimalPlaces(price) <= DecimalPlaces(tick) && DecimalPlaces(shares) <= LOT_SIZE_SCALE
    requires var (m, k) := ShareAmounts(o.side, price, shares, DecimalPlaces(tick));
             o.makerAmount == ToFixed(m) && o.takerAmount == ToFixed(k)
    ensures PricedShares(o, price, shares, DecimalPlaces(tick))
  {
    var t := DecimalPlaces(tick);
    PriceBelowOne(price, tick, t);
    UnitsSign(price, t);
    assert Collateral(o) == ToFixed(Truncate(Mul(shares, price), t + LOT_SIZE_SCALE));
    assert ShareCount(o) == ToFixed(shares);
    assert DecimalPlaces(shares) <= LOT_SIZE_SCALE < USDC_DECIMALS;
    hide Pow10, ToFixed, ShareAmounts, InBounds, Collateral, ShareCount, Units;
    UnitsSign(shares, USDC_DECIMALS);
    CollateralUnits(price, shares, t);
    ToFixedExact(shares);
    QuotientBounds(Units(price, t), Units(shares, USDC_DECIMALS), Pow10(t));
    if t <= 4 {
      CollateralIsWhole(price, shares, t);
    }
  }

  /**
    Limit orders. The collateral is the exact floor of price × size in base units, always below the
    number of shares; with a tick of at most four places nothing is rounded and it is positive.
   */
  lemma LimitOrderIsExact(d: Draft, env: Env)
    requires LimitOrder(d, env).Success? && TickOf(d, env).coef > 0
    ensures DecimalPlaces(d.price) <= DecimalPlaces(TickOf(d, env)) && DecimalPlaces(d.size) <= LOT_SIZE_SCALE
    ensures PricedShares(LimitOrder(d, env).value, d.price, d.size, DecimalPlaces(TickOf(d, env)))
  {
    hide *;
    LimitOrderFacts(d, env);
    ShareAmountsArePriced(LimitOrder(d, env).value, d.price, d.size, TickOf(d, env));
  }

  lemma LimitOrderFacts(d: Draft, env: Env)
    requires LimitOrder(d, env).Success?
    ensures d.price.coef > 0 && d.size.coef > 0 && InBounds(d.price, TickOf(d, env))
    ensures DecimalPlaces(d.price) <= DecimalPlaces(TickOf(d, env)) && DecimalPlaces(d.size) <= LOT_SIZE_SCALE
    ensures var o := LimitOrder(d, env).value;
            var (m, k) := ShareAmounts(o.side, d.price, d.size, DecimalPlaces(TickOf(d, env)));
            o.makerAmount == ToFixed(m) && o.takerAmount == ToFixed(k)
  {
    hide ParseSide, ResolveTickSize, ResolveFeeRateBps, ResolveMaker, TickOf, TickKnown, InBounds, DecimalPlaces, ToFixed, ShareAmounts,
         Text.ParseInteger;
    TickLaw(d, env);
  }

  // ---------------------------------------------------------------- market orders

  /** How the resolved inputs of a market order relate to its terms. */
  lemma MarketResolves(d: Draft, env: Env)
    ensures TickKnown(d, env) ==> ResolveTickSize(d.tickSize, env.market) == Success(TickOf(d, env))
    ensures !TickKnown(d, env) ==> ResolveTickSize(d.tickSize, env.market).Failure?
    ensures ParseSide(d.side) == if SideGiven(d) then Success(SideChosen(d)) else Failure(BadSide)
    ensures d.amount.Some? && SideGiven(d) ==>
              var t := DecimalPlaces(TickOf(d, env));
              var r := ResolvePrice(d, env.market, SideChosen(d), NormalizeOrderType(d.orderType, "FAK"), d.amount.value, t);
              (r.Success? <==> Priced(d, env)) && (r.Success? ==> Truncate(r.value, t) == PriceUsed(d, env))
  {
    hide ParseSide, ResolvePrice, ResolveTickSize, TickOf, TickKnown, Priced, PriceUsed, ReadsAs, DecimalPlaces, NormalizeOrderType,
         Truncate;
    TickLaw(d, env);
    SideLaw(d);
    MarketType(d);
    if d.amount.Some? && SideGiven(d) {
      PriceLaw(d, env, NormalizeOrderType(d.orderType, "FAK"));
    }
  }

  lemma MarketOrderFacts(d: Draft, env: Env)
    requires MarketOrder(d, env).Success?
    ensures d.amount.Some? && d.amount.value.value.coef > 0
    ensures d.amount.value.kind == Usdc ==> MarketOrder(d, env).value.order.side == Buy
    ensures DecimalPlaces(d.amount.value.value) <= if d.amount.value.kind == Shares then LOT_SIZE_SCALE else USDC_DECIMALS
    ensures InBounds(PriceUsed(d, env), TickOf(d, env))
    ensures var o := MarketOrder(d, env).value.order;
            var t := DecimalPlaces(TickOf(d, env));
            var (m, k) := if d.amount.value.kind == Shares || PriceUsed(d, env).coef == 0
                          then ShareAmounts(o.side, PriceUsed(d, env), d.amount.value.value, t)
                          else UsdcAmounts(PriceUsed(d, env), d.amount.value.value, t);
            o.makerAmount == ToFixed(m) && o.takerAmount == ToFixed(k)
  {
    hide ParseSide, ResolveFeeRateBps, ResolvePrice, ResolveTickSize, ResolveMaker, ToFixed, TickOf, TickKnown, FeeKnown, MakerOf, Priced,
         PriceUsed, Acceptable, ReadsAs, InBounds, ShareAmounts, UsdcAmounts, DecimalPlaces, NormalizeOrderType, Truncate, Text.ParseInteger;
    MarketResolves(d, env);
  }

  /** Market orders for shares, on either side, are priced like limit orders. */
  lemma MarketShareOrderIsExact(d: Draft, env: Env)
    requires MarketOrder(d, env).Success? && TickOf(d, env).coef > 0
    requires d.amount.Some? && d.amount.value.kind == Shares
    ensures DecimalPlaces(PriceUsed(d, env)) <= DecimalPlaces(TickOf(d, env))
    ensures DecimalPlaces(d.amount.value.value) <= LOT_SIZE_SCALE
    ensures PricedShares(MarketOrder(d, env).value.order, PriceUsed(d, env), d.amount.value.value, DecimalPlaces(TickOf(d, env)))
  {
    hide *;
    MarketOrderFacts(d, env);
    PriceUsedPlaces(d, env);
    ShareAmountsArePriced(MarketOrder(d, env).value.order, PriceUsed(d, env), d.amount.value.value, TickOf(d, env));
  }

  /** A price below one has a coefficient below its own power of ten. */
  lemma CoefficientBelow(price: Decimal, t: nat)
    requires Fits(price, t) && 0 < Units(price, t) < Pow10(t)
    ensures 0 < price.coef && price.exp < 0 && price.coef < Pow10(-price.exp)
  {
    UnitsSign(price, t);
    if price.exp >= 0 {
      Pow10Mono(t, price.exp + t);
      hide Pow10;
      ScaleOrder(0, price.coef, Pow10(price.exp + t));
      ScaleOrder(price.coef, 1, Pow10(price.exp + t));
    } else {
      Pow10Add(-price.exp, price.exp + t);
      hide Pow10;
      ScaleOrder(price.coef, Pow10(-price.exp), Pow10(price.exp + t));
    }
  }

  lemma TruncateAgain(d: Decimal, x: int, y: int)
    requires d.coef >= 0 && 0 <= x <= -d.exp && 0 <= y <= -d.exp
    ensures Truncate(Truncate(d, x), y) == Truncate(d, Min(x, y))
  {
    hide Pow10;
    if x < -d.exp && y < x {
      var k, l := -x - d.exp, x - y;
      var q := d.coef / Pow10(k);
      TruncateCoef(d, x);
      TruncateCoef(d, y);
      Pow10Add(k, l);
      hide Truncate;
      DivTwice(d.coef, Pow10(k), Pow10(l));
      assert q >= 0 by { FloorBounds(d.coef, Pow10(k), q); }
      TruncateCoef(Decimal(q, -x), y);
    }
  }

  /** n units of 10^-s is a / b rounded down, at whatever scale the comparison is made. */
  ghost predicate FloorAt(n: int, a: Decimal, b: Decimal, s: int) {
    forall y :: Fits(b, y) && Fits(a, s + y) ==>
      n * Units(b, y) <= Units(a, s + y) < (n + 1) * Units(b, y)
  }

  /** FloorQuotient is the floor of the ratio of the two values. */
  lemma FloorQuotientMeans(a: Decimal, b: Decimal, s: int)
    requires a.coef > 0 && b.coef > 0 && 0 <= s <= DIVISION_PRECISION
    requires a.exp - b.exp + DIVISION_PRECISION >= 0
    ensures FloorQuotient(a, b, s) >= 0
    ensures FloorAt(FloorQuotient(a, b, s), a, b, s)
  {
    var e := a.exp - b.exp + DIVISION_PRECISION;
    var m := Pow10(DIVISION_PRECISION - s);
    var n := FloorQuotient(a, b, s);
    ProductPositive(a.coef, Pow10(e));
    DivTwice(a.coef * Pow10(e), b.coef, m);
    FloorBounds(a.coef * Pow10(e), b.coef * m, n);
    forall y | Fits(b, y) && Fits(a, s + y)
      ensures n * Units(b, y) <= Units(a, s + y) < (n + 1) * Units(b, y)
    {
      var y0 := DIVISION_PRECISION - s - b.exp;
      if y <= y0 {
        UnitsFiner(a, s + y, y0 - y);
        UnitsFiner(b, y, y0 - y);
        ScaleFloor(n, Units(b, y), Units(a, s + y), Pow10(y0 - y), b.coef * m, a.coef * Pow10(e));
      } else {
        UnitsFiner(a, s + y0, y - y0);
        UnitsFiner(b, y0, y - y0);
        ScaleFloor(n, b.coef * m, a.coef * Pow10(e), Pow10(y - y0), Units(b, y), Units(a, s + y));
      }
    }
  }

  lemma ScaleFloor(n: int, u: int, v: int, p: int, up: int, vp: int)
    requires p > 0 && up == u * p && vp == v * p
    ensures n * u <= v < (n + 1) * u <==> n * up <= vp < (n + 1) * up
  {
    Assoc(n, u, p);
    Assoc(n + 1, u, p);
    ScaleOrder(v, n * u, p);
    ScaleOrder(v, (n + 1) * u, p);
  }

  lemma FloorBounds(a: int, b: int, n: int)
    requires a >= 0 && b > 0 && n == a / b
    ensures n >= 0
    ensures n * b <= a < (n + 1) * b
  {
  }

  /**
    Up to seven tick places, rounding the sixteenth place never shows: dividing and truncating to
    t + 2 places is the exact floor of amount / price.
   */
  lemma DivisionTruncatesExactly(usdc: Decimal, price: Decimal, t: nat)
    requires usdc.coef > 0 && DecimalPlaces(usdc) <= USDC_DECIMALS
    requires t <= 7 && DecimalPlaces(price) <= t && 0 < Units(price, t) < Pow10(t)
    ensures price.coef > 0
    ensures Truncate(Div(usdc, price), t + LOT_SIZE_SCALE).exp + t + LOT_SIZE_SCALE == 0
    ensures FloorAt(Truncate(Div(usdc, price), t + LOT_SIZE_SCALE).coef, usdc, price, t + LOT_SIZE_SCALE)
  {
    hide Div, Truncate, Pow10, FloorQuotient, FloorAt, Units;
    CoefficientBelow(price, t);
    TruncatedQuotient(usdc, price, t + LOT_SIZE_SCALE, -price.exp);
    FloorQuotientMeans(usdc, price, t + LOT_SIZE_SCALE);
  }

  lemma Powers()
    ensures Pow10(6) == 1000000 && Pow10(8) == 100000000 && Pow10(12) == 1000000000000
    ensures Pow10(18) == 1000000000000000000 && Pow10(0) == 1
  {
    assert Pow10(4) == 10000;
    Pow10Add(4, 2);
    Pow10Add(4, 4);
    Pow10Add(8, 4);
    Pow10Add(12, 6);
  }

  /** Six places is all an order keeps, so up to ten tick places the carry never reaches the order. */
  lemma UsdcFixedUnits(usdc: Decimal, price: Decimal, t: nat)
    requires usdc.coef > 0 && DecimalPlaces(usdc) <= USDC_DECIMALS
    requires t <= 10 && DecimalPlaces(price) <= t && 0 < Units(price, t) < Pow10(t)
    ensures price.coef > 0 && price.exp < 0
    ensures var m := Min(t + LOT_SIZE_SCALE, USDC_DECIMALS);
            && ToFixed(Truncate(Div(usdc, price), t + LOT_SIZE_SCALE)) == Decimal(FloorQuotient(usdc, price, m), USDC_DECIMALS - m)
            && FloorQuotient(usdc, price, m) >= 0
            && FloorAt(FloorQuotient(usdc, price, m), usdc, price, m)
  {
    hide Pow10, Truncate, FloorQuotient, FloorAt, Div, RoundedQuotient, Units;
    CoefficientBelow(price, t);
    var m := Min(t + LOT_SIZE_SCALE, USDC_DECIMALS);
    var e := usdc.exp - price.exp + DIVISION_PRECISION;
    DivForm(usdc, price);
    ProductPositive(usdc.coef, Pow10(e));
    RoundedNonNegative(usdc.coef * Pow10(e), price.coef);
    TruncateAgain(Div(usdc, price), t + LOT_SIZE_SCALE, USDC_DECIMALS);
    TruncatedQuotient(usdc, price, m, -price.exp);
    FloorQuotientMeans(usdc, price, m);
    TruncateExact(Decimal(FloorQuotient(usdc, price, m), USDC_DECIMALS - m), 0);
  }

  /** The step in which share amounts move, in base units: t + 2 places, or one unit if that is finer. */
  function ShareStep(t: nat): int {
    Pow10(if t < 4 then 4 - t else 0)
  }

  /** What any buy for an amount of collateral must satisfy. */
  ghost predicate BuysFloor(o: Order, price: Decimal, usdc: Decimal, t: nat)
    requires Fits(price, t) && Fits(usdc, USDC_DECIMALS)
  {
    && Fits(o.makerAmount, 0) && Fits(o.takerAmount, 0)
    && Units(o.makerAmount, 0) == Units(usdc, USDC_DECIMALS)
    && LargestAffordable(Units(o.takerAmount, 0), Units(o.makerAmount, 0), Units(price, t), t)
  }

  /** `taker` is the largest multiple of the step that `maker` base units pay for. */
  ghost predicate LargestAffordable(taker: int, maker: int, price: int, t: nat) {
    && taker >= 0 && taker % ShareStep(t) == 0
    && taker * price <= maker * Pow10(t) < (taker + ShareStep(t)) * price
  }

  lemma UsdcAmountsAreFloor(o: Order, price: Decimal, usdc: Decimal, tick: Decimal)
    requires tick.coef > 0 && DecimalPlaces(tick) <= 10 && InBounds(price, tick) && DecimalPlaces(price) <= DecimalPlaces(tick)
    requires usdc.coef > 0 && DecimalPlaces(usdc) <= USDC_DECIMALS
    requires price.coef != 0 ==>
               var (m, k) := UsdcAmounts(price, usdc, DecimalPlaces(tick));
               o.makerAmount == ToFixed(m) && o.takerAmount == ToFixed(k)
    ensures price.coef > 0 && BuysFloor(o, price, usdc, DecimalPlaces(tick))
  {
    var t := DecimalPlaces(tick);
    hide Pow10, Units, ToFixed, Truncate, FloorQuotient, FloorAt, Div, InBounds, LargestAffordable;
    PriceBelowOne(price, tick, t);
    UsdcFixedUnits(usdc, price, t);
    ToFixedExact(usdc);
    TakerInequality(usdc, price, t, FloorQuotient(usdc, price, Min(t + LOT_SIZE_SCALE, USDC_DECIMALS)));
  }

  /**
    Market buys for an amount of collateral: the maker amount is that amount, and the taker amount is
    the largest multiple of the share step that the amount pays for at this price.
   */
  lemma MarketBuyIsExactFloor(d: Draft, env: Env)
    requires MarketOrder(d, env).Success? && TickOf(d, env).coef > 0 && DecimalPlaces(TickOf(d, env)) <= 10
    requires d.amount.Some? && d.amount.value.kind == Usdc
    ensures DecimalPlaces(PriceUsed(d, env)) <= DecimalPlaces(TickOf(d, env))
    ensures DecimalPlaces(d.amount.value.value) <= USDC_DECIMALS
    ensures BuysFloor(MarketOrder(d, env).value.order, PriceUsed(d, env), d.amount.value.value, DecimalPlaces(TickOf(d, env)))
  {
    hide *;
    MarketOrderFacts(d, env);
    PriceUsedPlaces(d, env);
    UsdcAmountsAreFloor(MarketOrder(d, env).value.order, PriceUsed(d, env), d.amount.value.value, TickOf(d, env));
  }

  lemma TakerInequality(usdc: Decimal, price: Decimal, t: nat, n: int)
    requires DecimalPlaces(usdc) <= USDC_DECIMALS && Fits(price, t) && n >= 0
    requires FloorAt(n, usdc, price, Min(t + LOT_SIZE_SCALE, USDC_DECIMALS))
    ensures var k := USDC_DECIMALS - Min(t + LOT_SIZE_SCALE, USDC_DECIMALS);
            LargestAffordable(Units(Decimal(n, k), 0), Units(usdc, USDC_DECIMALS), Units(price, t), t)
  {
    var m := Min(t + LOT_SIZE_SCALE, USDC_DECIMALS);
    var k := USDC_DECIMALS - m;
    var step, p := Pow10(k), Units(price, t);
    assert Units(Decimal(n, k), 0) == n * step;
    hide Pow10, Units;
    UnitsFiner(price, t, k);
    UnitsFiner(usdc, USDC_DECIMALS, t);
    assert Fits(price, t + k) && Fits(usdc, m + (t + k));
    assert n * Units(price, t + k) <= Units(usdc, USDC_DECIMALS + t) < (n + 1) * Units(price, t + k);
    hide FloorAt;
    MultipleMod(n, step);
    Spread(n, p, step);
    Spread(n + 1, p, step);
    NonNegativeProduct(n, step);
  }

  lemma Spread(n: int, p: int, step: int)
    ensures n * (p * step) == (n * step) * p
  {
  }

  lemma NonNegativeProduct(n: int, step: int)
    requires n >= 0 && step > 0
    ensures n * step >= 0
    ensures (n + 1) * step == n * step + step
  {
  }

  // ---------------------------------------------------------------- across the book and the builder

  /** A positive tick keeps the division away from zero. */
  lemma PositiveTickNeverPanics(d: Draft, env: Env)
    requires TickOf(d, env).coef > 0
    ensures MarketOrder(d, env) != Failure(DivisionByZeroPanic)
  {
    hide MarketOrder, TickOf, PriceUsed, InBounds, Units;
    if MarketOrder(d, env) == Failure(DivisionByZeroPanic) {
      PanicFacts(d, env);
      var t := DecimalPlaces(TickOf(d, env));
      PriceUsedPlaces(d, env);
      PriceBelowOne(PriceUsed(d, env), TickOf(d, env), t);
      UnitsSign(PriceUsed(d, env), t);
    }
  }

  lemma PanicFacts(d: Draft, env: Env)
    requires MarketOrder(d, env) == Failure(DivisionByZeroPanic)
    ensures InBounds(PriceUsed(d, env), TickOf(d, env)) && PriceUsed(d, env).coef == 0
  {
    hide ParseSide, ResolveFeeRateBps, ResolvePrice, ResolveTickSize, ResolveMaker, ToFixed, TickOf, TickKnown, Priced, PriceUsed, ReadsAs,
         InBounds, ShareAmounts, UsdcAmounts, DecimalPlaces, NormalizeOrderType, Truncate, Text.ParseInteger;
    MarketResolves(d, env);
    ResolvingNeverPanics(d, env, SideChosen(d), NormalizeOrderType(d.orderType, "FAK"),
                         if d.amount.Some? then d.amount.value else MarketAmount(Usdc, ZERO), DecimalPlaces(TickOf(d, env)));
  }

  /** The errors of resolving the inputs are not the panic. */
  lemma ResolvingNeverPanics(d: Draft, env: Env, side: Side, orderType: string, amount: MarketAmount, t: nat)
    ensures ParseSide(d.side) != Failure(DivisionByZeroPanic) && ParseTokenID(d.tokenID) != Failure(DivisionByZeroPanic)
    ensures ResolveTickSize(d.tickSize, env.market) != Failure(DivisionByZeroPanic)
    ensures ResolvePrice(d, env.market, side, orderType, amount, t) != Failure(DivisionByZeroPanic)
    ensures ResolveFeeRateBps(d.feeRateBps, env.market) != Failure(DivisionByZeroPanic)
    ensures forall sigType :: ResolveMaker(d, env.signer, sigType) != Failure(DivisionByZeroPanic)
  {
    hide Text.TrimSpace, Text.ToUpper, Text.ParseInteger, MarketPrice, LessThan, IntPart, Truncate;
  }

  /**
    A fill-or-kill order priced from the book is only built when the book holds the amount. The price
    put in the order still reaches it when selling; when buying, exactly if the tightest book price
    has no more places than the tick.
   */
  lemma FillOrKillReachesAmount(d: Draft, env: Env, g: nat)
    requires MarketOrder(d, env).Success? && FillOrKill(d) && d.price.coef == 0 && d.amount.Some?
    requires var levels := LevelsFor(SideChosen(d), env.market);
             OrderlyBook(levels, SideChosen(d)) && Scale(levels, d.amount.value.value, g)
    ensures var side, amount := SideChosen(d), d.amount.value;
            var levels := LevelsFor(side, env.market);
            var tightest := MarketPrice(levels, amount.kind, amount.value, true);
            && tightest.Success?
            && Covers(levels, side, tightest.value, amount.kind, amount.value, g)
            && (Covers(levels, side, PriceUsed(d, env), amount.kind, amount.value, g)
                <==> side == Sell || OnGrid(tightest.value, DecimalPlaces(TickOf(d, env))))
  {
    hide MarketOrder, TickOf, Truncate, OnGrid, DecimalPlaces, MarketPrice, OrderlyBook, Scale, Covers, LessThan, ReadsAs, TickKnown,
         FeeKnown, MakerOf, Acceptable, Text.ParseInteger;
    MarketTerms(d, env);
    var side, amount := SideChosen(d), d.amount.value;
    var levels := LevelsFor(side, env.market);
    NothingOffered(amount.kind, amount.value, true);
    MarketPriceIsTightest(levels, side, amount.kind, amount.value, true, g);
    TruncationKeepsCover(levels, side, amount.kind, amount.value, g, DecimalPlaces(TickOf(d, env)));
    BetterTotal(side, BookPrice(d, env).value, BookPrice(d, env).value);
  }

  lemma NothingOffered(kind: AmountKind, amount: Decimal, fillOrKill: bool)
    ensures MarketPrice([], kind, amount, fillOrKill).Failure?
  {
  }

  // ---------------------------------------------------------------- inputs as a caller writes them

  lemma PlainInputs()
    ensures ParseSide("BUY") == Success(Buy)
    ensures forall fallback :: NormalizeOrderType("", fallback) == fallback
    ensures forall fallback :: NormalizeOrderType("FOK", fallback) == "FOK"
    ensures ParseTokenID("1") == Success(1)
    ensures ParseFeeRateBps(ZERO) == Success(0)
  {
    hide Text.TrimLeft, Text.TrimRight, Text.TrimSpace;
    Text.TrimSpaceKeeps("BUY");
    Text.TrimSpaceKeeps("FOK");
    Text.TrimSpaceKeeps("");
    assert Text.ToUpper("BUY") == "BUY" && Text.ToUpper("FOK") == "FOK";
    assert Text.DigitsValue([]) == 0;
    assert "1"[..0] == [];
    assert Text.DigitsValue("1") == 1;
  }
}
