/**
  How fine a tick may be before the rounded sixteenth place of a division shows: up to seven places
  in the quotient, and up to ten in an order, which keeps six places of it.
 */
module TickLimits {
  import opened Wrappers
  import opened Decimals
  import opened Division
  import opened BookWalk
  import opened OrderBuilders
  import opened OrderTerms
  import opened OrderAmounts
  import Text

  // ---------------------------------------------------------------- the quotient

  /** A price and an amount of collateral that the builder accepts for this tick. */
  ghost predicate Accepted(usdc: Decimal, price: Decimal, tick: Decimal) {
    && tick.coef > 0 && InBounds(price, tick) && DecimalPlaces(price) <= DecimalPlaces(tick)
    && usdc.coef > 0 && DecimalPlaces(usdc) <= USDC_DECIMALS
  }

  /** The builder's quotient is the exact floor of amount / price at t + 2 places. */
  ghost predicate QuotientIsFloor(usdc: Decimal, price: Decimal, t: nat) {
    && price.coef != 0
    && var q := Truncate(Div(usdc, price), t + LOT_SIZE_SCALE);
       && Fits(q, t + LOT_SIZE_SCALE)
       && FloorAt(Units(q, t + LOT_SIZE_SCALE), usdc, price, t + LOT_SIZE_SCALE)
  }

  /** The highest price of a tick of t places, 1 - 10^-t. */
  function TopPrice(t: nat): Decimal {
    Decimal(Pow10(t) - 1, 0 - t)
  }

  function FinestTick(t: nat): Decimal {
    Decimal(1, 0 - t)
  }

  lemma AtLeast(t: nat, k: nat)
    requires k <= t
    ensures Pow10(t) == Pow10(k) * Pow10(t - k) >= Pow10(k)
  {
    Pow10Add(k, t - k);
    Pow10Mono(k, t);
  }

  lemma TopPriceInBounds(t: nat)
    requires t >= 1
    ensures InBounds(TopPrice(t), FinestTick(t)) && TopPrice(t).coef > 0
    ensures Units(TopPrice(t), t) == Pow10(t) - 1
  {
    AtLeast(t, 1);
    PowZero();
    UnitsWhole(Pow10(t) - 1, t);
    UnitsWhole(1, t);
    hide Pow10, InBounds, Units;
    BoundsLaw(TopPrice(t), FinestTick(t), t);
  }

  /** A dividend m short of a multiple of p rounds up to it. */
  lemma RoundsUp(n: int, p: int, q: int, m: int)
    requires n == q * p - m && 0 < m && 2 * m <= p
    ensures RoundedQuotient(n, p) == q
  {
    assert (q - 1) * p <= n < q * p;
    DivIs(n, p, q - 1);
    assert n % p == n - (q - 1) * p;
  }

  /** x = 10^t, c = 10^(2t-4): the amount falls short of k prices by one unit. */
  lemma OneShort(x: int, c: int)
    requires c * 10000 == x * x
    ensures (x - 10001) * c + 1 == (c - x - 1) * (x - 1)
  {
    assert (x - 10001) * c == x * c - 10001 * c;
    assert (c - x - 1) * (x - 1) == c * (x - 1) - x * (x - 1) - (x - 1);
  }

  function CarriedAmount(t: nat): Decimal {
    Decimal(Pow10(t) - 10001, -6)
  }

  lemma PowerFour()
    ensures Pow10(4) == 10000
  {
  }

  /** From eight to fourteen places the rounding carries the quotient to the next unit. */
  lemma CarriedQuotient(t: nat)
    requires 8 <= t <= 14
    ensures CarriedAmount(t).coef > 0 && TopPrice(t).coef > 0
    ensures Truncate(Div(CarriedAmount(t), TopPrice(t)), t + 2) == Decimal(Pow10(2 * t - 4) - Pow10(t) - 1, -(t + 2))
  {
    hide Pow10, Div, Truncate, RoundedQuotient;
    var x: int, c: int, m: int := Pow10(t), Pow10(2 * t - 4), Pow10(14 - t);
    var k := c - x - 1;
    PowerFour();
    AtLeast(t, 8);
    AtLeast(8, 4);
    AtLeast(8, 14 - t);
    Pow10Mono(14 - t, 6);
    AtLeast(8, 6);
    SmallPowers();
    Pow10Add(2 * t - 4, 4);
    Pow10Add(t, t);
    Pow10Add(2 * t - 4, 14 - t);
    OneShort(x, c);
    var n := (x - 10001) * Pow10(t + 10);
    DivForm(CarriedAmount(t), TopPrice(t));
    ScaledShort((x - 10001) * c, k, x - 1, m);
    Assoc(x - 10001, c, m);
    RoundsUp(n, x - 1, k * m, m);
    KeepsSign(c, x, t);
    ProductNonNegative(k, m);
    TruncateSixteen(k * m, t + 2);
    DivCancel(k, m);
  }

  lemma SmallPowers()
    ensures Pow10(6) == 1000000 && Pow10(8) == 100000000
  {
    Powers();
  }

  lemma KeepsSign(c: int, x: int, t: nat)
    requires 8 <= t && c * 10000 == x * x && x >= 100000000
    ensures c - x - 1 >= 0
  {
    assert x * x >= 100000000 * x;
  }

  lemma ProductNonNegative(a: int, b: int)
    requires a >= 0 && b >= 0
    ensures a * b >= 0
  {
  }

  lemma ScaledShort(a: int, k: int, p: int, m: int)
    requires a + 1 == k * p
    ensures a * m == (k * m) * p - m
  {
    assert (k * m) * p == (k * p) * m;
  }

  lemma NotFloor(n: int, a: Decimal, b: Decimal, s: int, y: int)
    requires Fits(b, y) && Fits(a, s + y)
    requires !(n * Units(b, y) <= Units(a, s + y) < (n + 1) * Units(b, y))
    ensures !FloorAt(n, a, b, s)
  {
  }

  lemma CarriedIsNotFloor(t: nat)
    requires 8 <= t <= 14
    ensures !QuotientIsFloor(CarriedAmount(t), TopPrice(t), t)
  {
    hide Pow10, Div, Truncate, FloorAt, Units;
    var x: int, c: int := Pow10(t), Pow10(2 * t - 4);
    var k := c - x - 1;
    CarriedQuotient(t);
    TopPriceInBounds(t);
    UnitsWhole(k, t + 2);
    PowerFour();
    Pow10Add(2 * t - 4, 4);
    Pow10Add(t, t);
    OneShort(x, c);
    AmountUnits(x - 10001, -6, 2 * t + 2);
    NotFloor(k, CarriedAmount(t), TopPrice(t), t + 2, t);
  }

  lemma AmountUnits(coef: int, exp: int, s: int)
    requires exp + s >= 0
    ensures Units(Decimal(coef, exp), s) == coef * Pow10(exp + s)
  {
  }

  /** From fifteen places on, t + 2 is more than the division keeps: 1 / 0.3 ends too early. */
  lemma CutShortIsNotFloor(t: nat)
    requires t >= 15
    ensures !QuotientIsFloor(ONE, Decimal(3, -1), t)
  {
    hide Div, Truncate, FloorAt;
    var price := Decimal(3, -1);
    var third := 33333333333333333;
    OneThird();
    hide Pow10, Units;
    TruncateExact(Decimal(third, -16), t + 2);
    AtLeast(t - 14, 1);
    AmountUnits(third, -16, t + 2);
    AmountUnits(3, -1, 1);
    AmountUnits(1, 0, t + 3);
    PowZero();
    Pow10Add(17, t - 14);
    var u := Pow10(t - 14);
    assert 3 * third + 1 == Pow10(17);
    assert (3 * third + 1) * u == 3 * (third * u) + u;
    PowOne();
    NotFloor(third * u, ONE, price, t + 2, 1);
  }

  lemma PowOne()
    ensures Pow10(1) == 10
  {
  }

  lemma OneThird()
    ensures Pow10(17) == 100000000000000000
    ensures Div(ONE, Decimal(3, -1)) == Decimal(33333333333333333, -16)
  {
    Powers();
    assert Pow10(5) == 100000;
    Pow10Add(12, 5);
    hide Pow10, Div;
    DivForm(ONE, Decimal(3, -1));
  }

  lemma WitnessPlaces(t: nat)
    ensures DecimalPlaces(TopPrice(t)) == DecimalPlaces(FinestTick(t)) == t
  {
  }

  lemma WitnessAccepted(t: nat)
    requires t >= 8
    ensures Accepted(CarriedAmount(t), TopPrice(t), FinestTick(t))
    ensures Accepted(ONE, Decimal(3, -1), FinestTick(t))
  {
    hide Pow10, InBounds, Units;
    AtLeast(t, 8);
    SmallPowers();
    TopPriceInBounds(t);
    WitnessPlaces(t);
    AtLeast(t, 1);
    PowOne();
    AtLeast(t - 1, 1);
    AmountUnits(3, -1, t);
    UnitsWhole(1, t);
    BoundsLaw(Decimal(3, -1), FinestTick(t), t);
  }

  lemma AcceptedIsFloor(usdc: Decimal, price: Decimal, tick: Decimal)
    requires Accepted(usdc, price, tick) && DecimalPlaces(tick) <= 7
    ensures QuotientIsFloor(usdc, price, DecimalPlaces(tick))
  {
    hide Pow10, Div, Truncate, FloorAt, Units, InBounds;
    var t := DecimalPlaces(tick);
    PriceBelowOne(price, tick, t);
    DivisionTruncatesExactly(usdc, price, t);
    var q := Truncate(Div(usdc, price), t + LOT_SIZE_SCALE);
    UnitsWhole(q.coef, t + LOT_SIZE_SCALE);
  }

  /** Every accepted price and amount gives the exact floor exactly up to seven tick places. */
  lemma QuotientExactIff(t: nat)
    ensures (forall usdc, price, tick :: Accepted(usdc, price, tick) && DecimalPlaces(tick) == t ==>
               QuotientIsFloor(usdc, price, t))
            <==> t <= 7
  {
    hide Accepted, QuotientIsFloor, DecimalPlaces;
    if t <= 7 {
      forall usdc, price, tick | Accepted(usdc, price, tick) && DecimalPlaces(tick) == t
        ensures QuotientIsFloor(usdc, price, t)
      {
        AcceptedIsFloor(usdc, price, tick);
      }
    } else {
      WitnessAccepted(t);
      WitnessPlaces(t);
      if t <= 14 {
        CarriedIsNotFloor(t);
      } else {
        CutShortIsNotFloor(t);
      }
    }
  }

  /** For single inputs, up to fourteen places: exact unless the rounding goes up onto a multiple of the truncation unit. */
  lemma QuotientIsFloorIff(usdc: Decimal, price: Decimal, tick: Decimal)
    requires Accepted(usdc, price, tick) && DecimalPlaces(tick) <= 14
    ensures price.coef > 0 && usdc.exp - price.exp + DIVISION_PRECISION >= 0
    ensures var t := DecimalPlaces(tick);
            var n, m := usdc.coef * Pow10(usdc.exp - price.exp + DIVISION_PRECISION), Pow10(14 - t);
            QuotientIsFloor(usdc, price, t) <==> !(2 * (n % price.coef) >= price.coef && (n / price.coef + 1) % m == 0)
  {
    hide Pow10, Div, Truncate, FloorAt, Units, InBounds, RoundedQuotient, FloorQuotient;
    var t := DecimalPlaces(tick);
    PriceBelowOne(price, tick, t);
    CoefficientBelow(price, t);
    var e := usdc.exp - price.exp + DIVISION_PRECISION;
    var n, m := usdc.coef * Pow10(e), Pow10(14 - t);
    ProductPositive(usdc.coef, Pow10(e));
    DivForm(usdc, price);
    RoundedNonNegative(n, price.coef);
    TruncateSixteen(RoundedQuotient(n, price.coef), t + 2);
    UnitsWhole(RoundedQuotient(n, price.coef) / m, t + 2);
    RoundingShowsIff(n, price.coef, m);
    FloorQuotientMeans(usdc, price, t + 2);
    FloorQuotientIs(usdc, price, t);
    OneFloor(RoundedQuotient(n, price.coef) / m, (n / price.coef) / m, usdc, price, t + 2);
  }

  lemma FloorQuotientIs(usdc: Decimal, price: Decimal, t: nat)
    requires price.coef > 0 && usdc.exp - price.exp + DIVISION_PRECISION >= 0 && t <= 14
    ensures FloorQuotient(usdc, price, t + 2)
            == (usdc.coef * Pow10(usdc.exp - price.exp + DIVISION_PRECISION) / price.coef) / Pow10(14 - t)
  {
  }

  /** There is only one floor. */
  lemma OneFloor(n: int, k: int, a: Decimal, b: Decimal, s: nat)
    requires FloorAt(k, a, b, s) && b.coef > 0
    ensures FloorAt(n, a, b, s) <==> n == k
  {
    hide Units;
    var y := DecimalPlaces(a) + DecimalPlaces(b);
    UnitsSign(b, y);
    assert Fits(b, y) && Fits(a, s + y);
    if FloorAt(n, a, b, s) {
      SameFloor(n, k, Units(b, y), Units(a, s + y));
    }
  }

  lemma SameFloor(n: int, k: int, p: int, v: int)
    requires p > 0 && n * p <= v < (n + 1) * p && k * p <= v < (k + 1) * p
    ensures n == k
  {
    DivIs(v, p, n);
    DivIs(v, p, k);
  }

  // ---------------------------------------------------------------- the order

  /** A built order buys the largest multiple of the share step that its collateral pays for. */
  ghost predicate BuyIsExact(d: Draft, env: Env, t: nat) {
    && MarketOrder(d, env).Success? && d.amount.Some?
    && Fits(PriceUsed(d, env), t) && Fits(d.amount.value.value, USDC_DECIMALS)
    && BuysFloor(MarketOrder(d, env).value.order, PriceUsed(d, env), d.amount.value.value, t)
  }

  /** A market order for an amount of collateral that is built, with a positive tick of t places. */
  ghost predicate BuiltBuy(d: Draft, env: Env, t: nat) {
    && MarketOrder(d, env).Success? && d.amount.Some? && d.amount.value.kind == Usdc
    && TickOf(d, env).coef > 0 && DecimalPlaces(TickOf(d, env)) == t
  }

  function OverpricedAmount(t: nat): Decimal {
    Decimal(Pow10(t) - 2, -6)
  }

  lemma OverpricedDivision(t: nat)
    requires t >= 11
    ensures OverpricedAmount(t).coef > 0 && TopPrice(t).coef > 0
    ensures Div(OverpricedAmount(t), TopPrice(t)) == Decimal((Pow10(t) - 1) * Pow10(10), -16)
  {
    hide Pow10, Div, RoundedQuotient;
    TopExceedsTwice(t);
    Pow10Add(t, 10);
    TwoShort(Pow10(t), Pow10(10));
    DivForm(OverpricedAmount(t), TopPrice(t));
    RoundsUp((Pow10(t) - 2) * Pow10(t + 10), Pow10(t) - 1, (Pow10(t) - 1) * Pow10(10), Pow10(10));
  }

  lemma TopExceedsTwice(t: nat)
    requires t >= 11
    ensures 2 * Pow10(10) <= Pow10(t) - 1 && Pow10(10) >= 1000000
  {
    hide Pow10;
    AtLeast(t, 11);
    Pow10Add(10, 1);
    PowOne();
    AtLeast(10, 6);
    SmallPowers();
  }

  /** From eleven places on the carry reaches the sixth place. */
  lemma OverpricedQuotient(t: nat)
    requires t >= 11
    ensures OverpricedAmount(t).coef > 0 && TopPrice(t).coef > 0
    ensures ToFixed(Truncate(Div(OverpricedAmount(t), TopPrice(t)), t + 2)) == Decimal(Pow10(t) - 1, 0)
  {
    hide Pow10, Div, Truncate, RoundedQuotient;
    OverpricedDivision(t);
    TopExceedsTwice(t);
    ProductNonNegative(Pow10(t) - 1, Pow10(10));
    SixPlaces(t, (Pow10(t) - 1) * Pow10(10), Div(OverpricedAmount(t), TopPrice(t)));
    DivCancel(Pow10(t) - 1, Pow10(10));
    TruncateExact(Decimal(Pow10(t) - 1, 0), 0);
  }

  lemma TwoShort(x: int, m: int)
    ensures (x - 2) * (x * m) == ((x - 1) * m) * (x - 1) - m
  {
    assert (x - 2) * x == (x - 1) * (x - 1) - 1;
    assert (x - 2) * (x * m) == ((x - 2) * x) * m;
    assert ((x - 1) * m) * (x - 1) == ((x - 1) * (x - 1)) * m;
  }

  lemma SixPlaces(t: nat, q: int, d: Decimal)
    requires t >= 11 && q >= 0 && d == Decimal(q, -16)
    ensures Truncate(Truncate(d, t + 2), 6) == Decimal(q / Pow10(10), -6)
  {
    hide Pow10, Truncate;
    if t + 2 <= 16 {
      TruncateAgain(d, t + 2, 6);
    } else {
      TruncateExact(d, t + 2);
    }
    TruncateSixteen(q, 6);
  }

  // From seventeen places on that amount has more digits than a caller's float; a dollar at a price a
  // little over ten elevenths does instead.

  function ElevenParts(t: nat): int {
    Pow10(t + 1) / 11 + 1
  }

  function ElevenPrice(t: nat): Decimal {
    Decimal(ElevenParts(t), 0 - t)
  }

  lemma ElevenBounds(t: nat)
    requires t >= 17
    ensures Pow10(t + 1) < 11 * ElevenParts(t) <= Pow10(t + 1) + 11
    ensures 22 * Pow10(15) <= ElevenParts(t) < Pow10(t)
  {
    AtLeast(t + 1, 18);
    hide Pow10;
    Pow10Add(15, 3);
    PowThree();
    Pow10Add(t, 1);
    PowOne();
  }

  lemma PowThree()
    ensures Pow10(3) == 1000
  {
  }

  lemma ElevenDivision(t: nat)
    requires t >= 17
    ensures ElevenParts(t) > 0
    ensures Div(ONE, ElevenPrice(t)) == Decimal(11 * Pow10(15), -16)
  {
    hide Pow10, Div, RoundedQuotient, ElevenParts;
    ElevenBounds(t);
    Pow10Add(15, t + 1);
    var p, m := ElevenParts(t), Pow10(15);
    var over := 11 * p - Pow10(t + 1);
    DivForm(ONE, ElevenPrice(t));
    assert (11 * m) * p == m * (11 * p);
    assert m * (11 * p) == m * Pow10(t + 1) + m * over;
    SmallShare(m, over);
    RoundsUp(Pow10(t + 16), p, 11 * m, m * over);
  }

  lemma SmallShare(m: int, over: int)
    requires m > 0 && 1 <= over <= 11
    ensures 0 < m * over && 2 * (m * over) <= 22 * m
  {
  }

  lemma ElevenQuotient(t: nat)
    requires t >= 17
    ensures ElevenParts(t) > 0
    ensures ToFixed(Truncate(Div(ONE, ElevenPrice(t)), t + 2)) == Decimal(1100000, 0)
  {
    hide Pow10, Div, Truncate, ElevenParts;
    ElevenDivision(t);
    SmallPowers();
    Pow10Add(10, 5);
    PowFive();
    ProductNonNegative(11, Pow10(15));
    SixPlaces(t, 11 * Pow10(15), Div(ONE, ElevenPrice(t)));
    assert 11 * Pow10(15) == 1100000 * Pow10(10);
    DivCancel(1100000, Pow10(10));
    TruncateExact(Decimal(1100000, 0), 0);
  }

  lemma PowFive()
    ensures Pow10(5) == 100000
  {
  }

  lemma ElevenInBounds(t: nat)
    requires t >= 17
    ensures InBounds(ElevenPrice(t), FinestTick(t)) && ElevenPrice(t).coef > 0
    ensures Units(ElevenPrice(t), t) == ElevenParts(t)
  {
    hide Pow10, InBounds, Units, ElevenParts;
    ElevenBounds(t);
    UnitsWhole(ElevenParts(t), t);
    UnitsWhole(1, t);
    BoundsLaw(ElevenPrice(t), FinestTick(t), t);
  }

  // ---------------------------------------------------------------- orders that cannot pay for what they ask

  /** A buy for collateral at a given price and tick, everything else left as it is. */
  function PlainDraft(t: nat, price: Decimal, usdc: Decimal): Draft {
    Draft("1", "BUY", price, ZERO, ZERO, FinestTick(t), "", None, None, None, None, None, None, None,
          Some(MarketAmount(Usdc, usdc)))
  }

  function OfflineEnv(): Env {
    Env(NoTransport, Signer(1, None, None), Some(0))
  }

  lemma PlainBuilds(t: nat, price: Decimal, usdc: Decimal)
    requires InBounds(price, FinestTick(t)) && price.coef > 0 && DecimalPlaces(price) <= t
    requires usdc.coef > 0 && DecimalPlaces(usdc) <= USDC_DECIMALS
    ensures BuiltBuy(PlainDraft(t, price, usdc), OfflineEnv(), t)
    ensures PriceUsed(PlainDraft(t, price, usdc), OfflineEnv()) == price
    ensures var o := MarketOrder(PlainDraft(t, price, usdc), OfflineEnv()).value.order;
            && o.makerAmount == ToFixed(usdc) && o.takerAmount == ToFixed(Truncate(Div(usdc, price), t + 2))
  {
    hide Pow10, Div, Truncate, InBounds, ToFixed, ParseSide, NormalizeOrderType, ParseTokenID, ParseFeeRateBps,
         LessThan, MarketPrice, ShareAmounts;
    PlainInputs();
    WitnessPlaces(t);
    TruncateExact(price, t);
  }

  /** An order whose price and amount a caller can give, and whose taker amount costs more than its maker amount. */
  function OverpricedDraft(t: nat): Draft {
    if t <= 16 then PlainDraft(t, TopPrice(t), OverpricedAmount(t)) else PlainDraft(t, ElevenPrice(t), ONE)
  }

  lemma OverpricedBuilds(t: nat)
    requires t >= 11
    ensures BuiltBuy(OverpricedDraft(t), OfflineEnv(), t)
  {
    hide Pow10, Div, Truncate, InBounds, ToFixed, BuiltBuy, ElevenParts, MarketOrder, PriceUsed;
    WitnessPlaces(t);
    if t <= 16 {
      TopPriceInBounds(t);
      OverpricedQuotient(t);
      PlainBuilds(t, TopPrice(t), OverpricedAmount(t));
    } else {
      ElevenInBounds(t);
      PlainBuilds(t, ElevenPrice(t), ONE);
    }
  }

  lemma TopIsNotExact(t: nat)
    requires t >= 11
    ensures !BuyIsExact(PlainDraft(t, TopPrice(t), OverpricedAmount(t)), OfflineEnv(), t)
  {
    hide Pow10, Div, Truncate, InBounds, ToFixed, MarketOrder, PriceUsed, TickOf, Units;
    WitnessPlaces(t);
    TopPriceInBounds(t);
    OverpricedQuotient(t);
    PlainBuilds(t, TopPrice(t), OverpricedAmount(t));
    ToFixedExact(OverpricedAmount(t));
    var x := Pow10(t);
    UnitsWhole(x - 1, 0);
    UnitsWhole(x - 2, 6);
    assert (x - 1) * (x - 1) > (x - 2) * x;
  }

  lemma ElevenIsNotExact(t: nat)
    requires t >= 17
    ensures !BuyIsExact(PlainDraft(t, ElevenPrice(t), ONE), OfflineEnv(), t)
  {
    hide Pow10, Div, Truncate, InBounds, ToFixed, MarketOrder, PriceUsed, TickOf, Units, ElevenParts;
    ElevenInBounds(t);
    ElevenQuotient(t);
    ElevenBounds(t);
    PlainBuilds(t, ElevenPrice(t), ONE);
    ToFixedExact(ONE);
    UnitsWhole(1100000, 0);
    AmountUnits(1, 0, 6);
    SmallPowers();
    Pow10Add(t, 1);
    PowOne();
  }

  lemma OverpricedIsNotExact(t: nat)
    requires t >= 11
    ensures !BuyIsExact(OverpricedDraft(t), OfflineEnv(), t)
  {
    hide BuyIsExact, PlainDraft;
    if t <= 16 {
      TopIsNotExact(t);
    } else {
      ElevenIsNotExact(t);
    }
  }

  /** Every built market buy is exact exactly for ticks of at most ten places. */
  lemma MarketBuysExactIff(t: nat)
    ensures (forall d, env :: BuiltBuy(d, env, t) ==> BuyIsExact(d, env, t)) <==> t <= 10
  {
    if t <= 10 {
      forall d, env | BuiltBuy(d, env, t) ensures BuyIsExact(d, env, t) {
        BuiltIsExact(d, env, t);
      }
    } else {
      hide BuiltBuy, BuyIsExact;
      OverpricedBuilds(t);
      OverpricedIsNotExact(t);
    }
  }

  lemma BuiltIsExact(d: Draft, env: Env, t: nat)
    requires BuiltBuy(d, env, t) && t <= 10
    ensures BuyIsExact(d, env, t)
  {
    hide MarketOrder, PriceUsed, TickOf, BuysFloor;
    MarketBuyIsExactFloor(d, env);
  }
}
