/** Market orders at the edges: prices cut below the book, and ticks of zero. */
module MarketOrderEdges {
  import opened Wrappers
  import opened Decimals
  import opened BookWalk
  import opened OrderBuilders
  import opened OrderTerms
  import opened OrderAmounts
  import Text

  // ---------------------------------------------------------------- a price cut below the book

  /** A tick of a cent over a market tick of a tenth of a cent, and ten shares asked at 50.5 cents. */
  function HalfCentDraft(): Draft {
    Draft("1", "BUY", ZERO, ZERO, ZERO, Decimal(1, -2), "FOK", None, None, None, None, None, None, None,
          Some(MarketAmount(Shares, Decimal(10, 0))))
  }

  function HalfCentAsks(): seq<PriceLevel> {
    [PriceLevel(Some(Decimal(505, -3)), Some(Decimal(10, 0)))]
  }

  function HalfCentEnv(): Env {
    Env(Transport(Some(Decimal(1, -3)), Some(MarketFee(0, NoFeeText)), Some(Book(HalfCentAsks(), []))),
        Signer(1, None, None), Some(0))
  }

  lemma AddZero(d: Decimal)
    requires d.exp == 0
    ensures Add(ZERO, d) == d
  {
    hide Quo;
    PowZero();
  }

  lemma NotBelowItself(d: Decimal)
    ensures !LessThan(d, d)
  {
    hide Rescale;
  }

  lemma HalfCentWalk()
    ensures MarketPrice(HalfCentAsks(), Shares, Decimal(10, 0), true) == Success(Decimal(505, -3))
  {
    hide Pow10, Add, LessThan;
    AddZero(Decimal(10, 0));
    NotBelowItself(Decimal(10, 0));
  }

  lemma HalfCentBook()
    ensures OrderlyBook(HalfCentAsks(), Buy) && Scale(HalfCentAsks(), Decimal(10, 0), 3)
  {
    hide Pow10, Rescale;
  }

  lemma HalfCentTick()
    ensures !LessThan(Decimal(1, -2), Decimal(1, -3))
    ensures Truncate(Decimal(505, -3), 2) == Decimal(50, -2)
    ensures InBounds(Decimal(50, -2), Decimal(1, -2))
    ensures !OnGrid(Decimal(505, -3), 2)
  {
    assert Pow10(1) == 10 && Pow10(2) == 100;
  }

  lemma HalfCentBuilds()
    ensures MarketOrder(HalfCentDraft(), HalfCentEnv()).Success?
    ensures MarketOrder(HalfCentDraft(), HalfCentEnv()).value.orderType == "FOK"
    ensures TickOf(HalfCentDraft(), HalfCentEnv()) == Decimal(1, -2)
  {
    hide Pow10, Truncate, InBounds, ToFixed, ParseSide, NormalizeOrderType, ParseTokenID, ParseFeeRateBps, LessThan,
         MarketPrice, ShareAmounts;
    PlainInputs();
    HalfCentWalk();
    HalfCentTick();
  }

  lemma HalfCentReads()
    ensures FillOrKill(HalfCentDraft()) && SideChosen(HalfCentDraft()) == Buy
    ensures LevelsFor(Buy, HalfCentEnv().market) == HalfCentAsks()
  {
    hide Text.TrimSpace, Text.ToUpper;
    PlainInputs();
    SideLaw(HalfCentDraft());
    MarketType(HalfCentDraft());
  }

  /** The order is built as fill-or-kill, and its price of 50 cents reaches nothing of the book. */
  lemma HalfCentFillOrKillFallsShort()
    ensures var d, env := HalfCentDraft(), HalfCentEnv();
            && MarketOrder(d, env).Success? && MarketOrder(d, env).value.orderType == "FOK"
            && Scale(HalfCentAsks(), Decimal(10, 0), 3)
            && Covers(HalfCentAsks(), Buy, Decimal(505, -3), Shares, Decimal(10, 0), 3)
            && !Covers(HalfCentAsks(), Buy, PriceUsed(d, env), Shares, Decimal(10, 0), 3)
  {
    hide MarketOrder, PriceUsed, TickOf, MarketPrice, Covers, OrderlyBook, Scale, OnGrid, ParseSide;
    PlainInputs();
    HalfCentWalk();
    HalfCentBook();
    HalfCentTick();
    HalfCentBuilds();
    HalfCentReads();
    FillOrKillReachesAmount(HalfCentDraft(), HalfCentEnv(), 3);
  }

  // ---------------------------------------------------------------- a tick of zero

  /** The checks a buy for an amount of collateral passes on its way to the division. */
  ghost predicate PassesChecks(d: Draft, env: Env) {
    && d.tokenID != "" && Text.ParseInteger(d.tokenID).Some?
    && ReadsAs(d.side, "BUY") && TickKnown(d, env) && FeeKnown(d, env)
    && d.amount.Some? && d.amount.value.kind == Usdc && d.amount.value.value.coef > 0
    && DecimalPlaces(d.amount.value.value) <= USDC_DECIMALS
    && (ReadsAs(d.orderType, "") || ReadsAs(d.orderType, "FAK") || ReadsAs(d.orderType, "FOK"))
    && d.postOnly != Some(true)
    && Priced(d, env) && Acceptable(PriceUsed(d, env), TickOf(d, env))
  }

  /** Building a market order divides by zero exactly if a buy for collateral passes the checks with a truncated price of zero. */
  lemma PanicIff(d: Draft, env: Env)
    ensures MarketOrder(d, env) == Failure(DivisionByZeroPanic) <==> PassesChecks(d, env) && PriceUsed(d, env).coef == 0
  {
    hide ParseSide, ResolveTickSize, ResolvePrice, ResolveFeeRateBps, ResolveMaker, ToFixed, ShareAmounts, UsdcAmounts, TickOf, TickKnown,
         FeeKnown, FeeOf, Priced, PriceUsed, ReadsAs, Acceptable, NormalizeOrderType, Truncate, InBounds, DecimalPlaces, Text.ParseInteger;
    MarketResolves(d, env);
    FeeLaw(d, env);
    SidesApart(d);
    MarketType(d);
    PriceUsedPlaces(d, env);
    AcceptableLaw(PriceUsed(d, env), TickOf(d, env));
    ResolvingNeverPanics(d, env, SideChosen(d), NormalizeOrderType(d.orderType, "FAK"),
                         if d.amount.Some? then d.amount.value else MarketAmount(Usdc, ZERO), DecimalPlaces(TickOf(d, env)));
  }

  /** A dollar's buy, from one ask that asks nothing. */
  function FreeEnv(tick: Decimal): Env {
    Env(Transport(Some(tick), Some(MarketFee(0, NoFeeText)), Some(Book([PriceLevel(Some(ZERO), Some(ONE))], []))),
        Signer(1, None, None), Some(0))
  }

  lemma FreePrice()
    ensures MarketPrice([PriceLevel(Some(ZERO), Some(ONE))], Usdc, ONE, false) == Success(ZERO)
  {
    hide Pow10, Add, LessThan;
    AddZero(ZERO);
    ZeroBelowOne();
    var asks := [PriceLevel(Some(ZERO), Some(ONE))];
    assert Contribution(ZERO, ONE, Usdc) == ZERO;
    assert Walk(asks, 0, ZERO, Usdc, ONE) == Success(None);
    assert Walk(asks, 1, ZERO, Usdc, ONE) == Success(None);
  }

  lemma ZeroBelowOne()
    ensures LessThan(ZERO, ONE)
  {
    hide Pow10;
    LessThanUnits(ZERO, ONE, 0);
    UnitsSign(ZERO, 0);
    UnitsSign(ONE, 0);
  }

  lemma ZeroInBounds(tick: Decimal)
    requires tick.coef <= 0
    ensures InBounds(ZERO, tick) && forall t: nat :: Truncate(ZERO, t) == ZERO
  {
    var s := DecimalPlaces(tick);
    LessThanUnits(ZERO, tick, s);
    SubUnits(ONE, tick, s);
    LessThanUnits(Sub(ONE, tick), ZERO, s);
    UnitsSign(tick, s);
    UnitsSign(ONE, s);
  }

  lemma FreePanics(tick: Decimal)
    requires tick.coef <= 0
    ensures TickOf(ZeroTickDraft(), FreeEnv(tick)) == tick
    ensures MarketOrder(ZeroTickDraft(), FreeEnv(tick)) == Failure(DivisionByZeroPanic)
  {
    hide Pow10, Truncate, InBounds, ToFixed, ParseSide, NormalizeOrderType, ParseTokenID, ParseFeeRateBps, LessThan,
         MarketPrice, ShareAmounts, UsdcAmounts;
    PlainInputs();
    FreePrice();
    ZeroInBounds(tick);
  }

  /** Some market order with a given tick divides by zero exactly if the tick is not positive. */
  lemma TickPanicsIff(tick: Decimal)
    ensures (exists d, env :: TickOf(d, env) == tick && MarketOrder(d, env) == Failure(DivisionByZeroPanic)) <==> tick.coef <= 0
  {
    hide MarketOrder, TickOf;
    if tick.coef <= 0 {
      FreePanics(tick);
    } else {
      forall d, env | TickOf(d, env) == tick ensures MarketOrder(d, env) != Failure(DivisionByZeroPanic) {
        PositiveTickNeverPanics(d, env);
      }
    }
  }

  /** Orders for shares never divide. */
  lemma ShareOrdersNeverPanic(d: Draft, env: Env)
    requires d.amount.Some? && d.amount.value.kind == Shares
    ensures MarketOrder(d, env) != Failure(DivisionByZeroPanic)
  {
    hide Text.TrimSpace, Text.ToUpper, Text.ParseInteger, ToFixed, ShareAmounts, UsdcAmounts,
         NormalizeOrderType, Truncate, InBounds, MarketPrice, DecimalPlaces, LessThan, IntPart;
  }

  function ZeroTickDraft(): Draft {
    Draft("1", "BUY", ZERO, ZERO, ZERO, ZERO, "", None, None, None, None, None, None, None,
          Some(MarketAmount(Usdc, ONE)))
  }

  function HalfAsks(): seq<PriceLevel> {
    [PriceLevel(Some(Decimal(5, -1)), Some(Decimal(10, 0)))]
  }

  /** The tick reply has no minimum, which reads as zero. */
  function ZeroTickEnv(): Env {
    Env(Transport(Some(ZERO), Some(MarketFee(0, NoFeeText)), Some(Book(HalfAsks(), []))), Signer(1, None, None), Some(0))
  }

  lemma ZeroTickPrice()
    ensures MarketPrice(HalfAsks(), Usdc, ONE, false) == Success(Decimal(5, -1))
    ensures Truncate(Decimal(5, -1), 0) == ZERO
    ensures InBounds(ZERO, ZERO)
  {
    PowZero();
    assert Pow10(1) == 10;
  }

  /** A dollar's buy from an ask at one half panics when the reply gives no minimum tick. */
  lemma ZeroTickPanics()
    ensures MarketOrder(ZeroTickDraft(), ZeroTickEnv()) == Failure(DivisionByZeroPanic)
  {
    hide Pow10, Truncate, InBounds, ToFixed, ParseSide, NormalizeOrderType, ParseTokenID, ParseFeeRateBps, LessThan,
         MarketPrice, ShareAmounts, UsdcAmounts;
    PlainInputs();
    ZeroTickPrice();
  }
}
