/** Why an order is not built: the first thing wrong with the choices, in the order in which they are looked at. */
module OrderRefusals {
  import opened Wrappers
  import opened Decimals
  import opened BookWalk
  import opened OrderBuilders
  import opened OrderTerms
  import Text

  type Refusal = Option<BuildError>

  ghost function TickRefusal(d: Draft, env: Env): Refusal {
    if TickKnown(d, env) then None
    else if env.market.NoTransport? then Some(TickRequired)
    else if env.market.tick.None? then Some(TickLookupFailed)
    else Some(TickTooSmall)
  }

  ghost function FeeRefusal(d: Draft, env: Env): Refusal {
    if FeeKnown(d, env) then None
    else if !IsWhole(d.feeRateBps) then Some(FeeNotInteger)
    else if env.market.Transport? && env.market.fee.None? then Some(FeeLookupFailed)
    else if env.market.Transport? && env.market.fee.Some? && env.market.fee.value.baseFee == 0
            && env.market.fee.value.feeRate.BadFeeText? then Some(BadFeeReply)
    else Some(FeeMismatch)
  }

  ghost function MakerRefusal(d: Draft, env: Env): Refusal {
    if MakerOf(d, env).Some? then None
    else if d.funder.None? then Some(NoDerivedMaker)
    else if SignatureTypeOf(d) == SIGNATURE_EOA then Some(FunderNeedsProxy)
    else Some(FunderIsZero)
  }

  ghost function PriceRefusal(d: Draft, env: Env): Refusal
    requires d.amount.Some?
  {
    if Priced(d, env) then None
    else if d.price.coef < 0 then Some(PriceNotPositive)
    else if d.price.coef > 0 then Some(TooManyPricePlaces)
    else if env.market.NoTransport? then Some(ClientRequired)
    else if env.market.book.None? then Some(BookLookupFailed)
    else match BookPrice(d, env)
      case Failure(e) => Some(BadBook(e))
      case Success(_) => None
  }

  ghost function LimitRefusal(d: Draft, env: Env): Refusal {
    if d.tokenID == "" then Some(TokenRequired)
    else if !SideGiven(d) then Some(BadSide)
    else if d.price.coef <= 0 then Some(PriceNotPositive)
    else if d.size.coef <= 0 then Some(SizeNotPositive)
    else if Text.ParseInteger(d.tokenID).None? then Some(BadToken)
    else if TickRefusal(d, env).Some? then TickRefusal(d, env)
    else if DecimalPlaces(d.price) > DecimalPlaces(TickOf(d, env)) then Some(TooManyPricePlaces)
    else if !Acceptable(d.price, TickOf(d, env)) then Some(PriceOutOfBounds)
    else if DecimalPlaces(d.size) > LOT_SIZE_SCALE then Some(TooManySizePlaces)
    else if FeeRefusal(d, env).Some? then FeeRefusal(d, env)
    else if MakerRefusal(d, env).Some? then MakerRefusal(d, env)
    else if env.salt.None? then Some(NoSalt)
    else if d.expiration.Some? && d.expiration.value < 0 then Some(NegativeExpiration)
    else None
  }

  ghost function MarketRefusal(d: Draft, env: Env): Refusal {
    if d.tokenID == "" then Some(TokenRequired)
    else if !SideGiven(d) then Some(BadSide)
    else if d.amount.None? then Some(AmountRequired)
    else if d.amount.value.value.coef <= 0 then Some(AmountNotPositive)
    else if DecimalPlaces(d.amount.value.value) > (if d.amount.value.kind == Shares then LOT_SIZE_SCALE else USDC_DECIMALS)
      then Some(TooManyAmountPlaces)
    else if !ReadsAs(d.orderType, "") && !ReadsAs(d.orderType, "FAK") && !ReadsAs(d.orderType, "FOK") then Some(BadMarketOrderType)
    else if d.postOnly == Some(true) then Some(PostOnlyNotAllowed)
    else if ReadsAs(d.side, "SELL") && d.amount.value.kind == Usdc then Some(SellNeedsShares)
    else if Text.ParseInteger(d.tokenID).None? then Some(BadToken)
    else if TickRefusal(d, env).Some? then TickRefusal(d, env)
    else if PriceRefusal(d, env).Some? then PriceRefusal(d, env)
    else if !Acceptable(PriceUsed(d, env), TickOf(d, env)) then Some(PriceOutOfBounds)
    else if FeeRefusal(d, env).Some? then FeeRefusal(d, env)
    else if d.amount.value.kind == Usdc && PriceUsed(d, env).coef == 0 then Some(DivisionByZeroPanic)
    else if MakerRefusal(d, env).Some? then MakerRefusal(d, env)
    else if env.salt.None? then Some(NoSalt)
    else None
  }

  lemma TickRefused(d: Draft, env: Env)
    ensures TickRefusal(d, env).Some? ==> ResolveTickSize(d.tickSize, env.market) == Failure(TickRefusal(d, env).value)
  {
    hide LessThan, Units;
    TickLaw(d, env);
  }

  lemma FeeRefused(d: Draft, env: Env)
    ensures FeeRefusal(d, env).Some? ==> ResolveFeeRateBps(d.feeRateBps, env.market) == Failure(FeeRefusal(d, env).value)
  {
    hide ParseFeeRateBps, IntPart, Whole, IsWhole;
    FeeLaw(d, env);
    UserFeeLaw(d.feeRateBps);
    WholeNotNegative(d.feeRateBps);
  }

  lemma MakerRefused(d: Draft, env: Env)
    ensures MakerRefusal(d, env).Some? ==> ResolveMaker(d, env.signer, SignatureTypeOf(d)) == Failure(MakerRefusal(d, env).value)
  {
  }

  lemma PriceRefused(d: Draft, env: Env, orderType: string)
    requires d.amount.Some? && (orderType == "FOK" <==> FillOrKill(d)) && SideGiven(d)
    ensures PriceRefusal(d, env).Some? ==>
              ResolvePrice(d, env.market, SideChosen(d), orderType, d.amount.value, DecimalPlaces(TickOf(d, env)))
              == Failure(PriceRefusal(d, env).value)
  {
    hide MarketPrice, TickOf, ReadsAs, DecimalPlaces;
  }

  /** A limit order is refused for the first thing wrong, and built if nothing is. */
  lemma LimitRefusals(d: Draft, env: Env)
    ensures match LimitRefusal(d, env)
            case None => LimitOrder(d, env).Success?
            case Some(e) => LimitOrder(d, env) == Failure(e)
  {
    hide ParseSide, ResolveTickSize, ResolveFeeRateBps, ResolveMaker, ReadsAs, TickOf, TickKnown, TickRefusal, FeeKnown, FeeRefusal, MakerOf,
         MakerRefusal, Acceptable, InBounds, DecimalPlaces, ToFixed, ShareAmounts, Text.ParseInteger;
    SideLaw(d);
    TickLaw(d, env);
    TickRefused(d, env);
    RefusedIff(d, env);
    FeeLaw(d, env);
    FeeRefused(d, env);
    MakerLaw(d, env);
    MakerRefused(d, env);
    AcceptableLaw(d.price, TickOf(d, env));
  }

  lemma RefusedIff(d: Draft, env: Env)
    ensures TickRefusal(d, env).None? <==> TickKnown(d, env)
    ensures FeeRefusal(d, env).None? <==> FeeKnown(d, env)
    ensures MakerRefusal(d, env).None? <==> MakerOf(d, env).Some?
  {
    hide TickKnown, FeeKnown, MakerOf, IsWhole;
  }

  lemma PriceRefusedIff(d: Draft, env: Env)
    requires d.amount.Some?
    ensures PriceRefusal(d, env).None? <==> Priced(d, env)
  {
    hide MarketPrice, DecimalPlaces, TickOf;
  }

  /** Market orders likewise. */
  lemma MarketRefusals(d: Draft, env: Env)
    ensures match MarketRefusal(d, env)
            case None => MarketOrder(d, env).Success?
            case Some(e) => MarketOrder(d, env) == Failure(e)
  {
    hide ParseSide, ResolveTickSize, ResolveFeeRateBps, ResolvePrice, ResolveMaker, ReadsAs, TickOf, TickKnown, TickRefusal, FeeKnown, FeeRefusal,
         MakerOf, MakerRefusal, Acceptable, InBounds, DecimalPlaces, ToFixed, ShareAmounts, UsdcAmounts, Text.ParseInteger, PriceUsed, Priced,
         PriceRefusal, NormalizeOrderType, Truncate;
    SideLaw(d);
    SidesApart(d);
    TickLaw(d, env);
    TickRefused(d, env);
    RefusedIff(d, env);
    FeeLaw(d, env);
    FeeRefused(d, env);
    MakerLaw(d, env);
    MakerRefused(d, env);
    MarketType(d);
    PriceUsedPlaces(d, env);
    AcceptableLaw(PriceUsed(d, env), TickOf(d, env));
    if d.amount.Some? && SideGiven(d) {
      PriceRefusedIff(d, env);
      PriceLaw(d, env, NormalizeOrderType(d.orderType, "FAK"));
      PriceRefused(d, env, NormalizeOrderType(d.orderType, "FAK"));
    }
  }

  /** A signable limit order: refused like the limit order, or for what its type does not allow. */
  ghost function SignableRefusal(d: Draft, env: Env): Refusal {
    var expires := d.expiration.Some? && d.expiration.value > 0;
    if LimitRefusal(d, env).Some? then LimitRefusal(d, env)
    else if expires && !TypeIs(d.orderType, "GTC", "GTD") then Some(ExpirationNeedsGTD)
    else if !expires && TypeIs(d.orderType, "GTC", "GTD") then Some(GTDNeedsExpiration)
    else if d.postOnly == Some(true) && !TypeIs(d.orderType, "GTC", "GTC") && !TypeIs(d.orderType, "GTC", "GTD")
      then Some(PostOnlyNotAllowed)
    else None
  }

  lemma SignableRefusals(d: Draft, env: Env)
    ensures match SignableRefusal(d, env)
            case None => SignableLimit(d, env).Success?
            case Some(e) => SignableLimit(d, env) == Failure(e)
  {
    hide LimitOrder, NormalizeOrderType, TypeIs, LimitRefusal;
    LimitRefusals(d, env);
    TypeLaw(d.orderType, "GTC");
    if LimitRefusal(d, env).None? {
      ExpiresForward(d, env);
    }
  }

  lemma ExpiresForward(d: Draft, env: Env)
    requires LimitRefusal(d, env).None?
    ensures d.expiration.Some? ==> d.expiration.value >= 0
  {
    hide TickRefusal, FeeRefusal, MakerRefusal, Acceptable, DecimalPlaces, TickOf, SideGiven;
  }
}
