/**
  What a caller can tell beforehand: which choices are accepted, and what the order will carry. Everything here is
  said in terms of the texts, numbers and replies themselves, apart from how the builder goes about it.
 */
module OrderTerms {
  import opened Numbers
  import opened Wrappers
  import opened Decimals
  import opened BookWalk
  import opened OrderBuilders
  import Text

  // ---------------------------------------------------------------- texts

  /** A text means a word if it is that word but for surrounding space and case. */
  predicate ReadsAs(text: string, word: string) {
    Text.ToUpper(Text.TrimSpace(text)) == word
  }

  ghost function SideChosen(d: Draft): Side {
    if ReadsAs(d.side, "SELL") then Sell else Buy
  }

  ghost predicate SideGiven(d: Draft) {
    ReadsAs(d.side, "BUY") || ReadsAs(d.side, "SELL")
  }

  lemma SideLaw(d: Draft)
    ensures ParseSide(d.side) == if SideGiven(d) then Success(SideChosen(d)) else Failure(BadSide)
  {
    hide Text.ToUpper, Text.TrimSpace;
    assert "BUY"[0] != "SELL"[0];
  }

  /** The order type in force: the given one in capitals, or the default if none is given. */
  ghost predicate TypeIs(given: string, default: string, orderType: string) {
    if ReadsAs(given, "") then orderType == default else ReadsAs(given, orderType)
  }

  lemma TypeLaw(given: string, default: string)
    ensures TypeIs(given, default, NormalizeOrderType(given, default))
    ensures forall orderType :: TypeIs(given, default, orderType) ==> orderType == NormalizeOrderType(given, default)
  {
    hide Text.TrimSpace;
    assert |Text.ToUpper(Text.TrimSpace(given))| == |Text.TrimSpace(given)|;
  }

  // ---------------------------------------------------------------- tick

  /** The caller's tick, or else the market's. */
  ghost function TickOf(d: Draft, env: Env): Decimal {
    if d.tickSize.coef != 0 then d.tickSize
    else if env.market.Transport? && env.market.tick.Some? then env.market.tick.value
    else ZERO
  }

  /** There is a tick, and it is not below one the market asks for. */
  ghost predicate TickKnown(d: Draft, env: Env) {
    if env.market.Transport? && env.market.tick.Some? then
      d.tickSize.coef != 0 ==>
        var s := Max(DecimalPlaces(d.tickSize), DecimalPlaces(env.market.tick.value));
        Units(env.market.tick.value, s) <= Units(d.tickSize, s)
    else d.tickSize.coef != 0
  }

  lemma TickLaw(d: Draft, env: Env)
    ensures var r := ResolveTickSize(d.tickSize, env.market);
            if TickKnown(d, env) then r == Success(TickOf(d, env)) else r.Failure?
  {
    hide LessThan, Units;
    if env.market.Transport? && env.market.tick.Some? {
      LessThanUnits(d.tickSize, env.market.tick.value, Max(DecimalPlaces(d.tickSize), DecimalPlaces(env.market.tick.value)));
    }
  }

  /** tick <= price <= 1 - tick, in units fine enough for both. */
  lemma BoundsLaw(price: Decimal, tick: Decimal, t: nat)
    requires Fits(price, t) && Fits(tick, t)
    ensures InBounds(price, tick) <==> Units(tick, t) <= Units(price, t) <= Pow10(t) - Units(tick, t)
  {
    LessThanUnits(price, tick, t);
    SubUnits(ONE, tick, t);
    LessThanUnits(Sub(ONE, tick), price, t);
    assert Units(ONE, t) == Pow10(t);
  }

  // ---------------------------------------------------------------- fee

  /** The whole part of a number, and whether that is all of it; numbers below one count as zero. */
  ghost function Whole(d: Decimal): int {
    if d.coef <= 0 then 0 else Units(d, DecimalPlaces(d)) / Pow10(DecimalPlaces(d))
  }

  ghost predicate IsWhole(d: Decimal) {
    d.coef <= 0 || Units(d, DecimalPlaces(d)) % Pow10(DecimalPlaces(d)) == 0
  }

  /** The fee the market asks for: the number, or the text if the number is zero. */
  ghost function MarketAsks(reply: MarketFee): int {
    if reply.baseFee != 0 then reply.baseFee
    else if reply.feeRate.FeeNumber? then Whole(reply.feeRate.value)
    else 0
  }

  ghost predicate FeeKnown(d: Draft, env: Env) {
    && IsWhole(d.feeRateBps)
    && (env.market.Transport? ==>
          match env.market.fee
          case None => Whole(d.feeRateBps) > 0
          case Some(reply) =>
            && !(reply.baseFee == 0 && reply.feeRate.BadFeeText?)
            && (MarketAsks(reply) > 0 && Whole(d.feeRateBps) > 0 ==> Whole(d.feeRateBps) == MarketAsks(reply)))
  }

  /** A fee the market asks for prevails. */
  ghost function FeeOf(d: Draft, env: Env): int {
    if env.market.Transport? && env.market.fee.Some? && MarketAsks(env.market.fee.value) > 0
    then MarketAsks(env.market.fee.value)
    else Whole(d.feeRateBps)
  }

  lemma IntPartLaw(d: Decimal)
    ensures d.coef > 0 ==> IntPart(d) == Whole(d)
    ensures d.coef <= 0 ==> IntPart(d) <= 0
  {
    hide Pow10;
    PowZero();
    if d.exp >= 0 {
      SignTimes(d.coef, Pow10(d.exp));
      UnitsAtZero(d);
    } else {
      UnitsWhole(d.coef, -d.exp);
    }
  }

  lemma SignTimes(a: int, p: int)
    requires p > 0
    ensures a <= 0 ==> a * p <= 0
  {
  }

  lemma UnitsAtZero(d: Decimal)
    requires d.exp >= 0
    ensures Units(d, 0) == d.coef * Pow10(d.exp)
  {
  }

  lemma UserFeeLaw(d: Decimal)
    ensures ParseFeeRateBps(d) == if IsWhole(d) then Success(Whole(d)) else Failure(FeeNotInteger)
  {
    if d.coef > 0 {
      var p := DecimalPlaces(d);
      var cut := Truncate(d, 0);
      TruncateUnits(d, 0, p);
      UnitsFiner(cut, 0, p);
      LessThanUnits(cut, d, p);
      LessThanUnits(d, cut, p);
      CutIsWhole(d);
      QuotientBound(Units(d, p), Pow10(p));
      WholeIff(Units(d, p), Pow10(p));
    }
  }

  lemma CutIsWhole(d: Decimal)
    requires d.coef > 0
    ensures var cut := Truncate(d, 0); Fits(cut, 0) && IntPart(cut) == Units(cut, 0)
  {
    PowZero();
    if d.exp < 0 {
      TruncateCoef(d, 0);
    }
  }

  lemma WholeIff(u: int, p: int)
    requires p > 0
    ensures (u / p) * p == u <==> u % p == 0
  {
  }

  lemma FeeLaw(d: Draft, env: Env)
    ensures var r := ResolveFeeRateBps(d.feeRateBps, env.market);
            if FeeKnown(d, env) then r == Success(FeeOf(d, env)) else r.Failure?
  {
    hide ParseFeeRateBps, IntPart, Whole, IsWhole;
    UserFeeLaw(d.feeRateBps);
    WholeNotNegative(d.feeRateBps);
    if env.market.Transport? && env.market.fee.Some? && env.market.fee.value.feeRate.FeeNumber? {
      IntPartLaw(env.market.fee.value.feeRate.value);
      NothingWhole(env.market.fee.value.feeRate.value);
    }
  }

  lemma WholeNotNegative(d: Decimal)
    ensures Whole(d) >= 0
  {
    hide Units, Pow10;
    if d.coef > 0 {
      UnitsSign(d, DecimalPlaces(d));
      QuotientNotNegative(Units(d, DecimalPlaces(d)), Pow10(DecimalPlaces(d)));
    }
  }

  lemma QuotientNotNegative(a: int, b: int)
    requires a >= 0 && b > 0
    ensures a / b >= 0
  {
  }

  lemma NothingWhole(d: Decimal)
    ensures d.coef <= 0 ==> Whole(d) == 0
  {
  }

  // ---------------------------------------------------------------- maker

  ghost function SignatureTypeOf(d: Draft): int {
    if d.signatureType.Some? then d.signatureType.value else SIGNATURE_EOA
  }

  /** The account an order is made for: the maker given, else the funder, else the wallet of the signature type. */
  ghost function MakerOf(d: Draft, env: Env): Option<Address> {
    if d.maker.Some? then d.maker
    else if d.funder.Some? then
      if SignatureTypeOf(d) != SIGNATURE_EOA && d.funder.value != ZERO_ADDRESS then d.funder else None
    else if SignatureTypeOf(d) == SIGNATURE_PROXY then env.signer.proxy
    else if SignatureTypeOf(d) == SIGNATURE_SAFE then env.signer.safe
    else Some(env.signer.address)
  }

  lemma MakerLaw(d: Draft, env: Env)
    ensures var r := ResolveMaker(d, env.signer, SignatureTypeOf(d));
            if MakerOf(d, env).Some? then r == Success(MakerOf(d, env).value) else r.Failure?
  {
  }

  // ---------------------------------------------------------------- what is accepted, and what an order carries

  /** What both kinds of order ask of the choices. */
  ghost predicate CommonTerms(d: Draft, env: Env) {
    && d.tokenID != "" && Text.ParseInteger(d.tokenID).Some?
    && SideGiven(d) && TickKnown(d, env) && FeeKnown(d, env)
    && MakerOf(d, env).Some? && env.salt.Some?
  }

  ghost predicate Acceptable(price: Decimal, tick: Decimal) {
    var t := DecimalPlaces(tick);
    && DecimalPlaces(price) <= t
    && Units(tick, t) <= Units(price, t) <= Pow10(t) - Units(tick, t)
  }

  /** A positive price and size on the tick's and the lot's places, within the tick's bounds, expiring in no past. */
  ghost predicate LimitAccepted(d: Draft, env: Env) {
    && CommonTerms(d, env)
    && d.price.coef > 0 && Acceptable(d.price, TickOf(d, env))
    && d.size.coef > 0 && DecimalPlaces(d.size) <= LOT_SIZE_SCALE
    && (d.expiration.Some? ==> d.expiration.value >= 0)
  }

  /** What was chosen and resolved is what the order says. */
  ghost predicate Carries(o: Order, d: Draft, env: Env) {
    && env.salt == Some(o.salt) && o.signer == env.signer.address && MakerOf(d, env) == Some(o.maker)
    && o.taker == (if d.taker.Some? then d.taker.value else ZERO_ADDRESS)
    && Text.ParseInteger(d.tokenID) == Some(o.tokenID)
    && (o.side == Sell <==> ReadsAs(d.side, "SELL")) && (o.side == Buy <==> ReadsAs(d.side, "BUY"))
    && o.feeRateBps == FeeOf(d, env)
    && o.nonce == (if d.nonce.Some? then d.nonce.value else 0)
    && o.signatureType == SignatureTypeOf(d)
  }

  lemma SidesApart(d: Draft)
    ensures !(ReadsAs(d.side, "BUY") && ReadsAs(d.side, "SELL"))
  {
    assert "BUY"[0] != "SELL"[0];
  }

  lemma AcceptableLaw(price: Decimal, tick: Decimal)
    ensures Acceptable(price, tick) <==> DecimalPlaces(price) <= DecimalPlaces(tick) && InBounds(price, tick)
  {
    hide InBounds, Units, Pow10;
    if DecimalPlaces(price) <= DecimalPlaces(tick) {
      BoundsLaw(price, tick, DecimalPlaces(tick));
    }
  }

  /** A limit order is built exactly from acceptable choices, and carries them. */
  lemma LimitTerms(d: Draft, env: Env)
    ensures LimitOrder(d, env).Success? <==> LimitAccepted(d, env)
    ensures LimitOrder(d, env).Success? ==>
              && Carries(LimitOrder(d, env).value, d, env)
              && LimitOrder(d, env).value.expiration == (if d.expiration.Some? then d.expiration.value else 0)
  {
    hide ParseSide, ResolveTickSize, ResolveFeeRateBps, ResolveMaker, ReadsAs, TickOf, TickKnown, FeeOf, FeeKnown, MakerOf,
         Acceptable, InBounds, DecimalPlaces, ToFixed, ShareAmounts, Text.ParseInteger;
    SideLaw(d);
    SidesApart(d);
    TickLaw(d, env);
    FeeLaw(d, env);
    MakerLaw(d, env);
    AcceptableLaw(d.price, TickOf(d, env));
  }

  // ---------------------------------------------------------------- market orders

  ghost function LevelsFor(side: Side, market: Market): seq<PriceLevel> {
    if market.Transport? && market.book.Some? then
      if side == Buy then market.book.value.asks else market.book.value.bids
    else []
  }

  ghost predicate FillOrKill(d: Draft) {
    ReadsAs(d.orderType, "FOK")
  }

  /** What the book that the order takes from answers. */
  ghost function BookPrice(d: Draft, env: Env): Result<Decimal, BookError>
    requires d.amount.Some?
  {
    MarketPrice(LevelsFor(SideChosen(d), env.market), d.amount.value.kind, d.amount.value.value, FillOrKill(d))
  }

  /** The price a market order is computed with: the caller's or the opposing side's, cut at the tick's places. */
  ghost function PriceUsed(d: Draft, env: Env): Decimal {
    var t := DecimalPlaces(TickOf(d, env));
    if d.price.coef > 0 then Truncate(d.price, t)
    else if d.amount.Some? && BookPrice(d, env).Success? then Truncate(BookPrice(d, env).value, t)
    else ZERO
  }

  /** A price given on the tick's places, or none and a book that answers. */
  ghost predicate Priced(d: Draft, env: Env)
    requires d.amount.Some?
  {
    if d.price.coef == 0 then env.market.Transport? && env.market.book.Some? && BookPrice(d, env).Success?
    else d.price.coef > 0 && DecimalPlaces(d.price) <= DecimalPlaces(TickOf(d, env))
  }

  /** Immediate orders for a positive amount on its places; collateral buys only, and not at a price of zero. */
  ghost predicate MarketAccepted(d: Draft, env: Env) {
    && CommonTerms(d, env)
    && d.amount.Some? && d.amount.value.value.coef > 0
    && DecimalPlaces(d.amount.value.value) <= (if d.amount.value.kind == Shares then LOT_SIZE_SCALE else USDC_DECIMALS)
    && (ReadsAs(d.orderType, "") || ReadsAs(d.orderType, "FAK") || ReadsAs(d.orderType, "FOK"))
    && d.postOnly != Some(true)
    && (d.amount.value.kind == Usdc ==> ReadsAs(d.side, "BUY") && PriceUsed(d, env).coef != 0)
    && Priced(d, env) && Acceptable(PriceUsed(d, env), TickOf(d, env))
  }

  lemma TruncatedPlaces(d: Decimal, t: nat)
    ensures DecimalPlaces(Truncate(d, t)) <= t
  {
  }

  lemma PriceUsedPlaces(d: Draft, env: Env)
    ensures DecimalPlaces(PriceUsed(d, env)) <= DecimalPlaces(TickOf(d, env))
  {
    hide Truncate, MarketPrice, TickOf;
    var t := DecimalPlaces(TickOf(d, env));
    TruncatedPlaces(d.price, t);
    if d.amount.Some? && BookPrice(d, env).Success? {
      TruncatedPlaces(BookPrice(d, env).value, t);
    }
  }

  lemma MarketType(d: Draft)
    ensures NormalizeOrderType(d.orderType, "FAK") == "FOK" <==> FillOrKill(d)
    ensures NormalizeOrderType(d.orderType, "FAK") == "FAK" <==> ReadsAs(d.orderType, "FAK") || ReadsAs(d.orderType, "")
    ensures "FAK" != "FOK"
  {
    hide Text.TrimSpace;
    assert "FAK"[1] != "FOK"[1];
    assert |Text.ToUpper(Text.TrimSpace(d.orderType))| == |Text.TrimSpace(d.orderType)|;
  }

  /** Where the price comes from. */
  lemma PriceLaw(d: Draft, env: Env, orderType: string)
    requires d.amount.Some? && (orderType == "FOK" <==> FillOrKill(d)) && SideGiven(d)
    ensures var t := DecimalPlaces(TickOf(d, env));
            var r := ResolvePrice(d, env.market, SideChosen(d), orderType, d.amount.value, t);
            && (r.Success? <==> Priced(d, env))
            && (r.Success? ==> Truncate(r.value, t) == PriceUsed(d, env))
  {
    hide Truncate, MarketPrice, TickOf, ReadsAs, DecimalPlaces;
  }

  /** A market order is built exactly from acceptable choices, and carries them. */
  lemma MarketTerms(d: Draft, env: Env)
    ensures MarketOrder(d, env).Success? <==> MarketAccepted(d, env)
    ensures MarketOrder(d, env).Success? ==>
              var r := MarketOrder(d, env).value;
              && Carries(r.order, d, env) && r.order.expiration == 0 && r.postOnly == None
              && r.orderType == (if FillOrKill(d) then "FOK" else "FAK")
  {
    hide ParseSide, ResolveTickSize, ResolveFeeRateBps, ResolvePrice, ResolveMaker, ReadsAs, TickOf, TickKnown, FeeOf, FeeKnown,
         MakerOf, Acceptable, InBounds, DecimalPlaces, ToFixed, ShareAmounts, UsdcAmounts, Text.ParseInteger, PriceUsed, Priced,
         NormalizeOrderType, Truncate;
    SideLaw(d);
    SidesApart(d);
    TickLaw(d, env);
    FeeLaw(d, env);
    MakerLaw(d, env);
    MarketType(d);
    PriceUsedPlaces(d, env);
    AcceptableLaw(PriceUsed(d, env), TickOf(d, env));
    if d.amount.Some? && SideGiven(d) {
      PriceLaw(d, env, NormalizeOrderType(d.orderType, "FAK"));
    }
  }

  /** The caller's price is used as it is. */
  lemma GivenPriceIsUsed(d: Draft, env: Env)
    requires d.price.coef > 0 && DecimalPlaces(d.price) <= DecimalPlaces(TickOf(d, env))
    ensures PriceUsed(d, env) == d.price
  {
    TruncateExact(d.price, DecimalPlaces(TickOf(d, env)));
  }

  /**
    Without a price of the caller's, a built order is priced from the side it takes from: with the tightest limit
    that reaches the amount, or, fill-and-kill only, with the first level's price if the whole side is short. Either
    is cut at the tick's places.
   */
  lemma BookPriceIsTightest(d: Draft, env: Env, g: nat)
    requires MarketOrder(d, env).Success? && d.price.coef == 0 && d.amount.Some?
    requires var levels := LevelsFor(SideChosen(d), env.market);
             OrderlyBook(levels, SideChosen(d)) && Scale(levels, d.amount.value.value, g)
    ensures var side, amount := SideChosen(d), d.amount.value;
            var levels := LevelsFor(side, env.market);
            var t := DecimalPlaces(TickOf(d, env));
            && |levels| > 0 && side == MarketOrder(d, env).value.order.side
            && if TotalDepth(levels, amount.kind, g) < Units(amount.value, 2 * g) then
                 !FillOrKill(d) && PriceUsed(d, env) == Truncate(levels[0].price.value, t)
               else
                 exists p :: PriceUsed(d, env) == Truncate(p, t) && forall limit ::
                   Covers(levels, side, limit, amount.kind, amount.value, g) <==> AtOrBetter(side, p, limit)
  {
    hide MarketOrder, Truncate, TickOf, AtOrBetter, Covers, OrderlyBook, Scale, Units, TotalDepth, ReadsAs, DecimalPlaces, TickKnown,
         FeeKnown, MakerOf, Acceptable, Text.ParseInteger;
    MarketTerms(d, env);
    SidesApart(d);
    var side, amount := SideChosen(d), d.amount.value;
    var levels := LevelsFor(side, env.market);
    assert BookPrice(d, env).Success?;
    assert |levels| > 0;
    MarketPriceIsTightest(levels, side, amount.kind, amount.value, FillOrKill(d), g);
  }
}
