/**
  What the order builder computes: from a record of choices, the limit or market order with integer
  maker and taker amounts.

  What comes from outside is a parameter: the market's answers, the signer's addresses and the salt.
 */
module OrderBuilders {
  import opened Wrappers
  import opened Decimals
  import opened BookWalk
  import Text

  const USDC_DECIMALS := 6
  const LOT_SIZE_SCALE := 2

  const SIGNATURE_EOA := 0
  const SIGNATURE_PROXY := 1
  const SIGNATURE_SAFE := 2

  type Address = nat
  const ZERO_ADDRESS: Address := 0

  datatype MarketAmount = MarketAmount(kind: AmountKind, value: Decimal)

  /** What the setters have chosen so far; a zero tick size means "not set". */
  datatype Draft = Draft(
    tokenID: string, side: string, price: Decimal, size: Decimal, feeRateBps: Decimal, tickSize: Decimal,
    orderType: string, maker: Option<Address>, funder: Option<Address>, taker: Option<Address>,
    nonce: Option<int>, expiration: Option<int>, signatureType: Option<int>, postOnly: Option<bool>,
    amount: Option<MarketAmount>)

  datatype FeeText = NoFeeText | BadFeeText | FeeNumber(value: Decimal)
  datatype MarketFee = MarketFee(baseFee: int, feeRate: FeeText)
  datatype Book = Book(asks: seq<PriceLevel>, bids: seq<PriceLevel>)

  /** The client's answers; None is a failed lookup. */
  datatype Market = NoTransport | Transport(tick: Option<Decimal>, fee: Option<MarketFee>, book: Option<Book>)
  datatype Signer = Signer(address: Address, proxy: Option<Address>, safe: Option<Address>)
  datatype Env = Env(market: Market, signer: Signer, salt: Option<int>)

  datatype Order = Order(
    salt: int, signer: Address, maker: Address, taker: Address, tokenID: int, makerAmount: Decimal,
    takerAmount: Decimal, expiration: int, side: Side, feeRateBps: int, nonce: int, signatureType: int)

  datatype SignableOrder = SignableOrder(order: Order, orderType: string, postOnly: Option<bool>)

  datatype BuildError =
    | TokenRequired | BadSide | PriceNotPositive | SizeNotPositive | BadToken | TickLookupFailed | TickTooSmall
    | TickRequired | TooManyPricePlaces | PriceOutOfBounds | TooManySizePlaces | FeeNotInteger | FeeLookupFailed
    | BadFeeReply | FeeMismatch | FunderNeedsProxy | FunderIsZero | NoDerivedMaker | NoSalt | NegativeExpiration
    | ExpirationNeedsGTD | GTDNeedsExpiration | PostOnlyNotAllowed | AmountRequired | AmountNotPositive
    | TooManyAmountPlaces | BadMarketOrderType | SellNeedsShares | ClientRequired | BookLookupFailed
    | BadBook(cause: BookError) | DivisionByZeroPanic

  type Built<T> = Result<T, BuildError>

  // ---------------------------------------------------------------- resolving the inputs

  function ParseSide(text: string): Built<Side> {
    var side := Text.ToUpper(Text.TrimSpace(text));
    if side == "BUY" then Success(Buy) else if side == "SELL" then Success(Sell) else Failure(BadSide)
  }

  function NormalizeOrderType(orderType: string, fallback: string): string {
    var trimmed := Text.TrimSpace(orderType);
    if trimmed == "" then fallback else Text.ToUpper(trimmed)
  }

  function ParseTokenID(text: string): Built<int> {
    match Text.ParseInteger(text)
    case None => Failure(BadToken)
    case Some(id) => Success(id)
  }

  /** The caller's tick wins unless the market asks for a larger one. */
  function ResolveTickSize(override: Decimal, market: Market): Built<Decimal> {
    var chosen := override.coef != 0;
    match market
    case NoTransport => if chosen then Success(override) else Failure(TickRequired)
    case Transport(None, _, _) => if chosen then Success(override) else Failure(TickLookupFailed)
    case Transport(Some(minTick), _, _) =>
      if !chosen then Success(minTick)
      else if LessThan(override, minTick) then Failure(TickTooSmall)
      else Success(override)
  }

  function IntPart(d: Decimal): int {
    if d.exp >= 0 then d.coef * Pow10(d.exp) else Quo(d.coef, Pow10(-d.exp))
  }

  function ParseFeeRateBps(d: Decimal): Built<int> {
    if Sign(d) <= 0 then Success(0)
    else
      var whole := Truncate(d, 0);
      if LessThan(whole, d) || LessThan(d, whole) then Failure(FeeNotInteger) else Success(IntPart(whole))
  }

  function ResolveFeeRateBps(userChoice: Decimal, market: Market): Built<int> {
    var userFee :- ParseFeeRateBps(userChoice);
    match market
    case NoTransport => Success(userFee)
    case Transport(_, None, _) => if userFee > 0 then Success(userFee) else Failure(FeeLookupFailed)
    case Transport(_, Some(reply), _) =>
      if reply.baseFee == 0 && reply.feeRate.BadFeeText? then Failure(BadFeeReply)
      else
        var marketFee := if reply.baseFee == 0 && reply.feeRate.FeeNumber? then IntPart(reply.feeRate.value) else reply.baseFee;
        if marketFee > 0 && userFee > 0 && userFee != marketFee then Failure(FeeMismatch)
        else Success(if marketFee > 0 then marketFee else userFee)
  }

  function DeriveMaker(signer: Signer, sigType: int): Built<Address> {
    if sigType == SIGNATURE_PROXY || sigType == SIGNATURE_SAFE then
      var wallet := if sigType == SIGNATURE_PROXY then signer.proxy else signer.safe;
      if wallet.None? then Failure(NoDerivedMaker) else Success(wallet.value)
    else Success(signer.address)
  }

  function ResolveMaker(d: Draft, signer: Signer, sigType: int): Built<Address> {
    if d.maker.Some? then Success(d.maker.value)
    else if d.funder.Some? then
      if sigType == SIGNATURE_EOA then Failure(FunderNeedsProxy)
      else if d.funder.value == ZERO_ADDRESS then Failure(FunderIsZero)
      else Success(d.funder.value)
    else DeriveMaker(signer, sigType)
  }

  // ---------------------------------------------------------------- amounts

  /** An amount in base units: cut at six places, moved up six places. */
  function ToFixed(d: Decimal): Decimal {
    Truncate(Shift(Truncate(d, USDC_DECIMALS), USDC_DECIMALS), 0)
  }

  /** Acceptable prices lie in [tick, 1 - tick]. */
  predicate InBounds(price: Decimal, tick: Decimal) {
    !LessThan(price, tick) && !LessThan(Sub(ONE, tick), price)
  }

  /** (maker, taker) of an order for `shares`: the collateral side is cut at tick scale + 2 places. */
  function ShareAmounts(side: Side, price: Decimal, shares: Decimal, tickScale: nat): (Decimal, Decimal) {
    var collateral := Truncate(Mul(shares, price), tickScale + LOT_SIZE_SCALE);
    if side == Buy then (collateral, shares) else (shares, collateral)
  }

  /** (maker, taker) of a buy for an amount of collateral. */
  function UsdcAmounts(price: Decimal, usdc: Decimal, tickScale: nat): (Decimal, Decimal)
    requires price.coef != 0
  {
    (usdc, Truncate(Div(usdc, price), tickScale + LOT_SIZE_SCALE))
  }

  // ---------------------------------------------------------------- building

  function LimitOrder(d: Draft, env: Env): Built<Order> {
    if d.tokenID == "" then Failure(TokenRequired) else
    var side :- ParseSide(d.side);
    :- Require(Sign(d.price) > 0, PriceNotPositive);
    :- Require(Sign(d.size) > 0, SizeNotPositive);
    var token :- ParseTokenID(d.tokenID);
    var tick :- ResolveTickSize(d.tickSize, env.market);
    var tickScale := DecimalPlaces(tick);
    :- Require(DecimalPlaces(d.price) <= tickScale, TooManyPricePlaces);
    :- Require(InBounds(d.price, tick), PriceOutOfBounds);
    :- Require(DecimalPlaces(d.size) <= LOT_SIZE_SCALE, TooManySizePlaces);
    var fee :- ResolveFeeRateBps(d.feeRateBps, env.market);
    var (makerAmount, takerAmount) := ShareAmounts(side, d.price, d.size, tickScale);
    var sigType := GetOr(d.signatureType, SIGNATURE_EOA);
    var maker :- ResolveMaker(d, env.signer, sigType);
    :- Require(env.salt.Some?, NoSalt);
    :- Require(GetOr(d.expiration, 0) >= 0, NegativeExpiration);
    Success(Order(env.salt.value, env.signer.address, maker, GetOr(d.taker, ZERO_ADDRESS), token,
                  ToFixed(makerAmount), ToFixed(takerAmount), GetOr(d.expiration, 0), side, fee,
                  GetOr(d.nonce, 0), sigType))
  }

  function SignableLimit(d: Draft, env: Env): Built<SignableOrder> {
    var order :- LimitOrder(d, env);
    var orderType := NormalizeOrderType(d.orderType, "GTC");
    :- Require(!(GetOr(d.expiration, 0) > 0 && orderType != "GTD"), ExpirationNeedsGTD);
    :- Require(!(orderType == "GTD" && GetOr(d.expiration, 0) == 0), GTDNeedsExpiration);
    :- Require(!(d.postOnly == Some(true) && orderType != "GTC" && orderType != "GTD"), PostOnlyNotAllowed);
    Success(SignableOrder(order, orderType, d.postOnly))
  }

  /** The price before truncation: the caller's if given, otherwise the book's. */
  function ResolvePrice(d: Draft, market: Market, side: Side, orderType: string, amount: MarketAmount, tickScale: nat)
    : Built<Decimal>
  {
    if Sign(d.price) < 0 then Failure(PriceNotPositive)
    else if Sign(d.price) > 0 then
      if DecimalPlaces(d.price) > tickScale then Failure(TooManyPricePlaces) else Success(d.price)
    else
      :- Require(market.Transport?, ClientRequired);
      :- Require(market.book.Some?, BookLookupFailed);
      var levels := if side == Buy then market.book.value.asks else market.book.value.bids;
      match MarketPrice(levels, amount.kind, amount.value, orderType == "FOK")
      case Success(p) => Success(p)
      case Failure(e) => Failure(BadBook(e))
  }

  function MarketOrder(d: Draft, env: Env): Built<SignableOrder> {
    if d.tokenID == "" then Failure(TokenRequired) else
    var side :- ParseSide(d.side);
    :- Require(d.amount.Some?, AmountRequired);
    var amount := d.amount.value;
    :- Require(Sign(amount.value) > 0, AmountNotPositive);
    var maxPlaces := if amount.kind == Shares then LOT_SIZE_SCALE else USDC_DECIMALS;
    :- Require(DecimalPlaces(amount.value) <= maxPlaces, TooManyAmountPlaces);
    var orderType := NormalizeOrderType(d.orderType, "FAK");
    :- Require(orderType == "FAK" || orderType == "FOK", BadMarketOrderType);
    :- Require(d.postOnly != Some(true), PostOnlyNotAllowed);
    :- Require(!(side == Sell && amount.kind == Usdc), SellNeedsShares);
    var token :- ParseTokenID(d.tokenID);
    var tick :- ResolveTickSize(d.tickSize, env.market);
    var tickScale := DecimalPlaces(tick);
    var resolved :- ResolvePrice(d, env.market, side, orderType, amount, tickScale);
    var price := Truncate(resolved, tickScale);
    :- Require(InBounds(price, tick), PriceOutOfBounds);
    var fee :- ResolveFeeRateBps(d.feeRateBps, env.market);
    :- Require(!(side == Buy && amount.kind == Usdc && price.coef == 0), DivisionByZeroPanic);
    var (makerAmount, takerAmount) :=
      if amount.kind == Usdc then UsdcAmounts(price, amount.value, tickScale)
      else ShareAmounts(side, price, amount.value, tickScale);
    var sigType := GetOr(d.signatureType, SIGNATURE_EOA);
    var maker :- ResolveMaker(d, env.signer, sigType);
    :- Require(env.salt.Some?, NoSalt);
    Success(SignableOrder(
      Order(env.salt.value, env.signer.address, maker, GetOr(d.taker, ZERO_ADDRESS), token, ToFixed(makerAmount),
            ToFixed(takerAmount), 0, side, fee, GetOr(d.nonce, 0), sigType),
      orderType, None))
  }
}
