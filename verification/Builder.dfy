/**
  The order builder object: setters record choices, in any order and any number of times, and building
  turns what has been recorded into an order.
 */
module Builders {
  import opened Wrappers
  import opened Decimals
  import opened BookWalk
  import opened OrderBuilders
  import opened OrderTerms
  import opened OrderAmounts
  import Text

  /** One setter call. */
  datatype Choice =
    | TokenIDIs(tokenID: string) | SideIs(side: string) | PriceIs(price: Decimal) | SizeIs(size: Decimal)
    | FeeRateBpsIs(feeRateBps: Decimal) | TickSizeIs(tickSize: Decimal) | OrderTypeIs(orderType: string)
    | MakerIs(maker: Address) | TakerIs(taker: Address) | NonceIs(nonce: Option<int>) | ExpirationIs(expiration: int)
    | SignatureTypeIs(signatureType: int) | PostOnlyIs(postOnly: bool) | AmountIs(amount: MarketAmount)

  /** What a setter call is about. */
  datatype Field =
    | TokenID | Side | Price | Size | FeeRateBps | TickSize | OrderType | Maker | Taker | Nonce | Expiration
    | SignatureType | PostOnly | Amount

  function Choose(d: Draft, c: Choice): Draft {
    match c
    case TokenIDIs(v) => d.(tokenID := v)
    case SideIs(v) => d.(side := v)
    case PriceIs(v) => d.(price := v)
    case SizeIs(v) => d.(size := v)
    case FeeRateBpsIs(v) => d.(feeRateBps := v)
    case TickSizeIs(v) => d.(tickSize := v)
    case OrderTypeIs(v) => d.(orderType := v)
    case MakerIs(v) => d.(maker := Some(v))
    case TakerIs(v) => d.(taker := Some(v))
    case NonceIs(v) => d.(nonce := v)
    case ExpirationIs(v) => d.(expiration := Some(v))
    case SignatureTypeIs(v) => d.(signatureType := Some(v))
    case PostOnlyIs(v) => d.(postOnly := Some(v))
    case AmountIs(v) => d.(amount := Some(v))
  }

  function FieldOf(c: Choice): Field {
    match c
    case TokenIDIs(_) => TokenID
    case SideIs(_) => Side
    case PriceIs(_) => Price
    case SizeIs(_) => Size
    case FeeRateBpsIs(_) => FeeRateBps
    case TickSizeIs(_) => TickSize
    case OrderTypeIs(_) => OrderType
    case MakerIs(_) => Maker
    case TakerIs(_) => Taker
    case NonceIs(_) => Nonce
    case ExpirationIs(_) => Expiration
    case SignatureTypeIs(_) => SignatureType
    case PostOnlyIs(_) => PostOnly
    case AmountIs(_) => Amount
  }

  function ChooseAll(d: Draft, calls: seq<Choice>): Draft {
    if calls == [] then d else Choose(ChooseAll(d, calls[..|calls| - 1]), calls[|calls| - 1])
  }

  // ---------------------------------------------------------------- the builder object

  /** What a built limit order is worth: the exact floor of price and size, on a positive tick. */
  ghost predicate LimitIsExact(d: Draft, env: Env, o: Order) {
    var t := DecimalPlaces(TickOf(d, env));
    TickOf(d, env).coef > 0 ==>
      && DecimalPlaces(d.price) <= t && DecimalPlaces(d.size) <= LOT_SIZE_SCALE
      && PricedShares(o, d.price, d.size, t)
  }

  /** The same for a market order, whose price may come from the book. */
  ghost predicate MarketIsExact(d: Draft, env: Env, o: Order)
    requires d.amount.Some?
  {
    var t, price, amount := DecimalPlaces(TickOf(d, env)), PriceUsed(d, env), d.amount.value;
    && (TickOf(d, env).coef > 0 && amount.kind == Shares ==>
          DecimalPlaces(price) <= t && DecimalPlaces(amount.value) <= LOT_SIZE_SCALE && PricedShares(o, price, amount.value, t))
    && (TickOf(d, env).coef > 0 && amount.kind == Usdc && t <= 10 ==>
          DecimalPlaces(price) <= t && DecimalPlaces(amount.value) <= USDC_DECIMALS && BuysFloor(o, price, amount.value, t))
  }

  class OrderBuilder {
    var tokenID: string
    var side: string
    var price: Decimal
    var size: Decimal
    var feeRateBps: Decimal
    var tickSize: Decimal
    var orderType: string
    var maker: Option<Address>
    var funder: Option<Address>
    var taker: Option<Address>
    var nonce: Option<int>
    var expiration: Option<int>
    var signatureType: Option<int>
    var postOnly: Option<bool>
    var amount: Option<MarketAmount>

    function Choices(): Draft
      reads this
    {
      Draft(tokenID, side, price, size, feeRateBps, tickSize, orderType, maker, funder, taker, nonce, expiration,
            signatureType, postOnly, amount)
    }

    constructor (defaultSignatureType: Option<int>, defaultFunder: Option<Address>)
      ensures Choices() == Draft("", "", ZERO, ZERO, ZERO, ZERO, "", None, defaultFunder, None, None, None,
                                 defaultSignatureType, None, None)
    {
      tokenID, side, orderType := "", "", "";
      price, size, feeRateBps, tickSize := ZERO, ZERO, ZERO, ZERO;
      maker, funder, taker := None, defaultFunder, None;
      nonce, expiration, signatureType, postOnly, amount := None, None, defaultSignatureType, None, None;
    }

    method TokenID(id: string)
      modifies this
      ensures Choices() == Choose(old(Choices()), TokenIDIs(id))
    {
      tokenID := id;
    }

    method Side(text: string)
      modifies this
      ensures Choices() == Choose(old(Choices()), SideIs(text))
    {
      side := text;
    }

    method PriceDec(p: Decimal)
      modifies this
      ensures Choices() == Choose(old(Choices()), PriceIs(p))
    {
      price := p;
    }

    method SizeDec(s: Decimal)
      modifies this
      ensures Choices() == Choose(old(Choices()), SizeIs(s))
    {
      size := s;
    }

    method FeeRateBpsDec(bps: Decimal)
      modifies this
      ensures Choices() == Choose(old(Choices()), FeeRateBpsIs(bps))
    {
      feeRateBps := bps;
    }

    method TickSize(tick: Decimal)
      modifies this
      ensures Choices() == Choose(old(Choices()), TickSizeIs(tick))
    {
      tickSize := tick;
    }

    /** No number takes the choice back. */
    method Nonce(n: Option<int>)
      modifies this
      ensures Choices() == Choose(old(Choices()), NonceIs(n))
    {
      nonce := n;
    }

    method Maker(address: Address)
      modifies this
      ensures Choices() == Choose(old(Choices()), MakerIs(address))
    {
      maker := Some(address);
    }

    method Taker(address: Address)
      modifies this
      ensures Choices() == Choose(old(Choices()), TakerIs(address))
    {
      taker := Some(address);
    }

    method OrderType(t: string)
      modifies this
      ensures Choices() == Choose(old(Choices()), OrderTypeIs(t))
    {
      orderType := t;
    }

    method PostOnly(flag: bool)
      modifies this
      ensures Choices() == Choose(old(Choices()), PostOnlyIs(flag))
    {
      postOnly := Some(flag);
    }

    method ExpirationUnix(timestamp: int)
      modifies this
      ensures Choices() == Choose(old(Choices()), ExpirationIs(timestamp))
    {
      expiration := Some(timestamp);
    }

    method AmountUSDC(value: Decimal)
      modifies this
      ensures Choices() == Choose(old(Choices()), AmountIs(MarketAmount(Usdc, value)))
    {
      amount := Some(MarketAmount(Usdc, value));
    }

    method AmountShares(value: Decimal)
      modifies this
      ensures Choices() == Choose(old(Choices()), AmountIs(MarketAmount(Shares, value)))
    {
      amount := Some(MarketAmount(Shares, value));
    }

    method UseProxy()
      modifies this
      ensures Choices() == Choose(old(Choices()), SignatureTypeIs(SIGNATURE_PROXY))
    {
      signatureType := Some(SIGNATURE_PROXY);
    }

    method UseSafe()
      modifies this
      ensures Choices() == Choose(old(Choices()), SignatureTypeIs(SIGNATURE_SAFE))
    {
      signatureType := Some(SIGNATURE_SAFE);
    }

    /**
      Built exactly from acceptable choices, carrying them, and exactly priced. Building leaves the choices as they
      were, so a builder can be used again.
     */
    method Build(env: Env) returns (r: Built<Order>)
      ensures r == LimitOrder(Choices(), env)
      ensures r.Success? <==> LimitAccepted(Choices(), env)
      ensures r.Success? ==> Carries(r.value, Choices(), env) && LimitIsExact(Choices(), env, r.value)
    {
      hide LimitOrder, LimitAccepted, Carries, PricedShares, TickOf;
      LimitTerms(Choices(), env);
      r := LimitOrder(Choices(), env);
      if r.Success? && TickOf(Choices(), env).coef > 0 {
        LimitOrderIsExact(Choices(), env);
      }
    }

    /** Good-till-date orders are exactly those that expire, and post-only orders rest in the book. */
    method BuildSignable(env: Env) returns (r: Built<SignableOrder>)
      ensures r.Success? <==>
                && LimitAccepted(Choices(), env)
                && (TypeIs(orderType, "GTC", "GTD") <==> expiration.Some? && expiration.value > 0)
                && (postOnly == Some(true) ==> TypeIs(orderType, "GTC", "GTC") || TypeIs(orderType, "GTC", "GTD"))
      ensures r.Success? ==>
                && LimitOrder(Choices(), env) == Success(r.value.order)
                && TypeIs(orderType, "GTC", r.value.orderType) && r.value.postOnly == postOnly
                && Carries(r.value.order, Choices(), env) && LimitIsExact(Choices(), env, r.value.order)
      ensures r.Failure? ==> r == SignableLimit(Choices(), env)
    {
      hide LimitOrder, LimitAccepted, Carries, PricedShares, TickOf, NormalizeOrderType, TypeIs;
      LimitTerms(Choices(), env);
      TypeLaw(orderType, "GTC");
      if LimitAccepted(Choices(), env) {
        NoPastExpiration(Choices(), env);
      }
      r := SignableLimit(Choices(), env);
      if r.Success? && TickOf(Choices(), env).coef > 0 {
        LimitOrderIsExact(Choices(), env);
      }
    }

    /** Built exactly from acceptable choices, immediate, never post-only or expiring, and exactly priced. */
    method BuildMarket(env: Env) returns (r: Built<SignableOrder>)
      ensures r == MarketOrder(Choices(), env)
      ensures r.Success? <==> MarketAccepted(Choices(), env)
      ensures r.Success? ==>
                && Carries(r.value.order, Choices(), env) && MarketIsExact(Choices(), env, r.value.order)
                && (r.value.order.side == Sell ==> amount.value.kind == Shares)
                && r.value.orderType == (if ReadsAs(orderType, "FOK") then "FOK" else "FAK")
                && r.value.postOnly == None && r.value.order.expiration == 0
      ensures TickOf(Choices(), env).coef > 0 ==> r != Failure(DivisionByZeroPanic)
    {
      hide MarketOrder, Carries, PricedShares, BuysFloor, TickOf, PriceUsed, ReadsAs, TickKnown, FeeKnown, MakerOf, Acceptable, Priced,
           Text.ParseInteger;
      r := MarketOrder(Choices(), env);
      var d := Choices();
      MarketTerms(d, env);
      if TickOf(d, env).coef > 0 {
        PositiveTickNeverPanics(d, env);
      }
      if r.Success? {
        SellsAreNotBuys(d, env);
        if TickOf(d, env).coef > 0 && d.amount.value.kind == Shares {
          MarketShareOrderIsExact(d, env);
        } else if TickOf(d, env).coef > 0 && DecimalPlaces(TickOf(d, env)) <= 10 {
          MarketBuyIsExactFloor(d, env);
        }
      }
    }
  }

  lemma NoPastExpiration(d: Draft, env: Env)
    requires LimitAccepted(d, env)
    ensures d.expiration.Some? ==> d.expiration.value >= 0
  {
  }

  lemma SellsAreNotBuys(d: Draft, env: Env)
    requires MarketOrder(d, env).Success?
    ensures MarketOrder(d, env).value.order.side == Sell ==> d.amount.value.kind == Shares
  {
    hide MarketOrder, ReadsAs, TickKnown, FeeKnown, MakerOf, Acceptable, Priced, PriceUsed, Text.ParseInteger;
    MarketTerms(d, env);
    SidesApart(d);
  }

  // ---------------------------------------------------------------- runs of setters

  /** The last call about a field. */
  function Last(calls: seq<Choice>, field: Field): Option<Choice> {
    if calls == [] then None
    else if FieldOf(calls[|calls| - 1]) == field then Some(calls[|calls| - 1])
    else Last(calls[..|calls| - 1], field)
  }

  /** The call that would record what a field holds; None if it holds nothing. */
  function Recorded(d: Draft, field: Field): Option<Choice> {
    match field
    case TokenID => Some(TokenIDIs(d.tokenID))
    case Side => Some(SideIs(d.side))
    case Price => Some(PriceIs(d.price))
    case Size => Some(SizeIs(d.size))
    case FeeRateBps => Some(FeeRateBpsIs(d.feeRateBps))
    case TickSize => Some(TickSizeIs(d.tickSize))
    case OrderType => Some(OrderTypeIs(d.orderType))
    case Maker => if d.maker.None? then None else Some(MakerIs(d.maker.value))
    case Taker => if d.taker.None? then None else Some(TakerIs(d.taker.value))
    case Nonce => Some(NonceIs(d.nonce))
    case Expiration => if d.expiration.None? then None else Some(ExpirationIs(d.expiration.value))
    case SignatureType => if d.signatureType.None? then None else Some(SignatureTypeIs(d.signatureType.value))
    case PostOnly => if d.postOnly.None? then None else Some(PostOnlyIs(d.postOnly.value))
    case Amount => if d.amount.None? then None else Some(AmountIs(d.amount.value))
  }

  lemma ChoiceRecorded(d: Draft, c: Choice, field: Field)
    ensures Recorded(Choose(d, c), field) == if FieldOf(c) == field then Some(c) else Recorded(d, field)
    ensures Choose(d, c).funder == d.funder
  {
  }

  /** Every field holds what its last call said, and what it held before if there was none. */
  lemma {:induction false} LastCallDecides(d: Draft, calls: seq<Choice>, field: Field)
    ensures Recorded(ChooseAll(d, calls), field)
            == if Last(calls, field).Some? then Last(calls, field) else Recorded(d, field)
    ensures ChooseAll(d, calls).funder == d.funder
  {
    hide Recorded, Choose, FieldOf;
    if calls == [] {
    } else {
      var n := |calls| - 1;
      LastCallDecides(d, calls[..n], field);
      ChoiceRecorded(ChooseAll(d, calls[..n]), calls[n], field);
    }
  }

  lemma SameRecordsSameDraft(a: Draft, b: Draft)
    requires a.funder == b.funder && forall field :: Recorded(a, field) == Recorded(b, field)
    ensures a == b
  {
    assert Recorded(a, TokenID) == Recorded(b, TokenID); assert Recorded(a, Side) == Recorded(b, Side);
    assert Recorded(a, Price) == Recorded(b, Price); assert Recorded(a, Size) == Recorded(b, Size);
    assert Recorded(a, FeeRateBps) == Recorded(b, FeeRateBps);
    assert Recorded(a, TickSize) == Recorded(b, TickSize);
    assert Recorded(a, OrderType) == Recorded(b, OrderType); assert Recorded(a, Maker) == Recorded(b, Maker);
    assert Recorded(a, Taker) == Recorded(b, Taker); assert Recorded(a, Nonce) == Recorded(b, Nonce);
    assert Recorded(a, Expiration) == Recorded(b, Expiration);
    assert Recorded(a, SignatureType) == Recorded(b, SignatureType);
    assert Recorded(a, PostOnly) == Recorded(b, PostOnly); assert Recorded(a, Amount) == Recorded(b, Amount);
  }

  lemma DifferentRecord(a: Draft, b: Draft, field: Field)
    requires Recorded(a, field) != Recorded(b, field)
    ensures a != b
  {
  }

  /** A draft that holds nothing the given call would record. */
  function Without(c: Choice): Draft {
    var d := Draft("", "", ZERO, ZERO, ZERO, ZERO, "", None, None, None, None, None, None, None, None);
    if Recorded(d, FieldOf(c)) != Some(c) then d
    else d.(tokenID := "1", side := "1", price := ONE, size := ONE, feeRateBps := ONE, tickSize := ONE, orderType := "1",
               nonce := Some(1))
  }

  lemma WithoutHolds(c: Choice)
    ensures Recorded(Without(c), FieldOf(c)) != Some(c)
  {
  }

  lemma {:induction false} LastIsAbout(calls: seq<Choice>, field: Field)
    ensures Last(calls, field).Some? ==> FieldOf(Last(calls, field).value) == field
  {
    if calls == [] {
    } else {
      LastIsAbout(calls[..|calls| - 1], field);
    }
  }

  /** Two runs of setters are interchangeable on every builder exactly if they agree on the last call about each field. */
  lemma OnlyLastCallsMatter(xs: seq<Choice>, ys: seq<Choice>)
    ensures (forall d :: ChooseAll(d, xs) == ChooseAll(d, ys)) <==> (forall field :: Last(xs, field) == Last(ys, field))
  {
    hide ChooseAll, Recorded, Last, FieldOf, Without;
    if forall field :: Last(xs, field) == Last(ys, field) {
      forall d ensures ChooseAll(d, xs) == ChooseAll(d, ys) {
        forall field ensures Recorded(ChooseAll(d, xs), field) == Recorded(ChooseAll(d, ys), field) {
          LastCallDecides(d, xs, field);
          LastCallDecides(d, ys, field);
        }
        LastCallDecides(d, xs, TokenID);
        LastCallDecides(d, ys, TokenID);
        SameRecordsSameDraft(ChooseAll(d, xs), ChooseAll(d, ys));
      }
    } else {
      var field :| Last(xs, field) != Last(ys, field);
      LastIsAbout(xs, field);
      LastIsAbout(ys, field);
      var c := if Last(xs, field).Some? then Last(xs, field).value else Last(ys, field).value;
      var d := Without(c);
      WithoutHolds(c);
      LastCallDecides(d, xs, field);
      LastCallDecides(d, ys, field);
      DifferentRecord(ChooseAll(d, xs), ChooseAll(d, ys), field);
    }
  }
}
