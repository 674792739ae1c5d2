/**
  Choosing a market order's limit price from the opposing side of the book: levels are listed from
  worst to best and walked from the best one until they hold enough liquidity.
 */
module BookWalk {
  import opened Wrappers
  import opened Numbers
  import opened Decimals

  datatype Side = Buy | Sell
  datatype AmountKind = Usdc | Shares

  /** A level as received; a field that does not parse as a decimal is None. */
  datatype PriceLevel = PriceLevel(price: Option<Decimal>, size: Option<Decimal>)

  datatype BookError = NoOpposingOrders | InvalidPrice | InvalidSize | InsufficientLiquidity

  // ---------------------------------------------------------------- the walk

  /** What one level adds to the running sum: notional or shares. */
  function Contribution(price: Decimal, size: Decimal, kind: AmountKind): Decimal {
    if kind == Usdc then Mul(size, price) else size
  }

  /** The walk over the first n levels, best first, with `sum` gathered so far. */
  function Walk(levels: seq<PriceLevel>, n: nat, sum: Decimal, kind: AmountKind, amount: Decimal)
    : Result<Option<Decimal>, BookError>
    requires n <= |levels|
  {
    if n == 0 then Success(None)
    else if levels[n - 1].price.None? then Failure(InvalidPrice)
    else if levels[n - 1].size.None? then Failure(InvalidSize)
    else
      var price := levels[n - 1].price.value;
      var next := Add(sum, Contribution(price, levels[n - 1].size.value, kind));
      if !LessThan(next, amount) then Success(Some(price)) else Walk(levels, n - 1, next, kind, amount)
  }

  function MarketPrice(levels: seq<PriceLevel>, kind: AmountKind, amount: Decimal, fillOrKill: bool)
    : Result<Decimal, BookError>
  {
    if |levels| == 0 then Failure(NoOpposingOrders)
    else if levels[0].price.None? then Failure(InvalidPrice)
    else match Walk(levels, |levels|, ZERO, kind, amount)
      case Failure(e) => Failure(e)
      case Success(Some(cutoff)) => Success(cutoff)
      case Success(None) => if fillOrKill then Failure(InsufficientLiquidity) else Success(levels[0].price.value)
  }

  /** The walk as the source runs it: backwards, with an accumulator and an early exit. */
  method ResolveMarketPrice(levels: seq<PriceLevel>, kind: AmountKind, amount: Decimal, fillOrKill: bool)
    returns (r: Result<Decimal, BookError>)
    ensures r == MarketPrice(levels, kind, amount, fillOrKill)
  {
    if |levels| == 0 {
      return Failure(NoOpposingOrders);
    }
    if levels[0].price.None? {
      return Failure(InvalidPrice);
    }
    var firstPrice := levels[0].price.value;
    var sum := ZERO;
    var cutoff: Option<Decimal> := None;
    var i := |levels|;
    while i > 0
      invariant 0 <= i <= |levels|
      invariant Walk(levels, |levels|, ZERO, kind, amount)
             == if cutoff.Some? then Success(cutoff) else Walk(levels, i, sum, kind, amount)
      decreases if cutoff.None? then 1 else 0, i
    {
      var level := levels[i - 1];
      if level.price.None? {
        return Failure(InvalidPrice);
      }
      if level.size.None? {
        return Failure(InvalidSize);
      }
      sum := Add(sum, Contribution(level.price.value, level.size.value, kind));
      if !LessThan(sum, amount) {
        cutoff := level.price;
        break;
      }
      i := i - 1;
    }
    if cutoff.Some? {
      return Success(cutoff.value);
    }
    if fillOrKill {
      return Failure(InsufficientLiquidity);
    }
    return Success(firstPrice);
  }

  // ---------------------------------------------------------------- what the price guarantees

  /** A taker with this limit may trade at `price`. */
  predicate AtOrBetter(side: Side, price: Decimal, limit: Decimal) {
    if side == Buy then !LessThan(limit, price) else !LessThan(price, limit)
  }

  /** Parsed levels with non-negative numbers, listed worst first. */
  ghost predicate OrderlyBook(levels: seq<PriceLevel>, side: Side) {
    && (forall i :: 0 <= i < |levels| ==>
          && levels[i].price.Some? && levels[i].size.Some?
          && levels[i].price.value.coef >= 0 && levels[i].size.value.coef >= 0)
    && (forall i, j :: 0 <= i <= j < |levels| ==> AtOrBetter(side, levels[j].price.value, levels[i].price.value))
  }

  /** Every number of the book is a whole number of 10^-g, and the amount one of 10^-2g. */
  ghost predicate Scale(levels: seq<PriceLevel>, amount: Decimal, g: nat) {
    && Fits(amount, 2 * g)
    && (forall i :: 0 <= i < |levels| ==> LevelFits(levels[i], g))
  }

  ghost predicate LevelFits(level: PriceLevel, g: nat) {
    && (level.price.Some? ==> Fits(level.price.value, g))
    && (level.size.Some? ==> Fits(level.size.value, g))
  }

  function Max(a: nat, b: nat): nat {
    if a < b then b else a
  }

  function PlacesOf(d: Option<Decimal>): nat {
    if d.Some? then DecimalPlaces(d.value) else 0
  }

  /** Such a scale always exists. */
  lemma {:induction false} ScaleExists(levels: seq<PriceLevel>, amount: Decimal) returns (g: nat)
    ensures Scale(levels, amount, g)
  {
    if |levels| == 0 {
      g := DecimalPlaces(amount);
    } else {
      var rest, last := levels[..|levels| - 1], levels[|levels| - 1];
      g := ScaleExists(rest, amount);
      g := Max(g, Max(PlacesOf(last.price), PlacesOf(last.size)));
      forall i | 0 <= i < |levels| ensures LevelFits(levels[i], g) {
        assert i < |rest| ==> rest[i] == levels[i];
      }
    }
  }

  /**
    What a level offers, in units of 10^-2g: size times price when the amount is collateral, the size when it is
    shares.
   */
  ghost function Worth(level: PriceLevel, kind: AmountKind, g: nat): int {
    if level.price.None? || level.size.None? || !LevelFits(level, g) then 0
    else match kind
      case Usdc => Units(level.size.value, g) * Units(level.price.value, g)
      case Shares => Units(level.size.value, g) * Pow10(g)
  }

  /** Liquidity of the first n levels whose index is kept. */
  ghost function Depth(levels: seq<PriceLevel>, keep: int -> bool, kind: AmountKind, g: nat, n: nat): int
    requires n <= |levels|
  {
    if n == 0 then 0 else
    Depth(levels, keep, kind, g, n - 1) + if keep(n - 1) then Worth(levels[n - 1], kind, g) else 0
  }

  ghost function Within(levels: seq<PriceLevel>, side: Side, limit: Decimal): int -> bool {
    i => 0 <= i < |levels| && levels[i].price.Some? && AtOrBetter(side, levels[i].price.value, limit)
  }

  ghost function From(n: int): int -> bool {
    i => n <= i
  }

  /** The liquidity a limit can reach covers the amount. */
  ghost predicate Covers(levels: seq<PriceLevel>, side: Side, limit: Decimal, kind: AmountKind, amount: Decimal, g: nat)
    requires Fits(amount, 2 * g)
  {
    Depth(levels, Within(levels, side, limit), kind, g, |levels|) >= Units(amount, 2 * g)
  }

  ghost function TotalDepth(levels: seq<PriceLevel>, kind: AmountKind, g: nat): int {
    Depth(levels, From(0), kind, g, |levels|)
  }

  /** The walk adds up what the levels are worth. */
  lemma ContributionIsWorth(level: PriceLevel, kind: AmountKind, g: nat)
    requires level.price.Some? && level.size.Some? && LevelFits(level, g)
    ensures var c := Contribution(level.price.value, level.size.value, kind);
            Fits(c, 2 * g) && Units(c, 2 * g) == Worth(level, kind, g)
  {
    hide Pow10, Units;
    if kind == Usdc {
      MulUnits(level.size.value, g, level.price.value, g);
    } else {
      UnitsFiner(level.size.value, g, g);
    }
  }

  lemma WorthNonNegative(level: PriceLevel, kind: AmountKind, g: nat)
    requires level.price.Some? ==> level.price.value.coef >= 0
    requires level.size.Some? ==> level.size.value.coef >= 0
    ensures Worth(level, kind, g) >= 0
  {
    hide Pow10, Units;
    if level.price.Some? && level.size.Some? && LevelFits(level, g) {
      UnitsNonNegative(level.price.value, g);
      UnitsNonNegative(level.size.value, g);
      NonNegativeTimes(Units(level.size.value, g), Units(level.price.value, g));
      NonNegativeTimes(Units(level.size.value, g), Pow10(g));
    }
  }

  lemma UnitsNonNegative(d: Decimal, s: int)
    requires d.coef >= 0 && Fits(d, s)
    ensures Units(d, s) >= 0
  {
    UnitsSign(d, s);
  }

  lemma NonNegativeTimes(a: int, b: int)
    requires a >= 0 && b >= 0
    ensures a * b >= 0
  {
  }

  lemma {:induction false} DepthMono(levels: seq<PriceLevel>, side: Side, a: int -> bool, b: int -> bool, kind: AmountKind, g: nat, n: nat)
    requires OrderlyBook(levels, side) && n <= |levels|
    requires forall i :: 0 <= i < n && a(i) ==> b(i)
    ensures Depth(levels, a, kind, g, n) <= Depth(levels, b, kind, g, n)
  {
    if n == 0 {
    } else {
      DepthMono(levels, side, a, b, kind, g, n - 1);
      WorthNonNegative(levels[n - 1], kind, g);
    }
  }

  /** Taking one more level from the end of the list adds what it is worth. */
  lemma {:induction false} DepthFromStep(levels: seq<PriceLevel>, k: nat, kind: AmountKind, g: nat, n: nat)
    requires k < n <= |levels|
    ensures Depth(levels, From(k), kind, g, n) == Depth(levels, From(k + 1), kind, g, n) + Worth(levels[k], kind, g)
    decreases n
  {
    if k == n - 1 {
      DepthFromNothing(levels, k, kind, g, k);
      DepthFromNothing(levels, k + 1, kind, g, k);
    } else {
      DepthFromStep(levels, k, kind, g, n - 1);
    }
  }

  lemma {:induction false} DepthFromNothing(levels: seq<PriceLevel>, k: nat, kind: AmountKind, g: nat, n: nat)
    requires n <= k && n <= |levels|
    ensures Depth(levels, From(k), kind, g, n) == 0
  {
    if n == 0 {
    } else {
      DepthFromNothing(levels, k, kind, g, n - 1);
    }
  }

  lemma BetterTransitive(side: Side, a: Decimal, b: Decimal, c: Decimal)
    requires AtOrBetter(side, a, b) && AtOrBetter(side, b, c)
    ensures AtOrBetter(side, a, c)
  {
    var s := DecimalPlaces(a) + DecimalPlaces(b) + DecimalPlaces(c);
    LessThanUnits(a, b, s);
    LessThanUnits(b, a, s);
    LessThanUnits(b, c, s);
    LessThanUnits(c, b, s);
    LessThanUnits(a, c, s);
    LessThanUnits(c, a, s);
  }

  lemma BetterTotal(side: Side, a: Decimal, b: Decimal)
    ensures AtOrBetter(side, a, b) || AtOrBetter(side, b, a)
  {
    var s := DecimalPlaces(a) + DecimalPlaces(b);
    LessThanUnits(a, b, s);
    LessThanUnits(b, a, s);
  }

  /**
    The price found by the walk is the tightest limit: a limit reaches enough liquidity exactly when
    the cutoff is within it. When the walk finds none, the whole book is short of the amount.
   */
  lemma {:induction false} WalkFindsTightest(levels: seq<PriceLevel>, side: Side, kind: AmountKind, amount: Decimal, g: nat, n: nat, sum: Decimal)
    requires OrderlyBook(levels, side) && Scale(levels, amount, g) && n <= |levels|
    requires Fits(sum, 2 * g) && Units(sum, 2 * g) == Depth(levels, From(n), kind, g, |levels|) < Units(amount, 2 * g)
    ensures Walk(levels, n, sum, kind, amount).Success?
    ensures match Walk(levels, n, sum, kind, amount).value
      case None => TotalDepth(levels, kind, g) < Units(amount, 2 * g)
      case Some(cutoff) =>
        && TotalDepth(levels, kind, g) >= Units(amount, 2 * g)
        && forall limit :: Covers(levels, side, limit, kind, amount, g) <==> AtOrBetter(side, cutoff, limit)
    decreases n
  {
    hide LessThan, Add, Units, Contribution, AtOrBetter, Depth, Within, Pow10;
    if n == 0 {
    } else {
      var price := levels[n - 1].price.value;
      var c := Contribution(price, levels[n - 1].size.value, kind);
      var next := Add(sum, c);
      ContributionIsWorth(levels[n - 1], kind, g);
      AddUnits(sum, c, 2 * g);
      DepthFromStep(levels, n - 1, kind, g, |levels|);
      LessThanUnits(next, amount, 2 * g);
      if LessThan(next, amount) {
        WalkFindsTightest(levels, side, kind, amount, g, n - 1, next);
      } else {
        DepthMono(levels, side, From(n - 1), From(0), kind, g, |levels|);
        forall limit
          ensures Covers(levels, side, limit, kind, amount, g) <==> AtOrBetter(side, price, limit)
        {
          CutoffDecides(levels, side, kind, amount, g, n - 1, limit);
        }
      }
    }
  }

  /** If the levels from k on cover the amount and those after k do not, level k decides. */
  lemma CutoffDecides(levels: seq<PriceLevel>, side: Side, kind: AmountKind, amount: Decimal, g: nat, k: nat, limit: Decimal)
    requires OrderlyBook(levels, side) && Fits(amount, 2 * g) && k < |levels|
    requires Depth(levels, From(k + 1), kind, g, |levels|) < Units(amount, 2 * g) <= Depth(levels, From(k), kind, g, |levels|)
    ensures Covers(levels, side, limit, kind, amount, g) <==> AtOrBetter(side, levels[k].price.value, limit)
  {
    var price := levels[k].price.value;
    var within := Within(levels, side, limit);
    if AtOrBetter(side, price, limit) {
      forall i | 0 <= i < |levels| && From(k)(i) ensures within(i) {
        BetterTransitive(side, levels[i].price.value, price, limit);
      }
      DepthMono(levels, side, From(k), within, kind, g, |levels|);
    } else {
      forall i | 0 <= i < |levels| && within(i) ensures From(k + 1)(i) {
        if i <= k {
          BetterTransitive(side, price, levels[i].price.value, limit);
        }
      }
      DepthMono(levels, side, within, From(k + 1), kind, g, |levels|);
    }
  }

  /** The whole resolution: the tightest limit, or the two outcomes of a short book. */
  lemma MarketPriceIsTightest(levels: seq<PriceLevel>, side: Side, kind: AmountKind, amount: Decimal, fillOrKill: bool, g: nat)
    requires |levels| > 0 && OrderlyBook(levels, side) && amount.coef > 0 && Scale(levels, amount, g)
    ensures var short := TotalDepth(levels, kind, g) < Units(amount, 2 * g);
            var r := MarketPrice(levels, kind, amount, fillOrKill);
            && (r == Failure(InsufficientLiquidity) <==> short && fillOrKill)
            && (short && !fillOrKill ==> r == Success(levels[0].price.value))
            && (!short ==> r.Success? && forall limit ::
                  Covers(levels, side, limit, kind, amount, g) <==> AtOrBetter(side, r.value, limit))
  {
    UnitsSign(amount, 2 * g);
    DepthFromNothing(levels, |levels|, kind, g, |levels|);
    WalkFindsTightest(levels, side, kind, amount, g, |levels|, ZERO);
  }

  // ---------------------------------------------------------------- levels that do not parse

  predicate Parses(level: PriceLevel) {
    level.price.Some? && level.size.Some?
  }

  /** The walk gets to level i: every later level parses, and from none of them on is there enough. */
  ghost predicate Reached(levels: seq<PriceLevel>, kind: AmountKind, amount: Decimal, g: nat, i: int)
    requires Fits(amount, 2 * g)
  {
    forall j :: i < j < |levels| && 0 <= j ==> Parses(levels[j]) && Depth(levels, From(j), kind, g, |levels|) < Units(amount, 2 * g)
  }

  ghost predicate MeetsBadPrice(levels: seq<PriceLevel>, kind: AmountKind, amount: Decimal, g: nat, n: nat)
    requires Fits(amount, 2 * g) && n <= |levels|
  {
    exists i :: 0 <= i < n && levels[i].price.None? && Reached(levels, kind, amount, g, i)
  }

  ghost predicate MeetsBadSize(levels: seq<PriceLevel>, kind: AmountKind, amount: Decimal, g: nat, n: nat)
    requires Fits(amount, 2 * g) && n <= |levels|
  {
    exists i :: 0 <= i < n && levels[i].price.Some? && levels[i].size.None? && Reached(levels, kind, amount, g, i)
  }

  lemma NotReachedPast(levels: seq<PriceLevel>, kind: AmountKind, amount: Decimal, g: nat, n: nat)
    requires 0 < n <= |levels| && Fits(amount, 2 * g)
    requires !Parses(levels[n - 1]) || Depth(levels, From(n - 1), kind, g, |levels|) >= Units(amount, 2 * g)
    ensures forall i :: 0 <= i < n - 1 ==> !Reached(levels, kind, amount, g, i)
  {
    hide Depth, Units, From;
  }

  lemma {:induction false} WalkMeetsBad(levels: seq<PriceLevel>, kind: AmountKind, amount: Decimal, g: nat, n: nat, sum: Decimal)
    requires Scale(levels, amount, g) && n <= |levels| && Reached(levels, kind, amount, g, n - 1)
    requires Fits(sum, 2 * g) && Units(sum, 2 * g) == Depth(levels, From(n), kind, g, |levels|)
    ensures Walk(levels, n, sum, kind, amount) == Failure(InvalidPrice) <==> MeetsBadPrice(levels, kind, amount, g, n)
    ensures Walk(levels, n, sum, kind, amount) == Failure(InvalidSize) <==> MeetsBadSize(levels, kind, amount, g, n)
    decreases n
  {
    hide LessThan, Add, Units, Contribution, Depth, From, Pow10;
    if n == 0 {
    } else if !Parses(levels[n - 1]) {
      NotReachedPast(levels, kind, amount, g, n);
    } else {
      var c := Contribution(levels[n - 1].price.value, levels[n - 1].size.value, kind);
      var next := Add(sum, c);
      ContributionIsWorth(levels[n - 1], kind, g);
      AddUnits(sum, c, 2 * g);
      DepthFromStep(levels, n - 1, kind, g, |levels|);
      LessThanUnits(next, amount, 2 * g);
      if LessThan(next, amount) {
        WalkMeetsBad(levels, kind, amount, g, n - 1, next);
      } else {
        NotReachedPast(levels, kind, amount, g, n);
      }
    }
  }

  /**
    Which errors a book gives, orderly or not: none offered, a first price that does not parse, or the first level
    from the best one on that does not parse before there is enough.
   */
  lemma BadLevelsDecide(levels: seq<PriceLevel>, kind: AmountKind, amount: Decimal, fillOrKill: bool, g: nat)
    requires Scale(levels, amount, g)
    ensures var r := MarketPrice(levels, kind, amount, fillOrKill);
            && (r == Failure(NoOpposingOrders) <==> levels == [])
            && (r == Failure(InvalidPrice) <==>
                  levels != [] && (levels[0].price.None? || MeetsBadPrice(levels, kind, amount, g, |levels|)))
            && (r == Failure(InvalidSize) <==>
                  levels != [] && levels[0].price.Some? && MeetsBadSize(levels, kind, amount, g, |levels|))
  {
    hide Walk, MeetsBadPrice, MeetsBadSize, Units;
    DepthFromNothing(levels, |levels|, kind, g, |levels|);
    UnitsSign(ZERO, 2 * g);
    if levels != [] {
      WalkMeetsBad(levels, kind, amount, g, |levels|, ZERO);
      WalkErrors(levels, |levels|, ZERO, kind, amount);
    }
  }

  lemma {:induction false} WalkErrors(levels: seq<PriceLevel>, n: nat, sum: Decimal, kind: AmountKind, amount: Decimal)
    requires n <= |levels|
    ensures var r := Walk(levels, n, sum, kind, amount);
            r.Success? || r == Failure(InvalidPrice) || r == Failure(InvalidSize)
  {
    hide Add, LessThan, Contribution;
    if n == 0 {
    } else if Parses(levels[n - 1]) {
      WalkErrors(levels, n - 1, Add(sum, Contribution(levels[n - 1].price.value, levels[n - 1].size.value, kind)), kind, amount);
    }
  }

  /** The value of d needs no more than `places` decimal places. */
  predicate OnGrid(d: Decimal, places: int) {
    -places <= d.exp || d.coef % Pow10(-places - d.exp) == 0
  }

  /**
    The builder truncates the resolved price to the tick's places. A seller's limit only gets looser.
    A buyer's limit still covers the amount exactly when the book's price lay on the tick's grid.
   */
  lemma TruncationKeepsCover(levels: seq<PriceLevel>, side: Side, kind: AmountKind, amount: Decimal, g: nat, tickScale: nat)
    requires |levels| > 0 && OrderlyBook(levels, side) && amount.coef > 0 && Scale(levels, amount, g)
    requires MarketPrice(levels, kind, amount, true).Success?
    ensures var price := MarketPrice(levels, kind, amount, true).value;
            Covers(levels, side, Truncate(price, tickScale), kind, amount, g) <==> side == Sell || OnGrid(price, tickScale)
  {
    MarketPriceIsTightest(levels, side, kind, amount, true, g);
    var price := MarketPrice(levels, kind, amount, true).value;
    WalkReturnsLevel(levels, |levels|, ZERO, kind, amount);
    TruncatedBelow(price, tickScale);
    hide Covers, Truncate, LessThan, Pow10;
  }

  lemma {:induction false} WalkReturnsLevel(levels: seq<PriceLevel>, n: nat, sum: Decimal, kind: AmountKind, amount: Decimal)
    requires n <= |levels|
    ensures var r := Walk(levels, n, sum, kind, amount);
            r.Success? && r.value.Some? ==>
              exists i :: 0 <= i < n && levels[i].price == r.value
  {
    if n == 0 {
    } else if levels[n - 1].price.Some? && levels[n - 1].size.Some? {
      var next := Add(sum, Contribution(levels[n - 1].price.value, levels[n - 1].size.value, kind));
      WalkReturnsLevel(levels, n - 1, next, kind, amount);
    }
  }

  lemma TruncatedBelow(d: Decimal, places: int)
    requires d.coef >= 0 && places >= 0
    ensures !LessThan(d, Truncate(d, places))
    ensures !LessThan(Truncate(d, places), d) <==> OnGrid(d, places)
  {
    var t := Truncate(d, places);
    if -places > d.exp {
      var k := -places - d.exp;
      TruncateCoef(d, places);
      assert Min(t.exp, d.exp) == d.exp;
      assert Rescale(d, d.exp).coef == d.coef * Pow10(0);
      assert Rescale(t, d.exp).coef == (d.coef / Pow10(k)) * Pow10(k);
      assert d.coef == (d.coef / Pow10(k)) * Pow10(k) + d.coef % Pow10(k);
    } else {
      assert Pow10(0) == 1;
    }
  }
}
