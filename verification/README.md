# A verified model of the Polymarket Go SDK's algorithmic core

The SDK is mostly HTTP and WebSocket plumbing around a handful of algorithms and state machines. This project
models those and proves what they promise: order amounts computed in decimal arithmetic, the book walk behind market
orders, the circuit breaker and the token bucket around HTTP calls, the two WebSocket subscription registries, the
idempotency key format, pagination, the market metadata cache, and the two backoff policies.

Objects whose methods change fields are classes (`OrderBuilder`, `CircuitBreaker`, `RateLimiter`, `RtdsClient`,
`WsClient`, `MarketCache`). Each method states its whole new state through a specification function on values; the
lemmas are about those functions and about whole runs of them. Concurrency is modelled by runs of atomic steps, one
per critical section of the code, in any order: `BreakerRuns`, `LimiterRuns`, `RtdsRuns`, `WsRuns`, `WsServer`.

| files | what they model |
|---|---|
| `Decimals`, `Division` | decimals as coefficient and exponent; why a rounded division truncates to an exact floor |
| `BookWalk`, `OrderBuilder`, `OrderTerms`, `OrderRefusals`, `OrderAmounts`, `Builder` | market price resolution, limit and market orders, what is accepted, refused and carried, what the amounts are worth, the builder object |
| `TickLimits`, `MarketOrderEdges` | how fine ticks may be; prices cut below the book, ticks of zero |
| `CircuitBreaker`, `BreakerRuns` | the breaker object; every interleaving of admissions, completions, resets and time |
| `RateLimiter`, `LimiterRuns` | the bucket object; every run under a clock that does not go backwards |
| `RtdsRegistry`, `RtdsRuns`, `RtdsPayloads`, `RtdsExact`, `RtdsTopics` | the four redundant maps of the live-data client; the maps together with the server, by payload, key and topic |
| `RefCounts`, `WsStreams`, `WsRuns`, `WsServer` | reference counts, stream opening and closing; their interleavings with the server |
| `Idempotency`, `Text` | canonical key printer and parser |
| `CursorPaging`, `CursorStream`, `OffsetPaging` | the pagination loops and the item stream |
| `MarketCache` | cached market metadata against the uncached server |
| `RetryBackoff`, `Reconnect` | the loops that double delays against their closed forms |

Some properties one would expect of the code are false. Each is stated with its exact condition and with inputs or
runs that show it fails:

- A market buy's quotient is the exact floor exactly for ticks of at most seven places (`QuotientExactIff`), and the
  order's amounts, which keep six places, exactly for ticks of at most ten (`MarketBuysExactIff`,
  `OverpricedIsNotExact`).
- A fill-or-kill buy priced from the book reaches its amount exactly if the book's cutoff has no more places than the
  tick (`FillOrKillReachesAmount`, `HalfCentFillOrKillFallsShort`).
- A market buy divides by zero exactly if it passes the checks with a truncated price of zero, which happens exactly for
  ticks that are not positive, such as that of a reply without a minimum (`PanicIff`, `TickPanicsIff`, `ZeroTickPanics`).
- Looks at a limiter's available tokens before `Stop` leave later decisions as they were exactly if the whole tokens
  frozen cover as many acquires (`PeeksBeforeStopIff`, `LookLetsSecondThrough`).
- When calls interleave with a resubscribe of the live-data client, the server matches the client exactly if every key
  of the snapshot still has a subscriber (`ResendMatchesIff`, `StaleKeyReachable`); a missing key is repaired by a
  subscribe exactly if it has no subscriber yet (`SubscribeRepairsIff`, `UnrepairedReachable`); all topics are
  told exactly if no two share a key through `|` (`TopicsToldIff`, `SharedKeyIsNotTold`).
- A market stream's asset stays known to the server exactly through harmless steps (`StepKnownIff`,
  `KnownThroughoutIff`); four runs show the ways out (`OpenBeforeAnnounced`, `LeakSilencesLaterStreams`,
  `LossesAreReachable`).
- Idempotency parts read back exactly if none contains `;` (`CanonicalReadsBack`), and share a form with others exactly
  if its marks can be read elsewhere (`CollidesIff`, `BuiltKeysCollide`).
- Offset pagination is complete exactly if the limit fits the server's pages or one page is enough, and ends exactly for
  positive limits (`CompleteIff`, `CutPageLosesItem`, `StopsIffLimitPositive`).
- The minimum tick of a cached reply repeats the first reply's exactly if that gave one or nothing (`MinimumRepeatsIff`,
  `MinimumAppears`).
- The retry backoff is its closed form exactly for caps up to the largest 64-bit doubling of the base
  (`BackoffIsCappedIff`, `HugeCapWraps`).
- The reconnect loop's sleeps are the policy's exactly if the base is within the cap, and its attempts the policy's
  exactly if their number is not zero (`SleepsFollowPolicyIff`, `FirstSleepIgnoresCap`, `SameAttemptsIff`,
  `NoAttemptsNeverGivesUp`).

`dafny verify dfyconfig.toml` checks everything.

## Model

| member | source | states |
|---|---|---|
| `OrderAmounts.LimitOrderIsExact` | pkg/clob/order_builder.go:400-462 | For every accepted limit order with a positive tick of t places, the share side is the size in base units and the collateral is the exact floor of price × size, below the share count; for t ≤ 4 it equals price × size and is positive. |
| `OrderAmounts.MarketShareOrderIsExact` | pkg/clob/order_builder.go:319-338 | Market orders for shares, buying or selling, satisfy the same exactness for the price they are computed with, whether given or taken from the book. |
| `OrderTerms.LimitTerms` | pkg/clob/order_builder.go:400-525 | A limit order is built if and only if the choices are acceptable (texts, tick, fee, maker, positive price and size on their places and in bounds, no past expiration), and carries them: side, token, accounts, fee, nonce, salt, signature type, expiration. |
| `OrderTerms.MarketTerms` | pkg/clob/order_builder.go:238-398 | The same for market orders: built if and only if acceptable and priced, FOK if asked for and FAK otherwise, neither expiring nor post-only. |
| `OrderRefusals.LimitRefusals` | pkg/clob/order_builder.go:400-508 | A limit order is refused with the error of the first thing wrong with the choices, and built if nothing is. |
| `OrderRefusals.MarketRefusals` | pkg/clob/order_builder.go:238-377 | The same for market orders, with the book's errors and the division by zero. |
| `OrderRefusals.SignableRefusals` | pkg/clob/order_builder.go:208-223 | The same for signable limit orders, with what their type does not allow. |
| `OrderTerms.BookPriceIsTightest` | pkg/clob/order_builder_resolve.go:98-148 | A built order without a price of the caller's, FAK or FOK, for either kind of amount, is priced from the side it takes from: with the tightest limit that reaches the amount, or, not fill-or-kill, with the first level's price if that side is short; cut at the tick's places. |
| `OrderTerms.GivenPriceIsUsed` | pkg/clob/order_builder.go:296-308 | A price given on the tick's places is used as it is. |
| `OrderTerms.SideLaw` | pkg/clob/order_builder.go:245-248 | The side is buy or sell if and only if the trimmed upper-case text is BUY or SELL, and an error otherwise. |
| `OrderTerms.TypeLaw` | pkg/clob/order_payload.go:132-139 | The order type is the given text trimmed and in capitals, or the default if it is blank. |
| `Text.ParsesWhatIsWritten` | pkg/clob/order_builder.go:281-284 | Reading a number written in digits, with either sign or none, gives that number. |
| `Text.ParsesDigitsOnly` | pkg/clob/order_builder.go:281-284 | Nothing but digits after at most one sign is read as a number. |
| `OrderTerms.TickLaw` | pkg/clob/order_builder_resolve.go:17-48 | The tick is the caller's if given and the market's otherwise; there is one if and only if either is known and the caller's is not below the market's. |
| `OrderTerms.FeeLaw` | pkg/clob/order_builder_resolve.go:50-84 | A positive fee of the market's prevails, and must equal a positive one of the caller's; otherwise the caller's whole number is used; every other case fails. |
| `OrderTerms.UserFeeLaw` | pkg/clob/order_builder_resolve.go:177-186 | The caller's fee is accepted if and only if it is a whole number, those not above zero counting as zero. |
| `OrderTerms.MakerLaw` | pkg/clob/order_builder.go:469-486 | The maker is the one given, else a non-zero funder of a wallet type, else the wallet of the signature type; every other case fails. |
| `OrderTerms.BoundsLaw` | pkg/clob/order_builder.go:433-436 | Prices are in bounds if and only if they lie between the tick and one minus the tick. |
| `OrderAmounts.MarketBuyIsExactFloor` | pkg/clob/order_builder.go:323-338 | A market buy for an amount of collateral, with a positive tick of at most ten places, has that amount as maker amount, and as taker amount the largest multiple of 10^max(4-t,0) base units the amount pays for. |
| `OrderAmounts.DivisionTruncatesExactly` | pkg/clob/order_builder.go:324-326 | For t ≤ 7 the sixteen-place rounded quotient truncated to t + 2 places is the exact floor of amount / price. |
| `TickLimits.QuotientExactIff` | pkg/clob/order_builder.go:308-326 | Over all accepted prices and amounts, the truncated quotient is the exact floor at t + 2 places if and only if t ≤ 7. |
| `TickLimits.QuotientIsFloorIff` | pkg/clob/order_builder.go:324-326 | For one accepted price and amount, up to fourteen places, the truncated quotient is the exact floor if and only if the sixteenth place is not rounded up onto a multiple of the truncation unit. |
| `TickLimits.CarriedIsNotFloor` | pkg/clob/order_builder.go:324-326 | For every t from eight to fourteen, the amount (10^t - 10001) × 10^-6 at the tick's highest price is rounded up past the floor. |
| `TickLimits.CutShortIsNotFloor` | pkg/clob/order_builder.go:324-326 | For every t of fifteen or more, t + 2 places are more than the division keeps: 1 / 0.3 falls short of the floor. |
| `TickLimits.MarketBuysExactIff` | pkg/clob/order_builder.go:238-398 | Over all market buys that are built with a positive tick of t places, the taker amount is the largest the collateral pays for if and only if t ≤ 10. |
| `TickLimits.OverpricedIsNotExact` | pkg/clob/order_builder.go:238-398 | For every t of eleven or more, an order that is built, without a market, whose taker amount costs more than its maker amount: up to sixteen places (10^t - 2) × 10^-6 at the tick's highest price, beyond that a dollar at a price just over ten elevenths. |
| `TickLimits.OverpricedBuilds` | pkg/clob/order_builder.go:238-398 | That order passes every check of the builder. |
| `OrderAmounts.UsdcFixedUnits` | pkg/clob/order_builder_resolve.go:172-175 | Converting the truncated quotient to base units is one floor at min(t + 2, 6) places, for t ≤ 10. |
| `OrderAmounts.ToFixedExact` | pkg/clob/order_builder_resolve.go:172-175 | A non-negative amount with at most six places keeps its value when converted to base units. |
| `OrderAmounts.ToFixedUnits` | pkg/clob/order_builder_resolve.go:172-175 | A finer amount is converted to the whole number of base units below it. |
| `OrderAmounts.CollateralIsWhole` | pkg/clob/order_builder.go:451-459 | A two-place size times a price with at most four places is a whole number of base units, so both truncations are lossless. |
| `OrderAmounts.PositiveTickNeverPanics` | pkg/clob/order_builder.go:308-326 | With a positive tick the bounds check keeps the price positive, so building a market order never divides by zero. |
| `OrderAmounts.FillOrKillReachesAmount` | pkg/clob/order_builder.go:301-312 | A fill-or-kill order priced from the book is built only if the book holds the amount; the truncated price still reaches the amount when selling, and when buying exactly if the book's cutoff has no more places than the tick. |
| `MarketOrderEdges.HalfCentFillOrKillFallsShort` | pkg/clob/order_builder.go:301-312 | With a tick of a cent over a market tick of a tenth of a cent and ten shares asked at 50.5 cents, a fill-or-kill buy of ten is built at 50 cents, which reaches nothing. |
| `MarketOrderEdges.PanicIff` | pkg/clob/order_builder.go:242-326 | Building a market order divides by zero if and only if it is a buy for collateral that passes the earlier checks, each named, with a truncated price of zero. |
| `MarketOrderEdges.TickPanicsIff` | pkg/clob/order_builder.go:286-326 | For a given tick, some market order divides by zero if and only if the tick is not positive. |
| `MarketOrderEdges.ShareOrdersNeverPanic` | pkg/clob/order_builder.go:327-332 | Orders for shares never divide. |
| `MarketOrderEdges.ZeroTickPanics` | pkg/clob/order_builder_resolve.go:33-41 | A tick reply without a minimum reads as zero, and then a dollar's buy from an ask at one half divides by zero. |
| `Division.RoundingStaysBelowBoundary` | pkg/clob/order_builder.go:324-326 | Rounding a quotient half up cannot carry it over a truncation boundary when dividend and boundary share a divisor above half of the divisor. |
| `Division.RoundingShowsIff` | pkg/clob/order_builder.go:324-326 | For one division, the rounding shows after truncation if and only if it rounds up onto a multiple of the truncation unit. |
| `Division.TruncatedQuotient` | pkg/clob/order_builder.go:324-326 | Divide and truncate is the floor quotient whenever the divisor's coefficient is below a power of ten shared by both scales. |
| `BookWalk.ResolveMarketPrice` | pkg/clob/order_builder_resolve.go:108-148 | The backward loop with its running sum and early exit computes the specified walk, with the same error for an empty book, a bad price, a bad size and a short book. |
| `BookWalk.MarketPriceIsTightest` | pkg/clob/order_builder_resolve.go:117-148 | On an orderly book and a positive amount, counting size × price for collateral and size for shares, a limit price reaches enough liquidity if and only if the returned price is within it; fill-or-kill fails exactly when the whole book is short, and otherwise a short book gives the first level's price. |
| `BookWalk.WalkFindsTightest` | pkg/clob/order_builder_resolve.go:119-140 | The same from any point of the walk: what has been summed is the liquidity of the levels passed. |
| `BookWalk.ScaleExists` | pkg/clob/order_builder_resolve.go:130-136 | Every book and amount have a common scale, so the optimality statement is about every book. |
| `BookWalk.ContributionIsWorth` | pkg/clob/order_builder_resolve.go:130-134 | What the walk adds for a level is its size times its price when the amount is collateral, and its size when it is shares. |
| `BookWalk.BadLevelsDecide` | pkg/clob/order_builder_resolve.go:108-128 | Which error any book gives: none offered if and only if it is empty; a bad price or a bad size if and only if the first price, or a level reached before there is enough, does not parse. |
| `BookWalk.TruncationKeepsCover` | pkg/clob/order_builder.go:308 | Truncating the cutoff to the tick's places keeps the amount reachable for a seller always and for a buyer exactly if nothing was cut. |
| `Builders.OrderBuilder.constructor` | pkg/clob/order_builder.go:63-78 | A new builder has no choices but the client's default signature type and funder. |
| `Builders.OrderBuilder.TokenID` | pkg/clob/order_builder.go:81-84 | Sets the token and nothing else. |
| `Builders.OrderBuilder.Side` | pkg/clob/order_builder.go:87-90 | Sets the side text and nothing else. |
| `Builders.OrderBuilder.PriceDec` | pkg/clob/order_builder.go:99-102 | Sets the price and nothing else. |
| `Builders.OrderBuilder.SizeDec` | pkg/clob/order_builder.go:111-114 | Sets the size and nothing else. |
| `Builders.OrderBuilder.FeeRateBpsDec` | pkg/clob/order_builder.go:123-126 | Sets the fee rate and nothing else. |
| `Builders.OrderBuilder.TickSize` | pkg/clob/order_builder.go:129-132 | Sets the tick override and nothing else. |
| `Builders.OrderBuilder.Nonce` | pkg/clob/order_builder.go:135-138 | Sets or takes back the nonce and changes nothing else. |
| `Builders.OrderBuilder.Maker` | pkg/clob/order_builder.go:141-144 | Sets the maker and nothing else. |
| `Builders.OrderBuilder.Taker` | pkg/clob/order_builder.go:147-150 | Sets the taker and nothing else. |
| `Builders.OrderBuilder.OrderType` | pkg/clob/order_builder.go:153-156 | Sets the order type and nothing else. |
| `Builders.OrderBuilder.PostOnly` | pkg/clob/order_builder.go:159-162 | Sets the post-only flag and nothing else. |
| `Builders.OrderBuilder.ExpirationUnix` | pkg/clob/order_builder.go:165-168 | Sets the expiration and nothing else. |
| `Builders.OrderBuilder.AmountUSDC` | pkg/clob/order_builder.go:171-177 | Sets a collateral amount and nothing else. |
| `Builders.OrderBuilder.AmountShares` | pkg/clob/order_builder.go:180-186 | Sets a share amount and nothing else. |
| `Builders.OrderBuilder.UseProxy` | pkg/clob/order_builder_resolve.go:238-242 | Sets the proxy signature type and nothing else. |
| `Builders.OrderBuilder.UseSafe` | pkg/clob/order_builder_resolve.go:245-249 | Sets the safe signature type and nothing else. |
| `Builders.OrderBuilder.Build` | pkg/clob/order_builder.go:189-200 | An order is built if and only if the choices are acceptable; it carries them, its side that of the text; on a positive tick its collateral is the exact floor of price × size and its share side the size. Building changes nothing in the builder. |
| `Builders.OrderBuilder.BuildSignable` | pkg/clob/order_builder.go:203-230 | Succeeds if and only if the choices are acceptable, the type reads GTD exactly when the order expires, and post-only orders read GTC or GTD; type and flag are those chosen, and the order is the limit order, exactly priced. |
| `Builders.OrderBuilder.BuildMarket` | pkg/clob/order_builder.go:233-398 | Built if and only if the choices are acceptable, carrying them, FOK if asked for and else FAK, never post-only or expiring, sold by shares only, exactly priced on a positive tick (for collateral: of at most ten places); a positive tick never divides by zero. |
| `Builders.LastCallDecides` | pkg/clob/order_builder.go:80-186 | After any run of setters every field holds what its last call said, and what it held before if there was none. |
| `Builders.OnlyLastCallsMatter` | pkg/clob/order_builder.go:80-186 | Two runs of setters are interchangeable on every builder if and only if they agree on the last call about each field: order does not matter, and AmountUSDC and AmountShares, or UseProxy and UseSafe, override each other. |
| `CircuitBreakers.CircuitBreaker.constructor` | pkg/transport/circuitbreaker.go:65-82 | A new breaker is closed with zero counters and defaulted limits. |
| `CircuitBreakers.CircuitBreaker.BeforeRequest` | pkg/transport/circuitbreaker.go:112-141 | The admission section: verdict and whole new state, including the move from open to half-open. |
| `CircuitBreakers.CircuitBreaker.RecordFailure` | pkg/transport/circuitbreaker.go:164-180 | Whole new state after a counted failure in each state. |
| `CircuitBreakers.CircuitBreaker.RecordSuccess` | pkg/transport/circuitbreaker.go:183-196 | Whole new state after a success in each state. |
| `CircuitBreakers.CircuitBreaker.AfterRequestWithPolicy` | pkg/transport/circuitbreaker.go:148-161 | An error that does not count is recorded as a success. |
| `CircuitBreakers.CircuitBreaker.Reset` | pkg/transport/circuitbreaker.go:213-221 | Closes and zeroes the counters, keeping the last failure time. |
| `CircuitBreakers.CircuitBreaker.Call` | pkg/transport/circuitbreaker.go:85-93 | Runs the function exactly if admitted, and then records its outcome. |
| `CircuitBreakers.CircuitBreaker.CallWithFailurePredicate` | pkg/transport/circuitbreaker.go:97-109 | The same with the caller's judgement of the error. |
| `BreakerRuns.ReachableInv` | pkg/transport/circuitbreaker.go:112-221 | The invariant of all runs: counters in range, half-open requests at most successes plus probes in flight, failure times, failure log. |
| `BreakerRuns.ReachableCounters` | pkg/transport/circuitbreaker.go:112-221 | Closed means failures below the maximum; otherwise failures equal it; half-open means no half-open failure, between one and the limit requests, and successes below the limit. |
| `BreakerRuns.RejectionMeansProbeInFlight` | pkg/transport/circuitbreaker.go:131-136 | In every interleaving, "too many requests" means some call admitted in this half-open episode has not completed. |
| `BreakerRuns.QuietBreakerRejectsOnlyWhenOpen` | pkg/transport/circuitbreaker.go:112-141 | With nothing in flight, as for calls that do not overlap, "too many requests" is never returned. |
| `BreakerRuns.OpenAdmitsAfterTimeout` | pkg/transport/circuitbreaker.go:120-129 | An open breaker admits a call if and only if every failure ever recorded is older than the timeout. |
| `BreakerRuns.ClosedCountsTrailingFailures` | pkg/transport/circuitbreaker.go:164-196 | While closed, the failure count is the trailing run of counted failures since the last success, uncounted error, close or reset. |
| `BreakerRuns.OpensOnTheLastFailureInARow` | pkg/transport/circuitbreaker.go:168-172 | A completion opens a closed breaker if and only if it is the maxFailures-th counted failure in a row. |
| `BreakerRuns.RunFollowsHistory` | pkg/transport/circuitbreaker.go:112-221 | After every run, each step's new state and each verdict follow from what was observed: failures in a row, failure times, probes admitted and passes in this half-open episode. A counted failure reopens a half-open breaker, the halfOpenMaxReqs-th other completion closes it, and only a reset or a call after the timeout leaves open. |
| `BreakerRuns.FailedProbeReopens` | pkg/transport/circuitbreaker.go:174-178 | After a failed probe, whatever follows short of a reset, every call is refused until the timeout has passed. |
| `BreakerRuns.RecoversAfterTimeout` | pkg/transport/circuitbreaker.go:183-196 | From any reachable state with nothing in flight and the timeout over, at most halfOpenMaxReqs successful calls close the breaker. |
| `RateLimiters.RateLimiter.constructor` | pkg/transport/ratelimit.go:20-31 | A new bucket is full, with ten requests per second for limits below one. |
| `RateLimiters.RateLimiter.RefillTokens` | pkg/transport/ratelimit.go:104-123 | Credits the elapsed time up to the capacity, and nothing once stopped. |
| `RateLimiters.RateLimiter.Acquire` | pkg/transport/ratelimit.go:82-93 | Refills and takes a token if there is one. |
| `RateLimiters.RateLimiter.Wait` | pkg/transport/ratelimit.go:39-78 | The retry loop over the moments it holds the lock: granted, cancelled by Stop, or ended by the context, with the number of passes. |
| `RateLimiters.RateLimiter.Stop` | pkg/transport/ratelimit.go:96-100 | Marks the bucket stopped and changes nothing else. |
| `RateLimiters.RateLimiter.Available` | pkg/transport/ratelimit.go:132-138 | Refills and reports the whole tokens at hand. |
| `RateLimiters.RefillTwice` | pkg/transport/ratelimit.go:104-123 | Refilling at t1 and then at t2 is refilling once at t2. |
| `RateLimiters.UncontendedWaitTakesTwoPasses` | pkg/transport/ratelimit.go:59-72 | Alone, a waiter is granted a token on its first pass if one is there and otherwise on its second, because the computed sleep is enough. |
| `RateLimiters.WaitOutcomes` | pkg/transport/ratelimit.go:39-78 | Waiting alone: cancelled if and only if the limiter is stopped; granted if and only if some reading finds a token, at the first that does and for exactly one token; otherwise the context ends it. |
| `RateLimiters.SleepIsExact` | pkg/transport/ratelimit.go:59-61 | The computed sleep earns exactly the missing part of a token. |
| `LimiterRuns.TokensStayInRange` | pkg/transport/ratelimit.go:39-138 | In every run with a non-decreasing clock tokens stay within zero and the capacity. |
| `LimiterRuns.WindowBound` | pkg/transport/ratelimit.go:39-138 | In every run and every window (s, t], grants are at most capacity + rate × (t - s). |
| `LimiterRuns.LimiterWindowBound` | pkg/transport/ratelimit.go:20-31 | The same for a limiter as constructed, with its fallback rate. |
| `LimiterRuns.TokensAreAccounted` | pkg/transport/ratelimit.go:104-123 | In runs without Stop that never fill the bucket, tokens left and tokens granted add up to tokens at first and credit earned. |
| `LimiterRuns.PeeksChangeNothing` | pkg/transport/ratelimit.go:132-138 | In runs without Stop, removing every look at the available tokens leaves every decision as it was. |
| `LimiterRuns.PeeksBeforeStopIff` | pkg/transport/ratelimit.go:95-108 | In any run that is stopped, with looks anywhere, the looks leave every decision as it was if and only if the whole tokens frozen with and without them cover equally many of the acquires after Stop. |
| `LimiterRuns.LookLetsSecondThrough` | pkg/transport/ratelimit.go:20-138 | A run of a new limiter in which a look before Stop lets a second acquire through, though a token is left either way. |
| `RtdsRegistries.RtdsClient.constructor` | pkg/rtds/impl.go:80-93 | Starts with four empty maps. |
| `RtdsRegistries.RtdsClient.SubscribeRaw` | pkg/rtds/subscriptions.go:240-283 | Rejects blank topics, fails before the connection, sends only for the first subscriber of a key, registers nothing if that send fails, and otherwise adds one entry to all four maps. |
| `RtdsRegistries.RtdsClient.UnsubscribeByID` | pkg/rtds/subscriptions.go:285-318 | Removes the entry from all maps even if the send fails, sends exactly when the last subscriber leaves, closes the entry; unknown ids change nothing. |
| `RtdsRegistries.RtdsClient.UnsubscribeTopic` | pkg/rtds/subscriptions.go:320-334 | Removes some one subscriber of the key if there is any. |
| `RtdsRegistries.RtdsClient.CloseAllSubscriptions` | pkg/rtds/subscriptions.go:336-351 | Empties the maps and closes every entry. |
| `RtdsRegistries.RtdsClient.ResubscribeAll` | pkg/rtds/impl.go:318-331 | The frame lists exactly the recorded subscriptions, one per key, and is sent only if there are any. |
| `RtdsRegistries.SubscribedConsistent` | pkg/rtds/subscriptions.go:257-280 | Subscribing keeps the four maps consistent and adds exactly its key. |
| `RtdsRegistries.UnsubscribedConsistent` | pkg/rtds/subscriptions.go:285-314 | Unsubscribing keeps them consistent, removes the key and sends exactly when the id was its only subscriber. |
| `RtdsRegistries.IdTextInjective` | pkg/rtds/subscriptions.go:266 | Written-out entry ids never collide, whatever the key contains. |
| `RtdsRegistries.KeysInjectiveWithoutBar` | pkg/rtds/subscriptions.go:221-223 | Keys tell apart all topics without the separator. |
| `RtdsRegistries.BarredTopicsCollide` | pkg/rtds/subscriptions.go:221-223 | Every topic that contains the separator shares its key with a different topic. |
| `RtdsRuns.MapsAgree` | pkg/rtds/subscriptions.go:240-351 | In every reachable state a key is counted exactly if it has details, a bucket and a registered entry; the count is the bucket's size, at least one, and the buckets split the main map. |
| `RtdsRuns.RunKeepsInv` | pkg/rtds/subscriptions.go:240-351 | The consistency of the maps and what the server is known to hold are kept by every run. |
| `RtdsPayloads.RecordedIsLastMade` | pkg/rtds/subscriptions.go:263-304 | In every run, what is recorded for a key, payload included, is the last subscription made for it unless all its subscribers have left since. |
| `RtdsPayloads.ResubscribeCarriesLastMade` | pkg/rtds/impl.go:318-331 | So what a resubscribe lists are exactly those subscriptions. |
| `RtdsPayloads.BlankIsRefused` | pkg/rtds/subscriptions.go:241-243 | Subscriptions are refused if and only if the topic or the type is blank. |
| `RtdsRuns.ServerKnowsEveryKey` | pkg/rtds/impl.go:146-179 | Whenever the client is connected and resubscribed, the server has every key the client has subscribers for, even if unsubscribes failed or calls interleaved with the resubscribe. |
| `RtdsRuns.ServerMatchesInSmoothRuns` | pkg/rtds/impl.go:318-331 | When sends succeed and the snapshot is sent at once, as the design has it, the server has exactly those keys. |
| `RtdsExact.ServerHoldsClientAndStale` | pkg/rtds/impl.go:318-331 | In every run whose writes succeed, however calls interleave with resubscribes, the server holds the client's keys and, disjoint from them, the keys of late snapshots not subscribed since; it matches the client if and only if there are none. |
| `RtdsExact.ResendMatchesIff` | pkg/rtds/impl.go:318-331 | In such a run, sending a snapshot makes the server match the client if and only if every key in it still has a subscriber. |
| `RtdsExact.StaleKeyReachable` | pkg/rtds/impl.go:318-331 | A run without any failure that leaves a key at the server for no subscriber, for any subscription. |
| `RtdsExact.SubscribeRepairsIff` | pkg/rtds/subscriptions.go:257-261 | In every reachable state, a subscribe makes the server learn a key it lacks if and only if the client had no subscriber of it and the write arrives. |
| `RtdsExact.UnrepairedReachable` | pkg/rtds/impl.go:328-330 | A run with one failed resubscribe after which a further subscriber leaves the key unknown to the server. |
| `RtdsTopics.TopicsToldIff` | pkg/rtds/subscriptions.go:221-264 | For any collection of subscriptions a client may make: in every run of them the server is told every registered topic and type when connected and resubscribed, if and only if no two well-formed ones share a key without sharing the topic and type. |
| `RtdsTopics.ServerKnowsEveryTopic` | pkg/rtds/subscriptions.go:252-264 | For one run: the same, as long as no two well-formed subscriptions of that run share a key without sharing the topic and type. |
| `RtdsTopics.BareTopicsHaveOwnKeys` | pkg/rtds/subscriptions.go:221-223 | Runs whose topics lack the separator meet that condition. |
| `RtdsTopics.SharedKeyIsNotTold` | pkg/rtds/subscriptions.go:252-261 | For any two such subscriptions, a run from the start, without any failure, that registers both and never tells the server of the second. |
| `RefCounts.AddRefs` | pkg/clob/ws/subscriptions.go:466-476 | The loop over the list computes the specified counts and announcements. |
| `RefCounts.RemoveRefs` | pkg/clob/ws/subscriptions.go:485-497 | The loop over the list computes the specified counts and dropped ids. |
| `RefCounts.AddedCounts` | pkg/clob/ws/subscriptions.go:467-475 | Adding a list raises each id's count by its mentions, empty ids excepted. |
| `RefCounts.FreshExact` | pkg/clob/ws/subscriptions.go:471-473 | The ids announced are exactly those that go from none to some, each once. |
| `RefCounts.RemovedCounts` | pkg/clob/ws/subscriptions.go:486-496 | Removing a list lowers each id's count by its mentions, not below zero. |
| `RefCounts.DroppedExact` | pkg/clob/ws/subscriptions.go:488-494 | The ids dropped are exactly those that go from some to none, each once. |
| `RefCounts.RemoveUndoesAdd` | pkg/clob/ws/subscriptions.go:457-498 | Removing a list just added restores the counts and drops exactly the ids that were announced. |
| `RefCounts.AddedIgnoresOrder` | pkg/clob/ws/subscriptions.go:467-475 | Lists that are permutations of each other give the same counts. |
| `WsStreams.SubscriptionEntry.Close` | pkg/clob/ws/subscription_manager.go:97-111 | Closes the entry and reports whether this call was the first. |
| `WsStreams.CloseSubMap` | pkg/clob/ws/subscription_manager.go:138-145 | Closes every entry and empties the map. |
| `WsStreams.WsClient.constructor` | pkg/clob/ws/impl.go:113-161 | Starts with no references, no streams and no remembered credentials. |
| `WsStreams.WsClient.AddMarketRefs` | pkg/clob/ws/subscriptions.go:457-477 | Counts and announcements of the list; custom features stick once asked for with a non-empty list. |
| `WsStreams.WsClient.RemoveMarketRefs` | pkg/clob/ws/subscriptions.go:479-498 | Counts and dropped assets of the list. |
| `WsStreams.WsClient.AddUserRefs` | pkg/clob/ws/subscriptions.go:500-521 | The same counts for user markets; given credentials are remembered unless the list is empty. |
| `WsStreams.WsClient.RemoveUserRefs` | pkg/clob/ws/subscriptions.go:523-542 | The same for user markets. |
| `WsStreams.WsClient.SubscribeMarketStream` | pkg/clob/ws/subscriptions.go:275-308 | Counts the list before connecting, announces only new assets, registers one new entry on success; failures register nothing and keep the counts. |
| `WsStreams.WsClient.CloseMarketStream` | pkg/clob/ws/subscriptions.go:374-393 | The first close gives the references back once and sends the dropped assets if there are any and there is a connection; later closes change nothing. |
| `WsStreams.WsClient.SnapshotSubscriptionRefs` | pkg/clob/ws/subscriptions.go:544-561 | Lists every counted asset and market exactly once, with the feature flag and the remembered credentials. |
| `WsStreams.WsClient.CloseAllStreams` | pkg/clob/ws/lifecycle.go:221-238 | Closes every stream without giving references back. |
| `WsRuns.CountsAreMentions` | pkg/clob/ws/subscriptions.go:275-393 | In every interleaving an asset's count is exactly its mentions in the streams being opened, open, being closed, failed after counting, or abandoned by shutdown. |
| `WsRuns.CountsCoverOpenStreams` | pkg/clob/ws/subscriptions.go:275-393 | So counts are at least what open streams need, and equal once nothing is half done or leaked. |
| `WsServer.ShutdownKeepsCounts` | pkg/clob/ws/lifecycle.go:221-238 | Shutting down leaves no stream open and every count as it was. |
| `WsRuns.ServerFollowsOpenStreams` | pkg/clob/ws/lifecycle.go:164-174 | After every open, close and reconnect of a sequential successful run, the server's assets are exactly those of open streams. |
| `WsServer.StepKnownIff` | pkg/clob/ws/lifecycle.go:117-184 | Unless a reconnect awaits its snapshot, every counted asset is at the server, in the snapshot about to be sent, or about to be announced; a step keeps this if and only if it is harmless: no relied-on announcement or snapshot is lost, no connection is made by opening past counted assets, no late unsubscribe names an asset counted again. |
| `WsServer.KnownThroughoutIff` | pkg/clob/ws/lifecycle.go:117-184 | A whole run, with opening, closing, dialling, snapshot and resending in any interleaving, keeps every counted asset known at every moment if and only if each of its steps is harmless. |
| `WsServer.OpenStreamsAreServed` | pkg/clob/ws/subscriptions.go:275-308 | After a harmless run, once connected and resubscribed, every asset of an open stream is at the server unless another stream is still about to announce it; once none is opening, all are. |
| `WsServer.OpenBeforeAnnounced` | pkg/clob/ws/subscriptions.go:279-291 | A run in which a second stream is open before the first has announced their common asset. |
| `WsServer.LeakSilencesLaterStreams` | pkg/clob/ws/subscriptions.go:279-291 | A run in which a failed announcement leaves the asset counted, so that a later open stream's asset is never announced. |
| `WsServer.LossesAreReachable` | pkg/clob/ws/subscriptions.go:279-392 | From the start, one stream leads to both the late unsubscribe and the forgetful connection. |
| `WsRuns.LateUnsubscribeCutsOffNewStream` | pkg/clob/ws/subscriptions.go:378-392 | From any synchronized state, a stream opened between another's last release and its unsubscribe write ends up open and counted but unknown to the server. |
| `WsRuns.ConnectingByOpeningForgetsAssets` | pkg/clob/ws/subscriptions.go:279-291 | A connection made while opening a stream lacks every asset counted before. |
| `Idempotency.ParseIdempotencyCanonical` | pkg/execution/idempotency.go:86-120 | The loop filling the lookup computes the specified parse. |
| `Text.CaseLaws` | pkg/execution/idempotency.go:122-124 | Lowering leaves no capitals and changes nothing but case; raising likewise. |
| `Text.LettersKeepPlace` | pkg/execution/idempotency.go:122-124 | Letters keep their place in the alphabet when their case changes. |
| `Text.SpaceAndNot` | pkg/execution/idempotency.go:122-124 | Which characters trim away, and that no visible ASCII character does. |
| `Idempotency.CanonicalReadsBack` | pkg/execution/idempotency.go:64-120 | Parsing the canonical form of any normalized parts gives back exactly those parts if none contains ';' and an error otherwise. |
| `Idempotency.BuiltKeyReadsBack` | pkg/execution/idempotency.go:48-120 | The same for every key that can be built. |
| `Idempotency.BuiltKeysAreDistinct` | pkg/execution/idempotency.go:48-76 | Inputs with different normalized parts, one side without ';', get different canonical forms, and different values unless their digests collide. |
| `Idempotency.SemicolonsCollide` | pkg/execution/idempotency.go:64 | With ';' allowed, a separator can be moved between neighbouring parts without changing the canonical form. |
| `Idempotency.CollidesIff` | pkg/execution/idempotency.go:64 | Parts share their canonical form with other parts of any class if and only if the two inner marks occur in it at other places that leave pieces of the class. |
| `Idempotency.BuiltKeyCollidesIff` | pkg/execution/idempotency.go:48-76 | The same for parts that can be built; such parts contain ';'. |
| `Idempotency.BuildableIff` | pkg/execution/idempotency.go:48-62 | Which parts can be built: trimmed, non-empty, lower-case scope, at most 128 bytes each. |
| `Idempotency.BuildErrors` | pkg/execution/idempotency.go:48-76 | Each missing part gives its error, in order, if and only if it is blank; a built key's version, digest and value are those of its canonical form. |
| `Idempotency.ByteLengthLaws` | pkg/execution/idempotency.go:61 | Lengths are in bytes: they add up, and equal the characters for ASCII. |
| `Idempotency.BuiltKeysCollide` | pkg/execution/idempotency.go:64 | Short buildable parts give two different buildable keys with one canonical form. |
| `Idempotency.ParserAccepts` | pkg/execution/idempotency.go:86-120 | A text is accepted if and only if it is three ';'-free key=value parts carrying the three required keys in some order. |
| `Idempotency.AcceptsPermutations` | pkg/execution/idempotency.go:97-119 | Each accepted part's value lands in the field its key names. |
| `Idempotency.PartsInAnyOrder` | pkg/execution/idempotency.go:92-119 | Exchanging neighbouring parts of any text changes nothing about its parse. |
| `Idempotency.ParsePartIgnoresSpace` | pkg/execution/idempotency.go:99-104 | White space around a part is irrelevant. |
| `Idempotency.ParseOfJoin` | pkg/execution/idempotency.go:87-95 | Trimming the whole text and splitting it is the same as splitting it: only the parts matter. |
| `Idempotency.SplitCounts` | pkg/execution/idempotency.go:92 | Splitting gives one part more than there are separators. |
| `Idempotency.SplitJoins` | pkg/execution/idempotency.go:92 | A text that splits in three is the join of its parts, none of which contains the separator. |
| `CursorPaging.CollectPages` | pkg/clob/impl_orders.go:533-552 | On any chain of cursors that ends, the loop returns the items of the pages in chain order, or the last page's error and no items. |
| `CursorPaging.OrdersAll` | pkg/clob/impl_orders.go:519-553 | Starts at the newer cursor field, else the older, else the initial cursor, and keeps the caller's filter on every page; trades and builder trades likewise. |
| `CursorPaging.MarketsAll` | pkg/clob/impl_market.go:34-61 | The same with its single cursor field. |
| `CursorPaging.ChainFollowsLinks` | pkg/clob/impl_orders.go:548-551 | The pages fetched are the server's links from the start to the first empty, repeated or end cursor or error, within the given bound. |
| `CursorPaging.PagesInOrder` | pkg/clob/impl_orders.go:545 | The items of two lists of pages are those of the first and then those of the second. |
| `CursorPaging.OnePage` | pkg/clob/impl_orders.go:545 | The items of one page are the page's. |
| `CursorPaging.StartCursors` | pkg/clob/impl_orders.go:520-531 | Collecting starts at the newer cursor if given, else the older, else MA==; markets at their one cursor or MA==. |
| `CursorPaging.ChainNeverRepeats` | pkg/clob/impl_orders.go:548-551 | A chain that ends visits no cursor twice, so one that comes back to an earlier cursor never ends. |
| `CursorStream.SendError` | pkg/clob/stream.go:37-41 | An error is sent or, if the context is cancelled, dropped. |
| `CursorStream.SendPage` | pkg/clob/stream.go:55-71 | A page's items are sent in order; stopping early means cancellation, with at most the context's error after the items. |
| `CursorStream.StreamDataWithCursor` | pkg/clob/stream.go:23-79 | Under any cancellation point and any fetch failure the consumer sees a prefix of the chain's items, then at most one error, which is last and is the context's, the last fetch's if it failed or the chain's own; closing early without an error means the context is cancelled. |
| `CursorStream.UndisturbedStreamsAll` | pkg/clob/stream.go:23-79 | Undisturbed, the stream sends exactly what collecting all pages returns, followed by the error collecting returns if it fails. |
| `CursorStream.StreamStarts` | pkg/clob/stream.go:30-32 | A stream starts at its cursor, or at MA== if that is empty. |
| `OffsetPaging.CollectAll` | pkg/gamma/impl.go:233-264 | Against a server of one fixed list, for every limit ≥ 1, the loop ends; it returns, for every offset ≥ 0, the list from the offset on if the server's page size allows the limit and the first page otherwise, or a failed request's error. |
| `OffsetPaging.PageThenRest` | pkg/gamma/impl.go:346-377 | One page and then the rest is everything: no item lost or repeated between pages. |
| `OffsetPaging.Defaults` | pkg/gamma/impl.go:234-241 | Without a limit pages hold a hundred items, and without an offset they start at zero. |
| `OffsetPaging.CompleteIff` | pkg/gamma/impl.go:258-261 | The result is complete if and only if the limit fits the server's page size or one page holds all that is left. |
| `OffsetPaging.CutPageLosesItem` | pkg/gamma/impl.go:258-261 | Two items asked for two at a time of a server that gives one: the second is lost. |
| `OffsetPaging.PositiveLimitStops` | pkg/gamma/impl.go:243-262 | With a positive limit the loop makes at most one request more than the list is long. |
| `OffsetPaging.StopsIffLimitPositive` | pkg/gamma/impl.go:243-262 | Against a server that always answers, the loop ends if and only if the limit is positive. |
| `MarketCaches.MarketCache.constructor` | pkg/clob/impl.go:79-85 | Starts empty. |
| `MarketCaches.MarketCache.TickSize` | pkg/clob/impl_market.go:262-314 | Answers from the cache when it holds a non-zero tick, else asks and remembers the reply's non-zero tick; both request forms. |
| `MarketCaches.MarketCache.FeeRate` | pkg/clob/impl_market.go:339-399 | Answers from the cache, else asks and remembers a positive fee, given as number or text; both request forms. |
| `MarketCaches.MarketCache.NegRisk` | pkg/clob/impl_market.go:316-337 | Answers from the cache, else asks and remembers. |
| `MarketCaches.MarketCache.InvalidateCaches` | pkg/clob/impl.go:440-449 | Forgets everything. |
| `MarketCaches.MarketCache.SetTickSize` | pkg/clob/impl.go:451-458 | Overrides one token's tick; the empty token is ignored. |
| `MarketCaches.MarketCache.SetFeeRateBps` | pkg/clob/impl.go:469-476 | Overrides one token's fee; the empty token and fees below one are ignored. |
| `MarketCaches.MarketCache.SetNegRisk` | pkg/clob/impl.go:460-467 | Overrides one token's flag; the empty token is ignored. |
| `MarketCaches.CachedTickIsTransparent` | pkg/clob/impl_market.go:262-314 | After any history against a server constant per token, an answered lookup means the tick last set since the last invalidation, unless zero, and otherwise the server's; it fails only if the server is asked and fails; an override is answered without asking. |
| `MarketCaches.CachedFeeIsTransparent` | pkg/clob/impl_market.go:339-399 | The same for fees, with positive overrides. |
| `MarketCaches.CachedNegRiskIsTransparent` | pkg/clob/impl_market.go:316-337 | The same for neg-risk flags. |
| `MarketCaches.AnswersAreKept` | pkg/clob/impl_market.go:277-287 | After an answered lookup with a non-zero tick, later lookups do not ask until that token is set or the cache is invalidated. |
| `MarketCaches.FeesAreKept` | pkg/clob/impl_market.go:355-366 | The same for positive fees. |
| `MarketCaches.NegRisksAreKept` | pkg/clob/impl_market.go:330-334 | The same for neg-risk flags. |
| `MarketCaches.FeesAreRepeated` | pkg/clob/impl_market.go:355-366 | A positive fee given as a number is repeated as that number, one given as text as the number written there; zero and numbers beyond 64 bits are not remembered. |
| `MarketCaches.EmptyTokenIsAsked` | pkg/clob/impl_market.go:267-277 | The empty token is neither remembered nor looked up. |
| `MarketCaches.MinimumRepeatsIff` | pkg/clob/impl_market.go:267-287 | A caller that reads only the minimum sees the same from a first and a repeated lookup if and only if the reply gives the minimum or nothing. |
| `MarketCaches.MinimumAppears` | pkg/clob/impl_market.go:267-287 | A reply with only the older field: the minimum is zero at first and the tick when repeated. |
| `RetryBackoff.WithDefaults` | pkg/execution/retry_policy.go:131-146 | Defaults give at least two attempts and a positive base within the cap, and leave policies that are already so unchanged. |
| `RetryBackoff.ComputeBackoff` | pkg/execution/retry_policy.go:74-91 | The doubling loop, with 64-bit wrap-around, computes the specified delay; attempts below one count as one. |
| `RetryBackoff.BackoffIsCappedIff` | pkg/execution/retry_policy.go:74-91 | The delay is min(base × 2^(n-1), max) for every attempt n if and only if the cap is at most the largest doubling of the base that 64 bits hold. |
| `RetryBackoff.SmallCapsAreSafe` | pkg/execution/retry_policy.go:74-91 | Every cap up to 2^62 ns meets that condition. |
| `RetryBackoff.BackoffIsMonotone` | pkg/execution/retry_policy.go:74-91 | Under the condition delays never shrink with the attempt and stay between base and cap. |
| `RetryBackoff.HugeCapWraps` | pkg/execution/retry_policy.go:85 | A policy whose second delay is negative. |
| `RetryBackoff.Decide` | pkg/execution/retry_policy.go:47-69 | Retries exactly retryable failures before the last attempt, with the computed delay, and names the reason. |
| `Reconnect.ReconnectLoop` | pkg/clob/ws/lifecycle.go:69-162 | The loop's k-th sleep is the recursively grown and capped delay, for any pattern of failures; it ends at the first success, at closing or at the limit. |
| `Reconnect.LoopDelayClosedForm` | pkg/clob/ws/lifecycle.go:150-157 | With the base within the cap, the k-th sleep is min(base × multiplier^k, cap), for growing and shrinking multipliers. |
| `Reconnect.SleepsFollowPolicyIff` | pkg/execution/ws_policy.go:52-101 | A client configured by a policy sleeps as the policy says for every allowed attempt if and only if the base is within the cap or no attempt is allowed. |
| `Reconnect.FirstSleepIgnoresCap` | pkg/clob/ws/lifecycle.go:69-94 | A policy with a base above its cap, whose first sleep is the base. |
| `Reconnect.SameAttemptsIff` | pkg/execution/ws_policy.go:89-101 | Policy and client allow the same attempts if and only if the policy is disabled or its number of attempts is not zero. |
| `Reconnect.AllowedAttempts` | pkg/execution/ws_policy.go:52-63 | A policy allows an attempt if and only if it is enabled and the attempt, counted from one, is within its number, five by default. |
| `Reconnect.DefaultDelays` | pkg/execution/ws_policy.go:103-113 | The default delays: two seconds, doubling, at most thirty. |
| `Reconnect.NoAttemptsNeverGivesUp` | pkg/clob/ws/lifecycle.go:84 | Every enabled policy of no attempts configures a client that allows any number. |

## Left out

- The decimal library is not part of this repository's sources; its truncation, division (sixteen places, half away from zero), shift and comparison are modelled from its documented behaviour.
- Builders.OrderBuilder.constructor: the client's default salt generator is not carried over, because the salt is a given input of building.
- Builders.OrderBuilder.AmountUSDC: takes the decimal that the float argument converts to; float conversion is left out.
- Builders.OrderBuilder.AmountShares: takes the decimal that the float argument converts to; float conversion is left out.
- Builders.OrderBuilder.TickSize: takes the decimal that the stored float converts to; float conversion is left out, and so are the float variants of the price, size and fee setters.
- Builders.OrderBuilder.BuildMarket: the signer is present and the fee fits 64 bits; a nil signer, signing and hashing are left out.
- TickLimits.MarketBuysExactIff: ticks are decimals of any number of places; floats end at about 324.
- OrderAmounts.MarketBuyIsExactFloor: needs a positive tick of at most ten places; ticks above ten are in TickLimits.MarketBuysExactIff, and zero ticks in MarketOrderEdges.PanicIff.
- Prices are not claimed to be multiples of the tick: the code checks decimal places and bounds only.
- Text: case mapping covers ASCII letters and trimming works on code points; texts that are not valid UTF-8 are left out.
- RateLimiters.RateLimiter.Wait: time and tokens are exact reals; float rounding, and the truncation of the sleep to nanoseconds, are left out.
- Reconnect.ReconnectLoop: delays are exact reals; the conversion to whole nanoseconds and its fallback for vanishing delays are left out, and dialling is a given outcome per attempt.
- CircuitBreakers.CircuitBreaker.Call: the guarded function is its outcome; runs assume that it returns.
- RtdsRegistries.RtdsClient.SubscribeRaw: entries are values with a set of closed ids; channels, filters per subscriber, delivery of messages and the wrap-around of the 64-bit serial number are left out.
- RtdsRegistries.RtdsClient.UnsubscribeTopic: lookup and removal are one step here; in runs the removal of an id looked up earlier is an unsubscribe at any later point.
- RtdsRuns.ServerKnowsEveryKey: speaks of joined keys, with topics in RtdsTopics.ServerKnowsEveryTopic; a write the client sees succeed on a working connection counts as received; reconnecting is one atomic step, without the goroutine handover around it.
- WsRuns.CountsAreMentions: whole runs are modelled for market streams; the user channel shares the counting code and adds credentials.
- WsServer.KnownThroughoutIff: the moment between dialling and taking the snapshot is excepted, as there the server knows nothing yet.
- WsRuns.ServerFollowsOpenStreams: not claimed after failed subscribes, whose references the code does not give back.
- WsStreams.WsClient.SubscribeMarketStream: one map stands for the ten maps of stream kinds.
- WsStreams.WsClient.CloseAllStreams: one map stands for the ten maps of stream kinds and the map of state listeners, which are closed alike.
- Idempotency.BuildableIff: lower-case means the ASCII letters.
- Idempotency.BuiltKeysAreDistinct: the hash is an arbitrary function.
- CursorPaging.CollectPages: termination is claimed for chains that end; only an immediate repeat is caught by the code. Servers that answer a cursor differently over time are left out.
- OffsetPaging.CollectAll: limits below one do not end, so the loop is stated for limits of at least one; what a server returns for a negative offset is not modelled, and lists that change during the run are left out.
- MarketCaches.MarketCache.TickSize: the client's cache is always present, shared clients and concurrent lookups are left out.
- RetryBackoff.Decide: the classification of errors is a given flag.
- Query building, response types, attribution, lifecycle names, bot scoring, requests for quotes and configuration parsing are decided by reading one branch.
- EIP-712 and HMAC signing, key management, wallet derivation and contract calls rest on cryptographic libraries.
