/**
  The client's cache of market metadata: tick sizes, fees and neg-risk flags per token, filled by the
  query-form and path-form lookups and overridden by the setters.
 */
module MarketCaches {
  import opened Wrappers
  import Text

  datatype TickReply = TickReply(minimum: real, tick: real)
  datatype FeeReply = FeeReply(baseFee: int, feeRate: string)

  /** The tick size a reply means: the minimum, or the older field. */
  function EffectiveTick(reply: TickReply): real {
    if reply.minimum != 0.0 then reply.minimum else reply.tick
  }

  function ParseInt64(text: string): Option<int> {
    match Text.ParseInteger(text)
    case None => None
    case Some(v) => if -0x8000_0000_0000_0000 <= v < 0x8000_0000_0000_0000 then Some(v) else None
  }

  /** The fee a reply means: the number, or the text when the number is zero and the text is an integer. */
  function EffectiveFee(reply: FeeReply): int {
    if reply.baseFee != 0 then reply.baseFee
    else if reply.feeRate != "" && ParseInt64(reply.feeRate).Some? then ParseInt64(reply.feeRate).value
    else 0
  }

  datatype Cache = Cache(ticks: map<string, real>, fees: map<string, int>, negRisks: map<string, bool>)

  const EMPTY := Cache(map[], map[], map[])

  // ---------------------------------------------------------------- the lookups on cache values

  /** A lookup's answer, the cache after it, and whether the server was asked. */
  datatype Looked<R, E> = Looked(reply: Result<R, E>, cache: Cache, asked: bool)

  /** `answer` is what the server says if it is asked. */
  function LookTick<E>(c: Cache, token: string, answer: Result<TickReply, E>): Looked<TickReply, E> {
    if token != "" && token in c.ticks && c.ticks[token] != 0.0 then
      Looked(Success(TickReply(c.ticks[token], 0.0)), c, false)
    else if token != "" && answer.Success? && EffectiveTick(answer.value) != 0.0 then
      Looked(answer, c.(ticks := c.ticks[token := EffectiveTick(answer.value)]), true)
    else Looked(answer, c, true)
  }

  function LookFee<E>(c: Cache, token: string, answer: Result<FeeReply, E>): Looked<FeeReply, E> {
    if token != "" && token in c.fees then
      Looked(Success(FeeReply(c.fees[token], "")), c, false)
    else if token != "" && answer.Success? && EffectiveFee(answer.value) > 0 then
      Looked(answer, c.(fees := c.fees[token := EffectiveFee(answer.value)]), true)
    else Looked(answer, c, true)
  }

  function LookNegRisk<E>(c: Cache, token: string, answer: Result<bool, E>): Looked<bool, E> {
    if token != "" && token in c.negRisks then Looked(Success(c.negRisks[token]), c, false)
    else if token != "" && answer.Success? then Looked(answer, c.(negRisks := c.negRisks[token := answer.value]), true)
    else Looked(answer, c, true)
  }

  class MarketCache {
    var tickSizes: map<string, real>
    var feeRates: map<string, int>
    var negRisk: map<string, bool>

    ghost function Contents(): Cache
      reads this
    {
      Cache(tickSizes, feeRates, negRisk)
    }

    constructor ()
      ensures Contents() == EMPTY
    {
      tickSizes, feeRates, negRisk := map[], map[], map[];
    }

    /** Query-form and path-form lookups differ only in the request they send. An absent request has the empty token. */
    method TickSize<E>(token: string, answer: Result<TickReply, E>) returns (reply: Result<TickReply, E>, asked: bool)
      modifies this
      ensures var look := LookTick(old(Contents()), token, answer);
              reply == look.reply && asked == look.asked && Contents() == look.cache
    {
      if token != "" {
        if token in tickSizes && tickSizes[token] != 0.0 {
          return Success(TickReply(tickSizes[token], 0.0)), false;
        }
      }
      if answer.Success? && token != "" {
        var tickSize := answer.value.minimum;
        if tickSize == 0.0 {
          tickSize := answer.value.tick;
        }
        if tickSize != 0.0 {
          tickSizes := tickSizes[token := tickSize];
        }
      }
      return answer, true;
    }

    method FeeRate<E>(token: string, answer: Result<FeeReply, E>) returns (reply: Result<FeeReply, E>, asked: bool)
      modifies this
      ensures var look := LookFee(old(Contents()), token, answer);
              reply == look.reply && asked == look.asked && Contents() == look.cache
    {
      hide ParseInt64;
      if token != "" {
        if token in feeRates {
          return Success(FeeReply(feeRates[token], "")), false;
        }
      }
      if answer.Success? && token != "" {
        var fee := answer.value.baseFee;
        if fee == 0 && answer.value.feeRate != "" {
          var parsed := ParseInt64(answer.value.feeRate);
          if parsed.Some? {
            fee := parsed.value;
          }
        }
        if fee > 0 {
          feeRates := feeRates[token := fee];
        }
      }
      return answer, true;
    }

    method NegRisk<E>(token: string, answer: Result<bool, E>) returns (reply: Result<bool, E>, asked: bool)
      modifies this
      ensures var look := LookNegRisk(old(Contents()), token, answer);
              reply == look.reply && asked == look.asked && Contents() == look.cache
    {
      if token != "" {
        if token in negRisk {
          return Success(negRisk[token]), false;
        }
      }
      if answer.Success? && token != "" {
        negRisk := negRisk[token := answer.value];
      }
      return answer, true;
    }

    method InvalidateCaches()
      modifies this
      ensures Contents() == Apply<int>(old(Contents()), Invalidate)
    {
      tickSizes, feeRates, negRisk := map[], map[], map[];
    }

    method SetTickSize(token: string, tickSize: real)
      modifies this
      ensures Contents() == Apply<int>(old(Contents()), SetTick(token, tickSize))
    {
      if token == "" {
        return;
      }
      tickSizes := tickSizes[token := tickSize];
    }

    method SetFeeRateBps(token: string, feeRateBps: int)
      modifies this
      ensures Contents() == Apply<int>(old(Contents()), SetFee(token, feeRateBps))
    {
      if token == "" || feeRateBps <= 0 {
        return;
      }
      feeRates := feeRates[token := feeRateBps];
    }

    method SetNegRisk(token: string, value: bool)
      modifies this
      ensures Contents() == Apply<int>(old(Contents()), SetNeg(token, value))
    {
      if token == "" {
        return;
      }
      negRisk := negRisk[token := value];
    }
  }

  // ---------------------------------------------------------------- histories

  datatype Event<E> =
    | LookupTick(token: string, tickAnswer: Result<TickReply, E>)
    | LookupFee(token: string, feeAnswer: Result<FeeReply, E>)
    | LookupNegRisk(token: string, negAnswer: Result<bool, E>)
    | SetTick(token: string, tick: real)
    | SetFee(token: string, fee: int)
    | SetNeg(token: string, value: bool)
    | Invalidate

  function Apply<E>(c: Cache, e: Event<E>): Cache {
    match e
    case LookupTick(token, answer) => LookTick(c, token, answer).cache
    case LookupFee(token, answer) => LookFee(c, token, answer).cache
    case LookupNegRisk(token, answer) => LookNegRisk(c, token, answer).cache
    case SetTick(token, tick) => if token == "" then c else c.(ticks := c.ticks[token := tick])
    case SetFee(token, fee) => if token == "" || fee <= 0 then c else c.(fees := c.fees[token := fee])
    case SetNeg(token, value) => if token == "" then c else c.(negRisks := c.negRisks[token := value])
    case Invalidate => EMPTY
  }

  function Run<E>(history: seq<Event<E>>): Cache {
    if history == [] then EMPTY else Apply(Run(history[..|history| - 1]), history[|history| - 1])
  }

  /** What an uncached client would be told about each token. */
  datatype World = World(tick: string -> real, fee: string -> int, negRisk: string -> bool)

  /** Every answer the server gives, through either form, says the same about a token; requests may fail. */
  ghost predicate Constant<E>(history: seq<Event<E>>, w: World) {
    forall i :: 0 <= i < |history| ==> Agrees(history[i], w)
  }

  ghost predicate Agrees<E>(e: Event<E>, w: World) {
    match e
    case LookupTick(token, answer) => answer.Success? ==> EffectiveTick(answer.value) == w.tick(token)
    case LookupFee(token, answer) => answer.Success? ==> EffectiveFee(answer.value) == w.fee(token)
    case LookupNegRisk(token, answer) => answer.Success? ==> answer.value == w.negRisk(token)
    case _ => true
  }

  /** The tick size in force by the caller's own choice: the last one set since the last invalidation, unless it is zero. */
  function TickOverride<E>(history: seq<Event<E>>, token: string): Option<real>
    decreases |history|
  {
    if history == [] then None
    else
      var last := history[|history| - 1];
      if last.Invalidate? then None
      else if last.SetTick? && last.token == token != "" then (if last.tick != 0.0 then Some(last.tick) else None)
      else TickOverride(history[..|history| - 1], token)
  }

  /** The fee in force by the caller's own choice: the last positive one set since the last invalidation. */
  function FeeOverride<E>(history: seq<Event<E>>, token: string): Option<int>
    decreases |history|
  {
    if history == [] then None
    else
      var last := history[|history| - 1];
      if last.Invalidate? then None
      else if last.SetFee? && last.token == token != "" && last.fee > 0 then Some(last.fee)
      else FeeOverride(history[..|history| - 1], token)
  }

  function NegRiskOverride<E>(history: seq<Event<E>>, token: string): Option<bool>
    decreases |history|
  {
    if history == [] then None
    else
      var last := history[|history| - 1];
      if last.Invalidate? then None
      else if last.SetNeg? && last.token == token != "" then Some(last.value)
      else NegRiskOverride(history[..|history| - 1], token)
  }

  ghost predicate TickCached<E>(c: Cache, history: seq<Event<E>>, w: World, token: string) {
    && (token in c.ticks && c.ticks[token] != 0.0 ==> c.ticks[token] == GetOr(TickOverride(history, token), w.tick(token)))
    && (TickOverride(history, token).Some? ==> token in c.ticks && c.ticks[token] != 0.0 && token != "")
  }

  ghost predicate FeeCached<E>(c: Cache, history: seq<Event<E>>, w: World, token: string) {
    && (token in c.fees ==> c.fees[token] == GetOr(FeeOverride(history, token), w.fee(token)) && c.fees[token] > 0)
    && (FeeOverride(history, token).Some? ==> token in c.fees && token != "")
  }

  ghost predicate NegRiskCached<E>(c: Cache, history: seq<Event<E>>, w: World, token: string) {
    && (token in c.negRisks ==> c.negRisks[token] == GetOr(NegRiskOverride(history, token), w.negRisk(token)))
    && (NegRiskOverride(history, token).Some? ==> token in c.negRisks && token != "")
  }

  lemma ConstantPrefix<E>(history: seq<Event<E>>, w: World)
    requires Constant(history, w) && history != []
    ensures Constant(history[..|history| - 1], w) && Agrees(history[|history| - 1], w)
  {
    hide Agrees;
  }

  /** Every cached value is the override in force, or else what the server says; an override is always cached. */
  lemma {:induction false} TicksHoldTruth<E>(history: seq<Event<E>>, w: World, token: string)
    requires Constant(history, w)
    ensures TickCached(Run(history), history, w, token)
    decreases |history|
  {
    hide EffectiveTick, EffectiveFee, Constant;
    if history == [] {
    } else {
      ConstantPrefix(history, w);
      TicksHoldTruth(history[..|history| - 1], w, token);
    }
  }

  lemma {:induction false} FeesHoldTruth<E>(history: seq<Event<E>>, w: World, token: string)
    requires Constant(history, w)
    ensures FeeCached(Run(history), history, w, token)
    decreases |history|
  {
    hide EffectiveTick, EffectiveFee, Constant;
    if history == [] {
    } else {
      ConstantPrefix(history, w);
      FeesHoldTruth(history[..|history| - 1], w, token);
    }
  }

  lemma {:induction false} NegRisksHoldTruth<E>(history: seq<Event<E>>, w: World, token: string)
    requires Constant(history, w)
    ensures NegRiskCached(Run(history), history, w, token)
    decreases |history|
  {
    hide EffectiveTick, EffectiveFee, Constant;
    if history == [] {
    } else {
      ConstantPrefix(history, w);
      NegRisksHoldTruth(history[..|history| - 1], w, token);
    }
  }

  /**
    Caching is invisible: after any history, a lookup that answers says what the override in force says, or
    else what an uncached client would be told; it fails only when the server is asked and fails; and a value
    overridden by the caller is answered without asking.
   */
  lemma {:induction false} CachedTickIsTransparent<E>(history: seq<Event<E>>, w: World, token: string, answer: Result<TickReply, E>)
    requires Constant(history, w) && Agrees(LookupTick(token, answer), w)
    ensures var look := LookTick(Run(history), token, answer);
            && (look.reply.Success? ==> EffectiveTick(look.reply.value) == GetOr(TickOverride(history, token), w.tick(token)))
            && (look.reply.Failure? ==> look.asked && look.reply == answer)
            && (TickOverride(history, token).Some? ==> !look.asked)
  {
    hide Run, TickOverride;
    TicksHoldTruth(history, w, token);
  }

  lemma {:induction false} CachedFeeIsTransparent<E>(history: seq<Event<E>>, w: World, token: string, answer: Result<FeeReply, E>)
    requires Constant(history, w) && Agrees(LookupFee(token, answer), w)
    ensures var look := LookFee(Run(history), token, answer);
            && (look.reply.Success? ==> EffectiveFee(look.reply.value) == GetOr(FeeOverride(history, token), w.fee(token)))
            && (look.reply.Failure? ==> look.asked && look.reply == answer)
            && (FeeOverride(history, token).Some? ==> !look.asked)
  {
    hide ParseInt64, Run, FeeOverride;
    FeesHoldTruth(history, w, token);
  }

  lemma {:induction false} CachedNegRiskIsTransparent<E>(history: seq<Event<E>>, w: World, token: string, answer: Result<bool, E>)
    requires Constant(history, w) && Agrees(LookupNegRisk(token, answer), w)
    ensures var look := LookNegRisk(Run(history), token, answer);
            && (look.reply.Success? ==> look.reply.value == GetOr(NegRiskOverride(history, token), w.negRisk(token)))
            && (look.reply.Failure? ==> look.asked && look.reply == answer)
            && (NegRiskOverride(history, token).Some? ==> !look.asked)
  {
    hide Run, NegRiskOverride;
    NegRisksHoldTruth(history, w, token);
  }

  /** Once a useful answer has come back, later lookups of that token do not ask again until something is set or invalidated. */
  lemma {:induction false} AnswersAreKept<E>(history: seq<Event<E>>, later: seq<Event<E>>, token: string, answer: Result<TickReply, E>, next: Result<TickReply, E>)
    requires token != "" && answer.Success? && EffectiveTick(answer.value) != 0.0
    requires forall i :: 0 <= i < |later| ==> !later[i].Invalidate? && !(later[i].SetTick? && later[i].token == token)
    ensures !LookTick(Run(history + [LookupTick(token, answer)] + later), token, next).asked
    decreases |later|
  {
    hide EffectiveTick, EffectiveFee;
    var whole := history + [LookupTick(token, answer)] + later;
    if later == [] {
      assert whole[..|whole| - 1] == history;
    } else {
      var shorter := later[..|later| - 1];
      AnswersAreKept(history, shorter, token, answer, next);
      assert whole[..|whole| - 1] == history + [LookupTick(token, answer)] + shorter;
    }
  }

  /**
    Callers that read only a reply's minimum see the same from a first lookup and from the next one, with the
    server repeating itself, exactly if the reply gives the minimum, or nothing at all.
   */
  lemma MinimumRepeatsIff<E>(c: Cache, token: string, answer: Result<TickReply, E>)
    requires token != "" && answer.Success? && (token in c.ticks ==> c.ticks[token] == 0.0)
    ensures var first := LookTick(c, token, answer);
            var second := LookTick(first.cache, token, answer);
            second.reply.value.minimum == first.reply.value.minimum
            <==> answer.value.minimum != 0.0 || answer.value.tick == 0.0
  {
  }

  /** A reply that gives only the older field: its minimum is zero at first and a cent when repeated. */
  lemma MinimumAppears<E>(token: string)
    requires token != ""
    ensures var reply: Result<TickReply, E> := Success(TickReply(0.0, 0.01));
            var first := LookTick(EMPTY, token, reply);
            first.reply.value.minimum == 0.0 && LookTick(first.cache, token, reply).reply == Success(TickReply(0.01, 0.0))
  {
  }

  // ---------------------------------------------------------------- fees and flags

  lemma {:induction false} FeesAreKept<E>(history: seq<Event<E>>, later: seq<Event<E>>, token: string, answer: Result<FeeReply, E>, next: Result<FeeReply, E>)
    requires token != "" && answer.Success? && EffectiveFee(answer.value) > 0
    requires forall i :: 0 <= i < |later| ==> !later[i].Invalidate? && !(later[i].SetFee? && later[i].token == token)
    ensures !LookFee(Run(history + [LookupFee(token, answer)] + later), token, next).asked
    decreases |later|
  {
    hide EffectiveTick, EffectiveFee;
    var whole := history + [LookupFee(token, answer)] + later;
    if later == [] {
      assert whole[..|whole| - 1] == history;
    } else {
      var shorter := later[..|later| - 1];
      FeesAreKept(history, shorter, token, answer, next);
      assert whole[..|whole| - 1] == history + [LookupFee(token, answer)] + shorter;
    }
  }

  lemma {:induction false} NegRisksAreKept<E>(history: seq<Event<E>>, later: seq<Event<E>>, token: string, answer: Result<bool, E>, next: Result<bool, E>)
    requires token != "" && answer.Success?
    requires forall i :: 0 <= i < |later| ==> !later[i].Invalidate? && !(later[i].SetNeg? && later[i].token == token)
    ensures !LookNegRisk(Run(history + [LookupNegRisk(token, answer)] + later), token, next).asked
    decreases |later|
  {
    hide EffectiveTick, EffectiveFee;
    var whole := history + [LookupNegRisk(token, answer)] + later;
    if later == [] {
      assert whole[..|whole| - 1] == history;
    } else {
      var shorter := later[..|later| - 1];
      NegRisksAreKept(history, shorter, token, answer, next);
      assert whole[..|whole| - 1] == history + [LookupNegRisk(token, answer)] + shorter;
    }
  }

  /** A fee given as a number is repeated as that number, and one given as text as the number written there. */
  lemma FeesAreRepeated<E>(c: Cache, token: string, fee: int, n: nat, text: string)
    requires token != "" && token !in c.fees
    ensures fee > 0 ==>
              var first := LookFee<E>(c, token, Success(FeeReply(fee, text)));
              first.asked && LookFee<E>(first.cache, token, Success(FeeReply(fee, text))).reply == Success(FeeReply(fee, ""))
    ensures 0 < n < 0x8000_0000_0000_0000 ==>
              var reply := FeeReply(0, Text.DecimalText(n));
              LookFee<E>(LookFee<E>(c, token, Success(reply)).cache, token, Success(reply)).reply == Success(FeeReply(n, ""))
    ensures n == 0 || n >= 0x8000_0000_0000_0000 ==>
              var reply := FeeReply(0, Text.DecimalText(n));
              LookFee<E>(c, token, Success(reply)).cache == c
  {
    hide Text.ParseInteger, Text.DecimalText;
    Text.DecimalTextReadsBack(n);
    Text.ParsesWhatIsWritten(n);
  }

  /** The empty token is neither remembered nor looked up. */
  lemma EmptyTokenIsAsked<E>(c: Cache, tick: Result<TickReply, E>, fee: Result<FeeReply, E>, flag: Result<bool, E>)
    ensures LookTick(c, "", tick) == Looked(tick, c, true)
    ensures LookFee(c, "", fee) == Looked(fee, c, true)
    ensures LookNegRisk(c, "", flag) == Looked(flag, c, true)
  {
  }
}
