/** What an order, a trade's two halves and a settlement say, in terms of the inputs alone. */
module OrderLaws {
  import opened Prelude
  import opened OrderBooks
  import opened DepthWalk
  import opened TradingRules
  import opened Balances
  import opened RateLimiting
  import opened SpreadFormulas
  import opened PaperTrading
  import opened TradeLaws

  // ---- symbols ------------------------------------------------------------

  /** A symbol is its base, a dash and its quote, cut at the first dash; without a dash it is all base. */
  lemma {:induction false} SymbolSplits(symbol: string)
    ensures '-' !in BaseOf(symbol)
    ensures '-' in symbol ==> symbol == BaseOf(symbol) + "-" + QuoteOf(symbol)
    ensures '-' !in symbol ==> BaseOf(symbol) == symbol && QuoteOf(symbol) == ""
  {
    if symbol != "" {
      assert symbol == [symbol[0]] + symbol[1..];
      if symbol[0] != '-' {
        SymbolSplits(symbol[1..]);
      }
    }
  }

  /** Putting a base and a quote together and splitting them again gives them back. */
  lemma {:induction false} SplitUndoesJoin(base: string, quote: string)
    requires '-' !in base
    ensures BaseOf(base + "-" + quote) == base && QuoteOf(base + "-" + quote) == quote
  {
    var symbol := base + "-" + quote;
    if base == "" {
      assert symbol == "-" + quote;
    } else {
      assert symbol[1..] == base[1..] + "-" + quote;
      SplitUndoesJoin(base[1..], quote);
    }
  }

  /** A symbol's own rules come before the defaults, and concern no other symbol. */
  lemma OwnRulesApply(config: Config, symbol: string, rules: SymbolRules, other: string)
    ensures var changed := config.(symbolRules := config.symbolRules[symbol := rules]);
            && changed.RulesFor(symbol) == rules
            && (other != symbol ==> changed.RulesFor(other) == config.RulesFor(other))
    ensures config.(symbolRules := map[]).RulesFor(symbol) == config.defaultRules
  {
  }

  // ---- one leg's order ----------------------------------------------------

  predicate InTime(input: LegInput) {
    input.ackLatencyMs <= input.timeoutMs
  }

  /** The order keeps every trading rule at the best price. */
  ghost predicate KeepsRules(input: LegInput) {
    && input.Top().Some?
    && var price := input.Top().value.price;
       && input.quantity > 0.0 && price > 0.0
       && input.quantity >= input.rules.minQuantity && input.quantity * price >= input.rules.minNotional
       && input.rules.stepSize > 0.0 && IsMultiple(input.quantity, input.rules.stepSize)
       && input.rules.tickSize > 0.0 && IsMultiple(price, input.rules.tickSize)
  }

  predicate IsAdmitted(input: LegInput, limiters: Limiters, max: nat) {
    Allowed(LimiterOf(limiters, input.exchange, max), input.now).1
  }

  /** The order shows what was asked for, and the best price at which it was. */
  lemma OrderShows(input: LegInput, ledger: Ledger, limiters: Limiters, max: nat)
    requires PlacedLeg(input, ledger, limiters, max).outcome.Ok?
    ensures var o := PlacedLeg(input, ledger, limiters, max).outcome.value;
            && o.exchange == input.exchange && o.symbol == input.symbol && o.leg == input.leg
            && o.requested == input.quantity
            && o.referencePrice == (if input.Top().Some? then input.Top().value.price else 0.0)
            && (o.avgPrice.None? ==> o.filled == 0.0 && o.feePaid == 0.0)
  {
    hide BestAskOf;
    hide BestBidOf;
    hide Validated;
    hide Allowed;
    hide ExecutedLedger;
    hide Fill;
    hide Cost;
    hide Times;
  }

  /** The reason that a leg's order gives, in the order in which the causes are looked for. */
  ghost function ExpectedReason(input: LegInput, ledger: Ledger, limiters: Limiters, max: nat): Option<Reason> {
    if !InTime(input) then Some(AckTimeout)
    else if input.Top().None? then Some(NoLiquidity)
    else if !KeepsRules(input) then
      var v := Validated(input.quantity, input.Top().value.price, input.rules);
      if v.Ok? then Some(RulesViolated(v.value.violations)) else None
    else if !IsAdmitted(input, limiters, max) then Some(RateLimitExceeded)
    else if !Covers(ledger, input.Key(), input.ReserveAmount()) then Some(InsufficientBalance)
    else None
  }

  /** What the reason says of the order's status; an order without one is filled as far as the book's depth goes. */
  function ExpectedStatus(input: LegInput, reason: Option<Reason>): OrderStatus {
    if reason == Some(AckTimeout) then EXPIRED
    else if reason.Some? then REJECTED
    else if Depth(input.Levels()) >= input.quantity then FILLED
    else PARTIALLY_FILLED
  }

  /**
   * On a book with positive quantities, every order gives the first cause there is for refusing it, and is expired,
   * rejected, filled or partially filled accordingly.
   */
  lemma OrderOutcome(input: LegInput, ledger: Ledger, limiters: Limiters, max: nat)
    requires PositiveBook(input.book) && PlacedLeg(input, ledger, limiters, max).outcome.Ok?
    ensures var o := PlacedLeg(input, ledger, limiters, max).outcome.value;
            && o.reason == ExpectedReason(input, ledger, limiters, max)
            && o.status == ExpectedStatus(input, o.reason)
            && (o.reason.None? <==> Executes(input, ledger, limiters, max))
  {
    hide BestAskOf;
    hide BestBidOf;
    hide AsksOf;
    hide BidsOf;
    hide Validated;
    hide Allowed;
    hide Covers;
    hide ExecutedLedger;
    hide ExecutedOrder;
    hide Times;
    hide IsMultiple;
    hide Depth;
    if input.Top().Some? {
      RulesKeptIff(input);
      if input.quantity > 0.0 {
        ExecutedStatus(input);
      }
    }
  }

  lemma RulesKeptIff(input: LegInput)
    requires input.Top().Some?
    ensures var v := Validated(input.quantity, input.Top().value.price, input.rules);
            && (KeepsRules(input) <==> v.Ok? && v.value.valid)
  {
    hide BestAskOf;
    hide BestBidOf;
    hide Validated;
    hide IsMultiple;
    ValidIff(input.quantity, input.Top().value.price, input.rules);
  }

  lemma ExecutedStatus(input: LegInput)
    requires PositiveBook(input.book) && input.Top().Some? && input.quantity > 0.0
    ensures var o := ExecutedOrder(input);
            && o.avgPrice.Some? && o.reason.None?
            && o.status == if Depth(input.Levels()) >= input.quantity then FILLED else PARTIALLY_FILLED
  {
    hide BestAskOf;
    hide BestBidOf;
    hide AsksOf;
    hide BidsOf;
    hide Fill;
    hide Cost;
    hide Times;
    SomethingFills(input);
    BookIsWalkable(input.book.asks);
    BookIsWalkable(input.book.bids);
    FillIsMin(input.Levels(), input.quantity);
  }

  /** An executed order's figures: the lesser of request and depth, at the walk's cost, with its fee. */
  lemma ExecutedFigures(input: LegInput, ledger: Ledger, limiters: Limiters, max: nat)
    requires PositiveBook(input.book) && Executes(input, ledger, limiters, max)
    ensures var o := PlacedLeg(input, ledger, limiters, max).outcome.value;
            && o.filled == Min(input.quantity, Depth(input.Levels())) > 0.0
            && o.avgPrice.value * o.filled == DepthWalk.Cost(input.Levels(), input.quantity)
            && o.feePaid == DepthWalk.Cost(input.Levels(), input.quantity) * input.feeRate
  {
    hide BestAskOf;
    hide BestBidOf;
    hide AsksOf;
    hide BidsOf;
    hide Fill;
    hide Cost;
    hide PlacedLeg;
    hide Executes;
    hide Depth;
    ExecutionFacts(input, ledger, limiters, max);
    SomethingFills(input);
    BookIsWalkable(input.book.asks);
    BookIsWalkable(input.book.bids);
    FillIsMin(input.Levels(), input.quantity);
    QuotientTimes(Cost(input.Levels(), input.quantity), Fill(input.Levels(), input.quantity));
  }

  /** Only an order that keeps the rules in time counts as a call of its exchange's limiter, and of no other's. */
  lemma LegCounts(input: LegInput, ledger: Ledger, limiters: Limiters, max: nat)
    ensures PlacedLeg(input, ledger, limiters, max).limiters
            == if InTime(input) && KeepsRules(input)
               then limiters[input.exchange := Allowed(LimiterOf(limiters, input.exchange, max), input.now).0]
               else limiters
  {
    hide BestAskOf;
    hide BestBidOf;
    hide Validated;
    hide Allowed;
    hide Covers;
    hide KeepsRules;
    hide ExecutedOrder;
    hide ExecutedLedger;
    hide Times;
    if input.Top().Some? {
      RulesKeptIff(input);
    } else {
      NoTopNoRules(input);
    }
  }

  lemma NoTopNoRules(input: LegInput)
    requires input.Top().None?
    ensures !KeepsRules(input)
  {
  }

  // ---- the two halves of a trade ------------------------------------------

  /** The order of a sale that never took place. */
  predicate IsCancelledSale(o: Order, plan: Plan) {
    && o.exchange == plan.sellExchange && o.symbol == plan.symbol && o.leg.Sell?
    && o.status == CANCELED && o.reason == Some(BuyLegDidNotFill)
    && o.requested == 0.0 && o.filled == 0.0 && o.avgPrice.None? && o.feePaid == 0.0 && o.referencePrice == 0.0
  }

  /** A trade waits for its sale exactly when its buy executes; otherwise it is over, with nothing sold or reported. */
  lemma BeganMeans(config: Config, fees: Fees, plan: Plan, book: BookState, now: int, ledger: Ledger,
                   limiters: Limiters)
    requires PositiveBook(book)
    ensures var s := Began(config, fees, plan, book, now, ledger, limiters);
            && (s.trade.AwaitingSell? <==>
                  Executes(BuyInput(config, fees, plan, book, now), ledger, limiters, config.rateLimit))
            && (s.trade.AwaitingSell? || s.trade.Done? ==>
                  && s.trade.plan == plan
                  && s.trade.buy.exchange == plan.buyExchange && s.trade.buy.symbol == plan.symbol
                  && s.trade.buy.leg.Buy? && s.trade.buy.requested == plan.quantity)
            && (s.trade.Done? ==>
                  && IsCancelledSale(s.trade.sell, plan)
                  && s.trade.outcome
                     == Ok(TradeResult(s.trade.buy, s.trade.sell, 0.0, 0.0, None, None, None, None)))
  {
    hide PlacedLeg;
    hide PositiveBook;
    hide Times;
    hide Executes;
    var input := BuyInput(config, fees, plan, book, now);
    var leg := PlacedLeg(input, ledger, limiters, config.rateLimit);
    if leg.outcome.Ok? {
      OrderShows(input, ledger, limiters, config.rateLimit);
    }
    FillsIffExecutes(input, ledger, limiters, config.rateLimit);
  }

  lemma FillsIffExecutes(input: LegInput, ledger: Ledger, limiters: Limiters, max: nat)
    requires PositiveBook(input.book)
    ensures var r := PlacedLeg(input, ledger, limiters, max);
            Executes(input, ledger, limiters, max) <==> r.outcome.Ok? && r.outcome.value.filled > 0.0
  {
    hide PlacedLeg;
    hide PositiveBook;
    if Executes(input, ledger, limiters, max) {
      ExecutedFigures(input, ledger, limiters, max);
    } else if PlacedLeg(input, ledger, limiters, max).outcome.Ok? {
      OrderShows(input, ledger, limiters, max);
    }
  }

  /** Before its wait a trade takes what its buy pays from the plan's quote on the buy exchange, and nothing else. */
  lemma BeganMoves(config: Config, fees: Fees, plan: Plan, book: BookState, now: int, ledger: Ledger,
                   limiters: Limiters, e: Exchange, asset: string)
    ensures var s := Began(config, fees, plan, book, now, ledger, limiters);
            At(s.ledger, (e, asset)).total
            == At(ledger, (e, asset)).total
               - if (s.trade.AwaitingSell? || s.trade.Done?) && e == plan.buyExchange && asset == plan.quoteAsset
                 then DebitOf(s.trade.buy) else 0.0
  {
    hide PlacedLeg;
    hide DebitOf;
    hide At;
    var input := BuyInput(config, fees, plan, book, now);
    LegDebits(input, ledger, limiters, config.rateLimit, (e, asset));
  }

  /** After its wait a trade asks to sell exactly what was bought, on the sell exchange. */
  lemma ResumedMeans(config: Config, fees: Fees, plan: Plan, buy: Order, buyBook: BookState, sellBook: BookState,
                     now: int, ledger: Ledger, limiters: Limiters)
    ensures var t := Resumed(config, fees, plan, buy, buyBook, sellBook, now, ledger, limiters).trade;
            t.Done? ==>
              && t.plan == plan && t.buy == buy
              && t.sell.exchange == plan.sellExchange && t.sell.symbol == plan.symbol && t.sell.leg.Sell?
              && t.sell.requested == buy.filled
              && t.outcome == Assessed(buy, t.sell, buyBook, sellBook, fees)
  {
    hide PlacedLeg;
    hide Assessed;
    hide WithProceeds;
    var input := SellInput(config, fees, plan, buy, sellBook, now);
    if PlacedLeg(input, ledger, limiters, config.rateLimit).outcome.Ok? {
      OrderShows(input, ledger, limiters, config.rateLimit);
    }
  }

  /**
   * It takes the sale's debit from the base on the sell exchange, credits the matched proceeds in the symbol's quote
   * there, and moves nothing else.
   */
  lemma ResumedMoves(config: Config, fees: Fees, plan: Plan, buy: Order, buyBook: BookState, sellBook: BookState,
                     now: int, ledger: Ledger, limiters: Limiters, e: Exchange, asset: string)
    ensures var s := Resumed(config, fees, plan, buy, buyBook, sellBook, now, ledger, limiters);
            s.trade.Done? ==>
              At(s.ledger, (e, asset)).total
              == At(ledger, (e, asset)).total
                 - (if e == plan.sellExchange && asset == BaseOf(plan.symbol) then DebitOf(s.trade.sell) else 0.0)
                 + (if e == plan.sellExchange && asset == QuoteOf(buy.symbol) && s.trade.sell.filled > 0.0
                    then Min(buy.filled, s.trade.sell.filled) * PriceOrZero(s.trade.sell) else 0.0)
  {
    hide PlacedLeg;
    hide DebitOf;
    hide Assessed;
    hide BaseOf;
    hide QuoteOf;
    var input := SellInput(config, fees, plan, buy, sellBook, now);
    LegDebits(input, ledger, limiters, config.rateLimit, (e, asset));
    if PlacedLeg(input, ledger, limiters, config.rateLimit).outcome.Ok? {
      OrderShows(input, ledger, limiters, config.rateLimit);
    }
  }

  // ---- settlement ---------------------------------------------------------

  /** What a settlement reports: the orders, the matched and the left-over quantity, and figures if both were priced. */
  lemma SettlementShows(buy: Order, sell: Order, buyBook: BookState, sellBook: BookState, fees: Fees)
    requires Assessed(buy, sell, buyBook, sellBook, fees).Ok?
    ensures var r := Assessed(buy, sell, buyBook, sellBook, fees).value;
            && r.buyOrder == buy && r.sellOrder == sell
            && r.matched <= buy.filled && r.matched <= sell.filled
            && (r.matched == buy.filled || r.matched == sell.filled)
            && r.matched + r.leftover == buy.filled
            && (r.realizedPnl.Some? <==> r.matched > 0.0 && PriceOrZero(buy) != 0.0 && PriceOrZero(sell) != 0.0)
            && (r.netAfterSlippagePct.Some? <==> r.realizedPnl.Some?)
  {
    hide BestAskOf;
    hide BestBidOf;
    hide NetSpread;
    hide RealizedPnl;
    hide BuySlippagePct;
    hide SellSlippagePct;
  }

  /** The figures: profit is proceeds after fee less cost with fee, and each percentage scales its reference. */
  lemma SettlementFigures(buy: Order, sell: Order, buyBook: BookState, sellBook: BookState, fees: Fees)
    requires Assessed(buy, sell, buyBook, sellBook, fees).Ok?
    requires Assessed(buy, sell, buyBook, sellBook, fees).value.realizedPnl.Some?
    ensures var r := Assessed(buy, sell, buyBook, sellBook, fees).value;
            var ask, bid := BestAskOf(buyBook.asks), BestBidOf(sellBook.bids);
            var a, b := PriceOrZero(buy), PriceOrZero(sell);
            var f, g := FeeOf(fees, buy.exchange), FeeOf(fees, sell.exchange);
            && r.realizedPnl.value == r.matched * b * (1.0 - g) - r.matched * a * (1.0 + f)
            && (r.buySlippagePct.Some? <==> ask.Some?) && (r.sellSlippagePct.Some? <==> bid.Some?)
            && (ask.Some? ==> ask.value.price * (1.0 + r.buySlippagePct.value / 100.0) == a)
            && (bid.Some? ==> bid.value.price * (1.0 - r.sellSlippagePct.value / 100.0) == b)
            && b * (1.0 - g) == a * (1.0 + f) * (1.0 + r.netAfterSlippagePct.value / 100.0)
  {
    hide BestAskOf;
    hide BestBidOf;
    hide BuySlippagePct;
    hide SellSlippagePct;
    hide NetSpread;
    hide RealizedPnl;
    var ask, bid := BestAskOf(buyBook.asks), BestBidOf(sellBook.bids);
    var a, b := PriceOrZero(buy), PriceOrZero(sell);
    var f, g := FeeOf(fees, buy.exchange), FeeOf(fees, sell.exchange);
    if ask.Some? {
      SlippageExact(ask.value.price, a);
    }
    if bid.Some? {
      SlippageExact(bid.value.price, b);
    }
    NetSpreadExact(a, b, f, g);
    PnlExact(buy, sell, fees);
    assert NetSpread(a, b, f, g).value * 100.0 / 100.0 == NetSpread(a, b, f, g).value;
  }

  lemma PnlExact(buy: Order, sell: Order, fees: Fees)
    ensures RealizedPnl(buy, sell, fees)
            == Matched(buy, sell) * PriceOrZero(sell) * (1.0 - FeeOf(fees, sell.exchange))
               - Matched(buy, sell) * PriceOrZero(buy) * (1.0 + FeeOf(fees, buy.exchange))
  {
    hide Matched;
    hide PriceOrZero;
    hide FeeOf;
  }

  lemma NetSpreadExact(ask: real, bid: real, buyFee: real, sellFee: real)
    requires NetSpread(ask, bid, buyFee, sellFee).Ok?
    ensures bid * (1.0 - sellFee) == ask * (1.0 + buyFee) * (1.0 + NetSpread(ask, bid, buyFee, sellFee).value)
  {
    TimesPositive(ask, 1.0 + buyFee);
    var cost, ratio := ask * (1.0 + buyFee), bid * (1.0 - sellFee) / (ask * (1.0 + buyFee));
    assert cost * ratio == bid * (1.0 - sellFee);
    assert 1.0 + NetSpread(ask, bid, buyFee, sellFee).value == ratio;
  }
}
