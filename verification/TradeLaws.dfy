/** What one leg and one trade do to the balances. */
module TradeLaws {
  import opened Prelude
  import opened OrderBooks
  import opened DepthWalk
  import opened TradingRules
  import opened Balances
  import opened RateLimiting
  import opened SpreadFormulas
  import opened PaperTrading

  /** What a placed order takes out of its account: a buy its fill at the average price, a sale its whole request. */
  function DebitOf(order: Order): real {
    if order.avgPrice.None? then 0.0
    else if order.leg.Buy? then Times(order.avgPrice.value, order.filled)
    else order.requested
  }

  ghost predicate LockedNonNegative(ledger: Ledger) {
    forall k :: At(ledger, k).locked >= 0.0
  }

  lemma ReservationIsReturned(ledger: Ledger, key: Key, reserve: real, actual: real, k: Key)
    requires At(ledger, key).locked >= 0.0 && Covers(ledger, key, reserve)
    ensures At(Settled(Reserved(ledger, key, reserve), key, reserve, actual), k).locked == At(ledger, k).locked
    ensures At(Released(Reserved(ledger, key, reserve), key, reserve), k) == At(ledger, k)
  {
  }

  /** A leg, whatever its outcome, leaves every account's locked funds as they were. */
  lemma LegKeepsLocked(input: LegInput, ledger: Ledger, limiters: Limiters, max: nat, k: Key)
    requires LockedNonNegative(ledger)
    ensures At(PlacedLeg(input, ledger, limiters, max).ledger, k).locked == At(ledger, k).locked
  {
    hide Times;
    hide Walked;
    hide BestAskOf;
    hide BestBidOf;
    hide Validated;
    hide Allowed;
    hide Settled;
    hide Released;
    hide Reserved;
    if input.Top().Some? && Covers(ledger, input.Key(), input.ReserveAmount()) {
      var paid := if input.leg.Buy? then Walked(input.Levels(), input.quantity).notional else input.quantity;
      ReservationIsReturned(ledger, input.Key(), input.ReserveAmount(), paid, k);
    }
  }

  /** A leg takes exactly its order's debit from its own account, and nothing from any other. */
  lemma LegDebits(input: LegInput, ledger: Ledger, limiters: Limiters, max: nat, k: Key)
    ensures var r := PlacedLeg(input, ledger, limiters, max);
            At(r.ledger, k).total ==
            At(ledger, k).total - if r.outcome.Ok? && k == input.Key() then DebitOf(r.outcome.value) else 0.0
  {
    hide Times;
    hide BestAskOf;
    hide BestBidOf;
    hide Validated;
    hide Allowed;
    hide Fill;
    hide Cost;
    hide AsksOf;
    hide BidsOf;
    var f, c := Fill(input.Levels(), input.quantity), Cost(input.Levels(), input.quantity);
    if f != 0.0 {
      QuotientTimes(c, f);
    }
  }

  ghost predicate Executes(input: LegInput, ledger: Ledger, limiters: Limiters, max: nat) {
    var r := PlacedLeg(input, ledger, limiters, max);
    r.outcome.Ok? && r.outcome.value.avgPrice.Some?
  }

  /** What holds when a leg gets as far as filling. */
  lemma ExecutionFacts(input: LegInput, ledger: Ledger, limiters: Limiters, max: nat)
    requires Executes(input, ledger, limiters, max)
    ensures input.Top().Some? && input.quantity > 0.0 && input.Top().value.price > 0.0
    ensures Covers(ledger, input.Key(), input.ReserveAmount())
    ensures var r := PlacedLeg(input, ledger, limiters, max);
            r.outcome.value == ExecutedOrder(input) && r.ledger == ExecutedLedger(input, ledger)
    ensures Fill(input.Levels(), input.quantity) != 0.0
    ensures input.rules.stepSize > 0.0 && input.rules.tickSize > 0.0
    ensures Validated(input.quantity, input.Top().value.price, input.rules) == Ok(Validation(true, []))
  {
    hide Times;
    hide BestAskOf;
    hide BestBidOf;
    hide Allowed;
    hide ExecutedLedger;
    hide Cost;
    hide AlignedPart;
  }

  /** An executed sale never overdraws: available base stays non-negative. */
  lemma SaleNeverOverdraws(input: LegInput, ledger: Ledger, limiters: Limiters, max: nat)
    requires LockedNonNegative(ledger) && input.leg.Sell? && Executes(input, ledger, limiters, max)
    ensures At(PlacedLeg(input, ledger, limiters, max).ledger, input.Key()).Available() >= 0.0
  {
    ExecutionFacts(input, ledger, limiters, max);
    LegKeepsLocked(input, ledger, limiters, max, input.Key());
    LegDebits(input, ledger, limiters, max, input.Key());
  }

  // ---- the buy leg's overdraft --------------------------------------------

  lemma BookIsWalkable(store: Side)
    requires AllPositive(store)
    ensures Rising(AsksOf(store)) && NonNegative(AsksOf(store))
    ensures Falling(BidsOf(store)) && NonNegative(BidsOf(store))
  {
    AsksSortedView(store);
    BidsSortedView(store);
    forall i | 0 <= i < |AsksOf(store)|
      ensures AsksOf(store)[i].quantity >= 0.0
    {
      assert AsksOf(store)[i] in AsksOf(store);
    }
    forall i | 0 <= i < |BidsOf(store)|
      ensures BidsOf(store)[i].quantity >= 0.0
    {
      assert BidsOf(store)[i] in BidsOf(store);
    }
  }

  /** A buy pays the walked notional, not the reservation. */
  lemma BuyLeaves(input: LegInput, ledger: Ledger, limiters: Limiters, max: nat)
    requires LockedNonNegative(ledger) && input.leg.Buy? && Executes(input, ledger, limiters, max)
    ensures At(PlacedLeg(input, ledger, limiters, max).ledger, input.Key())
            == Account(At(ledger, input.Key()).total - Cost(input.Levels(), input.quantity),
                       At(ledger, input.Key()).locked)
    ensures DebitOf(PlacedLeg(input, ledger, limiters, max).outcome.value) == Cost(input.Levels(), input.quantity)
  {
    hide Times;
    hide PlacedLeg;
    hide Fill;
    hide Cost;
    ExecutionFacts(input, ledger, limiters, max);
    LegKeepsLocked(input, ledger, limiters, max, input.Key());
    LegDebits(input, ledger, limiters, max, input.Key());
    QuotientTimes(Cost(input.Levels(), input.quantity), Fill(input.Levels(), input.quantity));
  }

  /** After a buy, available quote is at least -quantity * (worst touched ask - best ask). */
  lemma OverdraftBound(input: LegInput, ledger: Ledger, limiters: Limiters, max: nat, k: nat)
    requires LockedNonNegative(ledger) && AllPositive(input.book.asks)
    requires input.leg.Buy? && Executes(input, ledger, limiters, max)
    requires IsLastTouched(input.Levels(), input.quantity, k)
    ensures At(PlacedLeg(input, ledger, limiters, max).ledger, input.Key()).Available()
            >= -Times(input.quantity, input.Levels()[k].price - input.Levels()[0].price)
  {
    hide Times;
    hide PlacedLeg;
    hide AsksOf;
    hide BestAskOf;
    hide Executes;
    hide Cost;
    hide Takes;
    var levels, q := AsksOf(input.book.asks), input.quantity;
    AsksSortedView(input.book.asks);
    ExecutionFacts(input, ledger, limiters, max);
    BuyLeaves(input, ledger, limiters, max);
    CostAtMostWorst(input.book.asks, q, k);
    TimesDifference(q, levels[k].price, levels[0].price);
  }

  lemma CostAtMostWorst(asks: Side, q: real, k: nat)
    requires AllPositive(asks) && q > 0.0 && IsLastTouched(AsksOf(asks), q, k)
    requires AsksOf(asks)[0].price > 0.0
    ensures Cost(AsksOf(asks), q) <= Times(q, AsksOf(asks)[k].price)
  {
    hide Times;
    hide AsksOf;
    hide Fill;
    hide Cost;
    BookIsWalkable(asks);
    BuyCostBounds(AsksOf(asks), q, k);
    FillIsMin(AsksOf(asks), q);
    assert AsksOf(asks)[0].price <= AsksOf(asks)[k].price;
    TimesMonotone(Fill(AsksOf(asks), q), q, AsksOf(asks)[k].price);
  }

  lemma TimesDifference(a: real, b: real, c: real)
    ensures Times(a, b - c) == Times(a, b) - Times(a, c)
  {
  }

  /** A walk within the depth pays no more than the best price throughout exactly when the best level holds it all. */
  lemma PaysBestPriceWithin(levels: seq<Level>, q: real)
    requires levels != [] && q > 0.0 && Depth(levels) >= q
    requires forall i, j :: 0 <= i < j < |levels| ==> levels[i].price < levels[j].price
    requires forall i :: 0 <= i < |levels| ==> levels[i].quantity > 0.0
    ensures Cost(levels, q) <= Times(q, levels[0].price) <==> q <= levels[0].quantity
  {
    hide Times;
    var p, rest := levels[0].price, levels[1..];
    var a, r := CostUnfold(levels, q);
    if q <= levels[0].quantity {
      assert Cost(rest, 0.0) == 0.0;
    } else {
      assert rest != [] by {
        assert rest == [] ==> Depth(rest) == 0.0;
      }
      var next := rest[0].price;
      assert Cost(rest, 0.0) == 0.0;
      forall i | 0 <= i < |rest|
        ensures next <= rest[i].price
      {
        assert rest[i] == levels[i + 1];
      }
      MarginalCost(rest, 0.0, r, next);
      assert 0.0 + r == r;
      TimesStrict(p, next, r);
      TimesSwap(r, p);
      TimesSwap(r, next);
      TimesSum(a, r, p);
      assert a + r == q;
    }
  }

  /** The best level holds the target, or the book cannot fill it and costs no more as a whole than `budget`. */
  predicate Affordable(levels: seq<Level>, q: real, budget: real)
    requires levels != []
  {
    q <= levels[0].quantity || (Depth(levels) < q && Notional(levels) <= budget)
  }

  /** For any target, filled or not, the walk costs no more than it would at the best price exactly when affordable. */
  lemma PaysBestPriceIff(levels: seq<Level>, q: real)
    requires levels != [] && q > 0.0
    requires forall i, j :: 0 <= i < j < |levels| ==> levels[i].price < levels[j].price
    requires forall i :: 0 <= i < |levels| ==> levels[i].quantity > 0.0
    ensures Cost(levels, q) <= Times(q, levels[0].price) <==> Affordable(levels, q, Times(q, levels[0].price))
  {
    hide Times;
    hide Cost;
    hide Notional;
    if Depth(levels) >= q {
      PaysBestPriceWithin(levels, q);
    } else {
      WholeBookCost(levels, q);
      DepthNonNegative(levels[1..]);
    }
  }

  /** The reservation covers the payment exactly when the order is affordable within it, however much gets filled. */
  lemma ReservationCoversIff(input: LegInput, ledger: Ledger, limiters: Limiters, max: nat)
    requires LockedNonNegative(ledger) && AllPositive(input.book.asks)
    requires input.leg.Buy? && Executes(input, ledger, limiters, max)
    ensures input.Top().Some? && input.Levels() != [] && input.Top().value == input.Levels()[0]
    ensures DebitOf(PlacedLeg(input, ledger, limiters, max).outcome.value) <= input.ReserveAmount()
            <==> Affordable(input.Levels(), input.quantity, input.ReserveAmount())
    ensures At(ledger, input.Key()).Available() == input.ReserveAmount() ==>
              (At(PlacedLeg(input, ledger, limiters, max).ledger, input.Key()).Available() >= 0.0
               <==> Affordable(input.Levels(), input.quantity, input.ReserveAmount()))
  {
    hide Times;
    hide PlacedLeg;
    hide AsksOf;
    hide BestAskOf;
    hide Fill;
    hide Cost;
    hide Affordable;
    hide Executes;
    var levels, q := AsksOf(input.book.asks), input.quantity;
    AsksSortedView(input.book.asks);
    ExecutionFacts(input, ledger, limiters, max);
    BuyLeaves(input, ledger, limiters, max);
    forall i | 0 <= i < |levels|
      ensures levels[i].quantity > 0.0
    {
      assert levels[i] in levels;
    }
    PaysBestPriceIff(levels, q);
  }

  // ---- when a leg executes, and when it raises ----------------------------

  /** On a book with positive quantities a leg executes exactly when it is in time, valid, admitted and covered. */
  lemma ExecutesIff(input: LegInput, ledger: Ledger, limiters: Limiters, max: nat)
    requires AllPositive(input.book.bids) && AllPositive(input.book.asks)
    ensures Executes(input, ledger, limiters, max) <==>
              && input.ackLatencyMs <= input.timeoutMs
              && input.Top().Some?
              && var price := input.Top().value.price;
                 && input.quantity > 0.0 && price > 0.0
                 && input.quantity >= input.rules.minQuantity
                 && Times(input.quantity, price) >= input.rules.minNotional
                 && input.rules.stepSize > 0.0 && IsMultiple(input.quantity, input.rules.stepSize)
                 && input.rules.tickSize > 0.0 && IsMultiple(price, input.rules.tickSize)
                 && Allowed(LimiterOf(limiters, input.exchange, max), input.now).1
                 && Covers(ledger, input.Key(), input.ReserveAmount())
  {
    hide Times;
    hide AsksOf;
    hide BidsOf;
    hide BestAskOf;
    hide BestBidOf;
    hide Validated;
    hide Allowed;
    hide Covers;
    hide ExecutedLedger;
    hide IsMultiple;
    hide Fill;
    hide Cost;
    if input.Top().Some? {
      ValidIff(input.quantity, input.Top().value.price, input.rules);
      if input.quantity > 0.0 {
        SomethingFills(input);
      }
    }
  }

  lemma SomethingFills(input: LegInput)
    requires AllPositive(input.book.bids) && AllPositive(input.book.asks)
    requires input.Top().Some? && input.quantity > 0.0
    ensures Fill(input.Levels(), input.quantity) > 0.0
  {
    hide AsksOf;
    hide BidsOf;
    hide BestAskOf;
    hide BestBidOf;
    var levels := input.Levels();
    BookIsWalkable(input.book.asks);
    BookIsWalkable(input.book.bids);
    AsksSortedView(input.book.asks);
    BidsSortedView(input.book.bids);
    assert levels[0] in levels;
    DepthNonNegative(levels[1..]);
    FillIsMin(levels, input.quantity);
  }

  /** A leg raises exactly when its order reaches the validation and that raises; then nothing has changed. */
  lemma LegRaisesIff(input: LegInput, ledger: Ledger, limiters: Limiters, max: nat)
    ensures var r := PlacedLeg(input, ledger, limiters, max);
            && (r.outcome.Raised? <==>
                  && input.ackLatencyMs <= input.timeoutMs
                  && input.Top().Some? && input.quantity > 0.0 && input.Top().value.price > 0.0
                  && (input.rules.stepSize <= 0.0 || input.rules.tickSize <= 0.0))
            && (r.outcome.Raised? ==>
                  && r.outcome.error
                     == (if input.rules.stepSize <= 0.0 then StepSizeNotPositive else TickSizeNotPositive)
                  && r.ledger == ledger && r.limiters == limiters)
  {
    hide BestAskOf;
    hide BestBidOf;
    hide Validated;
    hide Allowed;
    hide ExecutedOrder;
    hide ExecutedLedger;
    if input.Top().Some? {
      ValidationRaisesIff(input.quantity, input.Top().value.price, input.rules);
    }
  }

  /** A trade that cannot begin because its rules raise leaves balances and limiters as they were. */
  lemma BuyRaisedIff(config: Config, fees: Fees, plan: Plan, book: BookState, now: int, ledger: Ledger,
                     limiters: Limiters)
    ensures var s, top := Began(config, fees, plan, book, now, ledger, limiters), BestAskOf(book.asks);
            && (s.trade.BuyRaised? <==>
                  && plan.ackLatencyMs <= config.orderTimeoutMs
                  && top.Some? && plan.quantity > 0.0 && top.value.price > 0.0
                  && (config.RulesFor(plan.symbol).stepSize <= 0.0 || config.RulesFor(plan.symbol).tickSize <= 0.0))
            && (s.trade.BuyRaised? ==> s.ledger == ledger && s.limiters == limiters)
  {
    hide PlacedLeg;
    hide BestAskOf;
    LegRaisesIff(BuyInput(config, fees, plan, book, now), ledger, limiters, config.rateLimit);
  }

  lemma FilledMeansExecuted(input: LegInput, ledger: Ledger, limiters: Limiters, max: nat)
    requires PlacedLeg(input, ledger, limiters, max).outcome.Ok?
    requires PlacedLeg(input, ledger, limiters, max).outcome.value.filled > 0.0
    ensures Executes(input, ledger, limiters, max)
  {
    hide Times;
    hide AsksOf;
    hide BidsOf;
    hide BestAskOf;
    hide BestBidOf;
    hide Fill;
    hide Cost;
    hide Allowed;
    hide Validated;
    hide ExecutedLedger;
  }

  // ---- orders and profit --------------------------------------------------

  /** What every order that comes out of a leg satisfies, on a book with positive quantities. */
  ghost predicate OrderFacts(order: Order, fees: Fees) {
    && (order.avgPrice.None? ==> order.filled == 0.0 && order.feePaid == 0.0)
    && (order.avgPrice.Some? ==>
          && 0.0 < order.filled <= order.requested
          && order.feePaid == Times(Times(order.filled, order.avgPrice.value), FeeOf(fees, order.exchange)))
  }

  ghost predicate PositiveBook(book: BookState) {
    AllPositive(book.bids) && AllPositive(book.asks)
  }

  lemma LegGivesOrderFacts(input: LegInput, ledger: Ledger, limiters: Limiters, max: nat, fees: Fees)
    requires PositiveBook(input.book) && input.feeRate == FeeOf(fees, input.exchange)
    ensures var r := PlacedLeg(input, ledger, limiters, max);
            r.outcome.Ok? ==>
              && OrderFacts(r.outcome.value, fees)
              && r.outcome.value.exchange == input.exchange
              && r.outcome.value.symbol == input.symbol
              && r.outcome.value.leg == input.leg
              && r.outcome.value.requested == input.quantity
  {
    hide Times;
    hide AsksOf;
    hide BidsOf;
    hide BestAskOf;
    hide BestBidOf;
    hide Fill;
    hide Cost;
    hide Allowed;
    hide Validated;
    hide ExecutedLedger;
    if Executes(input, ledger, limiters, max) {
      ExecutionFacts(input, ledger, limiters, max);
      ExecutedOrderFacts(input, fees);
    }
  }

  lemma ExecutedOrderFacts(input: LegInput, fees: Fees)
    requires PositiveBook(input.book) && input.feeRate == FeeOf(fees, input.exchange) && input.quantity > 0.0
    requires ExecutedOrder(input).avgPrice.Some?
    ensures OrderFacts(ExecutedOrder(input), fees)
  {
    hide Times;
    hide AsksOf;
    hide BidsOf;
    hide Fill;
    hide Cost;
    var levels, q := input.Levels(), input.quantity;
    BookIsWalkable(input.book.asks);
    BookIsWalkable(input.book.bids);
    FillIsMin(levels, q);
    DepthNonNegative(levels);
    QuotientTimes(Cost(levels, q), Fill(levels, q));
    TimesSwap(Fill(levels, q), Cost(levels, q) / Fill(levels, q));
  }

  /** What the trade so far has moved of one asset, over all exchanges. */
  function EffectOf(trade: Trade, asset: string): real {
    match trade
    case BuyRaised(_, _) => 0.0
    case AwaitingSell(plan, buy) => BuyEffect(plan, buy, asset)
    case SellRaised(plan, buy, _) => BuyEffect(plan, buy, asset)
    case Done(plan, buy, sell, _) => BuyEffect(plan, buy, asset) + SellEffect(plan, buy, sell, asset)
  }

  function BuyEffect(plan: Plan, buy: Order, asset: string): real {
    if asset == plan.quoteAsset then -DebitOf(buy) else 0.0
  }

  function SellEffect(plan: Plan, buy: Order, sell: Order, asset: string): real {
    (if asset == BaseOf(plan.symbol) then -DebitOf(sell) else 0.0) +
    (if asset == QuoteOf(buy.symbol) && sell.filled > 0.0 then Times(Matched(buy, sell), PriceOrZero(sell)) else 0.0)
  }

  /** What a finished trade's two orders satisfy. */
  ghost predicate TradeFacts(trade: Trade, fees: Fees) {
    match trade
    case BuyRaised(_, _) => true
    case AwaitingSell(plan, buy) => OrderFacts(buy, fees) && buy.leg.Buy? && buy.symbol == plan.symbol
    case SellRaised(plan, buy, _) => OrderFacts(buy, fees) && buy.leg.Buy? && buy.symbol == plan.symbol
    case Done(plan, buy, sell, outcome) =>
      && OrderFacts(buy, fees) && buy.leg.Buy? && buy.symbol == plan.symbol
      && OrderFacts(sell, fees) && sell.leg.Sell?
      && (sell.filled > 0.0 ==> sell.filled <= buy.filled)
      && (outcome.Ok? && outcome.value.realizedPnl.Some? ==>
            && outcome.value.matched == Matched(buy, sell) > 0.0
            && outcome.value.leftover == buy.filled - outcome.value.matched
            && PriceOrZero(buy) != 0.0 && PriceOrZero(sell) != 0.0
            && outcome.value.realizedPnl == Some(RealizedPnl(buy, sell, fees))
            && var net := NetSpread(PriceOrZero(buy), PriceOrZero(sell),
                                    FeeOf(fees, buy.exchange), FeeOf(fees, sell.exchange));
               net.Ok? && outcome.value.netAfterSlippagePct == Some(net.value * 100.0))
  }

  /** A trade that reports a profit, paid and settled in one quote asset. */
  ghost predicate SettledIn(trade: Trade, quote: string) {
    && trade.Done?
    && trade.outcome.Ok? && trade.outcome.value.realizedPnl.Some?
    && trade.plan.quoteAsset == quote == QuoteOf(trade.plan.symbol)
    && BaseOf(trade.plan.symbol) != quote
  }

  /** The share of the buy fee that the matched quantity carries. */
  function MatchedBuyFee(buy: Order, matched: real): real
    requires buy.filled != 0.0
  {
    Times(buy.feePaid, matched) / buy.filled
  }

  /** Reported profit is the balance change, plus the cost of what was left over, less the fees that no balance pays. */
  lemma PnlLedgerIdentity(trade: Trade, fees: Fees, quote: string)
    requires TradeFacts(trade, fees) && SettledIn(trade, quote)
    ensures trade.buy.filled > 0.0
    ensures var r := trade.outcome.value;
            r.realizedPnl.value
            == EffectOf(trade, quote) + Times(r.leftover, PriceOrZero(trade.buy))
               - trade.sell.feePaid - MatchedBuyFee(trade.buy, r.matched)
  {
    hide Times;
    var buy, sell, m := trade.buy, trade.sell, Matched(trade.buy, trade.sell);
    assert buy.avgPrice.Some? && sell.avgPrice.Some?;
    assert m == sell.filled;
    var a, b := buy.avgPrice.value, sell.avgPrice.value;
    var f, g := FeeOf(fees, buy.exchange), FeeOf(fees, sell.exchange);
    FeeShare(buy.filled, a, f, m);
    TimesSplitOne(Times(m, b), g);
    TimesSplitOne(Times(m, a), f);
    TimesSum(buy.filled - m, m, a);
    assert buy.filled - m + m == buy.filled;
    TimesSwap(a, buy.filled);
  }

  lemma TimesSplitOne(x: real, fee: real)
    ensures Times(x, 1.0 - fee) == x - Times(x, fee)
    ensures Times(x, 1.0 + fee) == x + Times(x, fee)
  {
  }

  lemma FeeShare(filled: real, price: real, fee: real, matched: real)
    requires filled != 0.0
    ensures Times(Times(Times(filled, price), fee), matched) / filled == Times(Times(matched, price), fee)
  {
    var x := matched * price * fee;
    assert filled * price * fee * matched == x * filled;
    QuotientTimes(x, filled);
  }

  // ---- when settlement raises ---------------------------------------------

  /** The price of the best level is not positive. */
  predicate BadTop(top: Option<Level>) {
    top.Some? && top.value.price <= 0.0
  }

  /** Two matched orders raise in settlement exactly on a bad best level, a bad buy price or a negative fee. */
  lemma AssessmentRaisesIff(buy: Order, sell: Order, buyBook: BookState, sellBook: BookState, fees: Fees)
    ensures Assessed(buy, sell, buyBook, sellBook, fees).Raised? <==>
              && Matched(buy, sell) > 0.0 && PriceOrZero(buy) != 0.0 && PriceOrZero(sell) != 0.0
              && (|| BadTop(BestAskOf(buyBook.asks)) || BadTop(BestBidOf(sellBook.bids)) || PriceOrZero(buy) <= 0.0
                  || FeeOf(fees, buy.exchange) < 0.0 || FeeOf(fees, sell.exchange) < 0.0)
    ensures Assessed(buy, sell, buyBook, sellBook, fees).Raised? ==>
              Assessed(buy, sell, buyBook, sellBook, fees).error
              == if BadTop(BestAskOf(buyBook.asks)) || BadTop(BestBidOf(sellBook.bids)) then ReferencePriceNotPositive
                 else if PriceOrZero(buy) <= 0.0 then BuyAskNotPositive else NegativeFee
  {
    hide Times;
    hide BestAskOf;
    hide BestBidOf;
    hide RealizedPnl;
  }

  /** An executed buy has a positive average price: it paid at least the best ask. */
  lemma BuyPricePositive(input: LegInput, ledger: Ledger, limiters: Limiters, max: nat)
    requires AllPositive(input.book.asks) && input.leg.Buy? && Executes(input, ledger, limiters, max)
    ensures PriceOrZero(PlacedLeg(input, ledger, limiters, max).outcome.value) > 0.0
  {
    hide Times;
    hide PlacedLeg;
    hide Executes;
    hide AsksOf;
    hide BestAskOf;
    hide Fill;
    hide Cost;
    hide IsLastTouched;
    var levels, q := AsksOf(input.book.asks), input.quantity;
    BookIsWalkable(input.book.asks);
    AsksSortedView(input.book.asks);
    ExecutionFacts(input, ledger, limiters, max);
    ExecutedPrice(input, ledger, limiters, max);
    assert levels[0] in levels;
    DepthNonNegative(levels[1..]);
    var k := LastTouchedExists(levels, q);
    BuySlippageBounds(levels, q, k);
  }

  lemma ExecutedPrice(input: LegInput, ledger: Ledger, limiters: Limiters, max: nat)
    requires Executes(input, ledger, limiters, max) && input.quantity > 0.0
    ensures WalkResult(input.Levels(), input.quantity).Ok?
    ensures PlacedLeg(input, ledger, limiters, max).outcome.value.avgPrice
            == WalkResult(input.Levels(), input.quantity).value.vwapPrice
  {
    hide Times;
    hide PlacedLeg;
    hide Executes;
    hide AsksOf;
    hide BidsOf;
    hide BestAskOf;
    hide BestBidOf;
    hide Fill;
    hide Cost;
    ExecutionFacts(input, ledger, limiters, max);
  }

  /**
   * A priced buy's trade raises in settlement exactly when its sale executes at a price and, by then, the best ask is
   * not positive or one of the two fees is negative.
   */
  lemma SettlementRaisesIff(config: Config, fees: Fees, plan: Plan, buy: Order, buyBook: BookState, sellBook: BookState,
                            now: int, ledger: Ledger, limiters: Limiters)
    requires PositiveBook(sellBook) && buy.filled > 0.0 && PriceOrZero(buy) > 0.0
    ensures var t := Resumed(config, fees, plan, buy, buyBook, sellBook, now, ledger, limiters).trade;
            t.Done? ==>
              (t.outcome.Raised? <==>
                 && t.sell.filled > 0.0 && PriceOrZero(t.sell) != 0.0
                 && (BadTop(BestAskOf(buyBook.asks)) || FeeOf(fees, buy.exchange) < 0.0
                     || FeeOf(fees, plan.sellExchange) < 0.0))
  {
    hide PlacedLeg;
    hide Assessed;
    hide WithProceeds;
    hide Times;
    hide BestAskOf;
    hide BestBidOf;
    hide PositiveBook;
    var input := SellInput(config, fees, plan, buy, sellBook, now);
    var leg := PlacedLeg(input, ledger, limiters, config.rateLimit);
    if leg.outcome.Ok? {
      var sell := leg.outcome.value;
      LegGivesOrderFacts(input, ledger, limiters, config.rateLimit, fees);
      AssessmentRaisesIff(buy, sell, buyBook, sellBook, fees);
      if sell.avgPrice.Some? {
        ExecutionFacts(input, ledger, limiters, config.rateLimit);
      }
    }
  }

  /** Slippage is measured against the book at settlement, so its sign is that of the price's move since the fill. */
  lemma ReportedSlippageIff(buy: Order, sell: Order, buyBook: BookState, sellBook: BookState, fees: Fees)
    requires Assessed(buy, sell, buyBook, sellBook, fees).Ok?
    ensures var r, ask, bid := Assessed(buy, sell, buyBook, sellBook, fees).value, BestAskOf(buyBook.asks),
                               BestBidOf(sellBook.bids);
            && (r.buySlippagePct.Some? <==> r.realizedPnl.Some? && ask.Some?)
            && (r.sellSlippagePct.Some? <==> r.realizedPnl.Some? && bid.Some?)
            && (r.buySlippagePct.Some? ==> (r.buySlippagePct.value >= 0.0 <==> ask.value.price <= PriceOrZero(buy)))
            && (r.sellSlippagePct.Some? ==> (r.sellSlippagePct.value >= 0.0 <==> PriceOrZero(sell) <= bid.value.price))
  {
    hide Times;
    hide BestAskOf;
    hide BestBidOf;
    hide NetSpread;
    hide RealizedPnl;
    var ask, bid := BestAskOf(buyBook.asks), BestBidOf(sellBook.bids);
    if ask.Some? && ask.value.price > 0.0 {
      QuotientSign(PriceOrZero(buy), ask.value.price);
    }
    if bid.Some? && bid.value.price > 0.0 {
      QuotientSign(PriceOrZero(sell), bid.value.price);
    }
  }

  lemma QuotientSign(x: real, unit: real)
    requires unit > 0.0
    ensures x / unit >= 1.0 <==> x >= unit
    ensures x / unit <= 1.0 <==> x <= unit
  {
    QuotientSelf(unit);
    if x >= unit {
      QuotientMonotone(unit, x, unit);
    }
    if x <= unit {
      QuotientMonotone(x, unit, unit);
    }
    assert x / unit == 1.0 ==> x == unit;
  }

  /** Reported profit is also the matched cost with its fee, scaled by the net spread of the fill prices. */
  lemma PnlIsNetSpread(trade: Trade, fees: Fees, quote: string)
    requires TradeFacts(trade, fees) && SettledIn(trade, quote)
    ensures trade.outcome.value.netAfterSlippagePct.Some?
    ensures var r := trade.outcome.value;
            r.realizedPnl.value
            == Times(Times(Times(r.matched, PriceOrZero(trade.buy)), 1.0 + FeeOf(fees, trade.buy.exchange)),
                     r.netAfterSlippagePct.value / 100.0)
  {
    hide Times;
    var buy, sell := trade.buy, trade.sell;
    NetSpreadEarns(Matched(buy, sell), PriceOrZero(buy), PriceOrZero(sell),
                   FeeOf(fees, buy.exchange), FeeOf(fees, sell.exchange));
  }

  /** If the request and the ask quantities are whole steps, the sale is never refused for its step. */
  lemma SaleStaysOnStep(input: LegInput, ledger: Ledger, limiters: Limiters, max: nat, price: real)
    requires input.leg.Buy? && AllPositive(input.book.asks) && Executes(input, ledger, limiters, max)
    requires forall p :: p in input.book.asks ==> IsMultiple(input.book.asks[p], input.rules.stepSize)
    ensures var bought := PlacedLeg(input, ledger, limiters, max).outcome.value.filled;
            && Validated(bought, price, input.rules).Ok?
            && NotStepAligned !in Validated(bought, price, input.rules).value.violations
  {
    hide Times;
    hide PlacedLeg;
    hide AsksOf;
    hide Fill;
    hide Cost;
    var levels, step := AsksOf(input.book.asks), input.rules.stepSize;
    ExecutionFacts(input, ledger, limiters, max);
    ValidIff(input.quantity, input.Top().value.price, input.rules);
    AsksSortedView(input.book.asks);
    forall i | 0 <= i < |levels|
      ensures IsMultiple(levels[i].quantity, step)
    {
      assert levels[i] in levels;
    }
    FillAligned(levels, input.quantity, step);
    ValidIff(Fill(levels, input.quantity), price, input.rules);
  }
}
