/** Simulated two-leg arbitrage over shared balances: a buy leg, a wait, then a sell leg and the settlement. */
module PaperTrading {
  import opened Prelude
  import opened OrderBooks
  import opened DepthWalk
  import opened TradingRules
  import opened Balances
  import opened RateLimiting
  import opened SpreadFormulas

  datatype Leg = Buy | Sell

  datatype OrderStatus = NEW | PARTIALLY_FILLED | FILLED | REJECTED | CANCELED | EXPIRED

  datatype Reason =
    | AckTimeout
    | NoLiquidity
    | RulesViolated(violations: seq<Violation>)
    | RateLimitExceeded
    | InsufficientBalance
    | NoFillableDepth
    | BuyLegDidNotFill

  /** The value of an order; PaperOrder is the record that the engine updates. */
  datatype Order = Order(
    exchange: Exchange,
    symbol: string,
    leg: Leg,
    requested: real,
    referencePrice: real,
    status: OrderStatus,
    filled: real,
    avgPrice: Option<real>,
    feePaid: real,
    reason: Option<Reason>)

  datatype Config = Config(
    defaultRules: SymbolRules,
    symbolRules: map<string, SymbolRules>,
    orderTimeoutMs: int,
    rateLimit: nat)
  {
    function RulesFor(symbol: string): SymbolRules {
      if symbol in symbolRules then symbolRules[symbol] else defaultRules
    }
  }

  type Fees = map<Exchange, real>

  function FeeOf(fees: Fees, exchange: Exchange): real {
    if exchange in fees then fees[exchange] else 0.0
  }

  /** Everything before the first dash, and everything after it. */
  function SplitSymbol(symbol: string): (string, string) {
    if symbol == "" then ("", "")
    else if symbol[0] == '-' then ("", symbol[1..])
    else
      var rest := SplitSymbol(symbol[1..]);
      ([symbol[0]] + rest.0, rest.1)
  }

  function BaseOf(symbol: string): string {
    SplitSymbol(symbol).0
  }

  function QuoteOf(symbol: string): string {
    SplitSymbol(symbol).1
  }

  // ---- one leg ------------------------------------------------------------

  datatype LegInput = LegInput(
    symbol: string,
    exchange: Exchange,
    leg: Leg,
    quantity: real,
    book: BookState,
    rules: SymbolRules,
    asset: string,
    ackLatencyMs: int,
    timeoutMs: int,
    feeRate: real,
    now: int)
  {
    function Top(): Option<Level> {
      if leg.Buy? then BestAskOf(book.asks) else BestBidOf(book.bids)
    }

    function Levels(): seq<Level> {
      if leg.Buy? then AsksOf(book.asks) else BidsOf(book.bids)
    }

    function NewOrder(): Order {
      var reference := if Top().Some? then Top().value.price else 0.0;
      Order(exchange, symbol, leg, quantity, reference, NEW, 0.0, None, 0.0, None)
    }

    function Refused(status: OrderStatus, why: Reason): Order {
      NewOrder().(status := status, reason := Some(why))
    }

    function Key(): Key {
      (exchange, asset)
    }

    function ReserveAmount(): real
      requires Top().Some?
    {
      if leg.Buy? then Times(quantity, Top().value.price) else quantity
    }
  }

  type Limiters = map<Exchange, Limiter>

  /** The limiter of an exchange; `setdefault` creates it on first use. */
  function LimiterOf(limiters: Limiters, exchange: Exchange, max: nat): Limiter {
    if exchange in limiters then limiters[exchange] else NewLimiter(max)
  }

  datatype LegResult = LegResult(outcome: Result<Order>, ledger: Ledger, limiters: Limiters)

  datatype Refusal = Refusal(status: OrderStatus, why: Reason)

  /** The checks that come before any state changes. */
  function Screened(input: LegInput): (r: Result<Option<Refusal>>)
    ensures r == Ok(None) ==> input.Top().Some? && input.quantity > 0.0
  {
    if input.ackLatencyMs > input.timeoutMs then Ok(Some(Refusal(EXPIRED, AckTimeout)))
    else if input.Top().None? then Ok(Some(Refusal(REJECTED, NoLiquidity)))
    else
      match Validated(input.quantity, input.Top().value.price, input.rules)
      case Raised(e) => Raised(e)
      case Ok(v) => if v.valid then Ok(None) else Ok(Some(Refusal(REJECTED, RulesViolated(v.violations))))
  }

  /** A leg that passed every check: the walk of the book as an order. */
  function ExecutedOrder(input: LegInput): Order {
    var vwap := Walked(input.Levels(), input.quantity);
    if vwap.vwapPrice.None? then input.Refused(REJECTED, NoFillableDepth)
    else input.NewOrder().(
           filled := vwap.filledQuantity,
           avgPrice := vwap.vwapPrice,
           feePaid := Times(vwap.notional, input.feeRate),
           status := if vwap.fullyFilled then FILLED else PARTIALLY_FILLED)
  }

  /** What such a leg does to the reserved account: a buy pays the walk's notional, a sale the whole request. */
  function ExecutedLedger(input: LegInput, ledger: Ledger): Ledger
    requires input.Top().Some?
  {
    var reserve := input.ReserveAmount();
    var reserved := Reserved(ledger, input.Key(), reserve);
    var vwap := Walked(input.Levels(), input.quantity);
    if vwap.vwapPrice.None? then Released(reserved, input.Key(), reserve)
    else Settled(reserved, input.Key(), reserve, if input.leg.Buy? then vwap.notional else input.quantity)
  }

  function PlacedLeg(input: LegInput, ledger: Ledger, limiters: Limiters, max: nat): LegResult {
    var screened := Screened(input);
    if screened.Raised? then LegResult(Raised(screened.error), ledger, limiters)
    else if screened.value.Some? then
      LegResult(Ok(input.Refused(screened.value.value.status, screened.value.value.why)), ledger, limiters)
    else
      var (limiter, allowed) := Allowed(LimiterOf(limiters, input.exchange, max), input.now);
      var counted := limiters[input.exchange := limiter];
      if !allowed then LegResult(Ok(input.Refused(REJECTED, RateLimitExceeded)), ledger, counted)
      else if !Covers(ledger, input.Key(), input.ReserveAmount()) then
        LegResult(Ok(input.Refused(REJECTED, InsufficientBalance)), Touched(ledger, input.Key()), counted)
      else LegResult(Ok(ExecutedOrder(input)), ExecutedLedger(input, ledger), counted)
  }

  // ---- settlement ---------------------------------------------------------

  datatype TradeResult = TradeResult(
    buyOrder: Order,
    sellOrder: Order,
    matched: real,
    leftover: real,
    realizedPnl: Option<real>,
    buySlippagePct: Option<real>,
    sellSlippagePct: Option<real>,
    netAfterSlippagePct: Option<real>)

  function Matched(buy: Order, sell: Order): real {
    Min(buy.filled, sell.filled)
  }

  function PriceOrZero(order: Order): real {
    if order.avgPrice.Some? then order.avgPrice.value else 0.0
  }

  /** The sale is credited in the symbol's own quote asset. */
  function WithProceeds(ledger: Ledger, buy: Order, sell: Order): Ledger {
    if sell.filled > 0.0 then
      Credited(ledger, (sell.exchange, QuoteOf(buy.symbol)), Times(Matched(buy, sell), PriceOrZero(sell)))
    else ledger
  }

  function RealizedPnl(buy: Order, sell: Order, fees: Fees): real {
    Times(Times(Matched(buy, sell), PriceOrZero(sell)), 1.0 - FeeOf(fees, sell.exchange)) -
    Times(Times(Matched(buy, sell), PriceOrZero(buy)), 1.0 + FeeOf(fees, buy.exchange))
  }

  function Assessed(buy: Order, sell: Order, buyBook: BookState, sellBook: BookState, fees: Fees): Result<TradeResult> {
    var matched := Matched(buy, sell);
    var flat := TradeResult(buy, sell, matched, buy.filled - matched, None, None, None, None);
    if matched > 0.0 && PriceOrZero(buy) != 0.0 && PriceOrZero(sell) != 0.0 then
      var ask, bid := BestAskOf(buyBook.asks), BestBidOf(sellBook.bids);
      var buySlip := if ask.Some? then BuySlippagePct(ask.value.price, PriceOrZero(buy)) else Ok(0.0);
      var sellSlip := if bid.Some? then SellSlippagePct(bid.value.price, PriceOrZero(sell)) else Ok(0.0);
      var net := NetSpread(PriceOrZero(buy), PriceOrZero(sell), FeeOf(fees, buy.exchange), FeeOf(fees, sell.exchange));
      if buySlip.Raised? then Raised(buySlip.error)
      else if sellSlip.Raised? then Raised(sellSlip.error)
      else if net.Raised? then Raised(net.error)
      else Ok(flat.(
                realizedPnl := Some(RealizedPnl(buy, sell, fees)),
                buySlippagePct := if ask.Some? then Some(buySlip.value) else None,
                sellSlippagePct := if bid.Some? then Some(sellSlip.value) else None,
                netAfterSlippagePct := Some(net.value * 100.0)))
    else Ok(flat)
  }

  // ---- one trade, split at the wait between its legs ----------------------

  datatype Plan = Plan(
    symbol: string,
    buyExchange: Exchange,
    sellExchange: Exchange,
    quantity: real,
    quoteAsset: string,
    ackLatencyMs: int)

  datatype Trade =
    | BuyRaised(plan: Plan, error: Error)
    | AwaitingSell(plan: Plan, buy: Order)
    | SellRaised(plan: Plan, buy: Order, error: Error)
    | Done(plan: Plan, buy: Order, sell: Order, outcome: Result<TradeResult>)

  datatype TradeStep = TradeStep(trade: Trade, ledger: Ledger, limiters: Limiters)

  function BuyInput(config: Config, fees: Fees, plan: Plan, book: BookState, now: int): LegInput {
    LegInput(plan.symbol, plan.buyExchange, Buy, plan.quantity, book, config.RulesFor(plan.symbol), plan.quoteAsset,
             plan.ackLatencyMs, config.orderTimeoutMs, FeeOf(fees, plan.buyExchange), now)
  }

  function SellInput(config: Config, fees: Fees, plan: Plan, buy: Order, book: BookState, now: int): LegInput {
    LegInput(plan.symbol, plan.sellExchange, Sell, buy.filled, book, config.RulesFor(plan.symbol), BaseOf(plan.symbol),
             plan.ackLatencyMs, config.orderTimeoutMs, FeeOf(fees, plan.sellExchange), now)
  }

  function CanceledSell(plan: Plan): Order {
    Order(plan.sellExchange, plan.symbol, Sell, 0.0, 0.0, CANCELED, 0.0, None, 0.0, Some(BuyLegDidNotFill))
  }

  /** Up to the wait: the buy leg, and the end of the trade if it filled nothing. */
  function Began(config: Config, fees: Fees, plan: Plan, book: BookState, now: int, ledger: Ledger,
                 limiters: Limiters): TradeStep
  {
    var leg := PlacedLeg(BuyInput(config, fees, plan, book, now), ledger, limiters, config.rateLimit);
    var trade :=
      if leg.outcome.Raised? then BuyRaised(plan, leg.outcome.error)
      else if leg.outcome.value.filled <= 0.0 then
        var buy, sell := leg.outcome.value, CanceledSell(plan);
        Done(plan, buy, sell, Ok(TradeResult(buy, sell, 0.0, 0.0, None, None, None, None)))
      else AwaitingSell(plan, leg.outcome.value);
    TradeStep(trade, leg.ledger, leg.limiters)
  }

  /** After the wait: the sell leg for what was bought, and the settlement, on the books as they are now. */
  function Resumed(config: Config, fees: Fees, plan: Plan, buy: Order, buyBook: BookState, sellBook: BookState,
                   now: int, ledger: Ledger, limiters: Limiters): TradeStep
  {
    var leg := PlacedLeg(SellInput(config, fees, plan, buy, sellBook, now), ledger, limiters, config.rateLimit);
    if leg.outcome.Raised? then TradeStep(SellRaised(plan, buy, leg.outcome.error), leg.ledger, leg.limiters)
    else
      var sell := leg.outcome.value;
      TradeStep(Done(plan, buy, sell, Assessed(buy, sell, buyBook, sellBook, fees)),
                WithProceeds(leg.ledger, buy, sell), leg.limiters)
  }

  // ---- the engine ---------------------------------------------------------

  class PaperOrder {
    const exchange: Exchange
    const symbol: string
    const leg: Leg
    const requested: real
    const referencePrice: real
    var status: OrderStatus
    var filled: real
    var avgPrice: Option<real>
    var feePaid: real
    var reason: Option<Reason>

    constructor (exchange: Exchange, symbol: string, leg: Leg, requested: real, referencePrice: real)
      ensures View() == Order(exchange, symbol, leg, requested, referencePrice, NEW, 0.0, None, 0.0, None)
    {
      this.exchange, this.symbol, this.leg := exchange, symbol, leg;
      this.requested, this.referencePrice := requested, referencePrice;
      status, filled, avgPrice, feePaid, reason := NEW, 0.0, None, 0.0, None;
    }

    function View(): Order
      reads this
    {
      Order(exchange, symbol, leg, requested, referencePrice, status, filled, avgPrice, feePaid, reason)
    }

    method Refuse(newStatus: OrderStatus, why: Reason)
      modifies this
      ensures View() == old(View()).(status := newStatus, reason := Some(why))
    {
      status, reason := newStatus, Some(why);
    }
  }

  class PaperTradingEngine {
    const config: Config
    const balances: BalanceManager
    const fees: Fees
    var limiters: Limiters

    constructor (config: Config, balances: BalanceManager, fees: Fees)
      ensures this.config == config && this.balances == balances && this.fees == fees && limiters == map[]
    {
      this.config, this.balances, this.fees, limiters := config, balances, fees, map[];
    }

    method Admit(exchange: Exchange, now: int) returns (ok: bool)
      modifies this
      ensures var (limiter, allowed) := Allowed(LimiterOf(old(limiters), exchange, config.rateLimit), now);
              ok == allowed && limiters == old(limiters)[exchange := limiter]
    {
      var (limiter, allowed) := Allowed(LimiterOf(limiters, exchange, config.rateLimit), now);
      limiters := limiters[exchange := limiter];
      return allowed;
    }

    function LegInputOf(symbol: string, exchange: Exchange, leg: Leg, quantity: real, book: BookState,
                        rules: SymbolRules, asset: string, ackLatencyMs: int, now: int): LegInput
    {
      LegInput(symbol, exchange, leg, quantity, book, rules, asset, ackLatencyMs, config.orderTimeoutMs,
               FeeOf(fees, exchange), now)
    }

    method Screen(top: Option<Level>, input: LegInput) returns (r: Result<Option<Refusal>>)
      requires top == input.Top()
      ensures r == Screened(input)
    {
      hide Validated;
      if input.ackLatencyMs > input.timeoutMs {
        return Ok(Some(Refusal(EXPIRED, AckTimeout)));
      }
      if top.None? {
        return Ok(Some(Refusal(REJECTED, NoLiquidity)));
      }
      var validation := ValidateOrder(input.quantity, top.value.price, input.rules);
      if validation.Raised? {
        return Raised(validation.error);
      }
      if !validation.value.valid {
        return Ok(Some(Refusal(REJECTED, RulesViolated(validation.value.violations))));
      }
      return Ok(None);
    }

    method PlaceLeg(symbol: string, exchange: Exchange, leg: Leg, quantity: real, book: OrderBook,
                    rules: SymbolRules, asset: string, ackLatencyMs: int, now: int)
      returns (r: Result<PaperOrder>)
      modifies this, balances
      ensures var input := LegInputOf(symbol, exchange, leg, quantity, book.State(), rules, asset, ackLatencyMs, now);
              var spec := PlacedLeg(input, old(balances.ledger), old(limiters), config.rateLimit);
              && balances.ledger == spec.ledger
              && limiters == spec.limiters
              && (r.Raised? ==> spec.outcome == Raised(r.error))
              && (r.Ok? ==> fresh(r.value) && spec.outcome == Ok(r.value.View()))
    {
      hide Times;
      hide Screened;
      hide ExecutedOrder;
      hide ExecutedLedger;
      hide Covers;
      hide Allowed;
      hide BestAskOf;
      hide BestBidOf;
      ghost var before := balances.ledger;
      var input := LegInputOf(symbol, exchange, leg, quantity, book.State(), rules, asset, ackLatencyMs, now);
      var top := if leg.Buy? then book.BestAsk() else book.BestBid();
      var order := new PaperOrder(exchange, symbol, leg, quantity, if top.Some? then top.value.price else 0.0);
      var screened := Screen(top, input);
      if screened.Raised? {
        return Raised(screened.error);
      }
      if screened.value.Some? {
        order.Refuse(screened.value.value.status, screened.value.value.why);
        return Ok(order);
      }
      var admitted := Admit(exchange, now);
      if !admitted {
        order.Refuse(REJECTED, RateLimitExceeded);
        return Ok(order);
      }
      var reserve := if leg.Buy? then Times(quantity, top.value.price) else quantity;
      var covered := balances.Reserve(exchange, asset, reserve);
      if !covered {
        order.Refuse(REJECTED, InsufficientBalance);
        return Ok(order);
      }
      ExecuteLeg(order, book, asset, reserve, input, before);
      return Ok(order);
    }

    /** The rest of a leg, once its funds are reserved. */
    method ExecuteLeg(order: PaperOrder, book: OrderBook, asset: string, reserve: real,
                      ghost input: LegInput, ghost before: Ledger)
      requires input.book == book.State() && input.Top().Some? && input.quantity > 0.0
      requires order.View() == input.NewOrder() && asset == input.asset && reserve == input.ReserveAmount()
      requires input.feeRate == FeeOf(fees, order.exchange)
      requires balances.ledger == Reserved(before, input.Key(), reserve)
      modifies order, balances
      ensures order.View() == ExecutedOrder(input)
      ensures balances.ledger == ExecutedLedger(input, before)
    {
      hide Times;
      hide Walked;
      hide AsksOf;
      hide BidsOf;
      hide Reserved;
      hide Released;
      hide Settled;
      hide BestAskOf;
      hide BestBidOf;
      var levels := if order.leg.Buy? then book.AsksSorted() else book.BidsSorted();
      var walk := ComputeVwap(levels, order.requested);
      var vwap := walk.value;
      if vwap.vwapPrice.None? {
        balances.Release(order.exchange, asset, reserve);
        order.Refuse(REJECTED, NoFillableDepth);
      } else {
        order.filled := vwap.filledQuantity;
        order.avgPrice := vwap.vwapPrice;
        order.feePaid := Times(vwap.notional, FeeOf(fees, order.exchange));
        order.status := if vwap.fullyFilled then FILLED else PARTIALLY_FILLED;
        var actual := if order.leg.Buy? then vwap.notional else order.requested;
        balances.Settle(order.exchange, asset, reserve, actual);
      }
    }

    method SettleTrade(buy: Order, sell: Order, buyBook: OrderBook, sellBook: OrderBook)
      returns (r: Result<TradeResult>)
      modifies balances
      ensures balances.ledger == WithProceeds(old(balances.ledger), buy, sell)
      ensures r == Assessed(buy, sell, buyBook.State(), sellBook.State(), fees)
    {
      hide Times;
      var matched := Min(buy.filled, sell.filled);
      var leftover := buy.filled - matched;
      if sell.filled > 0.0 {
        var proceeds := Times(matched, PriceOrZero(sell));
        balances.Credit(sell.exchange, QuoteOf(buy.symbol), proceeds);
      }
      var result := TradeResult(buy, sell, matched, leftover, None, None, None, None);
      if matched > 0.0 && PriceOrZero(buy) != 0.0 && PriceOrZero(sell) != 0.0 {
        var buyFee, sellFee := FeeOf(fees, buy.exchange), FeeOf(fees, sell.exchange);
        var cost := Times(Times(matched, PriceOrZero(buy)), 1.0 + buyFee);
        var proceeds := Times(Times(matched, PriceOrZero(sell)), 1.0 - sellFee);
        result := result.(realizedPnl := Some(proceeds - cost));
        var topAsk, topBid := buyBook.BestAsk(), sellBook.BestBid();
        if topAsk.Some? {
          var slip := BuySlippagePct(topAsk.value.price, PriceOrZero(buy));
          if slip.Raised? {
            return Raised(slip.error);
          }
          result := result.(buySlippagePct := Some(slip.value));
        }
        if topBid.Some? {
          var slip := SellSlippagePct(topBid.value.price, PriceOrZero(sell));
          if slip.Raised? {
            return Raised(slip.error);
          }
          result := result.(sellSlippagePct := Some(slip.value));
        }
        var net := NetSpread(PriceOrZero(buy), PriceOrZero(sell), buyFee, sellFee);
        if net.Raised? {
          return Raised(net.error);
        }
        result := result.(netAfterSlippagePct := Some(net.value * 100.0));
      }
      return Ok(result);
    }

    method BeginArbitrage(plan: Plan, buyBook: OrderBook, now: int) returns (trade: Trade)
      modifies this, balances
      ensures TradeStep(trade, balances.ledger, limiters)
              == Began(config, fees, plan, buyBook.State(), now, old(balances.ledger), old(limiters))
    {
      hide PlacedLeg;
      ghost var input := BuyInput(config, fees, plan, buyBook.State(), now);
      var r := PlaceLeg(plan.symbol, plan.buyExchange, Buy, plan.quantity, buyBook, config.RulesFor(plan.symbol),
                        plan.quoteAsset, plan.ackLatencyMs, now);
      if r.Raised? {
        return BuyRaised(plan, r.error);
      }
      var buy := r.value.View();
      if buy.filled <= 0.0 {
        var sell := CanceledSell(plan);
        return Done(plan, buy, sell, Ok(TradeResult(buy, sell, 0.0, 0.0, None, None, None, None)));
      }
      return AwaitingSell(plan, buy);
    }

    method ResumeArbitrage(plan: Plan, buy: Order, buyBook: OrderBook, sellBook: OrderBook, now: int)
      returns (trade: Trade)
      modifies this, balances
      ensures TradeStep(trade, balances.ledger, limiters)
              == Resumed(config, fees, plan, buy, buyBook.State(), sellBook.State(), now,
                         old(balances.ledger), old(limiters))
    {
      hide PlacedLeg;
      hide Assessed;
      hide WithProceeds;
      var r := PlaceLeg(plan.symbol, plan.sellExchange, Sell, buy.filled, sellBook, config.RulesFor(plan.symbol),
                        BaseOf(plan.symbol), plan.ackLatencyMs, now);
      if r.Raised? {
        return SellRaised(plan, buy, r.error);
      }
      var sell := r.value.View();
      var outcome := SettleTrade(buy, sell, buyBook, sellBook);
      return Done(plan, buy, sell, outcome);
    }
  }
}
