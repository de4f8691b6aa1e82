/** What an answer about a direction's funds is worth to the trade that follows. */
module DirectionLaws {
  import opened Prelude
  import opened OrderBooks
  import opened DepthWalk
  import opened TradingRules
  import opened Balances
  import opened RateLimiting
  import opened PaperTrading
  import opened TradeLaws
  import opened TradeRuns
  import opened SettlementExample
  import CapitalMonitoring

  /** The leg got as far as the balances and was refused there. */
  predicate RefusedForFunds(input: LegInput, ledger: Ledger, limiters: Limiters, max: nat) {
    var r := PlacedLeg(input, ledger, limiters, max);
    r.outcome.Ok? && r.outcome.value.reason == Some(InsufficientBalance)
  }

  /** The checks that come before the balances. */
  predicate ReachesBalances(input: LegInput, limiters: Limiters, max: nat) {
    && Screened(input) == Ok(None)
    && Allowed(LimiterOf(limiters, input.exchange, max), input.now).1
  }

  /** A leg is refused for funds exactly when it reaches the balances and its account does not cover the reservation. */
  lemma RefusedForFundsIff(input: LegInput, ledger: Ledger, limiters: Limiters, max: nat)
    ensures RefusedForFunds(input, ledger, limiters, max) <==>
              ReachesBalances(input, limiters, max) && !Covers(ledger, input.Key(), input.ReserveAmount())
  {
    hide BestAskOf;
    hide BestBidOf;
    hide Validated;
    hide Allowed;
    hide Covers;
    hide Walked;
    hide ExecutedLedger;
    hide Times;
  }

  /** A leg changes no account but its own. */
  lemma LegElsewhere(input: LegInput, ledger: Ledger, limiters: Limiters, max: nat, k: Key)
    requires k != input.Key()
    ensures At(PlacedLeg(input, ledger, limiters, max).ledger, k) == At(ledger, k)
  {
    hide BestAskOf;
    hide BestBidOf;
    hide Screened;
    hide Allowed;
    hide Covers;
    hide ExecutedOrder;
    hide ExecutedLedger;
    hide Times;
    hide At;
    hide Touched;
    OthersStay(ledger, input.Key(), 0.0, 0.0, k);
    if input.Top().Some? {
      ExecutionElsewhere(input, ledger, k);
    }
  }

  lemma ExecutionElsewhere(input: LegInput, ledger: Ledger, k: Key)
    requires k != input.Key() && input.Top().Some?
    ensures At(ExecutedLedger(input, ledger), k) == At(ledger, k)
  {
    hide BestAskOf;
    hide BestBidOf;
    hide Walked;
    hide Times;
    hide At;
    hide Reserved;
    hide Released;
    hide Settled;
    var key, reserve := input.Key(), input.ReserveAmount();
    var paid := if input.leg.Buy? then Walked(input.Levels(), input.quantity).notional else input.quantity;
    OthersStay(ledger, key, reserve, paid, k);
    OthersStay(Reserved(ledger, key, reserve), key, reserve, paid, k);
  }

  /** Whether the funds for a plan are there, at the price that its buy will reserve at. */
  function Availability(plan: Plan, book: BookState, ledger: Ledger): CapitalMonitoring.Availability
    requires BestAskOf(book.asks).Some?
  {
    CapitalMonitoring.AvailabilityOf(plan.quoteAsset, ledger, plan.symbol, plan.buyExchange, plan.sellExchange,
                                     plan.quantity, BestAskOf(book.asks).value.price)
  }

  /** The buy is refused for funds exactly when it reaches the balances and the answer is that quote is short. */
  lemma BuyRefusedIff(config: Config, fees: Fees, plan: Plan, book: BookState, now: int, ledger: Ledger,
                      limiters: Limiters)
    requires BestAskOf(book.asks).Some?
    ensures var input := BuyInput(config, fees, plan, book, now);
            RefusedForFunds(input, ledger, limiters, config.rateLimit) <==>
              ReachesBalances(input, limiters, config.rateLimit) && Availability(plan, book, ledger).QuoteShort?
  {
    hide BestAskOf;
    hide ReachesBalances;
    hide RefusedForFunds;
    hide Covers;
    hide Times;
    RefusedForFundsIff(BuyInput(config, fees, plan, book, now), ledger, limiters, config.rateLimit);
  }

  /** After an answer of "available", with nothing in between, neither leg is refused for funds. */
  lemma AvailableIsEnough(config: Config, fees: Fees, plan: Plan, book: BookState, now: int, ledger: Ledger,
                          limiters: Limiters, sellBook: BookState, later: int, laterLimiters: Limiters)
    requires BestAskOf(book.asks).Some? && PositiveBook(book)
    requires BaseOf(plan.symbol) != plan.quoteAsset
    requires Availability(plan, book, ledger).Available?
    ensures !RefusedForFunds(BuyInput(config, fees, plan, book, now), ledger, limiters, config.rateLimit)
    ensures var s := Began(config, fees, plan, book, now, ledger, limiters);
            s.trade.AwaitingSell? ==>
              !RefusedForFunds(SellInput(config, fees, plan, s.trade.buy, sellBook, later), s.ledger, laterLimiters,
                               config.rateLimit)
  {
    hide BestAskOf;
    hide ReachesBalances;
    hide RefusedForFunds;
    hide PlacedLeg;
    hide PositiveBook;
    hide OrderFacts;
    hide Times;
    var input := BuyInput(config, fees, plan, book, now);
    BuyRefusedIff(config, fees, plan, book, now, ledger, limiters);
    var s := Began(config, fees, plan, book, now, ledger, limiters);
    if s.trade.AwaitingSell? {
      var sale := SellInput(config, fees, plan, s.trade.buy, sellBook, later);
      LegElsewhere(input, ledger, limiters, config.rateLimit, sale.Key());
      FilledAtMost(config, fees, plan, book, now, ledger, limiters);
      RefusedForFundsIff(sale, s.ledger, laterLimiters, config.rateLimit);
    }
  }

  /** After "base is short", with nothing in between, a sale of the full quantity is refused at the balances. */
  lemma BaseShortIsRefused(config: Config, fees: Fees, plan: Plan, book: BookState, now: int, ledger: Ledger,
                           limiters: Limiters, sellBook: BookState, later: int, laterLimiters: Limiters)
    requires BestAskOf(book.asks).Some? && BaseOf(plan.symbol) != plan.quoteAsset
    requires Availability(plan, book, ledger).BaseShort?
    ensures var s := Began(config, fees, plan, book, now, ledger, limiters);
            s.trade.AwaitingSell? && s.trade.buy.filled == plan.quantity ==>
              var sale := SellInput(config, fees, plan, s.trade.buy, sellBook, later);
              ReachesBalances(sale, laterLimiters, config.rateLimit) ==>
                RefusedForFunds(sale, s.ledger, laterLimiters, config.rateLimit)
  {
    hide BestAskOf;
    hide ReachesBalances;
    hide RefusedForFunds;
    hide PlacedLeg;
    hide Times;
    var input := BuyInput(config, fees, plan, book, now);
    var s := Began(config, fees, plan, book, now, ledger, limiters);
    if s.trade.AwaitingSell? {
      var sale := SellInput(config, fees, plan, s.trade.buy, sellBook, later);
      LegElsewhere(input, ledger, limiters, config.rateLimit, sale.Key());
      RefusedForFundsIff(sale, s.ledger, laterLimiters, config.rateLimit);
    }
  }

  lemma FilledAtMost(config: Config, fees: Fees, plan: Plan, book: BookState, now: int, ledger: Ledger,
                     limiters: Limiters)
    requires PositiveBook(book)
    ensures var s := Began(config, fees, plan, book, now, ledger, limiters);
            s.trade.AwaitingSell? ==> s.trade.buy.filled <= plan.quantity
  {
    hide PlacedLeg;
    hide PositiveBook;
    hide Times;
    LegGivesOrderFacts(BuyInput(config, fees, plan, book, now), ledger, limiters, config.rateLimit, fees);
  }

  lemma AvailableAtFirst()
    ensures BestAskOf(ASKED.asks).Some?
    ensures Availability(PLAN, ASKED, FUNDED).Available?
  {
    hide BestAskOf;
    hide SplitSymbol;
    OneLevelBooks();
    Names();
  }

  lemma RunThree(config: Config, fees: Fees, w: World, d: Event, e: Event, f: Event)
    ensures Run(config, fees, w, [d, e, f])
            == Step(config, fees, Step(config, fees, Step(config, fees, w, d), e), f)
  {
    hide Step;
    assert [d, e, f][..2] == [d, e] && [d, e][..1] == [d] && [d][..0] == [];
    assert Run(config, fees, w, [d]) == Step(config, fees, w, d);
    assert Run(config, fees, w, [d, e]) == Step(config, fees, Run(config, fees, w, [d]), e);
  }

  /** A transfer while the trade waits takes the base away: the answer was "available", and the sale is refused. */
  lemma TransferTakesTheFunds()
    ensures BestAskOf(ASKED.asks).Some?
    ensures Availability(PLAN, ASKED, FUNDED).Available?
    ensures var after := Run(CONFIG, FEES, World(FUNDED, map[], []),
                             [Begin(PLAN, ASKED, 0), Transfer("B", BYBIT, OKX, 1.0), Resume(0, ASKED, BID, 1)]);
            && |after.trades| == 1 && after.trades[0].Done?
            && after.trades[0].sell.reason == Some(InsufficientBalance)
  {
    hide PlacedLeg;
    hide Assessed;
    hide WithProceeds;
    hide SplitSymbol;
    hide Began;
    hide BestAskOf;
    hide Transferred;
    hide At;
    hide Run;
    hide Availability;
    AvailableAtFirst();
    RunThree(CONFIG, FEES, World(FUNDED, map[], []), Begin(PLAN, ASKED, 0), Transfer("B", BYBIT, OKX, 1.0),
             Resume(0, ASKED, BID, 1));
    BuyLeg();
    var s := Began(CONFIG, FEES, PLAN, ASKED, 0, FUNDED, map[]);
    BaseMoves(s.ledger);
    SaleRefused(Transferred(s.ledger, "B", BYBIT, OKX, 1.0), s.limiters);
  }

  lemma BaseMoves(ledger: Ledger)
    requires ledger == FUNDED[(BINANCE, "U") := Account(0.0, 0.0)]
    ensures At(Transferred(ledger, "B", BYBIT, OKX, 1.0), (BYBIT, "B")) == Account(0.0, 0.0)
  {
  }

  lemma SaleRefused(ledger: Ledger, limiters: Limiters)
    requires At(ledger, (BYBIT, "B")) == Account(0.0, 0.0) && BYBIT !in limiters
    ensures var leg := PlacedLeg(SellInput(CONFIG, FEES, PLAN, BOUGHT, BID, 1), ledger, limiters, 1);
            leg.outcome.Ok? && leg.outcome.value.reason == Some(InsufficientBalance)
  {
    hide BestBidOf;
    hide Validated;
    hide SplitSymbol;
    hide PlacedLeg;
    OneLevelBooks();
    WholePrices(110);
    Names();
    RefusedForFundsIff(SellInput(CONFIG, FEES, PLAN, BOUGHT, BID, 1), ledger, limiters, 1);
  }
}
