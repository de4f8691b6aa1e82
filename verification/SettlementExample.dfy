/** One concrete trade whose settlement raises after both legs have moved funds. */
module SettlementExample {
  import opened Prelude
  import opened OrderBooks
  import opened DepthWalk
  import opened TradingRules
  import opened Balances
  import opened RateLimiting
  import opened PaperTrading
  import opened TradeLaws
  import opened TradeRuns

  const CONFIG := Config(SymbolRules(1.0, 1.0, 1.0, 1.0), map[], 0, 1)
  const PLAN := Plan("B-U", BINANCE, BYBIT, 1.0, "U", 0)

  /** Bybit is configured with a rebate, which the configuration does not refuse. */
  const FEES: Fees := map[BYBIT := -0.0001]

  const ASKED := BookState(map[], map[100.0 := 1.0], Some(1), true)
  const BID := BookState(map[110.0 := 1.0], map[], Some(1), true)

  const BOUGHT := Order(BINANCE, "B-U", Buy, 1.0, 100.0, FILLED, 1.0, Some(100.0), 0.0, None)
  const SOLD := Order(BYBIT, "B-U", Sell, 1.0, 110.0, FILLED, 1.0, Some(110.0), -0.011, None)

  const FUNDED: Ledger := map[(BINANCE, "U") := Account(100.0, 0.0), (BYBIT, "B") := Account(1.0, 0.0)]

  lemma OneLevelBooks()
    ensures AsksOf(ASKED.asks) == [Level(100.0, 1.0)] && BestAskOf(ASKED.asks) == Some(Level(100.0, 1.0))
    ensures BidsOf(BID.bids) == [Level(110.0, 1.0)] && BestBidOf(BID.bids) == Some(Level(110.0, 1.0))
  {
    hide Ascending;
    hide Descending;
    hide BestAskOf;
    hide BestBidOf;
    AsksSortedView(ASKED.asks);
    BidsSortedView(BID.bids);
    var asks, bids := Ascending(ASKED.asks.Keys), Descending(BID.bids.Keys);
    assert ASKED.asks.Keys == {100.0} && BID.bids.Keys == {110.0};
    assert |asks| == 1 == |bids| && asks[0] in asks && bids[0] in bids;
  }

  /** One unit over one level of one unit. */
  lemma OneUnit(price: real)
    ensures Walked([Level(price, 1.0)], 1.0) == VwapResult(Some(price), 1.0, price, true)
  {
    var levels := [Level(price, 1.0)];
    assert levels[1..] == [];
    assert Fill(levels, 1.0) == 1.0;
    assert Cost(levels, 1.0) == price;
    assert price / 1.0 == price;
  }

  lemma WholePrices(price: int)
    requires price > 0
    ensures Validated(1.0, price as real, CONFIG.defaultRules).Ok?
    ensures Validated(1.0, price as real, CONFIG.defaultRules).value.valid
  {
    assert 1.0 == Multiple(1, 1.0) && price as real == Multiple(price, 1.0);
    ValidIff(1.0, price as real, CONFIG.defaultRules);
  }

  lemma Names()
    ensures BaseOf("B-U") == "B" && QuoteOf("B-U") == "U"
  {
    assert "B-U"[1..] == "-U" && "-U"[1..] == "U";
    assert SplitSymbol("-U") == ("", "U");
  }

  lemma BuyLeg()
    ensures var s := Began(CONFIG, FEES, PLAN, ASKED, 0, FUNDED, map[]);
            && s.trade == AwaitingSell(PLAN, BOUGHT)
            && s.ledger == FUNDED[(BINANCE, "U") := Account(0.0, 0.0)]
            && BYBIT !in s.limiters
  {
    hide PlacedLeg;
    BuyPlaced();
  }

  lemma BuyPlaced()
    ensures var leg := PlacedLeg(BuyInput(CONFIG, FEES, PLAN, ASKED, 0), FUNDED, map[], 1);
            && leg.outcome == Ok(BOUGHT)
            && leg.ledger == FUNDED[(BINANCE, "U") := Account(0.0, 0.0)]
            && BYBIT !in leg.limiters
  {
    hide AsksOf;
    hide BestAskOf;
    hide Walked;
    hide Validated;
    OneLevelBooks();
    OneUnit(100.0);
    WholePrices(100);
  }

  lemma SellLeg(ledger: Ledger, limiters: Limiters)
    requires ledger == FUNDED[(BINANCE, "U") := Account(0.0, 0.0)] && BYBIT !in limiters
    ensures var leg := PlacedLeg(SellInput(CONFIG, FEES, PLAN, BOUGHT, BID, 1), ledger, limiters, 1);
            && leg.outcome == Ok(SOLD)
            && leg.ledger == ledger[(BYBIT, "B") := Account(0.0, 0.0)]
  {
    hide BidsOf;
    hide BestBidOf;
    hide Walked;
    hide Validated;
    hide SplitSymbol;
    OneLevelBooks();
    OneUnit(110.0);
    WholePrices(110);
    Names();
  }

  lemma Settles(ledger: Ledger)
    requires (BYBIT, "U") !in ledger
    ensures Assessed(BOUGHT, SOLD, ASKED, BID, FEES) == Raised(NegativeFee)
    ensures WithProceeds(ledger, BOUGHT, SOLD) == ledger[(BYBIT, "U") := Account(110.0, 0.0)]
  {
    hide BestAskOf;
    hide BestBidOf;
    hide SplitSymbol;
    OneLevelBooks();
    Names();
  }

  /** The buy is paid, the base is gone and the proceeds are credited, but no result comes back. */
  lemma SettlementCanRaise()
    ensures var after := Run(CONFIG, FEES, World(FUNDED, map[], []), [Begin(PLAN, ASKED, 0), Resume(0, ASKED, BID, 1)]);
            && after.trades == [Done(PLAN, BOUGHT, SOLD, Raised(NegativeFee))]
            && At(after.ledger, (BINANCE, "U")).total == 0.0
            && At(after.ledger, (BYBIT, "B")).total == 0.0
            && At(after.ledger, (BYBIT, "U")).total == 110.0
  {
    hide PlacedLeg;
    hide Assessed;
    hide WithProceeds;
    hide SplitSymbol;
    hide Began;
    var events := [Begin(PLAN, ASKED, 0), Resume(0, ASKED, BID, 1)];
    assert events[..1] == [Begin(PLAN, ASKED, 0)] && events[..1][..0] == [];
    var start := World(FUNDED, map[], []);
    assert Run(CONFIG, FEES, start, events[..1]) == Step(CONFIG, FEES, start, events[0]);
    BuyLeg();
    var s := Began(CONFIG, FEES, PLAN, ASKED, 0, FUNDED, map[]);
    SellLeg(s.ledger, s.limiters);
    Settles(PlacedLeg(SellInput(CONFIG, FEES, PLAN, BOUGHT, BID, 1), s.ledger, s.limiters, 1).ledger);
  }
}
