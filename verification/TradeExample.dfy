/** Concrete buys that spend more than they reserved. */
module TradeExample {
  import opened Prelude
  import opened OrderBooks
  import opened DepthWalk
  import opened TradingRules
  import opened Balances
  import opened RateLimiting
  import opened PaperTrading
  import opened TradeLaws

  const ASKS: Side := map[100.0 := 1.0, 200.0 := 1.0]
  const LEVELS := [Level(100.0, 1.0), Level(200.0, 1.0)]
  const BOOK := BookState(map[], ASKS, Some(1), true)
  const INPUT := LegInput("BTC-USDT", BINANCE, Buy, 2.0, BOOK, SymbolRules(1.0, 1.0, 1.0, 1.0), "USDT", 0, 0, 0.0, 0)
  const LEDGER: Ledger := map[(BINANCE, "USDT") := Account(200.0, 0.0)]

  lemma AsksInOrder()
    ensures AsksOf(ASKS) == LEVELS
    ensures BestAskOf(ASKS) == Some(LEVELS[0])
  {
    hide Ascending;
    hide BestAskOf;
    AsksSortedView(ASKS);
    var prices := Ascending(ASKS.Keys);
    assert ASKS.Keys == {100.0, 200.0};
    assert |prices| == 2;
    var low, high := prices[0], prices[1];
    assert low in prices && high in prices && low < high;
    assert low == 100.0 && high == 200.0;
    assert AsksOf(ASKS) == LEVELS;
  }

  lemma WalksBothLevels()
    ensures Fill(LEVELS, 2.0) == 2.0 && Cost(LEVELS, 2.0) == 300.0
  {
    assert LEVELS[1..] == [LEVELS[1]];
  }

  lemma PassesTheRules()
    ensures Validated(2.0, 100.0, INPUT.rules).Ok? && Validated(2.0, 100.0, INPUT.rules).value.valid
  {
    assert 2.0 == Multiple(2, 1.0);
    assert 100.0 == Multiple(100, 1.0);
    ValidIff(2.0, 100.0, INPUT.rules);
  }

  lemma Reaches()
    ensures PlacedLeg(INPUT, LEDGER, map[], 1).outcome == Ok(ExecutedOrder(INPUT))
    ensures PlacedLeg(INPUT, LEDGER, map[], 1).ledger == ExecutedLedger(INPUT, LEDGER)
  {
    hide AsksOf;
    hide BestAskOf;
    hide Validated;
    hide ExecutedOrder;
    hide ExecutedLedger;
    AsksInOrder();
    PassesTheRules();
  }

  lemma Walks()
    ensures Walked(AsksOf(ASKS), 2.0) == VwapResult(Some(150.0), 2.0, 300.0, true)
  {
    hide Fill;
    hide Cost;
    AsksInOrder();
    WalksBothLevels();
  }

  /** With exactly the reservation available, two units over asks of one unit each leave the account at minus 100. */
  lemma BuyCanOverdraw()
    ensures LockedNonNegative(LEDGER) && AllPositive(ASKS)
    ensures Executes(INPUT, LEDGER, map[], 1)
    ensures var r := PlacedLeg(INPUT, LEDGER, map[], 1);
            && r.outcome.value.status == FILLED
            && At(LEDGER, INPUT.Key()).Available() == INPUT.ReserveAmount()
            && At(r.ledger, INPUT.Key()).Available() == -100.0
  {
    hide AsksOf;
    hide BestAskOf;
    hide Walked;
    hide PlacedLeg;
    AsksInOrder();
    Reaches();
    Walks();
  }

  /** A partial fill can overdraw too: three units over two asks of one unit reserve 300 and pay 1100. */
  lemma PartialFillCanOverdraw()
    ensures var levels := [Level(100.0, 1.0), Level(1000.0, 1.0)];
            && Fill(levels, 3.0) == 2.0 && Times(3.0, 100.0) == 300.0 && Cost(levels, 3.0) == 1100.0
            && !Affordable(levels, 3.0, 300.0)
  {
    var levels := [Level(100.0, 1.0), Level(1000.0, 1.0)];
    assert levels[1..] == [Level(1000.0, 1.0)] && levels[1..][1..] == [];
    assert Fill(levels[1..], 2.0) == 1.0 && Cost(levels[1..], 2.0) == 1000.0;
    assert Notional(levels[1..]) == 1000.0;
  }
}
