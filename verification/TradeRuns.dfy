/** Any number of trades interleaved at their waits, over shared balances and rate limiters. */
module TradeRuns {
  import opened Prelude
  import opened OrderBooks
  import opened Balances
  import opened DepthWalk
  import opened SpreadFormulas
  import opened PaperTrading
  import opened TradeLaws

  datatype World = World(ledger: Ledger, limiters: Limiters, trades: seq<Trade>)

  /** The atomic steps: a trade runs without interruption up to its wait, and again after it. */
  datatype Event =
    | Begin(plan: Plan, book: BookState, now: int)
    | Resume(index: nat, buyBook: BookState, sellBook: BookState, now: int)
    | Transfer(asset: string, from: Exchange, to: Exchange, amount: real)
    | Fund(exchange: Exchange, asset: string, total: real)

  function Step(config: Config, fees: Fees, w: World, e: Event): World {
    match e
    case Begin(plan, book, now) =>
      var s := Began(config, fees, plan, book, now, w.ledger, w.limiters);
      World(s.ledger, s.limiters, w.trades + [s.trade])
    case Resume(i, buyBook, sellBook, now) =>
      if i < |w.trades| && w.trades[i].AwaitingSell? then
        var s := Resumed(config, fees, w.trades[i].plan, w.trades[i].buy, buyBook, sellBook, now, w.ledger, w.limiters);
        World(s.ledger, s.limiters, w.trades[i := s.trade])
      else w
    case Transfer(asset, from, to, amount) => w.(ledger := Transferred(w.ledger, asset, from, to, amount))
    case Fund(exchange, asset, total) => w.(ledger := w.ledger[(exchange, asset) := Account(total, 0.0)])
  }

  function Run(config: Config, fees: Fees, w: World, events: seq<Event>): World {
    if events == [] then w
    else Step(config, fees, Run(config, fees, w, events[..|events| - 1]), events[|events| - 1])
  }

  // ---- locked funds -------------------------------------------------------

  predicate Funds(e: Event, k: Key) {
    e.Fund? && (e.exchange, e.asset) == k
  }

  lemma StepKeepsLocked(config: Config, fees: Fees, w: World, e: Event, k: Key)
    requires LockedNonNegative(w.ledger)
    ensures At(Step(config, fees, w, e).ledger, k).locked == if Funds(e, k) then 0.0 else At(w.ledger, k).locked
  {
    hide PlacedLeg;
    hide Assessed;
    hide Times;
    match e {
      case Begin(plan, book, now) =>
        LegKeepsLocked(BuyInput(config, fees, plan, book, now), w.ledger, w.limiters, config.rateLimit, k);
      case Resume(i, buyBook, sellBook, now) =>
        if i < |w.trades| && w.trades[i].AwaitingSell? {
          LegKeepsLocked(SellInput(config, fees, w.trades[i].plan, w.trades[i].buy, sellBook, now),
                         w.ledger, w.limiters, config.rateLimit, k);
        }
      case Transfer(_, _, _, _) =>
      case Fund(_, _, _) =>
    }
  }

  /** Over every interleaving of any number of trades and transfers, every account's locked funds stay as they were. */
  lemma {:induction false} LockedSurvives(config: Config, fees: Fees, w: World, events: seq<Event>)
    requires LockedNonNegative(w.ledger)
    ensures forall k :: At(Run(config, fees, w, events).ledger, k).locked
                        == if exists e :: e in events && Funds(e, k) then 0.0 else At(w.ledger, k).locked
  {
    if events != [] {
      var front, last := events[..|events| - 1], events[|events| - 1];
      LockedSurvives(config, fees, w, front);
      var before := Run(config, fees, w, front);
      forall k
        ensures At(Step(config, fees, before, last).ledger, k).locked
                == if exists e :: e in events && Funds(e, k) then 0.0 else At(w.ledger, k).locked
      {
        StepKeepsLocked(config, fees, before, last, k);
        assert events == front + [last];
        assert forall e :: e in events <==> e in front || e == last;
      }
    }
  }

  lemma ProceedsElsewhere(ledger: Ledger, buy: Order, sell: Order, k: Key)
    requires k.1 != QuoteOf(buy.symbol)
    ensures At(WithProceeds(ledger, buy, sell), k) == At(ledger, k)
  {
    hide Times;
  }

  /** Whenever an interleaved trade's sale executes, it leaves available base non-negative. */
  lemma SaleInRunNeverOverdraws(config: Config, fees: Fees, w: World, events: seq<Event>,
                                i: nat, buyBook: BookState, sellBook: BookState, now: int)
    requires LockedNonNegative(w.ledger)
    requires var trades := Run(config, fees, w, events).trades;
             && i < |trades| && trades[i].AwaitingSell?
             && BaseOf(trades[i].plan.symbol) != QuoteOf(trades[i].buy.symbol)
    ensures var after := Run(config, fees, w, events + [Resume(i, buyBook, sellBook, now)]);
            && i < |after.trades|
            && var t := after.trades[i];
               t.Done? && t.sell.avgPrice.Some? ==>
                 At(after.ledger, (t.plan.sellExchange, BaseOf(t.plan.symbol))).Available() >= 0.0
  {
    hide PlacedLeg;
    hide Assessed;
    hide WithProceeds;
    var e := Resume(i, buyBook, sellBook, now);
    assert (events + [e])[..|events + [e]| - 1] == events;
    LockedSurvives(config, fees, w, events);
    var before := Run(config, fees, w, events);
    assert forall k :: At(before.ledger, k).locked >= 0.0;
    var t := before.trades[i];
    var input := SellInput(config, fees, t.plan, t.buy, sellBook, now);
    var leg := PlacedLeg(input, before.ledger, before.limiters, config.rateLimit);
    if leg.outcome.Ok? && leg.outcome.value.avgPrice.Some? {
      SaleNeverOverdraws(input, before.ledger, before.limiters, config.rateLimit);
      ProceedsElsewhere(leg.ledger, t.buy, leg.outcome.value, input.Key());
    }
  }

  // ---- conservation -------------------------------------------------------

  /** An asset's total over all exchanges. */
  function AssetTotal(ledger: Ledger, asset: string): real {
    At(ledger, (BINANCE, asset)).total + At(ledger, (BYBIT, asset)).total + At(ledger, (OKX, asset)).total
  }

  function TotalEffect(trades: seq<Trade>, asset: string): real {
    if trades == [] then 0.0 else EffectOf(trades[0], asset) + TotalEffect(trades[1..], asset)
  }

  lemma {:induction false} TotalEffectAppend(trades: seq<Trade>, t: Trade, asset: string)
    ensures TotalEffect(trades + [t], asset) == TotalEffect(trades, asset) + EffectOf(t, asset)
  {
    hide EffectOf;
    if trades == [] {
      assert trades + [t] == [t];
    } else {
      TotalEffectAppend(trades[1..], t, asset);
      assert (trades + [t])[1..] == trades[1..] + [t];
    }
  }

  lemma {:induction false} TotalEffectUpdate(trades: seq<Trade>, i: nat, t: Trade, asset: string)
    requires i < |trades|
    ensures TotalEffect(trades[i := t], asset)
            == TotalEffect(trades, asset) - EffectOf(trades[i], asset) + EffectOf(t, asset)
  {
    hide EffectOf;
    if i == 0 {
      assert trades[0 := t][1..] == trades[1..];
    } else {
      TotalEffectUpdate(trades[1..], i - 1, t, asset);
      assert trades[i := t][1..] == trades[1..][i - 1 := t];
    }
  }

  /** One account changed: the asset's total changes by as much. */
  lemma TotalMoves(before: Ledger, after: Ledger, asset: string, key: Key, amount: real)
    requires forall k :: At(after, k).total == At(before, k).total + if k == key then amount else 0.0
    ensures AssetTotal(after, asset) == AssetTotal(before, asset) + if key.1 == asset then amount else 0.0
  {
    assert key.0 == BINANCE || key.0 == BYBIT || key.0 == OKX;
  }

  lemma LegMovesTotal(input: LegInput, ledger: Ledger, limiters: Limiters, max: nat, asset: string)
    ensures var r := PlacedLeg(input, ledger, limiters, max);
            AssetTotal(r.ledger, asset) ==
            AssetTotal(ledger, asset) - if r.outcome.Ok? && asset == input.asset then DebitOf(r.outcome.value) else 0.0
  {
    hide PlacedLeg;
    hide DebitOf;
    hide AssetTotal;
    var r := PlacedLeg(input, ledger, limiters, max);
    var amount := if r.outcome.Ok? then -DebitOf(r.outcome.value) else 0.0;
    forall k
      ensures At(r.ledger, k).total == At(ledger, k).total + if k == input.Key() then amount else 0.0
    {
      LegDebits(input, ledger, limiters, max, k);
    }
    TotalMoves(ledger, r.ledger, asset, input.Key(), amount);
  }

  lemma CreditMovesTotal(ledger: Ledger, key: Key, amount: real, asset: string)
    ensures AssetTotal(Credited(ledger, key, amount), asset)
            == AssetTotal(ledger, asset) + if key.1 == asset then amount else 0.0
  {
    TotalMoves(ledger, Credited(ledger, key, amount), asset, key, amount);
  }

  lemma TransferKeepsTotal(ledger: Ledger, asset: string, from: Exchange, to: Exchange, amount: real, a: string)
    ensures AssetTotal(Transferred(ledger, asset, from, to, amount), a) == AssetTotal(ledger, a)
  {
    hide AssetTotal;
    var debited := Debited(ledger, (from, asset), amount);
    if Covers(ledger, (from, asset), amount) {
      TotalMoves(ledger, debited, a, (from, asset), -amount);
      CreditMovesTotal(debited, (to, asset), amount, a);
    } else {
      TotalMoves(ledger, debited, a, (from, asset), 0.0);
    }
  }

  lemma BeginConserves(config: Config, fees: Fees, w: World, plan: Plan, book: BookState, now: int, asset: string)
    ensures var after := Step(config, fees, w, Begin(plan, book, now));
            AssetTotal(after.ledger, asset) - TotalEffect(after.trades, asset)
            == AssetTotal(w.ledger, asset) - TotalEffect(w.trades, asset)
  {
    hide PlacedLeg;
    hide Times;
    hide AssetTotal;
    hide TotalEffect;
    LegMovesTotal(BuyInput(config, fees, plan, book, now), w.ledger, w.limiters, config.rateLimit, asset);
    var s := Began(config, fees, plan, book, now, w.ledger, w.limiters);
    TotalEffectAppend(w.trades, s.trade, asset);
  }

  lemma ResumeConserves(config: Config, fees: Fees, w: World, i: nat, buyBook: BookState, sellBook: BookState, now: int,
                        asset: string)
    requires i < |w.trades| && w.trades[i].AwaitingSell?
    ensures var after := Step(config, fees, w, Resume(i, buyBook, sellBook, now));
            AssetTotal(after.ledger, asset) - TotalEffect(after.trades, asset)
            == AssetTotal(w.ledger, asset) - TotalEffect(w.trades, asset)
  {
    hide PlacedLeg;
    hide Assessed;
    hide Times;
    hide AssetTotal;
    hide TotalEffect;
    hide DebitOf;
    hide Credited;
    var t := w.trades[i];
    var input := SellInput(config, fees, t.plan, t.buy, sellBook, now);
    var leg := PlacedLeg(input, w.ledger, w.limiters, config.rateLimit);
    LegMovesTotal(input, w.ledger, w.limiters, config.rateLimit, asset);
    var s := Resumed(config, fees, t.plan, t.buy, buyBook, sellBook, now, w.ledger, w.limiters);
    TotalEffectUpdate(w.trades, i, s.trade, asset);
    if leg.outcome.Ok? && leg.outcome.value.filled > 0.0 {
      var sell := leg.outcome.value;
      CreditMovesTotal(leg.ledger, (sell.exchange, QuoteOf(t.buy.symbol)),
                       Times(Matched(t.buy, sell), PriceOrZero(sell)), asset);
    }
  }

  /** One step moves each asset's total by exactly what it adds to the trades' effects. */
  lemma StepConserves(config: Config, fees: Fees, w: World, e: Event, asset: string)
    requires !e.Fund?
    ensures var after := Step(config, fees, w, e);
            AssetTotal(after.ledger, asset) - TotalEffect(after.trades, asset)
            == AssetTotal(w.ledger, asset) - TotalEffect(w.trades, asset)
  {
    hide Began;
    hide Resumed;
    hide AssetTotal;
    hide TotalEffect;
    match e {
      case Begin(plan, book, now) => BeginConserves(config, fees, w, plan, book, now, asset);
      case Resume(i, buyBook, sellBook, now) =>
        if i < |w.trades| && w.trades[i].AwaitingSell? {
          ResumeConserves(config, fees, w, i, buyBook, sellBook, now, asset);
        }
      case Transfer(a, from, to, amount) => TransferKeepsTotal(w.ledger, a, from, to, amount, asset);
    }
  }

  /** Over every interleaving, each asset's total changes by exactly what the trades did. */
  lemma {:induction false} RunConserves(config: Config, fees: Fees, w: World, events: seq<Event>, asset: string)
    requires forall i :: 0 <= i < |events| ==> !events[i].Fund?
    ensures var after := Run(config, fees, w, events);
            AssetTotal(after.ledger, asset) - TotalEffect(after.trades, asset)
            == AssetTotal(w.ledger, asset) - TotalEffect(w.trades, asset)
  {
    hide Step;
    hide AssetTotal;
    if events != [] {
      RunConserves(config, fees, w, events[..|events| - 1], asset);
      StepConserves(config, fees, Run(config, fees, w, events[..|events| - 1]), events[|events| - 1], asset);
    }
  }

  // ---- profit over a run --------------------------------------------------

  ghost predicate BooksPositive(e: Event) {
    match e
    case Begin(_, book, _) => PositiveBook(book)
    case Resume(_, buyBook, sellBook, _) => PositiveBook(buyBook) && PositiveBook(sellBook)
    case Transfer(_, _, _, _) => true
    case Fund(_, _, _) => true
  }

  ghost predicate AllFacts(trades: seq<Trade>, fees: Fees) {
    forall i :: 0 <= i < |trades| ==> TradeFacts(trades[i], fees)
  }

  lemma BeganFacts(config: Config, fees: Fees, plan: Plan, book: BookState, now: int, ledger: Ledger,
                   limiters: Limiters)
    requires PositiveBook(book)
    ensures TradeFacts(Began(config, fees, plan, book, now, ledger, limiters).trade, fees)
  {
    hide PlacedLeg;
    hide Times;
    LegGivesOrderFacts(BuyInput(config, fees, plan, book, now), ledger, limiters, config.rateLimit, fees);
  }

  lemma ResumedFacts(config: Config, fees: Fees, plan: Plan, buy: Order, buyBook: BookState, sellBook: BookState,
                     now: int, ledger: Ledger, limiters: Limiters)
    requires TradeFacts(AwaitingSell(plan, buy), fees) && PositiveBook(sellBook)
    ensures TradeFacts(Resumed(config, fees, plan, buy, buyBook, sellBook, now, ledger, limiters).trade, fees)
  {
    hide PlacedLeg;
    hide Times;
    hide WithProceeds;
    hide RealizedPnl;
    hide NetSpread;
    hide BuySlippagePct;
    hide SellSlippagePct;
    hide BestAskOf;
    hide BestBidOf;
    LegGivesOrderFacts(SellInput(config, fees, plan, buy, sellBook, now), ledger, limiters, config.rateLimit, fees);
  }

  lemma {:induction false} RunKeepsFacts(config: Config, fees: Fees, w: World, events: seq<Event>)
    requires AllFacts(w.trades, fees)
    requires forall i :: 0 <= i < |events| ==> BooksPositive(events[i])
    ensures AllFacts(Run(config, fees, w, events).trades, fees)
  {
    hide TradeFacts;
    hide Began;
    hide Resumed;
    if events != [] {
      RunKeepsFacts(config, fees, w, events[..|events| - 1]);
      var before, last := Run(config, fees, w, events[..|events| - 1]), events[|events| - 1];
      match last {
        case Begin(plan, book, now) => BeganFacts(config, fees, plan, book, now, before.ledger, before.limiters);
        case Resume(i, buyBook, sellBook, now) =>
          if i < |before.trades| && before.trades[i].AwaitingSell? {
            var t := before.trades[i];
            assert TradeFacts(t, fees);
            ResumedFacts(config, fees, t.plan, t.buy, buyBook, sellBook, now, before.ledger, before.limiters);
          }
        case Transfer(_, _, _, _) =>
        case Fund(_, _, _) =>
      }
    }
  }

  predicate Reports(t: Trade) {
    t.Done? && t.outcome.Ok? && t.outcome.value.realizedPnl.Some? && t.buy.filled != 0.0
  }

  /** What a settled trade's report says its balances moved. */
  function ReportedChange(t: Trade): real
    requires Reports(t)
  {
    var r := t.outcome.value;
    r.realizedPnl.value - Times(r.leftover, PriceOrZero(t.buy)) + t.sell.feePaid + MatchedBuyFee(t.buy, r.matched)
  }

  /** What a trade tells of its effect on one asset: by its report if it settled in that asset, else by its orders. */
  ghost function ToldChange(t: Trade, quote: string): real {
    if SettledIn(t, quote) && Reports(t) then ReportedChange(t) else EffectOf(t, quote)
  }

  ghost function TotalTold(trades: seq<Trade>, quote: string): real {
    if trades == [] then 0.0 else ToldChange(trades[0], quote) + TotalTold(trades[1..], quote)
  }

  lemma {:induction false} EffectsAreTold(trades: seq<Trade>, fees: Fees, quote: string)
    requires AllFacts(trades, fees)
    ensures forall i :: 0 <= i < |trades| && SettledIn(trades[i], quote) ==> Reports(trades[i])
    ensures TotalEffect(trades, quote) == TotalTold(trades, quote)
  {
    hide TradeFacts;
    hide EffectOf;
    hide SettledIn;
    forall i | 0 <= i < |trades| && SettledIn(trades[i], quote)
      ensures Reports(trades[i]) && ReportedChange(trades[i]) == EffectOf(trades[i], quote)
    {
      ReportTellsEffect(trades[i], fees, quote);
    }
    if trades != [] {
      EffectsAreTold(trades[1..], fees, quote);
    }
  }

  lemma ReportTellsEffect(t: Trade, fees: Fees, quote: string)
    requires TradeFacts(t, fees) && SettledIn(t, quote)
    ensures Reports(t) && ReportedChange(t) == EffectOf(t, quote)
  {
    hide TradeFacts;
    hide EffectOf;
    PnlLedgerIdentity(t, fees, quote);
  }

  /**
   * Whatever became of the trades: the balances of one quote asset have moved by what the settled trades report and
   * what the other trades' orders did.
   */
  lemma RunPnlMatchesBalances(config: Config, fees: Fees, ledger: Ledger, limiters: Limiters, events: seq<Event>,
                              quote: string)
    requires forall i :: 0 <= i < |events| ==> !events[i].Fund? && BooksPositive(events[i])
    ensures var after := Run(config, fees, World(ledger, limiters, []), events);
            && (forall i :: 0 <= i < |after.trades| && SettledIn(after.trades[i], quote) ==> Reports(after.trades[i]))
            && AssetTotal(after.ledger, quote) - AssetTotal(ledger, quote) == TotalTold(after.trades, quote)
  {
    hide AssetTotal;
    hide TradeFacts;
    hide SettledIn;
    var w := World(ledger, limiters, []);
    RunKeepsFacts(config, fees, w, events);
    RunConserves(config, fees, w, events, quote);
    EffectsAreTold(Run(config, fees, w, events).trades, fees, quote);
  }

  // ---- sell legs never raise --------------------------------------------------

  /** A waiting trade's rules are in order, and no sale has raised. */
  ghost predicate SalesInOrder(config: Config, trades: seq<Trade>) {
    forall i :: 0 <= i < |trades| ==>
      && !trades[i].SellRaised?
      && (trades[i].AwaitingSell? ==> RulesInOrder(config, trades[i].plan))
  }

  predicate RulesInOrder(config: Config, plan: Plan) {
    config.RulesFor(plan.symbol).stepSize > 0.0 && config.RulesFor(plan.symbol).tickSize > 0.0
  }

  lemma BeganInOrder(config: Config, fees: Fees, plan: Plan, book: BookState, now: int, ledger: Ledger,
                     limiters: Limiters)
    ensures var t := Began(config, fees, plan, book, now, ledger, limiters).trade;
            !t.SellRaised? && (t.AwaitingSell? ==> t.plan == plan && RulesInOrder(config, plan))
  {
    hide PlacedLeg;
    var input := BuyInput(config, fees, plan, book, now);
    if Began(config, fees, plan, book, now, ledger, limiters).trade.AwaitingSell? {
      FilledMeansExecuted(input, ledger, limiters, config.rateLimit);
      ExecutionFacts(input, ledger, limiters, config.rateLimit);
    }
  }

  lemma ResumedInOrder(config: Config, fees: Fees, plan: Plan, buy: Order, buyBook: BookState, sellBook: BookState,
                       now: int, ledger: Ledger, limiters: Limiters)
    requires RulesInOrder(config, plan)
    ensures Resumed(config, fees, plan, buy, buyBook, sellBook, now, ledger, limiters).trade.Done?
  {
    hide PlacedLeg;
    hide Assessed;
    hide WithProceeds;
    LegRaisesIff(SellInput(config, fees, plan, buy, sellBook, now), ledger, limiters, config.rateLimit);
  }

  /** Over every interleaving no sell leg raises; what settlement after it may do is a question of its own. */
  lemma {:induction false} SalesNeverRaise(config: Config, fees: Fees, w: World, events: seq<Event>)
    requires SalesInOrder(config, w.trades)
    ensures SalesInOrder(config, Run(config, fees, w, events).trades)
  {
    hide Began;
    hide Resumed;
    hide RulesInOrder;
    if events != [] {
      SalesNeverRaise(config, fees, w, events[..|events| - 1]);
      var before, last := Run(config, fees, w, events[..|events| - 1]), events[|events| - 1];
      match last {
        case Begin(plan, book, now) => BeganInOrder(config, fees, plan, book, now, before.ledger, before.limiters);
        case Resume(i, buyBook, sellBook, now) =>
          if i < |before.trades| && before.trades[i].AwaitingSell? {
            var t := before.trades[i];
            ResumedInOrder(config, fees, t.plan, t.buy, buyBook, sellBook, now, before.ledger, before.limiters);
          }
        case Transfer(_, _, _, _) =>
        case Fund(_, _, _) =>
      }
    }
  }

  // ---- settlement ---------------------------------------------------------

  /** A waiting trade's buy has a fill and a positive price, and no settlement has raised. */
  ghost predicate SettlesWell(t: Trade) {
    && (t.AwaitingSell? ==> t.buy.filled > 0.0 && PriceOrZero(t.buy) > 0.0)
    && (t.Done? ==> t.outcome.Ok?)
  }

  ghost predicate AllSettleWell(trades: seq<Trade>) {
    forall i :: 0 <= i < |trades| ==> SettlesWell(trades[i])
  }

  /** Books hold positive quantities, and the best ask at a settlement is positive. */
  ghost predicate BooksInOrder(e: Event) {
    BooksPositive(e) && (e.Resume? ==> !BadTop(BestAskOf(e.buyBook.asks)))
  }

  lemma BeganSettlesWell(config: Config, fees: Fees, plan: Plan, book: BookState, now: int, ledger: Ledger,
                         limiters: Limiters)
    requires PositiveBook(book)
    ensures SettlesWell(Began(config, fees, plan, book, now, ledger, limiters).trade)
  {
    hide PlacedLeg;
    var input := BuyInput(config, fees, plan, book, now);
    if Began(config, fees, plan, book, now, ledger, limiters).trade.AwaitingSell? {
      FilledMeansExecuted(input, ledger, limiters, config.rateLimit);
      BuyPricePositive(input, ledger, limiters, config.rateLimit);
    }
  }

  /** Over every interleaving, with no negative fee and such books, no trade ends in a settlement that raised. */
  lemma {:induction false} NoSettlementRaises(config: Config, fees: Fees, w: World, events: seq<Event>)
    requires AllSettleWell(w.trades) && forall e :: FeeOf(fees, e) >= 0.0
    requires forall i :: 0 <= i < |events| ==> BooksInOrder(events[i])
    ensures AllSettleWell(Run(config, fees, w, events).trades)
  {
    hide Began;
    hide Resumed;
    hide PositiveBook;
    hide BadTop;
    if events != [] {
      NoSettlementRaises(config, fees, w, events[..|events| - 1]);
      var before, last := Run(config, fees, w, events[..|events| - 1]), events[|events| - 1];
      match last {
        case Begin(plan, book, now) => BeganSettlesWell(config, fees, plan, book, now, before.ledger, before.limiters);
        case Resume(i, buyBook, sellBook, now) =>
          if i < |before.trades| && before.trades[i].AwaitingSell? {
            var t := before.trades[i];
            ResumedIsOver(config, fees, t.plan, t.buy, buyBook, sellBook, now, before.ledger, before.limiters);
            SettlementRaisesIff(config, fees, t.plan, t.buy, buyBook, sellBook, now, before.ledger, before.limiters);
          }
        case Transfer(_, _, _, _) =>
        case Fund(_, _, _) =>
      }
    }
  }

  lemma ResumedIsOver(config: Config, fees: Fees, plan: Plan, buy: Order, buyBook: BookState, sellBook: BookState,
                      now: int, ledger: Ledger, limiters: Limiters)
    ensures var t := Resumed(config, fees, plan, buy, buyBook, sellBook, now, ledger, limiters).trade;
            !t.AwaitingSell? && !t.BuyRaised?
  {
    hide PlacedLeg;
    hide Assessed;
    hide WithProceeds;
  }
}
