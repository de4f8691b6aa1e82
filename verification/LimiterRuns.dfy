/** The engine's rate limiters over whole runs: each exchange has its own, fed by the orders that keep the rules. */
module LimiterRuns {
  import opened Prelude
  import opened OrderBooks
  import opened DepthWalk
  import opened TradingRules
  import opened Balances
  import opened RateLimiting
  import opened SpreadFormulas
  import opened PaperTrading
  import opened TradeLaws
  import opened TradeRuns
  import opened OrderLaws

  /** The call that a leg makes to the limiter of exchange `e`, if it makes one. */
  ghost function CallOf(input: LegInput, e: Exchange): seq<int> {
    if input.exchange == e && InTime(input) && KeepsRules(input) then [input.now] else []
  }

  ghost function CallsBy(config: Config, fees: Fees, w: World, event: Event, e: Exchange): seq<int> {
    match event
    case Begin(plan, book, now) => CallOf(BuyInput(config, fees, plan, book, now), e)
    case Resume(i, _, sellBook, now) =>
      if i < |w.trades| && w.trades[i].AwaitingSell?
      then CallOf(SellInput(config, fees, w.trades[i].plan, w.trades[i].buy, sellBook, now), e) else []
    case Transfer(_, _, _, _) => []
    case Fund(_, _, _) => []
  }

  /** All calls to the limiter of exchange `e`, over a run. */
  ghost function Calls(config: Config, fees: Fees, w: World, events: seq<Event>, e: Exchange): seq<int> {
    if events == [] then [] else
      var front := events[..|events| - 1];
      Calls(config, fees, w, front, e)
      + CallsBy(config, fees, TradeRuns.Run(config, fees, w, front), events[|events| - 1], e)
  }

  lemma LegFollows(input: LegInput, ledger: Ledger, limiters: Limiters, max: nat, times: seq<int>, e: Exchange)
    requires LimiterOf(limiters, e, max) == After(max, times)
    ensures LimiterOf(PlacedLeg(input, ledger, limiters, max).limiters, e, max) == After(max, times + CallOf(input, e))
  {
    hide PlacedLeg;
    hide InTime;
    hide KeepsRules;
    hide Allowed;
    LegCounts(input, ledger, limiters, max);
    assert times + [] == times;
    assert (times + [input.now])[..|times|] == times;
  }

  lemma BeginFollows(config: Config, fees: Fees, w: World, plan: Plan, book: BookState, now: int, times: seq<int>,
                     e: Exchange)
    requires LimiterOf(w.limiters, e, config.rateLimit) == After(config.rateLimit, times)
    ensures var event := Begin(plan, book, now);
            LimiterOf(Step(config, fees, w, event).limiters, e, config.rateLimit)
            == After(config.rateLimit, times + CallsBy(config, fees, w, event, e))
  {
    hide PlacedLeg;
    hide CallOf;
    hide After;
    LegFollows(BuyInput(config, fees, plan, book, now), w.ledger, w.limiters, config.rateLimit, times, e);
  }

  lemma ResumeFollows(config: Config, fees: Fees, w: World, i: nat, buyBook: BookState, sellBook: BookState, now: int,
                      times: seq<int>, e: Exchange)
    requires LimiterOf(w.limiters, e, config.rateLimit) == After(config.rateLimit, times)
    ensures var event := Resume(i, buyBook, sellBook, now);
            LimiterOf(Step(config, fees, w, event).limiters, e, config.rateLimit)
            == After(config.rateLimit, times + CallsBy(config, fees, w, event, e))
  {
    hide PlacedLeg;
    hide CallOf;
    hide After;
    hide Assessed;
    hide WithProceeds;
    if i < |w.trades| && w.trades[i].AwaitingSell? {
      var t := w.trades[i];
      LegFollows(SellInput(config, fees, t.plan, t.buy, sellBook, now), w.ledger, w.limiters, config.rateLimit, times,
                 e);
    } else {
      assert times + [] == times;
    }
  }

  /** Over every interleaving, the limiter of each exchange is what its own calls have made of it. */
  lemma {:induction false} LimitersFollowCalls(config: Config, fees: Fees, w: World, events: seq<Event>, e: Exchange)
    requires w.limiters == map[]
    ensures LimiterOf(TradeRuns.Run(config, fees, w, events).limiters, e, config.rateLimit)
            == After(config.rateLimit, Calls(config, fees, w, events, e))
  {
    hide Began;
    hide Resumed;
    hide CallOf;
    if events == [] {
      NoCallsYet(w.limiters, e, config.rateLimit);
    } else {
      hide After;
      var front, last := events[..|events| - 1], events[|events| - 1];
      LimitersFollowCalls(config, fees, w, front, e);
      var before, calls := TradeRuns.Run(config, fees, w, front), Calls(config, fees, w, front, e);
      assert calls + [] == calls;
      match last {
        case Begin(plan, book, now) => BeginFollows(config, fees, before, plan, book, now, calls, e);
        case Resume(i, buyBook, sellBook, now) =>
          ResumeFollows(config, fees, before, i, buyBook, sellBook, now, calls, e);
        case Transfer(_, _, _, _) =>
        case Fund(_, _, _) =>
      }
    }
  }

  lemma NoCallsYet(limiters: Limiters, e: Exchange, max: nat)
    requires limiters == map[]
    ensures LimiterOf(limiters, e, max) == After(max, [])
  {
  }

  /**
   * After any run whose calls to an exchange came in time order, its limiter refuses the next order there exactly when
   * the order's second has already seen the maximum.
   */
  lemma RefusedOverTheLimitIff(config: Config, fees: Fees, w: World, events: seq<Event>, input: LegInput)
    requires w.limiters == map[]
    requires NonDecreasing(Calls(config, fees, w, events, input.exchange) + [input.now])
    ensures var limiters := TradeRuns.Run(config, fees, w, events).limiters;
            var second := input.now / 1000 * 1000;
            IsAdmitted(input, limiters, config.rateLimit)
            <==> CallsIn(Calls(config, fees, w, events, input.exchange), second, second + 1000) < config.rateLimit
  {
    hide Allowed;
    hide Calls;
    hide CallsIn;
    hide After;
    var times := Calls(config, fees, w, events, input.exchange);
    LimitersFollowCalls(config, fees, w, events, input.exchange);
    LastVerdict(config.rateLimit, times + [input.now]);
    assert (times + [input.now])[..|times|] == times;
  }
}
