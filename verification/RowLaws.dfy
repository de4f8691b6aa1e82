/** What a spread row says, in terms of the two quotes and the fees alone, and when it opens an event. */
module RowLaws {
  import opened Prelude
  import opened Dicts
  import opened QuoteCaching
  import opened SpreadFormulas
  import opened SpreadRows
  import opened SpreadEvents
  import opened EventRuns
  import opened SpreadLaws

  // ---- the figures --------------------------------------------------------

  /** Which quotes, prices and quantities the row shows. */
  lemma RowShows(trading: Trading, fees: TakerFees, buy: Quote, sell: Quote, now: int)
    requires buy.exchange in fees && sell.exchange in fees
    requires ComputePair(trading, fees, buy, sell, now).Ok?
    ensures var row := ComputePair(trading, fees, buy, sell, now).value;
            && row.symbol == buy.symbol == sell.symbol && row.marketType == buy.marketType == sell.marketType
            && row.buyExchange == buy.exchange && row.sellExchange == sell.exchange
            && row.buyPrice == buy.askPrice && row.sellPrice == sell.bidPrice
            && row.quantity <= buy.askQuantity && row.quantity <= sell.bidQuantity
            && (row.quantity == buy.askQuantity || row.quantity == sell.bidQuantity)
            && row.notional == row.quantity * buy.askPrice
            && row.calculationVersion == 1
  {
    hide NetSpread;
  }

  /** How old the row is: as old as its older quote, and as far apart as the exchanges' own clocks. */
  lemma RowAges(trading: Trading, fees: TakerFees, buy: Quote, sell: Quote, now: int)
    requires buy.exchange in fees && sell.exchange in fees
    requires ComputePair(trading, fees, buy, sell, now).Ok?
    ensures var row := ComputePair(trading, fees, buy, sell, now).value;
            var gap := buy.exchangeTimestamp - sell.exchangeTimestamp;
            && row.quoteAgeMs >= now - buy.receivedTimestamp && row.quoteAgeMs >= now - sell.receivedTimestamp
            && (row.quoteAgeMs == now - buy.receivedTimestamp || row.quoteAgeMs == now - sell.receivedTimestamp)
            && row.timestampDiffMs >= 0 && (row.timestampDiffMs == gap || row.timestampDiffMs == -gap)
  {
    hide NetSpread;
    hide Times;
  }

  /** The spreads in per cent: the sell side is the buy side scaled up by them, without and with the fees. */
  lemma RowSpreads(trading: Trading, fees: TakerFees, buy: Quote, sell: Quote, now: int)
    requires buy.exchange in fees && sell.exchange in fees
    requires ComputePair(trading, fees, buy, sell, now).Ok?
    ensures var row := ComputePair(trading, fees, buy, sell, now).value;
            && Cost(buy, fees) > 0.0
            && sell.bidPrice == buy.askPrice * (1.0 + row.grossSpreadPct / 100.0)
            && Proceeds(sell, fees) == Cost(buy, fees) * (1.0 + row.netSpreadPct / 100.0)
  {
    RowRatios(trading, fees, buy, sell, now);
    ScaledBack(sell.bidPrice, buy.askPrice);
    ScaledBack(Proceeds(sell, fees), Cost(buy, fees));
  }

  lemma RowRatios(trading: Trading, fees: TakerFees, buy: Quote, sell: Quote, now: int)
    requires buy.exchange in fees && sell.exchange in fees
    requires ComputePair(trading, fees, buy, sell, now).Ok?
    ensures fees[buy.exchange] >= 0.0 && Cost(buy, fees) > 0.0
    ensures var row := ComputePair(trading, fees, buy, sell, now).value;
            && 1.0 + row.grossSpreadPct / 100.0 == sell.bidPrice / buy.askPrice
            && 1.0 + row.netSpreadPct / 100.0 == Proceeds(sell, fees) / Cost(buy, fees)
            && row.expectedNetProfit
               == Times(Times(row.quantity, buy.askPrice), Proceeds(sell, fees) / Cost(buy, fees) - 1.0)
  {
    hide Times;
    hide Cost;
    hide Proceeds;
    FeeProducts(buy, sell, fees);
    TimesPositive(buy.askPrice, 1.0 + fees[buy.exchange]);
    var ratio := Proceeds(sell, fees) / Cost(buy, fees);
    assert 1.0 + (ratio - 1.0) * 100.0 / 100.0 == ratio;
  }

  lemma FeeProducts(buy: Quote, sell: Quote, fees: TakerFees)
    requires buy.exchange in fees && sell.exchange in fees
    ensures Proceeds(sell, fees) == Times(sell.bidPrice, 1.0 - fees[sell.exchange])
    ensures Cost(buy, fees) == Times(buy.askPrice, 1.0 + fees[buy.exchange])
  {
  }

  lemma ScaledBack(a: real, b: real)
    requires b != 0.0
    ensures b * (a / b) == a
  {
  }

  /** What one unit brings, and what it costs, with the fee. */
  function Proceeds(sell: Quote, fees: TakerFees): real
    requires sell.exchange in fees
  {
    sell.bidPrice * (1.0 - fees[sell.exchange])
  }

  function Cost(buy: Quote, fees: TakerFees): real
    requires buy.exchange in fees
  {
    buy.askPrice * (1.0 + fees[buy.exchange])
  }

  /** The expected profit is what the quantity brings over what it costs, measured before the buy fee. */
  lemma RowProfit(trading: Trading, fees: TakerFees, buy: Quote, sell: Quote, now: int)
    requires buy.exchange in fees && sell.exchange in fees
    requires ComputePair(trading, fees, buy, sell, now).Ok?
    ensures var row := ComputePair(trading, fees, buy, sell, now).value;
            row.expectedNetProfit * (1.0 + fees[buy.exchange])
            == row.quantity * (Proceeds(sell, fees) - Cost(buy, fees))
  {
    hide ComputePair;
    hide Cost;
    hide Proceeds;
    RowRatios(trading, fees, buy, sell, now);
    FeeProducts(buy, sell, fees);
    ScaledBack(Proceeds(sell, fees), Cost(buy, fees));
    ProfitArithmetic(ComputePair(trading, fees, buy, sell, now).value.quantity, buy.askPrice, 1.0 + fees[buy.exchange],
                     Proceeds(sell, fees) / Cost(buy, fees));
  }

  lemma ProfitArithmetic(q: real, ask: real, up: real, ratio: real)
    ensures Times(Times(q, ask), ratio - 1.0) * up == q * (Times(ask, up) * ratio - Times(ask, up))
  {
  }

  // ---- staleness and validity ---------------------------------------------

  predicate IsFresh(q: Quote, trading: Trading, now: int) {
    now - q.receivedTimestamp <= trading.maxQuoteAgeMs
  }

  /** The exchanges' own timestamps differ by at most the limit. */
  predicate InStep(buy: Quote, sell: Quote, trading: Trading) {
    && buy.exchangeTimestamp - sell.exchangeTimestamp <= trading.maxTimestampDiffMs
    && sell.exchangeTimestamp - buy.exchangeTimestamp <= trading.maxTimestampDiffMs
  }

  /** What both sides offer is positive and reaches both minimums. */
  predicate IsSizeable(buy: Quote, sell: Quote, trading: Trading) {
    && 0.0 < buy.askQuantity && 0.0 < sell.bidQuantity
    && trading.minQuantity <= buy.askQuantity && trading.minQuantity <= sell.bidQuantity
    && trading.minNotional <= buy.askQuantity * buy.askPrice && trading.minNotional <= sell.bidQuantity * buy.askPrice
  }

  predicate IsUsable(buy: Quote, sell: Quote, trading: Trading, now: int) {
    && IsFresh(buy, trading, now) && IsFresh(sell, trading, now)
    && InStep(buy, sell, trading) && IsSizeable(buy, sell, trading)
  }

  lemma StaleIff(trading: Trading, fees: TakerFees, buy: Quote, sell: Quote, now: int)
    requires buy.exchange in fees && sell.exchange in fees
    requires ComputePair(trading, fees, buy, sell, now).Ok?
    ensures ComputePair(trading, fees, buy, sell, now).value.stale
            <==> !IsFresh(buy, trading, now) || !IsFresh(sell, trading, now)
  {
    hide NetSpread;
    hide Times;
  }

  /** A row is valid exactly when its quotes are fresh, in step and sizeable. */
  lemma ValidRowIff(trading: Trading, fees: TakerFees, buy: Quote, sell: Quote, now: int)
    requires buy.exchange in fees && sell.exchange in fees
    requires ComputePair(trading, fees, buy, sell, now).Ok?
    ensures ComputePair(trading, fees, buy, sell, now).value.valid <==> IsUsable(buy, sell, trading, now)
  {
    hide NetSpread;
    LesserNotional(buy.askQuantity, sell.bidQuantity, buy.askPrice);
  }

  lemma LesserNotional(a: real, b: real, price: real)
    requires price > 0.0
    ensures Min(a, b) * price == Min(a * price, b * price)
  {
    if a <= b {
      TimesMonotone(a, b, price);
    } else {
      TimesMonotone(b, a, price);
    }
  }

  // ---- activity -----------------------------------------------------------

  /** What one unit brings is at least what it costs, with the threshold on top. */
  predicate Clears(buy: Quote, sell: Quote, fees: TakerFees, threshold: real)
    requires buy.exchange in fees && sell.exchange in fees
  {
    Proceeds(sell, fees) >= (1.0 + threshold) * Cost(buy, fees)
  }

  /** The detector's net spread, as a share: the proceeds are the cost scaled up by it. */
  lemma NetOfMeans(trading: Trading, fees: TakerFees, buy: Quote, sell: Quote, now: int)
    requires buy.exchange in fees && sell.exchange in fees
    requires ComputePair(trading, fees, buy, sell, now).Ok?
    ensures Cost(buy, fees) > 0.0
    ensures Proceeds(sell, fees) == Cost(buy, fees) * (1.0 + NetOf(ComputePair(trading, fees, buy, sell, now).value))
  {
    RowSpreads(trading, fees, buy, sell, now);
  }

  /** A row is active exactly when it is valid and its quotes clear the threshold. */
  lemma ActiveIff(trading: Trading, fees: TakerFees, buy: Quote, sell: Quote, now: int, threshold: real)
    requires buy.exchange in fees && sell.exchange in fees
    requires ComputePair(trading, fees, buy, sell, now).Ok?
    ensures IsActive(ComputePair(trading, fees, buy, sell, now).value, threshold)
            <==> IsUsable(buy, sell, trading, now) && Clears(buy, sell, fees, threshold)
  {
    hide ComputePair;
    hide Proceeds;
    hide Cost;
    hide IsUsable;
    ValidRowIff(trading, fees, buy, sell, now);
    NetOfMeans(trading, fees, buy, sell, now);
    ScaleOrder(Cost(buy, fees), NetOf(ComputePair(trading, fees, buy, sell, now).value), threshold);
  }

  lemma ScaleOrder(cost: real, net: real, threshold: real)
    requires cost > 0.0
    ensures net >= threshold <==> cost * (1.0 + net) >= (1.0 + threshold) * cost
  {
    if net >= threshold {
      TimesMonotone(1.0 + threshold, 1.0 + net, cost);
    } else {
      TimesStrict(1.0 + net, 1.0 + threshold, cost);
    }
  }

  // ---- carried over to slices ---------------------------------------------

  /** The row of a quoted direction is the one its two stored quotes make. */
  lemma SliceRowIs(cache: Cache, trading: Trading, fees: TakerFees, now: int, k: Direction, threshold: real)
    requires WellKeyed(cache) && Computed(cache, trading, fees, now).Ok? && Quoted(cache, trading, fees, k)
    ensures RowFor(Computed(cache, trading, fees, now).value, k).Some?
    ensures var row, p := RowFor(Computed(cache, trading, fees, now).value, k).value, StoredPair(cache, trading, k);
            && PairHasFees(p, fees)
            && (row.stale <==> !IsFresh(p.0, trading, now) || !IsFresh(p.1, trading, now))
            && (row.valid <==> IsUsable(p.0, p.1, trading, now))
            && (IsActive(row, threshold) <==> IsUsable(p.0, p.1, trading, now) && Clears(p.0, p.1, fees, threshold))
  {
    hide Computed;
    hide ComputePair;
    hide Lookup;
    hide RowFor;
    hide IsActive;
    hide IsUsable;
    hide Clears;
    hide WellKeyed;
    SliceIsExact(cache, trading, fees, now, k);
    var p := StoredPair(cache, trading, k);
    StaleIff(trading, fees, p.0, p.1, now);
    ValidRowIff(trading, fees, p.0, p.1, now);
    ActiveIff(trading, fees, p.0, p.1, now, threshold);
  }

  /** After a slice a direction is open exactly when it is quoted and its quotes are usable and clear the threshold. */
  lemma OpenAfterSliceIff(cache: Cache, trading: Trading, fees: TakerFees, open: Open, threshold: real, now: int,
                          k: Direction)
    requires WellKeyed(cache) && Filed(open) && Computed(cache, trading, fees, now).Ok?
    ensures HasKey(OpenAfterSlice(cache, trading, fees, open, threshold, now), k) <==>
              && Quoted(cache, trading, fees, k)
              && var p := StoredPair(cache, trading, k);
                 PairHasFees(p, fees) && IsUsable(p.0, p.1, trading, now) && Clears(p.0, p.1, fees, threshold)
  {
    hide Computed;
    hide ComputePair;
    hide Lookup;
    hide RowFor;
    hide IsActive;
    hide IsUsable;
    hide Clears;
    hide WellKeyed;
    hide OpenAfterTick;
    hide Filed;
    SliceIsExact(cache, trading, fees, now, k);
    TickAt(open, Computed(cache, trading, fees, now).value, threshold, now, k);
    if Quoted(cache, trading, fees, k) {
      SliceRowIs(cache, trading, fees, now, k, threshold);
    }
  }
}
