/** The boundary of the no-cycle law: at a threshold of zero, two flat quotes open a direction and its reverse. */
module SpreadExample {
  import opened Prelude
  import opened Dicts
  import opened QuoteCaching
  import opened SpreadFormulas
  import opened SpreadRows
  import opened SpreadEvents
  import opened EventRuns
  import opened SpreadLaws

  const SYMBOL := "BTC-USDT"
  const ON_BINANCE: Quote := RawQuote(BINANCE, SPOT, SYMBOL, 100.0, 1.0, 100.0, 1.0, 0, 0, None)
  const ON_BYBIT: Quote := RawQuote(BYBIT, SPOT, SYMBOL, 100.0, 1.0, 100.0, 1.0, 0, 0, None)
  const TRADING := Trading(SPOT, [SYMBOL], 1000, 1500, 0.0, 10.0)
  const FREE: TakerFees := map[BINANCE := 0.0, BYBIT := 0.0]
  const CACHE := After([ON_BINANCE, ON_BYBIT])

  lemma CacheHolds()
    ensures WellKeyed(CACHE)
    ensures Lookup(CACHE, (BINANCE, SPOT, SYMBOL)) == Some(ON_BINANCE)
    ensures Lookup(CACHE, (BYBIT, SPOT, SYMBOL)) == Some(ON_BYBIT)
    ensures forall key :: Lookup(CACHE, key).Some? ==> Lookup(CACHE, key).value in {ON_BINANCE, ON_BYBIT}
  {
    hide Updated;
    RunsKeyed([ON_BINANCE, ON_BYBIT]);
    assert [ON_BINANCE][..0] == [] && [ON_BINANCE, ON_BYBIT][..1] == [ON_BINANCE];
    assert After([ON_BINANCE]) == Updated([], ON_BINANCE);
    assert CACHE == Updated(After([ON_BINANCE]), ON_BYBIT);
    forall key
      ensures Lookup(CACHE, key)
              == if key == KeyOf(ON_BYBIT) then Some(ON_BYBIT)
                 else if key == KeyOf(ON_BINANCE) then Some(ON_BINANCE) else None
    {
      UpdatedAt([], ON_BINANCE, key);
      UpdatedAt(After([ON_BINANCE]), ON_BYBIT, key);
    }
  }

  lemma FlatRow(buy: Quote, sell: Quote)
    requires (buy == ON_BINANCE && sell == ON_BYBIT) || (buy == ON_BYBIT && sell == ON_BINANCE)
    ensures ComputePair(TRADING, FREE, buy, sell, 0).Ok?
    ensures IsActive(ComputePair(TRADING, FREE, buy, sell, 0).value, 0.0)
  {
  }

  lemma OpensBothWays(k: Direction)
    requires Computed(CACHE, TRADING, FREE, 0).Ok?
    requires k == (SYMBOL, BINANCE, BYBIT) || k == (SYMBOL, BYBIT, BINANCE)
    ensures HasKey(OpenAfterSlice(CACHE, TRADING, FREE, [], 0.0, 0), k)
  {
    hide ComputePair;
    hide Computed;
    hide Lookup;
    hide IsActive;
    hide RowFor;
    hide OpenAfterTick;
    CacheHolds();
    SliceIsExact(CACHE, TRADING, FREE, 0, k);
    TickAt([], Computed(CACHE, TRADING, FREE, 0).value, 0.0, 0, k);
    FlatRow(Lookup(CACHE, (k.1, SPOT, SYMBOL)).value, Lookup(CACHE, (k.2, SPOT, SYMBOL)).value);
  }

  /** Equal bids and asks, no fees, a threshold of zero: there and back again are open together. */
  lemma ZeroThresholdOpensCycle()
    ensures WellKeyed(CACHE) && Uncrossed(CACHE) && Computed(CACHE, TRADING, FREE, 0).Ok?
    ensures OpenPath(CACHE, TRADING, FREE, [], 0.0, 0, SYMBOL, [BINANCE, BYBIT, BINANCE])
  {
    hide Computed;
    hide Lookup;
    hide OpenAfterSlice;
    CacheHolds();
    SliceRaisesIff(CACHE, TRADING, FREE, 0);
    OpensBothWays((SYMBOL, BINANCE, BYBIT));
    OpensBothWays((SYMBOL, BYBIT, BINANCE));
  }
}
