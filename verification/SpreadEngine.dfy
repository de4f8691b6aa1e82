/** Both directions of every pair of exchanges, for every symbol, from the latest quotes. */
module SpreadRows {
  import opened Prelude
  import opened Dicts
  import opened QuoteCaching
  import opened SpreadFormulas

  datatype Trading = Trading(
    marketType: MarketType,
    symbols: seq<string>,
    maxQuoteAgeMs: int,
    maxTimestampDiffMs: int,
    minQuantity: real,
    minNotional: real)

  type TakerFees = map<Exchange, real>

  datatype SpreadRow = SpreadRow(
    symbol: string,
    marketType: MarketType,
    buyExchange: Exchange,
    sellExchange: Exchange,
    buyPrice: real,
    sellPrice: real,
    grossSpreadPct: real,
    netSpreadPct: real,
    quantity: real,
    notional: real,
    expectedNetProfit: real,
    quoteAgeMs: int,
    timestampDiffMs: int,
    stale: bool,
    valid: bool,
    calculationVersion: int)
  {
    function Direction(): Direction {
      (symbol, buyExchange, sellExchange)
    }
  }

  type Direction = (string, Exchange, Exchange)

  function MaxInt(a: int, b: int): int {
    if b > a then b else a
  }

  function Distance(a: int, b: int): int {
    if a < b then b - a else a - b
  }

  function ComputePair(trading: Trading, fees: TakerFees, buy: Quote, sell: Quote, now: int): Result<SpreadRow>
    requires buy.exchange in fees && sell.exchange in fees
  {
    if buy.marketType != sell.marketType || buy.symbol != sell.symbol then Raised(NotComparable) else
      var ask, bid := buy.askPrice, sell.bidPrice;
      var buyFee, sellFee := fees[buy.exchange], fees[sell.exchange];
      var gross, net := GrossSpread(ask, bid), NetSpread(ask, bid, buyFee, sellFee);
      var quantity := ExecutableQuantity(buy.askQuantity, sell.bidQuantity);
      var notional := ExecutableNotional(quantity, ask);
      var profit := ExpectedNetProfit(quantity, ask, bid, buyFee, sellFee);
      if gross.Raised? then Raised(gross.error)
      else if net.Raised? then Raised(net.error)
      else if profit.Raised? then Raised(profit.error)
      else
        var diff := Distance(buy.exchangeTimestamp, sell.exchangeTimestamp);
        var stale := buy.IsStale(now, trading.maxQuoteAgeMs) || sell.IsStale(now, trading.maxQuoteAgeMs);
        var volumeOk := quantity >= trading.minQuantity && quantity > 0.0 && notional >= trading.minNotional;
        Ok(SpreadRow(buy.symbol, buy.marketType, buy.exchange, sell.exchange, ask, bid,
                     gross.value * 100.0, net.value * 100.0, quantity, notional, profit.value,
                     MaxInt(buy.Age(now), sell.Age(now)), diff, stale,
                     !stale && diff <= trading.maxTimestampDiffMs && volumeOk, CALCULATION_VERSION))
  }

  // ---- pairs --------------------------------------------------------------

  /** The quotes of the exchanges whose fee is known. */
  function WithFees(quotes: seq<Quote>, fees: TakerFees): (r: seq<Quote>)
    ensures forall q :: q in r <==> q in quotes && q.exchange in fees
  {
    if quotes == [] then [] else
      var last := quotes[|quotes| - 1];
      var front := WithFees(quotes[..|quotes| - 1], fees);
      assert quotes == quotes[..|quotes| - 1] + [last];
      if last.exchange in fees then front + [last] else front
  }

  /** The pairs that start with s[i] and continue with one of the first `n`. */
  function PairsFrom<T>(s: seq<T>, i: nat, n: nat): seq<(T, T)>
    requires i < |s| && n <= |s|
  {
    if n == 0 then []
    else if n - 1 == i then PairsFrom(s, i, n - 1)
    else PairsFrom(s, i, n - 1) + [(s[i], s[n - 1])]
  }

  /** `itertools.permutations(s, 2)` for the first `m` as first members. */
  function Permutations<T>(s: seq<T>, m: nat): seq<(T, T)>
    requires m <= |s|
  {
    if m == 0 then [] else Permutations(s, m - 1) + PairsFrom(s, m - 1, |s|)
  }

  function PairsOf(cache: Cache, trading: Trading, fees: TakerFees, symbol: string): seq<(Quote, Quote)> {
    var quotes := WithFees(SnapshotOf(cache, trading.marketType, symbol), fees);
    Permutations(quotes, |quotes|)
  }

  function AllPairs(cache: Cache, trading: Trading, fees: TakerFees, n: nat): seq<(Quote, Quote)>
    requires n <= |trading.symbols|
  {
    if n == 0 then []
    else AllPairs(cache, trading, fees, n - 1) + PairsOf(cache, trading, fees, trading.symbols[n - 1])
  }

  predicate PairHasFees(p: (Quote, Quote), fees: TakerFees) {
    p.0.exchange in fees && p.1.exchange in fees
  }

  function RowsOf(pairs: seq<(Quote, Quote)>, trading: Trading, fees: TakerFees, now: int): Result<seq<SpreadRow>>
    requires forall i :: 0 <= i < |pairs| ==> PairHasFees(pairs[i], fees)
  {
    if pairs == [] then Ok([]) else
      var front := RowsOf(pairs[..|pairs| - 1], trading, fees, now);
      if front.Raised? then front else
        assert PairHasFees(pairs[|pairs| - 1], fees);
        var p := pairs[|pairs| - 1];
        var row := ComputePair(trading, fees, p.0, p.1, now);
        if row.Raised? then Raised(row.error) else Ok(front.value + [row.value])
  }

  lemma {:induction false} PairsFromMembers<T>(s: seq<T>, i: nat, n: nat)
    requires i < |s| && n <= |s|
    ensures forall p :: p in PairsFrom(s, i, n) <==> exists j :: 0 <= j < n && j != i && p == (s[i], s[j])
  {
    if n > 0 {
      PairsFromMembers(s, i, n - 1);
    }
  }

  lemma {:induction false} PermutationsMembers<T>(s: seq<T>, m: nat)
    requires m <= |s|
    ensures forall p :: p in Permutations(s, m) <==>
              exists i, j :: 0 <= i < m && 0 <= j < |s| && i != j && p == (s[i], s[j])
  {
    if m > 0 {
      PermutationsMembers(s, m - 1);
      PairsFromMembers(s, m - 1, |s|);
    }
  }

  lemma {:induction false} AllPairsHaveFees(cache: Cache, trading: Trading, fees: TakerFees, n: nat)
    requires n <= |trading.symbols|
    ensures forall i :: 0 <= i < |AllPairs(cache, trading, fees, n)| ==>
            PairHasFees(AllPairs(cache, trading, fees, n)[i], fees)
  {
    if n > 0 {
      AllPairsHaveFees(cache, trading, fees, n - 1);
      PairsHaveFees(cache, trading, fees, trading.symbols[n - 1]);
    }
  }

  lemma PairsHaveFees(cache: Cache, trading: Trading, fees: TakerFees, symbol: string)
    ensures forall i :: 0 <= i < |PairsOf(cache, trading, fees, symbol)| ==>
            PairHasFees(PairsOf(cache, trading, fees, symbol)[i], fees)
  {
    var quotes := WithFees(SnapshotOf(cache, trading.marketType, symbol), fees);
    var pairs := PairsOf(cache, trading, fees, symbol);
    PermutationsMembers(quotes, |quotes|);
    forall i | 0 <= i < |pairs|
      ensures PairHasFees(pairs[i], fees)
    {
      assert pairs[i] in pairs;
      var a, b :| 0 <= a < |quotes| && 0 <= b < |quotes| && a != b && pairs[i] == (quotes[a], quotes[b]);
      assert quotes[a] in quotes && quotes[b] in quotes;
    }
  }

  function Computed(cache: Cache, trading: Trading, fees: TakerFees, now: int): Result<seq<SpreadRow>> {
    AllPairsHaveFees(cache, trading, fees, |trading.symbols|);
    RowsOf(AllPairs(cache, trading, fees, |trading.symbols|), trading, fees, now)
  }

  // ---- the engine ---------------------------------------------------------

  class SpreadEngine {
    const cache: QuoteCache
    const trading: Trading
    var fees: TakerFees

    constructor (cache: QuoteCache, trading: Trading, fees: TakerFees)
      ensures this.cache == cache && this.trading == trading && this.fees == fees
    {
      this.cache, this.trading, this.fees := cache, trading, fees;
    }

    method UpdateTakerFee(exchange: Exchange, fee: real) returns (r: Result<()>)
      modifies this
      ensures fee < 0.0 ==> r == Raised(NegativeFee) && fees == old(fees)
      ensures fee >= 0.0 ==> r == Ok(()) && fees == old(fees)[exchange := fee]
    {
      if fee < 0.0 {
        return Raised(NegativeFee);
      }
      fees := fees[exchange := fee];
      return Ok(());
    }

    method ComputePairs(pairs: seq<(Quote, Quote)>, now: int) returns (r: Result<seq<SpreadRow>>)
      requires forall i :: 0 <= i < |pairs| ==> PairHasFees(pairs[i], fees)
      ensures r == RowsOf(pairs, trading, fees, now)
    {
      hide ComputePair;
      var rows: seq<SpreadRow> := [];
      for k := 0 to |pairs|
        invariant RowsOf(pairs[..k], trading, fees, now) == Ok(rows)
      {
        assert pairs[..k + 1][..k] == pairs[..k];
        assert PairHasFees(pairs[k], fees);
        var row := ComputePair(trading, fees, pairs[k].0, pairs[k].1, now);
        if row.Raised? {
          RowsRaise(pairs, k + 1, trading, fees, now);
          return Raised(row.error);
        }
        rows := rows + [row.value];
      }
      assert pairs[..|pairs|] == pairs;
      return Ok(rows);
    }

    method ComputeAll(now: int) returns (r: Result<seq<SpreadRow>>)
      ensures r == Computed(cache.quotes, trading, fees, now)
    {
      hide PairsOf;
      hide RowsOf;
      hide Permutations;
      hide WithFees;
      hide SnapshotOf;
      var rows: seq<SpreadRow> := [];
      AllPairsHaveFees(cache.quotes, trading, fees, |trading.symbols|);
      RowsOfNone(trading, fees, now);
      for n := 0 to |trading.symbols|
        invariant forall i :: 0 <= i < |AllPairs(cache.quotes, trading, fees, n)| ==>
                    PairHasFees(AllPairs(cache.quotes, trading, fees, n)[i], fees)
        invariant RowsOf(AllPairs(cache.quotes, trading, fees, n), trading, fees, now) == Ok(rows)
      {
        var symbol := trading.symbols[n];
        var quotes := cache.Snapshot(trading.marketType, symbol);
        var available := WithFees(quotes, fees);
        var pairs := Permutations(available, |available|);
        PairsAre(cache.quotes, trading, fees, symbol);
        PairsHaveFees(cache.quotes, trading, fees, symbol);
        AllPairsHaveFees(cache.quotes, trading, fees, n + 1);
        var more := ComputePairs(pairs, now);
        RowsConcat(AllPairs(cache.quotes, trading, fees, n), pairs, trading, fees, now);
        if more.Raised? {
          AllPairsPrefix(cache.quotes, trading, fees, n + 1);
          ghost var all := AllPairs(cache.quotes, trading, fees, |trading.symbols|);
          ghost var k := |AllPairs(cache.quotes, trading, fees, n + 1)|;
          assert all[..k] == AllPairs(cache.quotes, trading, fees, n + 1);
          RowsRaise(all, k, trading, fees, now);
          return Raised(more.error);
        }
        rows := rows + more.value;
      }
      return Ok(rows);
    }
  }

  lemma RowsOfNone(trading: Trading, fees: TakerFees, now: int)
    ensures RowsOf([], trading, fees, now) == Ok([])
  {
  }

  lemma {:induction false} RowsConcat(a: seq<(Quote, Quote)>, b: seq<(Quote, Quote)>, trading: Trading,
                                      fees: TakerFees, now: int)
    requires forall i :: 0 <= i < |a| ==> PairHasFees(a[i], fees)
    requires forall i :: 0 <= i < |b| ==> PairHasFees(b[i], fees)
    ensures var r, s := RowsOf(a, trading, fees, now), RowsOf(b, trading, fees, now);
            RowsOf(a + b, trading, fees, now)
            == if r.Raised? then r else if s.Raised? then s else Ok(r.value + s.value)
    decreases |b|
  {
    hide ComputePair;
    if b == [] {
      assert a + b == a;
      var r := RowsOf(a, trading, fees, now);
      assert r.Ok? ==> r.value + [] == r.value;
    } else {
      var front := b[..|b| - 1];
      assert (a + b)[..|a + b| - 1] == a + front;
      assert (a + b)[|a + b| - 1] == b[|b| - 1];
      RowsConcat(a, front, trading, fees, now);
      assert PairHasFees(b[|b| - 1], fees);
      var r, f := RowsOf(a, trading, fees, now), RowsOf(front, trading, fees, now);
      var row := ComputePair(trading, fees, b[|b| - 1].0, b[|b| - 1].1, now);
      if r.Ok? && f.Ok? && row.Ok? {
        assert r.value + f.value + [row.value] == r.value + (f.value + [row.value]);
      }
    }
  }

  lemma PairsAre(cache: Cache, trading: Trading, fees: TakerFees, symbol: string)
    ensures var quotes := WithFees(SnapshotOf(cache, trading.marketType, symbol), fees);
            PairsOf(cache, trading, fees, symbol) == Permutations(quotes, |quotes|)
  {
  }

  lemma {:induction false} AllPairsPrefix(cache: Cache, trading: Trading, fees: TakerFees, n: nat)
    requires n <= |trading.symbols|
    ensures AllPairs(cache, trading, fees, n) <= AllPairs(cache, trading, fees, |trading.symbols|)
    decreases |trading.symbols| - n
  {
    if n < |trading.symbols| {
      AllPairsPrefix(cache, trading, fees, n + 1);
      assert AllPairs(cache, trading, fees, n) <= AllPairs(cache, trading, fees, n + 1);
    }
  }

  /** Once a pair has raised, the whole computation raises the same. */
  lemma {:induction false} RowsRaise(all: seq<(Quote, Quote)>, k: nat, trading: Trading, fees: TakerFees, now: int)
    requires forall i :: 0 <= i < |all| ==> PairHasFees(all[i], fees)
    requires k <= |all| && RowsOf(all[..k], trading, fees, now).Raised?
    ensures RowsOf(all, trading, fees, now) == RowsOf(all[..k], trading, fees, now)
    decreases |all|
  {
    if k == |all| {
      assert all[..k] == all;
    } else {
      var front := all[..|all| - 1];
      assert front[..k] == all[..k];
      RowsRaise(front, k, trading, fees, now);
    }
  }
}
