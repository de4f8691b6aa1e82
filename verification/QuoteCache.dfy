/** The in-memory cache of the latest quote per exchange, market and symbol. */
module QuoteCaching {
  import opened Prelude
  import opened Dicts

  datatype MarketType = SPOT | PERPETUAL_FUTURES | DELIVERY_FUTURES | INVERSE_FUTURES

  datatype RawQuote = RawQuote(
    exchange: Exchange,
    marketType: MarketType,
    symbol: string,
    bidPrice: real,
    bidQuantity: real,
    askPrice: real,
    askQuantity: real,
    exchangeTimestamp: int,
    receivedTimestamp: int,
    sequence: Option<int>)
  {
    predicate Valid() {
      bidPrice > 0.0 && askPrice > 0.0 && bidQuantity >= 0.0 && askQuantity >= 0.0
    }

    function Age(now: int): int {
      now - receivedTimestamp
    }

    predicate IsStale(now: int, maxAge: int) {
      Age(now) > maxAge
    }
  }

  /** A quote exists only if its validators passed. */
  type Quote = q: RawQuote | q.Valid()
    witness RawQuote(BINANCE, SPOT, "", 1.0, 0.0, 1.0, 0.0, 0, 0, None)

  type QuoteKey = (Exchange, MarketType, string)

  function KeyOf(q: Quote): QuoteKey {
    (q.exchange, q.marketType, q.symbol)
  }

  type BySymbol = map<string, Quote>

  type Cache = Dict<Exchange, map<MarketType, BySymbol>>

  function MarketsOf(cache: Cache, e: Exchange): map<MarketType, BySymbol> {
    var found := Find(cache, e);
    if found.Some? then found.value else map[]
  }

  function SymbolsOf(markets: map<MarketType, BySymbol>, m: MarketType): BySymbol {
    if m in markets then markets[m] else map[]
  }

  function Lookup(cache: Cache, key: QuoteKey): Option<Quote> {
    var symbols := SymbolsOf(MarketsOf(cache, key.0), key.1);
    if key.2 in symbols then Some(symbols[key.2]) else None
  }

  /** A quote is dropped only for a sequence below the stored one. */
  predicate Accepts(current: Option<Quote>, q: Quote) {
    current.None? || current.value.sequence.None? || q.sequence.None?
    || q.sequence.value >= current.value.sequence.value
  }

  function Updated(cache: Cache, q: Quote): Cache {
    var markets := MarketsOf(cache, q.exchange);
    var symbols := SymbolsOf(markets, q.marketType);
    var stored := if Accepts(Lookup(cache, KeyOf(q)), q) then symbols[q.symbol := q] else symbols;
    Put(cache, q.exchange, markets[q.marketType := stored])
  }

  class QuoteCache {
    var quotes: Cache

    constructor ()
      ensures quotes == []
    {
      quotes := [];
    }

    method Update(q: Quote) returns (ok: bool)
      modifies this
      ensures quotes == Updated(old(quotes), q)
      ensures ok == Accepts(Lookup(old(quotes), KeyOf(q)), q)
    {
      var byMarket := MarketsOf(quotes, q.exchange);
      var bySymbol := SymbolsOf(byMarket, q.marketType);
      var current := if q.symbol in bySymbol then Some(bySymbol[q.symbol]) else None;
      if current.Some? && current.value.sequence.Some? && q.sequence.Some?
         && q.sequence.value < current.value.sequence.value {
        quotes := Put(quotes, q.exchange, byMarket[q.marketType := bySymbol]);
        return false;
      }
      bySymbol := bySymbol[q.symbol := q];
      quotes := Put(quotes, q.exchange, byMarket[q.marketType := bySymbol]);
      return true;
    }

    /** The symbol's quotes on all exchanges, in the order the exchanges were first seen. */
    method Snapshot(market: MarketType, symbol: string) returns (found: seq<Quote>)
      ensures found == SnapshotOf(quotes, market, symbol)
    {
      found := [];
      for i := 0 to |quotes|
        invariant found == SnapshotOf(quotes[..i], market, symbol)
      {
        assert quotes[..i + 1][..i] == quotes[..i];
        var symbols := SymbolsOf(quotes[i].value, market);
        if symbol in symbols {
          found := found + [symbols[symbol]];
        }
      }
      assert quotes[..|quotes|] == quotes;
    }
  }

  function SnapshotOf(cache: Cache, market: MarketType, symbol: string): seq<Quote> {
    if cache == [] then [] else
      var last := cache[|cache| - 1];
      var front := SnapshotOf(cache[..|cache| - 1], market, symbol);
      var symbols := SymbolsOf(last.value, market);
      if symbol in symbols then front + [symbols[symbol]] else front
  }

  // ---- runs ---------------------------------------------------------------

  function After(updates: seq<Quote>): Cache {
    if updates == [] then [] else Updated(After(updates[..|updates| - 1]), updates[|updates| - 1])
  }

  /** An update replaces its own key's quote, if accepted, and leaves every other key's alone. */
  lemma UpdatedAt(cache: Cache, q: Quote, key: QuoteKey)
    ensures Lookup(Updated(cache, q), key)
            == if key == KeyOf(q) && Accepts(Lookup(cache, key), q) then Some(q) else Lookup(cache, key)
  {
    var markets := MarketsOf(cache, q.exchange);
    var symbols := SymbolsOf(markets, q.marketType);
    var stored := if Accepts(Lookup(cache, KeyOf(q)), q) then symbols[q.symbol := q] else symbols;
    FindPut(cache, q.exchange, markets[q.marketType := stored], key.0);
  }

  /**
   * Update `i` is the one whose quote should be stored: every later quote of its key is numbered below it, and
   * it is not numbered below an earlier one unless an unnumbered quote came in between.
   */
  ghost predicate Wins(updates: seq<Quote>, key: QuoteKey, i: nat) {
    && i < |updates| && KeyOf(updates[i]) == key
    && (forall j :: i < j < |updates| && KeyOf(updates[j]) == key ==> Below(updates[j], updates[i]))
    && (forall j :: 0 <= j < i && KeyOf(updates[j]) == key && NumberedBetween(updates, key, j, i) ==>
          !Below(updates[i], updates[j]))
  }

  predicate Below(q: Quote, r: Quote) {
    q.sequence.Some? && r.sequence.Some? && q.sequence.value < r.sequence.value
  }

  ghost predicate NumberedBetween(updates: seq<Quote>, key: QuoteKey, j: nat, i: nat)
    requires i <= |updates|
  {
    forall m :: j <= m < i && KeyOf(updates[m]) == key ==> updates[m].sequence.Some?
  }

  lemma NoLaterWinner(updates: seq<Quote>, key: QuoteKey, i: nat, j: nat)
    requires Wins(updates, key, i) && i < j
    ensures !Wins(updates, key, j)
  {
    if j < |updates| && KeyOf(updates[j]) == key {
      assert Below(updates[j], updates[i]);
      assert NumberedBetween(updates, key, i, j) by {
        forall m | i <= m < j && KeyOf(updates[m]) == key
          ensures updates[m].sequence.Some?
        {
          assert m > i ==> Below(updates[m], updates[i]);
        }
      }
    }
  }

  lemma NothingStored(key: QuoteKey)
    ensures Lookup([], key) == None
  {
  }

  lemma WinnerIndex(updates: seq<Quote>, key: QuoteKey, i: nat)
    requires Wins(updates, key, i)
    ensures i < |updates| && KeyOf(updates[i]) == key
  {
  }

  lemma FirstWins(updates: seq<Quote>, key: QuoteKey)
    requires updates != [] && KeyOf(updates[|updates| - 1]) == key
    requires forall j :: 0 <= j < |updates| - 1 ==> KeyOf(updates[j]) != key
    ensures Wins(updates, key, |updates| - 1)
  {
  }

  /** An accepted update takes over from the winner before it. */
  lemma NewWinner(updates: seq<Quote>, key: QuoteKey, i: nat)
    requires updates != [] && Wins(updates[..|updates| - 1], key, i)
    requires var q := updates[|updates| - 1]; KeyOf(q) == key && Accepts(Some(updates[i]), q)
    ensures Wins(updates, key, |updates| - 1)
  {
    var n := |updates| - 1;
    var front, q := updates[..n], updates[n];
    forall j | 0 <= j < n && KeyOf(updates[j]) == key && NumberedBetween(updates, key, j, n)
      ensures !Below(q, updates[j])
    {
      assert front[j] == updates[j] && front[i] == updates[i];
      assert KeyOf(front[i]) == key;
      assert NumberedBetween(front, key, j, n);
      StoredBoundsNumbered(front, key, i, j);
    }
  }

  lemma {:induction false} StoredWins(updates: seq<Quote>, key: QuoteKey) returns (i: nat)
    ensures Lookup(After(updates), key).None? ==> forall j :: 0 <= j < |updates| ==> KeyOf(updates[j]) != key
    ensures Lookup(After(updates), key).Some? ==>
              Wins(updates, key, i) && Lookup(After(updates), key) == Some(updates[i])
  {
    hide Lookup;
    hide Updated;
    hide Wins;
    i := 0;
    if updates == [] {
      NothingStored(key);
    } else {
      var n := |updates| - 1;
      var front, q := updates[..n], updates[n];
      i := StoredWins(front, key);
      UpdatedAt(After(front), q, key);
      var before := Lookup(After(front), key);
      if before.Some? {
        WinnerIndex(front, key, i);
        assert front[i] == updates[i];
      }
      if KeyOf(q) == key && Accepts(before, q) {
        if before.Some? {
          NewWinner(updates, key, i);
        } else {
          FirstWins(updates, key);
        }
        i := n;
      } else if before.Some? {
        WinsExtends(updates, key, i);
      }
    }
  }

  /** While no unnumbered quote intervened, the winner is numbered at least as high as what came before. */
  lemma StoredBoundsNumbered(updates: seq<Quote>, key: QuoteKey, i: nat, j: nat)
    requires Wins(updates, key, i) && j < |updates| && KeyOf(updates[j]) == key
    requires NumberedBetween(updates, key, j, |updates|)
    ensures updates[i].sequence.Some? && updates[j].sequence.Some?
    ensures updates[j].sequence.value <= updates[i].sequence.value
  {
    if i < j {
      assert Below(updates[j], updates[i]);
    } else if j < i {
      assert NumberedBetween(updates, key, j, i);
      assert !Below(updates[i], updates[j]);
    }
  }

  lemma WinsExtends(updates: seq<Quote>, key: QuoteKey, i: nat)
    requires updates != [] && Wins(updates[..|updates| - 1], key, i)
    requires var last := updates[|updates| - 1]; KeyOf(last) != key || Below(last, updates[i])
    ensures Wins(updates, key, i)
  {
    var front := updates[..|updates| - 1];
    assert forall j :: 0 <= j < |front| ==> front[j] == updates[j];
    forall j | 0 <= j < i && KeyOf(updates[j]) == key && NumberedBetween(updates, key, j, i)
      ensures !Below(updates[i], updates[j])
    {
      assert NumberedBetween(front, key, j, i);
      assert !Below(front[i], front[j]);
    }
    forall j | i < j < |updates| && KeyOf(updates[j]) == key
      ensures Below(updates[j], updates[i])
    {
      assert j < |front| ==> Below(front[j], front[i]);
    }
  }

  /** Over any run of updates, a key's stored quote is exactly the winner among its updates. */
  lemma NewestWins(updates: seq<Quote>, key: QuoteKey, q: Quote)
    ensures Lookup(After(updates), key) == Some(q) <==> exists i: nat :: Wins(updates, key, i) && updates[i] == q
  {
    var i := StoredWins(updates, key);
    if exists j: nat :: Wins(updates, key, j) && updates[j] == q {
      var j: nat :| Wins(updates, key, j) && updates[j] == q;
      if Lookup(After(updates), key).Some? {
        if i < j {
          NoLaterWinner(updates, key, i, j);
        } else if j < i {
          NoLaterWinner(updates, key, j, i);
        }
      }
    }
  }

  /** When every quote of the key is numbered: the last-arrived one among those with the highest number. */
  lemma NewestWinsNumbered(updates: seq<Quote>, key: QuoteKey, i: nat)
    requires forall j :: 0 <= j < |updates| && KeyOf(updates[j]) == key ==> updates[j].sequence.Some?
    requires i < |updates| && KeyOf(updates[i]) == key
    requires forall j :: 0 <= j < |updates| && KeyOf(updates[j]) == key ==>
               updates[j].sequence.value <= updates[i].sequence.value &&
               (j > i ==> updates[j].sequence.value < updates[i].sequence.value)
    ensures Lookup(After(updates), key) == Some(updates[i])
  {
    assert Wins(updates, key, i);
    NewestWins(updates, key, updates[i]);
  }
}
