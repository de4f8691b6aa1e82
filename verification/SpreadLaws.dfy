/** What a computed slice contains, and why its open directions never form a cycle. */
module SpreadLaws {
  import opened Prelude
  import opened Dicts
  import opened QuoteCaching
  import opened SpreadFormulas
  import opened SpreadRows
  import opened SpreadEvents
  import opened EventRuns

  // ---- the cache files quotes under their own keys ------------------------

  ghost predicate WellKeyed(cache: Cache) {
    && UniqueKeys(cache)
    && forall i :: 0 <= i < |cache| ==> MarketsKeyed(cache[i].key, cache[i].value)
  }

  ghost predicate MarketsKeyed(e: Exchange, markets: map<MarketType, BySymbol>) {
    forall m, s :: m in markets && s in markets[m] ==> KeyOf(markets[m][s]) == (e, m, s)
  }

  lemma UpdatedKeyed(cache: Cache, q: Quote)
    requires WellKeyed(cache)
    ensures WellKeyed(Updated(cache, q))
  {
    var markets := MarketsOf(cache, q.exchange);
    var symbols := SymbolsOf(markets, q.marketType);
    var stored := if Accepts(Lookup(cache, KeyOf(q)), q) then symbols[q.symbol := q] else symbols;
    assert MarketsKeyed(q.exchange, markets) by {
      if Find(cache, q.exchange).Some? {
        var i :| 0 <= i < |cache| && cache[i] == Item(q.exchange, markets);
      }
    }
    PutKeys(cache, q.exchange, markets[q.marketType := stored]);
    PutItems(cache, q.exchange, markets[q.marketType := stored]);
  }

  lemma {:induction false} RunsKeyed(updates: seq<Quote>)
    ensures WellKeyed(After(updates))
  {
    if updates != [] {
      RunsKeyed(updates[..|updates| - 1]);
      UpdatedKeyed(After(updates[..|updates| - 1]), updates[|updates| - 1]);
    }
  }

  ghost predicate DistinctExchanges(quotes: seq<Quote>) {
    forall i, j :: 0 <= i < j < |quotes| ==> quotes[i].exchange != quotes[j].exchange
  }

  lemma LookupAt(cache: Cache, i: nat, m: MarketType, s: string)
    requires WellKeyed(cache) && i < |cache|
    ensures Lookup(cache, (cache[i].key, m, s))
            == if s in SymbolsOf(cache[i].value, m) then Some(SymbolsOf(cache[i].value, m)[s]) else None
  {
    FindAtIndex(cache, i);
  }

  lemma {:induction false} FindAtIndex(cache: Cache, i: nat)
    requires UniqueKeys(cache) && i < |cache|
    ensures Find(cache, cache[i].key) == Some(cache[i].value)
  {
    hide HasKey;
    FindTail(cache, cache[i].key);
    if i > 0 {
      FindAtIndex(cache[1..], i - 1);
    }
  }

  /** A symbol's snapshot holds each exchange's stored quote, once per exchange. */
  lemma {:induction false} SnapshotExact(cache: Cache, m: MarketType, s: string)
    requires WellKeyed(cache)
    ensures forall q: Quote :: q in SnapshotOf(cache, m, s) <==>
              q.marketType == m && q.symbol == s && Lookup(cache, KeyOf(q)) == Some(q)
    ensures DistinctExchanges(SnapshotOf(cache, m, s))
  {
    hide Lookup;
    SnapshotMembers(cache, m, s);
    forall q: Quote
      ensures q in SnapshotOf(cache, m, s) <==>
              q.marketType == m && q.symbol == s && Lookup(cache, KeyOf(q)) == Some(q)
    {
      if q in SnapshotOf(cache, m, s) {
        var i :| 0 <= i < |cache| && s in SymbolsOf(cache[i].value, m) && SymbolsOf(cache[i].value, m)[s] == q;
        LookupAt(cache, i, m, s);
      }
      if q.marketType == m && q.symbol == s && Lookup(cache, KeyOf(q)) == Some(q) {
        StoredSomewhere(cache, q);
      }
    }
  }

  lemma StoredSomewhere(cache: Cache, q: Quote)
    requires Lookup(cache, KeyOf(q)) == Some(q)
    ensures exists i :: 0 <= i < |cache| && q.symbol in SymbolsOf(cache[i].value, q.marketType)
                        && SymbolsOf(cache[i].value, q.marketType)[q.symbol] == q
  {
    assert Item(q.exchange, MarketsOf(cache, q.exchange)) in cache;
  }

  lemma {:induction false} SnapshotMembers(cache: Cache, m: MarketType, s: string)
    requires WellKeyed(cache)
    ensures forall q: Quote :: q in SnapshotOf(cache, m, s) <==>
              exists i :: 0 <= i < |cache| && s in SymbolsOf(cache[i].value, m) && SymbolsOf(cache[i].value, m)[s] == q
    ensures DistinctExchanges(SnapshotOf(cache, m, s))
  {
    if cache != [] {
      var n := |cache| - 1;
      var front, last := cache[..n], cache[n];
      SnapshotMembers(front, m, s);
      var r := SnapshotOf(front, m, s);
      forall j | 0 <= j < |r|
        ensures r[j].exchange != last.key
      {
        assert r[j] in r;
        var i :| 0 <= i < n && s in SymbolsOf(front[i].value, m) && SymbolsOf(front[i].value, m)[s] == r[j];
        assert MarketsKeyed(cache[i].key, cache[i].value);
      }
      assert MarketsKeyed(last.key, last.value);
      forall q: Quote
        ensures q in SnapshotOf(cache, m, s) <==>
                exists i :: 0 <= i < |cache| && s in SymbolsOf(cache[i].value, m)
                        && SymbolsOf(cache[i].value, m)[s] == q
      {
        assert forall i :: 0 <= i < n ==> front[i] == cache[i];
      }
    }
  }

  // ---- the pairs ----------------------------------------------------------

  /** An ordered pair of stored quotes of one symbol on two different exchanges with known fees. */
  ghost predicate IsPair(cache: Cache, trading: Trading, fees: TakerFees, symbol: string, p: (Quote, Quote)) {
    && p.0.symbol == symbol == p.1.symbol
    && p.0.marketType == trading.marketType == p.1.marketType
    && Lookup(cache, KeyOf(p.0)) == Some(p.0) && Lookup(cache, KeyOf(p.1)) == Some(p.1)
    && p.0.exchange != p.1.exchange && PairHasFees(p, fees)
  }

  lemma {:induction false} WithFeesDistinct(quotes: seq<Quote>, fees: TakerFees)
    requires DistinctExchanges(quotes)
    ensures DistinctExchanges(WithFees(quotes, fees))
  {
    if quotes != [] {
      var n := |quotes| - 1;
      WithFeesDistinct(quotes[..n], fees);
      var r := WithFees(quotes[..n], fees);
      forall j | 0 <= j < |r|
        ensures r[j].exchange != quotes[n].exchange
      {
        assert r[j] in quotes[..n];
        var i :| 0 <= i < n && quotes[..n][i] == r[j];
      }
    }
  }

  function DirectionOf(p: (Quote, Quote)): Direction {
    (p.0.symbol, p.0.exchange, p.1.exchange)
  }

  ghost predicate DistinctPairs(pairs: seq<(Quote, Quote)>) {
    forall i, j :: 0 <= i < j < |pairs| ==> DirectionOf(pairs[i]) != DirectionOf(pairs[j])
  }

  lemma {:induction false} PairsFromDistinct(s: seq<Quote>, i: nat, n: nat)
    requires DistinctExchanges(s) && i < |s| && n <= |s|
    ensures DistinctPairs(PairsFrom(s, i, n))
  {
    if n > 0 {
      PairsFromDistinct(s, i, n - 1);
      PairsFromMembers(s, i, n - 1);
      var r := PairsFrom(s, i, n - 1);
      forall m | 0 <= m < |r|
        ensures r[m].1.exchange != s[n - 1].exchange
      {
        var p := r[m];
        assert p in PairsFrom(s, i, n - 1);
        var j :| 0 <= j < n - 1 && j != i && p == (s[i], s[j]);
      }
    }
  }

  lemma {:induction false} PermutationsDistinct(s: seq<Quote>, m: nat)
    requires DistinctExchanges(s) && m <= |s|
    ensures DistinctPairs(Permutations(s, m))
  {
    if m > 0 {
      PermutationsDistinct(s, m - 1);
      PairsFromDistinct(s, m - 1, |s|);
      PermutationsMembers(s, m - 1);
      PairsFromMembers(s, m - 1, |s|);
      var a, b := Permutations(s, m - 1), PairsFrom(s, m - 1, |s|);
      forall x, y | 0 <= x < |a| && 0 <= y < |b|
        ensures a[x].0.exchange != b[y].0.exchange
      {
        assert a[x] in a && b[y] in b;
        var i, j :| 0 <= i < m - 1 && 0 <= j < |s| && i != j && a[x] == (s[i], s[j]);
      }
    }
  }

  /** For one symbol the engine looks at every ordered pair of different exchanges, each exactly once. */
  lemma PairsExact(cache: Cache, trading: Trading, fees: TakerFees, symbol: string)
    requires WellKeyed(cache)
    ensures forall p: (Quote, Quote) ::
              p in PairsOf(cache, trading, fees, symbol) <==> IsPair(cache, trading, fees, symbol, p)
    ensures DistinctPairs(PairsOf(cache, trading, fees, symbol))
  {
    hide SnapshotOf;
    hide WithFees;
    hide Lookup;
    hide WellKeyed;
    SnapshotExact(cache, trading.marketType, symbol);
    var snapshot := SnapshotOf(cache, trading.marketType, symbol);
    WithFeesDistinct(snapshot, fees);
    var quotes := WithFees(snapshot, fees);
    PermutationsDistinct(quotes, |quotes|);
    PermutationsMembers(quotes, |quotes|);
    forall p: (Quote, Quote)
      ensures p in PairsOf(cache, trading, fees, symbol) <==> IsPair(cache, trading, fees, symbol, p)
    {
      if p in PairsOf(cache, trading, fees, symbol) {
        var i, j :| 0 <= i < |quotes| && 0 <= j < |quotes| && i != j && p == (quotes[i], quotes[j]);
        assert quotes[i] in quotes && quotes[j] in quotes;
      }
      if IsPair(cache, trading, fees, symbol, p) {
        assert p.0 in snapshot && p.1 in snapshot;
        var i :| 0 <= i < |quotes| && quotes[i] == p.0;
        var j :| 0 <= j < |quotes| && quotes[j] == p.1;
      }
    }
  }

  lemma {:induction false} AllPairsExact(cache: Cache, trading: Trading, fees: TakerFees, n: nat)
    requires WellKeyed(cache) && n <= |trading.symbols|
    ensures forall p: (Quote, Quote) :: p in AllPairs(cache, trading, fees, n) <==>
              p.0.symbol in trading.symbols[..n] && IsPair(cache, trading, fees, p.0.symbol, p)
    ensures Distinct(trading.symbols[..n]) ==> DistinctPairs(AllPairs(cache, trading, fees, n))
  {
    hide WellKeyed;
    hide PairsOf;
    if n > 0 {
      var symbol := trading.symbols[n - 1];
      assert trading.symbols[..n] == trading.symbols[..n - 1] + [symbol];
      AllPairsExact(cache, trading, fees, n - 1);
      PairsExact(cache, trading, fees, symbol);
      var a, b := AllPairs(cache, trading, fees, n - 1), PairsOf(cache, trading, fees, symbol);
      if Distinct(trading.symbols[..n]) {
        assert symbol !in trading.symbols[..n - 1];
        forall x, y | 0 <= x < |a| && 0 <= y < |b|
          ensures a[x].0.symbol != b[y].0.symbol
        {
          assert a[x] in a && b[y] in b;
        }
      }
    }
  }

  // ---- the rows -----------------------------------------------------------

  ghost predicate FeesNonNegative(fees: TakerFees) {
    forall e :: e in fees ==> fees[e] >= 0.0
  }

  predicate SamePair(p: (Quote, Quote)) {
    p.0.symbol == p.1.symbol && p.0.marketType == p.1.marketType
  }

  predicate PairAllowed(p: (Quote, Quote), fees: TakerFees)
    requires PairHasFees(p, fees)
  {
    fees[p.0.exchange] >= 0.0 && fees[p.1.exchange] >= 0.0
  }

  ghost predicate Comparable(pairs: seq<(Quote, Quote)>, fees: TakerFees) {
    forall i :: 0 <= i < |pairs| ==> PairHasFees(pairs[i], fees) && SamePair(pairs[i])
  }

  lemma PairComputesIff(trading: Trading, fees: TakerFees, p: (Quote, Quote), now: int)
    requires PairHasFees(p, fees) && SamePair(p)
    ensures var r := ComputePair(trading, fees, p.0, p.1, now);
            && (r.Ok? <==> PairAllowed(p, fees))
            && (r.Ok? ==> r.value.Direction() == DirectionOf(p))
            && (r.Raised? ==> r.error == NegativeFee)
  {
    hide Times;
  }

  lemma {:induction false} RowsFollowPairs(pairs: seq<(Quote, Quote)>, trading: Trading, fees: TakerFees, now: int)
    requires Comparable(pairs, fees)
    ensures var r := RowsOf(pairs, trading, fees, now);
            && (r.Ok? <==> forall i :: 0 <= i < |pairs| ==> PairAllowed(pairs[i], fees))
            && (r.Raised? ==> r.error == NegativeFee)
            && (r.Ok? ==>
                  && |r.value| == |pairs|
                  && forall i :: 0 <= i < |pairs| ==>
                       ComputePair(trading, fees, pairs[i].0, pairs[i].1, now) == Ok(r.value[i])
                       && r.value[i].Direction() == DirectionOf(pairs[i]))
  {
    hide ComputePair;
    if pairs != [] {
      var n := |pairs| - 1;
      RowsFollowPairs(pairs[..n], trading, fees, now);
      PairComputesIff(trading, fees, pairs[n], now);
      assert forall i :: 0 <= i < n ==> pairs[..n][i] == pairs[i];
    }
  }

  /** Both exchanges of the direction have a stored quote of its symbol and a known fee. */
  ghost predicate Stored(cache: Cache, trading: Trading, fees: TakerFees, k: Direction) {
    && k.1 != k.2 && k.1 in fees && k.2 in fees
    && Lookup(cache, (k.1, trading.marketType, k.0)).Some?
    && Lookup(cache, (k.2, trading.marketType, k.0)).Some?
  }

  /** ... and the symbol is configured. */
  ghost predicate Quoted(cache: Cache, trading: Trading, fees: TakerFees, k: Direction) {
    k.0 in trading.symbols && Stored(cache, trading, fees, k)
  }

  /** The pair of stored quotes behind a direction. */
  function StoredPair(cache: Cache, trading: Trading, k: Direction): (Quote, Quote)
    requires Lookup(cache, (k.1, trading.marketType, k.0)).Some?
    requires Lookup(cache, (k.2, trading.marketType, k.0)).Some?
  {
    (Lookup(cache, (k.1, trading.marketType, k.0)).value, Lookup(cache, (k.2, trading.marketType, k.0)).value)
  }

  lemma LookupIsKeyed(cache: Cache, key: QuoteKey)
    requires WellKeyed(cache) && Lookup(cache, key).Some?
    ensures KeyOf(Lookup(cache, key).value) == key
  {
    var i :| 0 <= i < |cache| && cache[i] == Item(key.0, MarketsOf(cache, key.0));
    assert MarketsKeyed(cache[i].key, cache[i].value);
  }

  /** A direction is stored exactly when one pair, its stored pair, runs in that direction. */
  lemma PairOfDirection(cache: Cache, trading: Trading, fees: TakerFees, k: Direction, p: (Quote, Quote))
    requires WellKeyed(cache)
    ensures IsPair(cache, trading, fees, k.0, p) && DirectionOf(p) == k
            <==> Stored(cache, trading, fees, k) && p == StoredPair(cache, trading, k)
  {
    hide Lookup;
    hide WellKeyed;
    if Stored(cache, trading, fees, k) {
      LookupIsKeyed(cache, (k.1, trading.marketType, k.0));
      LookupIsKeyed(cache, (k.2, trading.marketType, k.0));
    }
  }

  lemma PairsAreFiled(cache: Cache, trading: Trading, fees: TakerFees)
    requires WellKeyed(cache)
    ensures var pairs := AllPairs(cache, trading, fees, |trading.symbols|);
            && Comparable(pairs, fees)
            && forall i :: 0 <= i < |pairs| ==>
                 Quoted(cache, trading, fees, DirectionOf(pairs[i]))
                 && pairs[i] == StoredPair(cache, trading, DirectionOf(pairs[i]))
  {
    hide Lookup;
    hide WellKeyed;
    hide AllPairs;
    var pairs := AllPairs(cache, trading, fees, |trading.symbols|);
    AllPairsExact(cache, trading, fees, |trading.symbols|);
    assert trading.symbols[..|trading.symbols|] == trading.symbols;
    forall i | 0 <= i < |pairs|
      ensures PairHasFees(pairs[i], fees) && SamePair(pairs[i])
      ensures Quoted(cache, trading, fees, DirectionOf(pairs[i]))
      ensures pairs[i] == StoredPair(cache, trading, DirectionOf(pairs[i]))
    {
      assert pairs[i] in pairs;
      PairOfDirection(cache, trading, fees, DirectionOf(pairs[i]), pairs[i]);
    }
  }

  lemma QuotedPairListed(cache: Cache, trading: Trading, fees: TakerFees, k: Direction)
    requires WellKeyed(cache) && Quoted(cache, trading, fees, k)
    ensures StoredPair(cache, trading, k) in AllPairs(cache, trading, fees, |trading.symbols|)
    ensures DirectionOf(StoredPair(cache, trading, k)) == k
  {
    hide Lookup;
    hide WellKeyed;
    hide AllPairs;
    AllPairsExact(cache, trading, fees, |trading.symbols|);
    assert trading.symbols[..|trading.symbols|] == trading.symbols;
    PairOfDirection(cache, trading, fees, k, StoredPair(cache, trading, k));
  }

  /** A quoted direction with a negative fee on either side. */
  ghost predicate QuotedBelowZero(cache: Cache, trading: Trading, fees: TakerFees, k: Direction) {
    Quoted(cache, trading, fees, k) && (fees[k.1] < 0.0 || fees[k.2] < 0.0)
  }

  /** Computing a slice raises exactly when some quoted direction has a negative fee. */
  lemma SliceRaisesIff(cache: Cache, trading: Trading, fees: TakerFees, now: int)
    requires WellKeyed(cache)
    ensures Computed(cache, trading, fees, now).Raised? <==> exists k :: QuotedBelowZero(cache, trading, fees, k)
    ensures Computed(cache, trading, fees, now).Raised? ==> Computed(cache, trading, fees, now).error == NegativeFee
  {
    hide Lookup;
    hide WellKeyed;
    hide RowsOf;
    hide AllPairs;
    var pairs := AllPairs(cache, trading, fees, |trading.symbols|);
    PairsAreFiled(cache, trading, fees);
    RowsFollowPairs(pairs, trading, fees, now);
    if Computed(cache, trading, fees, now).Raised? {
      var i :| 0 <= i < |pairs| && !PairAllowed(pairs[i], fees);
      assert QuotedBelowZero(cache, trading, fees, DirectionOf(pairs[i]));
    }
    if k :| QuotedBelowZero(cache, trading, fees, k) {
      QuotedPairListed(cache, trading, fees, k);
      var i :| 0 <= i < |pairs| && pairs[i] == StoredPair(cache, trading, k);
      assert !PairAllowed(pairs[i], fees);
    }
  }

  // ---- how often a direction is listed ------------------------------------

  function Listings(symbols: seq<string>, s: string): nat {
    if symbols == [] then 0
    else Listings(symbols[..|symbols| - 1], s) + if symbols[|symbols| - 1] == s then 1 else 0
  }

  lemma {:induction false} ListedIff(symbols: seq<string>, s: string)
    ensures Listings(symbols, s) > 0 <==> s in symbols
  {
    if symbols != [] {
      var n := |symbols| - 1;
      ListedIff(symbols[..n], s);
      assert symbols == symbols[..n] + [symbols[n]];
    }
  }

  function PairCopies(pairs: seq<(Quote, Quote)>, k: Direction): nat {
    if pairs == [] then 0
    else PairCopies(pairs[..|pairs| - 1], k) + if DirectionOf(pairs[|pairs| - 1]) == k then 1 else 0
  }

  lemma {:induction false} PairCopiesConcat(a: seq<(Quote, Quote)>, b: seq<(Quote, Quote)>, k: Direction)
    ensures PairCopies(a + b, k) == PairCopies(a, k) + PairCopies(b, k)
  {
    if b == [] {
      assert a + b == a;
    } else {
      assert (a + b)[..|a + b| - 1] == a + b[..|b| - 1];
      PairCopiesConcat(a, b[..|b| - 1], k);
    }
  }

  lemma {:induction false} DistinctPairCopies(pairs: seq<(Quote, Quote)>, k: Direction)
    requires DistinctPairs(pairs)
    ensures PairCopies(pairs, k) == if exists i :: 0 <= i < |pairs| && DirectionOf(pairs[i]) == k then 1 else 0
  {
    if pairs != [] {
      var n := |pairs| - 1;
      DistinctPairCopies(pairs[..n], k);
      if DirectionOf(pairs[n]) == k {
        assert forall i :: 0 <= i < n ==> DirectionOf(pairs[..n][i]) != k;
      } else if i :| 0 <= i < |pairs| && DirectionOf(pairs[i]) == k {
        assert DirectionOf(pairs[..n][i]) == k;
      }
    }
  }

  lemma {:induction false} CopiesFollow(rows: seq<SpreadRow>, pairs: seq<(Quote, Quote)>, k: Direction)
    requires |rows| == |pairs| && forall i :: 0 <= i < |rows| ==> rows[i].Direction() == DirectionOf(pairs[i])
    ensures Copies(rows, k) == PairCopies(pairs, k)
  {
    if rows != [] {
      CopiesFollow(rows[..|rows| - 1], pairs[..|pairs| - 1], k);
    }
  }

  /** One symbol's pairs run once in each of its stored directions. */
  lemma PairsOfCopies(cache: Cache, trading: Trading, fees: TakerFees, symbol: string, k: Direction)
    requires WellKeyed(cache)
    ensures PairCopies(PairsOf(cache, trading, fees, symbol), k)
            == if symbol == k.0 && Stored(cache, trading, fees, k) then 1 else 0
  {
    hide Lookup;
    hide WellKeyed;
    hide PairsOf;
    var pairs := PairsOf(cache, trading, fees, symbol);
    PairsExact(cache, trading, fees, symbol);
    DistinctPairCopies(pairs, k);
    if i :| 0 <= i < |pairs| && DirectionOf(pairs[i]) == k {
      assert pairs[i] in pairs;
      PairOfDirection(cache, trading, fees, k, pairs[i]);
    }
    if symbol == k.0 && Stored(cache, trading, fees, k) {
      var p := StoredPair(cache, trading, k);
      PairOfDirection(cache, trading, fees, k, p);
      var i :| 0 <= i < |pairs| && pairs[i] == p;
      assert DirectionOf(pairs[i]) == k;
    }
  }

  lemma {:induction false} AllPairsCopies(cache: Cache, trading: Trading, fees: TakerFees, n: nat, k: Direction)
    requires WellKeyed(cache) && n <= |trading.symbols|
    ensures PairCopies(AllPairs(cache, trading, fees, n), k)
            == if Stored(cache, trading, fees, k) then Listings(trading.symbols[..n], k.0) else 0
  {
    hide WellKeyed;
    hide PairsOf;
    hide Stored;
    if n > 0 {
      var symbol := trading.symbols[n - 1];
      assert trading.symbols[..n][..n - 1] == trading.symbols[..n - 1];
      AllPairsCopies(cache, trading, fees, n - 1, k);
      PairsOfCopies(cache, trading, fees, symbol, k);
      PairCopiesConcat(AllPairs(cache, trading, fees, n - 1), PairsOf(cache, trading, fees, symbol), k);
    }
  }

  /**
   * A slice shows exactly the quoted directions (both ways round), each computed from the stored quotes, and each as
   * often as its symbol is configured.
   */
  lemma SliceIsExact(cache: Cache, trading: Trading, fees: TakerFees, now: int, k: Direction)
    requires WellKeyed(cache) && Computed(cache, trading, fees, now).Ok?
    ensures var rows := Computed(cache, trading, fees, now).value;
            && Agree(rows, k)
            && Copies(rows, k) == (if Quoted(cache, trading, fees, k) then Listings(trading.symbols, k.0) else 0)
            && (RowFor(rows, k).Some? <==> Quoted(cache, trading, fees, k))
            && (Quoted(cache, trading, fees, k) ==>
                  var p := StoredPair(cache, trading, k);
                  PairHasFees(p, fees) && ComputePair(trading, fees, p.0, p.1, now) == Ok(RowFor(rows, k).value))
  {
    hide ComputePair;
    hide Lookup;
    hide WellKeyed;
    hide RowsOf;
    hide AllPairs;
    hide RowFor;
    hide Copies;
    var n := |trading.symbols|;
    var pairs := AllPairs(cache, trading, fees, n);
    PairsAreFiled(cache, trading, fees);
    RowsFollowPairs(pairs, trading, fees, now);
    AllPairsCopies(cache, trading, fees, n, k);
    assert trading.symbols[..n] == trading.symbols;
    ListedIff(trading.symbols, k.0);
    var rows := Computed(cache, trading, fees, now).value;
    CopiesFollow(rows, pairs, k);
    if Quoted(cache, trading, fees, k) {
      QuotedPairListed(cache, trading, fees, k);
      var i :| 0 <= i < |pairs| && pairs[i] == StoredPair(cache, trading, k);
      assert rows[i].Direction() == k;
    }
    if RowFor(rows, k).Some? {
      var i :| 0 <= i < |rows| && rows[i] == RowFor(rows, k).value;
      assert Quoted(cache, trading, fees, DirectionOf(pairs[i]));
    }
  }

  // ---- active directions go uphill ----------------------------------------

  ghost predicate Uncrossed(cache: Cache) {
    forall key :: Lookup(cache, key).Some? ==>
      Lookup(cache, key).value.bidPrice <= Lookup(cache, key).value.askPrice
  }

  /** An active direction leads to a higher bid, or to the same one if nothing is gained or lost on the way. */
  lemma ActiveRaisesBid(trading: Trading, fees: TakerFees, buy: Quote, sell: Quote, now: int, threshold: real)
    requires buy.exchange in fees && sell.exchange in fees && threshold >= 0.0
    requires buy.bidPrice <= buy.askPrice
    requires ComputePair(trading, fees, buy, sell, now).Ok?
    requires IsActive(ComputePair(trading, fees, buy, sell, now).value, threshold)
    ensures buy.bidPrice <= sell.bidPrice
    ensures buy.bidPrice == sell.bidPrice ==>
              && threshold == 0.0 && buy.bidPrice == buy.askPrice
              && fees[buy.exchange] == 0.0 == fees[sell.exchange]
  {
    hide Times;
    var f, g := fees[buy.exchange], fees[sell.exchange];
    NetSpreadFloor(buy.askPrice, sell.bidPrice, f, g, threshold);
    FeesOnlyHurt(buy.askPrice, f);
    FeesOnlyHurt(sell.bidPrice, g);
  }

  /** A net spread of at least zero means proceeds of at least the cost, and of more than it if it is above zero. */
  lemma NetSpreadFloor(buyAsk: real, sellBid: real, buyFee: real, sellFee: real, threshold: real)
    requires buyAsk > 0.0 && buyFee >= 0.0 && sellFee >= 0.0 && threshold >= 0.0
    requires NetSpread(buyAsk, sellBid, buyFee, sellFee).value >= threshold
    ensures Times(sellBid, 1.0 - sellFee) >= Times(buyAsk, 1.0 + buyFee)
    ensures threshold > 0.0 ==> Times(sellBid, 1.0 - sellFee) > Times(buyAsk, 1.0 + buyFee)
  {
    hide Times;
    NetSpreadSign(buyAsk, sellBid, buyFee, sellFee);
    TimesPositive(buyAsk, 1.0 + buyFee);
    var proceeds, cost := Times(sellBid, 1.0 - sellFee), Times(buyAsk, 1.0 + buyFee);
    QuotientTimes(proceeds, cost);
    TimesMonotone(1.0, proceeds / cost, cost);
    TimesUnit(cost);
  }

  lemma FeesOnlyHurt(price: real, fee: real)
    requires price > 0.0 && fee >= 0.0
    ensures Times(price, 1.0 - fee) <= price <= Times(price, 1.0 + fee)
    ensures fee > 0.0 ==> Times(price, 1.0 - fee) < price < Times(price, 1.0 + fee)
  {
    TimesMonotone(1.0 - fee, 1.0, price);
    TimesMonotone(1.0, 1.0 + fee, price);
    if fee > 0.0 {
      TimesStrict(1.0 - fee, 1.0, price);
      TimesStrict(1.0, 1.0 + fee, price);
    }
  }

  function BidOf(cache: Cache, trading: Trading, symbol: string, e: Exchange): real {
    var q := Lookup(cache, (e, trading.marketType, symbol));
    if q.Some? then q.value.bidPrice else 0.0
  }

  /** The open directions after processing a fresh slice. */
  function OpenAfterSlice(cache: Cache, trading: Trading, fees: TakerFees, open: Open, threshold: real, now: int): Open
    requires Computed(cache, trading, fees, now).Ok?
  {
    OpenAfterTick(open, Computed(cache, trading, fees, now).value, threshold, now)
  }

  /** Nothing is gained or lost on the way: no threshold, no spread where one buys, and no fee on either side. */
  ghost predicate Flat(cache: Cache, trading: Trading, fees: TakerFees, threshold: real, k: Direction) {
    var q := Lookup(cache, (k.1, trading.marketType, k.0));
    && threshold == 0.0
    && q.Some? && q.value.bidPrice == q.value.askPrice
    && k.1 in fees && k.2 in fees && fees[k.1] == 0.0 == fees[k.2]
  }

  lemma OpenGoesUphill(cache: Cache, trading: Trading, fees: TakerFees, open: Open, threshold: real, now: int,
                       k: Direction)
    requires WellKeyed(cache) && Uncrossed(cache) && Filed(open) && threshold >= 0.0
    requires Computed(cache, trading, fees, now).Ok?
    requires HasKey(OpenAfterSlice(cache, trading, fees, open, threshold, now), k)
    ensures BidOf(cache, trading, k.0, k.1) <= BidOf(cache, trading, k.0, k.2)
    ensures BidOf(cache, trading, k.0, k.1) == BidOf(cache, trading, k.0, k.2) ==>
              Flat(cache, trading, fees, threshold, k)
  {
    hide ComputePair;
    hide Lookup;
    hide OpenAfterTick;
    hide Computed;
    hide WellKeyed;
    hide RowFor;
    hide IsActive;
    hide Filed;
    SliceIsExact(cache, trading, fees, now, k);
    var rows := Computed(cache, trading, fees, now).value;
    TickAt(open, rows, threshold, now, k);
    assert ActiveRow(rows, k, threshold).Some?;
    var buy := Lookup(cache, (k.1, trading.marketType, k.0)).value;
    var sell := Lookup(cache, (k.2, trading.marketType, k.0)).value;
    LookupIsKeyed(cache, (k.1, trading.marketType, k.0));
    LookupIsKeyed(cache, (k.2, trading.marketType, k.0));
    ActiveRaisesBid(trading, fees, buy, sell, now, threshold);
  }

  /** Every step of the path is open after the slice. */
  ghost predicate OpenPath(cache: Cache, trading: Trading, fees: TakerFees, open: Open, threshold: real, now: int,
                           symbol: string, path: seq<Exchange>)
    requires Computed(cache, trading, fees, now).Ok?
  {
    forall i :: 0 <= i < |path| - 1 ==>
      HasKey(OpenAfterSlice(cache, trading, fees, open, threshold, now), (symbol, path[i], path[i + 1]))
  }

  ghost predicate FlatPath(cache: Cache, trading: Trading, fees: TakerFees, threshold: real, symbol: string,
                           path: seq<Exchange>)
  {
    forall i :: 0 <= i < |path| - 1 ==> Flat(cache, trading, fees, threshold, (symbol, path[i], path[i + 1]))
  }

  lemma OpenRest(cache: Cache, trading: Trading, fees: TakerFees, open: Open, threshold: real, now: int,
                 symbol: string, path: seq<Exchange>)
    requires Computed(cache, trading, fees, now).Ok? && |path| > 2
    requires OpenPath(cache, trading, fees, open, threshold, now, symbol, path)
    ensures OpenPath(cache, trading, fees, open, threshold, now, symbol, path[1..])
  {
    hide OpenAfterSlice;
    hide Computed;
    hide HasKey;
    var rest := path[1..];
    forall i | 0 <= i < |rest| - 1
      ensures HasKey(OpenAfterSlice(cache, trading, fees, open, threshold, now), (symbol, rest[i], rest[i + 1]))
    {
      assert rest[i] == path[i + 1] && rest[i + 1] == path[i + 1 + 1];
    }
  }

  lemma FlatWhole(cache: Cache, trading: Trading, fees: TakerFees, threshold: real, symbol: string,
                  path: seq<Exchange>)
    requires |path| > 2 && FlatPath(cache, trading, fees, threshold, symbol, path[1..])
    requires Flat(cache, trading, fees, threshold, (symbol, path[0], path[1]))
    ensures FlatPath(cache, trading, fees, threshold, symbol, path)
  {
    hide Flat;
    var rest := path[1..];
    forall i | 0 <= i < |path| - 1
      ensures Flat(cache, trading, fees, threshold, (symbol, path[i], path[i + 1]))
    {
      if i > 0 {
        assert rest[i - 1] == path[i] && rest[i - 1 + 1] == path[i + 1];
      }
    }
  }

  /** Along any path of open directions of one symbol the bid never falls, and stays the same only if all is flat. */
  lemma {:induction false} PathRises(cache: Cache, trading: Trading, fees: TakerFees, open: Open, threshold: real,
                                     now: int, symbol: string, path: seq<Exchange>)
    requires WellKeyed(cache) && Uncrossed(cache) && Filed(open) && threshold >= 0.0 && |path| >= 2
    requires Computed(cache, trading, fees, now).Ok?
    requires OpenPath(cache, trading, fees, open, threshold, now, symbol, path)
    ensures BidOf(cache, trading, symbol, path[0]) <= BidOf(cache, trading, symbol, path[|path| - 1])
    ensures BidOf(cache, trading, symbol, path[0]) == BidOf(cache, trading, symbol, path[|path| - 1]) ==>
              FlatPath(cache, trading, fees, threshold, symbol, path)
    decreases |path|
  {
    hide OpenAfterSlice;
    hide Computed;
    hide WellKeyed;
    hide Filed;
    hide HasKey;
    hide BidOf;
    hide Flat;
    OpenGoesUphill(cache, trading, fees, open, threshold, now, (symbol, path[0], path[1]));
    if |path| > 2 {
      OpenRest(cache, trading, fees, open, threshold, now, symbol, path);
      PathRises(cache, trading, fees, open, threshold, now, symbol, path[1..]);
      if BidOf(cache, trading, symbol, path[0]) == BidOf(cache, trading, symbol, path[|path| - 1]) {
        FlatWhole(cache, trading, fees, threshold, symbol, path);
      }
    }
  }

  /** A cycle of open directions exists only where nothing at all is gained or lost on any of its steps. */
  lemma OpenCycleIsFlat(cache: Cache, trading: Trading, fees: TakerFees, open: Open, threshold: real, now: int,
                        symbol: string, path: seq<Exchange>)
    requires WellKeyed(cache) && Uncrossed(cache) && Filed(open) && threshold >= 0.0
    requires Computed(cache, trading, fees, now).Ok?
    requires |path| >= 2 && path[0] == path[|path| - 1]
    requires OpenPath(cache, trading, fees, open, threshold, now, symbol, path)
    ensures FlatPath(cache, trading, fees, threshold, symbol, path)
  {
    hide OpenPath;
    hide Computed;
    hide FlatPath;
    PathRises(cache, trading, fees, open, threshold, now, symbol, path);
  }

  lemma FlatNeedsZero(cache: Cache, trading: Trading, fees: TakerFees, threshold: real, symbol: string,
                      path: seq<Exchange>)
    requires |path| >= 2 && FlatPath(cache, trading, fees, threshold, symbol, path)
    ensures threshold == 0.0
  {
    assert Flat(cache, trading, fees, threshold, (symbol, path[0], path[0 + 1]));
  }

  /** With a positive threshold there is none: in particular a direction and its reverse are never open together. */
  lemma NoOpenCycle(cache: Cache, trading: Trading, fees: TakerFees, open: Open, threshold: real, now: int,
                    symbol: string, path: seq<Exchange>)
    requires WellKeyed(cache) && Uncrossed(cache) && Filed(open) && threshold > 0.0
    requires Computed(cache, trading, fees, now).Ok?
    requires |path| >= 2 && path[0] == path[|path| - 1]
    ensures !OpenPath(cache, trading, fees, open, threshold, now, symbol, path)
  {
    hide OpenPath;
    hide Computed;
    if OpenPath(cache, trading, fees, open, threshold, now, symbol, path) {
      OpenCycleIsFlat(cache, trading, fees, open, threshold, now, symbol, path);
      FlatNeedsZero(cache, trading, fees, threshold, symbol, path);
      assert false;
    }
  }

  // ---- profits ------------------------------------------------------------

  /** With a non-negative threshold, an active row promises a non-negative profit. */
  lemma ActiveProfitNonNegative(trading: Trading, fees: TakerFees, buy: Quote, sell: Quote, now: int, threshold: real)
    requires buy.exchange in fees && sell.exchange in fees && threshold >= 0.0
    requires ComputePair(trading, fees, buy, sell, now).Ok?
    requires IsActive(ComputePair(trading, fees, buy, sell, now).value, threshold)
    ensures ComputePair(trading, fees, buy, sell, now).value.expectedNetProfit >= 0.0
  {
    hide Times;
    var row := ComputePair(trading, fees, buy, sell, now).value;
    var net := NetSpread(buy.askPrice, sell.bidPrice, fees[buy.exchange], fees[sell.exchange]).value;
    assert net >= 0.0 && row.quantity > 0.0;
    TimesPositive(row.quantity, buy.askPrice);
    TimesMonotone(0.0, net, Times(row.quantity, buy.askPrice));
    TimesZero(Times(row.quantity, buy.askPrice));
  }
}
