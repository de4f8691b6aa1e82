/** Capital per exchange against its target, and the greedy plan of transfers that rebalances it. */
module CapitalMonitoring {
  import opened Prelude
  import opened Dicts
  import opened Balances
  import PaperTrading

  datatype CapitalConfig = CapitalConfig(quoteAsset: string, targets: map<Exchange, real>, thresholdPct: real)

  datatype Status = Status(
    exchange: Exchange,
    quote: Account,
    base: map<string, Account>,
    target: Option<real>,
    actual: Option<real>,
    deviation: Option<real>)

  /** An exchange and how far it is from its target, as an amount. */
  datatype Entry = Entry(exchange: Exchange, amount: real)

  datatype Signal = Signal(asset: string, from: Exchange, to: Exchange, amount: real)

  // ---- the snapshot -------------------------------------------------------

  function QuoteOn(config: CapitalConfig, ledger: Ledger, e: Exchange): Account {
    At(ledger, (e, config.quoteAsset))
  }

  function Totals(config: CapitalConfig, ledger: Ledger, exchanges: seq<Exchange>): (r: seq<real>)
    ensures |r| == |exchanges|
    ensures forall i :: 0 <= i < |r| ==> r[i] == QuoteOn(config, ledger, exchanges[i]).total
  {
    seq(|exchanges|, i requires 0 <= i < |exchanges| => QuoteOn(config, ledger, exchanges[i]).total)
  }

  function CapitalOf(config: CapitalConfig, ledger: Ledger, exchanges: seq<Exchange>): real {
    Sum(Totals(config, ledger, exchanges))
  }

  /** The dictionary of totals: one entry for each exchange, however often it is listed. */
  function TotalsByExchange(config: CapitalConfig, ledger: Ledger, exchanges: seq<Exchange>): Dict<Exchange, real> {
    if exchanges == [] then [] else
      var e := exchanges[|exchanges| - 1];
      Put(TotalsByExchange(config, ledger, exchanges[..|exchanges| - 1]), e, QuoteOn(config, ledger, e).total)
  }

  /** The snapshot's capital, which counts each exchange once. */
  function SnapshotCapital(config: CapitalConfig, ledger: Ledger, exchanges: seq<Exchange>): real {
    Sum(ValuesOf(TotalsByExchange(config, ledger, exchanges)))
  }

  lemma {:induction false} TotalListed(config: CapitalConfig, ledger: Ledger, exchanges: seq<Exchange>, e: Exchange)
    requires e in exchanges
    ensures Find(TotalsByExchange(config, ledger, exchanges), e) == Some(QuoteOn(config, ledger, e).total)
  {
    var n := |exchanges| - 1;
    var front := TotalsByExchange(config, ledger, exchanges[..n]);
    FindPut(front, exchanges[n], QuoteOn(config, ledger, exchanges[n]).total, e);
    if e != exchanges[n] {
      assert exchanges == exchanges[..n] + [exchanges[n]];
      TotalListed(config, ledger, exchanges[..n], e);
    }
  }

  lemma {:induction false} DistinctTotals(config: CapitalConfig, ledger: Ledger, exchanges: seq<Exchange>)
    requires Distinct(exchanges)
    ensures var d := TotalsByExchange(config, ledger, exchanges);
            && |d| == |exchanges|
            && forall i :: 0 <= i < |d| ==> d[i] == Item(exchanges[i], QuoteOn(config, ledger, exchanges[i]).total)
  {
    if exchanges != [] {
      var n := |exchanges| - 1;
      DistinctTotals(config, ledger, exchanges[..n]);
      PutNew(TotalsByExchange(config, ledger, exchanges[..n]), exchanges[n],
             QuoteOn(config, ledger, exchanges[n]).total);
    }
  }

  /** When no exchange is listed twice, the snapshot and the plan measure the same capital. */
  lemma DistinctCapital(config: CapitalConfig, ledger: Ledger, exchanges: seq<Exchange>)
    requires Distinct(exchanges)
    ensures SnapshotCapital(config, ledger, exchanges) == CapitalOf(config, ledger, exchanges)
  {
    DistinctTotals(config, ledger, exchanges);
    assert ValuesOf(TotalsByExchange(config, ledger, exchanges)) == Totals(config, ledger, exchanges);
  }

  function StatusOf(config: CapitalConfig, ledger: Ledger, capital: real, e: Exchange,
                    baseAssets: seq<string>): Status {
    var base := map asset | asset in baseAssets :: At(ledger, (e, asset));
    var quote := QuoteOn(config, ledger, e);
    var target := if e in config.targets then Some(config.targets[e]) else None;
    var actual := if capital > 0.0 then Some(quote.total / capital * 100.0) else None;
    var deviation := if target.Some? && actual.Some? then Some(actual.value - target.value) else None;
    Status(e, quote, base, target, actual, deviation)
  }

  function Snapshot(config: CapitalConfig, ledger: Ledger, exchanges: seq<Exchange>,
                    baseAssets: seq<string>): (r: seq<Status>)
    ensures |r| == |exchanges|
    ensures forall i :: 0 <= i < |r| ==>
              r[i] == StatusOf(config, ledger, SnapshotCapital(config, ledger, exchanges), exchanges[i], baseAssets)
  {
    var capital := SnapshotCapital(config, ledger, exchanges);
    seq(|exchanges|, i requires 0 <= i < |exchanges| => StatusOf(config, ledger, capital, exchanges[i], baseAssets))
  }

  // ---- the plan -----------------------------------------------------------

  function OverList(statuses: seq<Status>, capital: real, threshold: real): seq<Entry> {
    if statuses == [] then [] else
      var s := statuses[|statuses| - 1];
      var front := OverList(statuses[..|statuses| - 1], capital, threshold);
      if s.deviation.Some? && s.deviation.value > threshold
      then front + [Entry(s.exchange, Times(s.deviation.value / 100.0, capital))] else front
  }

  function UnderList(statuses: seq<Status>, capital: real, threshold: real): seq<Entry> {
    if statuses == [] then [] else
      var s := statuses[|statuses| - 1];
      var front := UnderList(statuses[..|statuses| - 1], capital, threshold);
      if s.deviation.Some? && s.deviation.value < -threshold
      then front + [Entry(s.exchange, Times(-s.deviation.value / 100.0, capital))] else front
  }

  /** `list.sort(key=amount, reverse=True)`, which keeps the order of equal amounts. */
  function SortedDescending(s: seq<Entry>): seq<Entry> {
    if s == [] then [] else Inserted(s[0], SortedDescending(s[1..]))
  }

  function Inserted(x: Entry, s: seq<Entry>): seq<Entry> {
    if s == [] || s[0].amount <= x.amount then [x] + s else [s[0]] + Inserted(x, s[1..])
  }

  /** Pair the current sender with the current receiver for the smaller of what is left of each, then move on. */
  function Matched(over: seq<Entry>, under: seq<Entry>, asset: string): seq<Signal>
    decreases |over| + |under|
  {
    if over == [] || under == [] then [] else
      var excess, deficit := over[0].amount, under[0].amount;
      var amount := Min(excess, deficit);
      var signal := if amount > 0.0 then [Signal(asset, over[0].exchange, under[0].exchange, amount)] else [];
      signal + Matched(Reduced(over, amount), Reduced(under, amount), asset)
  }

  /** The list after its head gave `amount`: without the head once nothing is left of it. */
  function Reduced(s: seq<Entry>, amount: real): (r: seq<Entry>)
    requires s != []
    ensures |r| == if s[0].amount - amount <= 0.0 then |s| - 1 else |s|
  {
    if s[0].amount - amount <= 0.0 then s[1..] else [Entry(s[0].exchange, s[0].amount - amount)] + s[1..]
  }

  function Senders(config: CapitalConfig, ledger: Ledger, exchanges: seq<Exchange>): seq<Entry> {
    var statuses := Snapshot(config, ledger, exchanges, []);
    SortedDescending(OverList(statuses, CapitalOf(config, ledger, exchanges), config.thresholdPct))
  }

  function Receivers(config: CapitalConfig, ledger: Ledger, exchanges: seq<Exchange>): seq<Entry> {
    var statuses := Snapshot(config, ledger, exchanges, []);
    SortedDescending(UnderList(statuses, CapitalOf(config, ledger, exchanges), config.thresholdPct))
  }

  function Plan(config: CapitalConfig, ledger: Ledger, exchanges: seq<Exchange>): seq<Signal> {
    if CapitalOf(config, ledger, exchanges) <= 0.0 then []
    else Matched(Senders(config, ledger, exchanges), Receivers(config, ledger, exchanges), config.quoteAsset)
  }

  // ---- one direction ------------------------------------------------------

  datatype Availability = Available | QuoteShort | BaseShort

  function AvailabilityOf(quoteAsset: string, ledger: Ledger, symbol: string, buy: Exchange, sell: Exchange,
                          quantity: real, buyPrice: real): Availability
  {
    if !Covers(ledger, (buy, quoteAsset), Times(quantity, buyPrice)) then QuoteShort
    else if !Covers(ledger, (sell, PaperTrading.BaseOf(symbol)), quantity) then BaseShort
    else Available
  }

  // ---- the monitor --------------------------------------------------------

  /** The same accounts as before, with an entry for each of the keys looked up. */
  ghost predicate Looked(before: Ledger, after: Ledger, keys: set<Key>) {
    after.Keys == before.Keys + keys && forall k :: At(after, k) == At(before, k)
  }

  function KeysOf(exchanges: seq<Exchange>, assets: seq<string>): set<Key> {
    set e, asset | e in exchanges && asset in assets :: (e, asset)
  }

  lemma LookOnce(before: Ledger, mid: Ledger, keys: set<Key>, k: Key)
    requires Looked(before, mid, keys)
    ensures Looked(before, Touched(mid, k), keys + {k}) && At(mid, k) == At(before, k)
  {
  }

  lemma KeysGrow(exchanges: seq<Exchange>, e: Exchange, assets: seq<string>, asset: string)
    ensures KeysOf(exchanges + [e], [asset]) == KeysOf(exchanges, [asset]) + {(e, asset)}
    ensures KeysOf([e], assets + [asset]) == KeysOf([e], assets) + {(e, asset)}
    ensures KeysOf(exchanges + [e], assets) == KeysOf(exchanges, assets) + KeysOf([e], assets)
  {
  }

  lemma NothingLooked(ledger: Ledger, asset: string, baseAssets: seq<string>)
    ensures Looked(ledger, ledger, {}) && KeysOf([], [asset]) == {} == KeysOf([], baseAssets)
  {
  }

  lemma CoversAvailable(ledger: Ledger, k: Key, amount: real)
    ensures Covers(ledger, k, amount) <==> At(ledger, k).Available() >= amount
  {
    hide At;
    var account := At(ledger, k);
    assert account.Available() == account.total - account.locked;
  }

  lemma NoKeys(e: Exchange)
    ensures KeysOf([e], []) == {}
  {
  }

  lemma QuoteKeyListed(exchanges: seq<Exchange>, i: nat, asset: string)
    requires i < |exchanges|
    ensures (exchanges[i], asset) in KeysOf(exchanges, [asset])
  {
    assert exchanges[i] in exchanges && asset in [asset];
  }

  class CapitalMonitor {
    const balances: BalanceManager
    const config: CapitalConfig

    constructor (balances: BalanceManager, config: CapitalConfig)
      ensures this.balances == balances && this.config == config
    {
      this.balances, this.config := balances, config;
    }

    method TakeSnapshot(exchanges: seq<Exchange>, baseAssets: seq<string>) returns (statuses: seq<Status>)
      modifies balances
      ensures statuses == Snapshot(config, old(balances.ledger), exchanges, baseAssets)
      ensures Looked(old(balances.ledger), balances.ledger,
                     KeysOf(exchanges, [config.quoteAsset]) + KeysOf(exchanges, baseAssets))
    {
      hide Touched;
      hide Looked;
      hide At;
      hide KeysOf;
      hide TotalsByExchange;
      hide StatusOf;
      var quoteAsset := config.quoteAsset;
      ghost var before := balances.ledger;
      var totals := QuoteTotals(exchanges);
      NothingLooked(before, quoteAsset, baseAssets);
      ghost var keys := KeysOf(exchanges, [quoteAsset]);
      assert keys + {} == keys;
      var capital := Sum(ValuesOf(totals));
      statuses := [];
      for i := 0 to |exchanges|
        invariant keys == KeysOf(exchanges, [quoteAsset]) + KeysOf(exchanges[..i], baseAssets)
        invariant Looked(before, balances.ledger, keys)
        invariant statuses == Snapshot(config, before, exchanges, baseAssets)[..i]
      {
        QuoteKeyListed(exchanges, i, quoteAsset);
        TotalListed(config, before, exchanges, exchanges[i]);
        var total := Find(totals, exchanges[i]).value;
        var status := StatusOn(exchanges[i], total, capital, baseAssets, before, keys);
        KeysGrow(exchanges[..i], exchanges[i], baseAssets, quoteAsset);
        assert exchanges[..i] + [exchanges[i]] == exchanges[..i + 1];
        keys := keys + KeysOf([exchanges[i]], baseAssets);
        statuses := statuses + [status];
      }
      assert exchanges[..|exchanges|] == exchanges;
    }

    /** One pass of the loop. */
    method StatusOn(e: Exchange, total: real, capital: real, baseAssets: seq<string>, ghost before: Ledger,
                    ghost keys: set<Key>)
      returns (status: Status)
      requires Looked(before, balances.ledger, keys) && (e, config.quoteAsset) in keys
      requires total == QuoteOn(config, before, e).total
      modifies balances
      ensures status == StatusOf(config, before, capital, e, baseAssets)
      ensures Looked(before, balances.ledger, keys + KeysOf([e], baseAssets))
    {
      hide Touched;
      hide Looked;
      hide At;
      hide KeysOf;
      LookOnce(before, balances.ledger, keys, (e, config.quoteAsset));
      assert keys + {(e, config.quoteAsset)} == keys;
      var quote := balances.Get(e, config.quoteAsset);
      var base := BaseStatuses(e, baseAssets, before, keys);
      var target := if e in config.targets then Some(config.targets[e]) else None;
      var actual := if capital > 0.0 then Some(total / capital * 100.0) else None;
      var deviation := if target.Some? && actual.Some? then Some(actual.value - target.value) else None;
      return Status(e, quote, base, target, actual, deviation);
    }

    /** The comprehension over the quote totals. */
    method QuoteTotals(exchanges: seq<Exchange>) returns (totals: Dict<Exchange, real>)
      modifies balances
      ensures totals == TotalsByExchange(config, old(balances.ledger), exchanges)
      ensures Looked(old(balances.ledger), balances.ledger, KeysOf(exchanges, [config.quoteAsset]))
    {
      hide Touched;
      hide Looked;
      hide At;
      hide KeysOf;
      var quoteAsset := config.quoteAsset;
      ghost var before, keys := balances.ledger, {};
      NothingLooked(before, quoteAsset, []);
      totals := [];
      for i := 0 to |exchanges|
        invariant keys == KeysOf(exchanges[..i], [quoteAsset]) && Looked(before, balances.ledger, keys)
        invariant totals == TotalsByExchange(config, before, exchanges[..i])
      {
        assert exchanges[..i + 1][..i] == exchanges[..i];
        LookOnce(before, balances.ledger, keys, (exchanges[i], quoteAsset));
        KeysGrow(exchanges[..i], exchanges[i], [], quoteAsset);
        assert exchanges[..i] + [exchanges[i]] == exchanges[..i + 1];
        var account := balances.Get(exchanges[i], quoteAsset);
        keys := keys + {(exchanges[i], quoteAsset)};
        totals := Put(totals, exchanges[i], account.total);
      }
      assert exchanges[..|exchanges|] == exchanges;
    }

    /** The comprehension over the base assets. */
    method BaseStatuses(e: Exchange, baseAssets: seq<string>, ghost before: Ledger, ghost keys: set<Key>)
      returns (base: map<string, Account>)
      requires Looked(before, balances.ledger, keys)
      modifies balances
      ensures base == map asset | asset in baseAssets :: At(before, (e, asset))
      ensures Looked(before, balances.ledger, keys + KeysOf([e], baseAssets))
    {
      hide Touched;
      hide Looked;
      hide At;
      hide KeysOf;
      base := map[];
      NothingLooked(before, config.quoteAsset, baseAssets);
      NoKeys(e);
      ghost var seen := {};
      assert keys + seen == keys;
      for j := 0 to |baseAssets|
        invariant seen == KeysOf([e], baseAssets[..j]) && Looked(before, balances.ledger, keys + seen)
        invariant base == map asset | asset in baseAssets[..j] :: At(before, (e, asset))
      {
        LookOnce(before, balances.ledger, keys + seen, (e, baseAssets[j]));
        KeysGrow([], e, baseAssets[..j], baseAssets[j]);
        assert baseAssets[..j] + [baseAssets[j]] == baseAssets[..j + 1];
        assert keys + seen + {(e, baseAssets[j])} == keys + (seen + {(e, baseAssets[j])});
        var account := balances.Get(e, baseAssets[j]);
        seen := seen + {(e, baseAssets[j])};
        base := base[baseAssets[j] := account];
      }
      assert baseAssets[..|baseAssets|] == baseAssets;
    }

    method RebalanceSignals(exchanges: seq<Exchange>) returns (signals: seq<Signal>)
      modifies balances
      ensures signals == Plan(config, old(balances.ledger), exchanges)
      ensures Looked(old(balances.ledger), balances.ledger, KeysOf(exchanges, [config.quoteAsset]))
    {
      hide Times;
      hide Looked;
      var statuses := TakeSnapshot(exchanges, []);
      assert KeysOf(exchanges, [config.quoteAsset]) + KeysOf(exchanges, []) == KeysOf(exchanges, [config.quoteAsset]);
      var totals: seq<real> := [];
      for i := 0 to |statuses|
        invariant totals == Totals(config, old(balances.ledger), exchanges)[..i]
      {
        assert statuses[i].quote.total == Totals(config, old(balances.ledger), exchanges)[i];
        totals := totals + [statuses[i].quote.total];
      }
      assert totals == Totals(config, old(balances.ledger), exchanges);
      var capital := Sum(totals);
      if capital <= 0.0 {
        return [];
      }
      var over := SortedDescending(OverList(statuses, capital, config.thresholdPct));
      var under := SortedDescending(UnderList(statuses, capital, config.thresholdPct));
      signals := MatchPairs(over, under);
    }

    /** Whether the funds for both legs are there; the second account is looked at only if the first suffices. */
    method CheckDirection(symbol: string, buy: Exchange, sell: Exchange, quantity: real, buyPrice: real)
      returns (r: Availability)
      modifies balances
      ensures r == AvailabilityOf(config.quoteAsset, old(balances.ledger), symbol, buy, sell, quantity, buyPrice)
      ensures Looked(old(balances.ledger), balances.ledger,
                     if r.QuoteShort? then {(buy, config.quoteAsset)}
                     else {(buy, config.quoteAsset), (sell, PaperTrading.BaseOf(symbol))})
    {
      hide Touched;
      hide Looked;
      hide At;
      hide Covers;
      hide Times;
      hide PaperTrading.BaseOf;
      ghost var before := balances.ledger;
      var base, needed := PaperTrading.BaseOf(symbol), Times(quantity, buyPrice);
      var quoteKey, baseKey := (buy, config.quoteAsset), (sell, base);
      NothingLooked(before, config.quoteAsset, []);
      LookOnce(before, balances.ledger, {}, quoteKey);
      assert {} + {quoteKey} == {quoteKey};
      CoversAvailable(before, quoteKey, needed);
      var quoteAvailable := balances.Available(buy, config.quoteAsset);
      if quoteAvailable < needed {
        return QuoteShort;
      }
      LookOnce(before, balances.ledger, {quoteKey}, baseKey);
      assert {quoteKey} + {baseKey} == {quoteKey, baseKey};
      CoversAvailable(before, baseKey, quantity);
      var baseAvailable := balances.Available(sell, base);
      if baseAvailable < quantity {
        return BaseShort;
      }
      return Available;
    }

    /** The two-index loop, which overwrites the current entry of each list with what is left of it. */
    method MatchPairs(initialOver: seq<Entry>, initialUnder: seq<Entry>) returns (signals: seq<Signal>)
      ensures signals == Matched(initialOver, initialUnder, config.quoteAsset)
    {
      hide Matched;
      hide Reduced;
      signals := [];
      var over, under, i, j := initialOver, initialUnder, 0, 0;
      while i < |over| && j < |under|
        invariant 0 <= i <= |over| && 0 <= j <= |under|
        invariant signals + Matched(over[i..], under[j..], config.quoteAsset)
                  == Matched(initialOver, initialUnder, config.quoteAsset)
        decreases |over| - i + |under| - j
      {
        MatchedStep(over[i..], under[j..], config.quoteAsset);
        var excess, deficit := over[i].amount, under[j].amount;
        var amount := Min(excess, deficit);
        ReducedSlice(over, i, amount);
        ReducedSlice(under, j, amount);
        ghost var rest := Matched(Reduced(over[i..], amount), Reduced(under[j..], amount), config.quoteAsset);
        if amount > 0.0 {
          var signal := Signal(config.quoteAsset, over[i].exchange, under[j].exchange, amount);
          assert signals + ([signal] + rest) == signals + [signal] + rest;
          signals := signals + [signal];
        } else {
          assert [] + rest == rest;
        }
        assert signals + rest == Matched(initialOver, initialUnder, config.quoteAsset);
        excess, deficit := excess - amount, deficit - amount;
        over := over[i := Entry(over[i].exchange, excess)];
        under := under[j := Entry(under[j].exchange, deficit)];
        if excess <= 0.0 {
          i := i + 1;
        }
        if deficit <= 0.0 {
          j := j + 1;
        }
      }
      MatchedDone(over[i..], under[j..], config.quoteAsset);
    }
  }

  lemma MatchedStep(over: seq<Entry>, under: seq<Entry>, asset: string)
    requires over != [] && under != []
    ensures var amount := Min(over[0].amount, under[0].amount);
            Matched(over, under, asset) ==
            (if amount > 0.0 then [Signal(asset, over[0].exchange, under[0].exchange, amount)] else []) +
            Matched(Reduced(over, amount), Reduced(under, amount), asset)
  {
  }

  lemma MatchedDone(over: seq<Entry>, under: seq<Entry>, asset: string)
    requires over == [] || under == []
    ensures Matched(over, under, asset) == []
  {
  }

  lemma ReducedSlice(s: seq<Entry>, i: nat, amount: real)
    requires i < |s|
    ensures var left := Entry(s[i].exchange, s[i].amount - amount);
            Reduced(s[i..], amount) == if left.amount <= 0.0 then s[i := left][i + 1..] else s[i := left][i..]
  {
  }
}
