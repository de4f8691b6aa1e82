/** Replaying loaded ticks through the same cache, spread engine and event detector that run live. */
module Backtesting {
  import opened Prelude
  import opened Dicts
  import opened QuoteCaching
  import opened SpreadRows
  import opened SpreadEvents
  import opened EventRuns
  import opened SpreadLaws

  /** A stored one-second quote: the tick's timestamp and the quote (its stored sequence is not used). */
  datatype LoadedRow = LoadedRow(timestamp: int, quote: Quote)

  datatype BacktestParams = BacktestParams(
    symbols: seq<string>,
    fromMs: int,
    threshold: Option<real>,
    minDurationMs: int,
    minQuantity: Option<real>,
    minNotional: Option<real>,
    feeOverrides: seq<(Exchange, real)>)

  datatype Settings = Settings(trading: Trading, spreadThreshold: real, fees: TakerFees, maxTicks: nat)

  datatype BacktestResult = BacktestResult(
    ticksProcessed: nat,
    truncated: bool,
    totalEvents: nat,
    events: seq<ClosedEvent>,
    totalPnl: real,
    averagePnl: Option<real>)

  function TradingOf(settings: Settings, params: BacktestParams): Trading {
    var base := settings.trading;
    Trading(base.marketType, params.symbols, base.maxQuoteAgeMs, base.maxTimestampDiffMs,
            if params.minQuantity.Some? then params.minQuantity.value else base.minQuantity,
            if params.minNotional.Some? then params.minNotional.value else base.minNotional)
  }

  function ThresholdOf(settings: Settings, params: BacktestParams): real {
    if params.threshold.Some? then params.threshold.value else settings.spreadThreshold
  }

  function WithOverrides(fees: TakerFees, overrides: seq<(Exchange, real)>): Result<TakerFees> {
    if overrides == [] then Ok(fees) else
      var front := WithOverrides(fees, overrides[..|overrides| - 1]);
      if front.Raised? then front else
        var last := overrides[|overrides| - 1];
        if last.1 < 0.0 then Raised(NegativeFee) else Ok(front.value[last.0 := last.1])
  }

  // ---- the replay ---------------------------------------------------------

  /** The rows as quotes, numbered from one in load order. */
  function Numbered(rows: seq<LoadedRow>): (r: seq<Quote>)
    ensures |r| == |rows|
    ensures forall i :: 0 <= i < |r| ==> r[i] == rows[i].quote.(sequence := Some(i + 1))
  {
    seq(|rows|, i requires 0 <= i < |rows| =>
      var q: RawQuote := rows[i].quote; var numbered: Quote := q.(sequence := Some(i + 1)); numbered)
  }

  /** A group of rows with one timestamp ends before row `m`. */
  predicate EndsTick(rows: seq<LoadedRow>, m: nat)
    requires 0 < m <= |rows|
  {
    m == |rows| || rows[m].timestamp != rows[m - 1].timestamp
  }

  function TickAfter(rows: seq<LoadedRow>, m: nat, trading: Trading, fees: TakerFees): Result<Tick>
    requires 0 < m <= |rows|
  {
    var now := rows[m - 1].timestamp;
    var slice := Computed(After(Numbered(rows)[..m]), trading, fees, now);
    if slice.Raised? then Raised(slice.error) else Ok(Tick(slice.value, now))
  }

  /** The ticks that end within the first `m` rows. */
  function TicksWithin(rows: seq<LoadedRow>, m: nat, trading: Trading, fees: TakerFees): Result<seq<Tick>>
    requires m <= |rows|
  {
    if m == 0 then Ok([]) else
      var before := TicksWithin(rows, m - 1, trading, fees);
      if before.Raised? || !EndsTick(rows, m) then before else
        var tick := TickAfter(rows, m, trading, fees);
        if tick.Raised? then Raised(tick.error) else Ok(before.value + [tick.value])
  }

  function LastTimestamp(rows: seq<LoadedRow>, fromMs: int): int {
    if rows == [] then fromMs else rows[|rows| - 1].timestamp
  }

  function Qualifying(events: seq<ClosedEvent>, minDurationMs: int): seq<ClosedEvent> {
    if events == [] then [] else
      var last := events[|events| - 1];
      Qualifying(events[..|events| - 1], minDurationMs) + if last.end - last.start >= minDurationMs then [last] else []
  }

  function TotalPnl(events: seq<ClosedEvent>): real {
    if events == [] then 0.0 else TotalPnl(events[..|events| - 1]) + events[|events| - 1].peak.profit
  }

  /** Everything the detector reports over the replayed rows, before the duration filter. */
  function ReplayEvents(settings: Settings, params: BacktestParams, rows: seq<LoadedRow>): Result<seq<ClosedEvent>> {
    var fees := WithOverrides(settings.fees, params.feeOverrides);
    if fees.Raised? then Raised(fees.error) else
      var ticks := TicksWithin(rows, |rows|, TradingOf(settings, params), fees.value);
      if ticks.Raised? then Raised(ticks.error)
      else Ok(Reported(ticks.value, ThresholdOf(settings, params), LastTimestamp(rows, params.fromMs)))
  }

  function Summary(events: seq<ClosedEvent>, ticks: nat, truncated: bool): BacktestResult {
    var pnl := TotalPnl(events);
    BacktestResult(ticks, truncated, |events|, events, pnl,
                   if events == [] then None else Some(pnl / |events| as real))
  }

  function Backtest(settings: Settings, params: BacktestParams, loaded: seq<LoadedRow>): Result<BacktestResult> {
    var truncated := |loaded| > settings.maxTicks;
    var rows := if truncated then loaded[..settings.maxTicks] else loaded;
    var events := ReplayEvents(settings, params, rows);
    if events.Raised? then Raised(events.error)
    else Ok(Summary(Qualifying(events.value, params.minDurationMs), |rows|, truncated))
  }

  lemma {:induction false} TicksRaise(rows: seq<LoadedRow>, k: nat, trading: Trading, fees: TakerFees)
    requires k <= |rows| && TicksWithin(rows, k, trading, fees).Raised?
    ensures TicksWithin(rows, |rows|, trading, fees) == TicksWithin(rows, k, trading, fees)
    decreases |rows| - k
  {
    if k < |rows| {
      TicksRaise(rows, k + 1, trading, fees);
    }
  }

  lemma AfterOneMore(rows: seq<LoadedRow>, i: nat)
    requires i < |rows|
    ensures After(Numbered(rows)[..i + 1]) == Updated(After(Numbered(rows)[..i]), Numbered(rows)[i])
  {
    hide Updated;
    assert Numbered(rows)[..i + 1][..i] == Numbered(rows)[..i];
  }

  lemma TickGoesOn(rows: seq<LoadedRow>, i: nat, trading: Trading, fees: TakerFees)
    requires 0 < i <= |rows| && !EndsTick(rows, i)
    ensures TicksWithin(rows, i, trading, fees) == TicksWithin(rows, i - 1, trading, fees)
  {
  }

  lemma OverridesRaise(fees: TakerFees, overrides: seq<(Exchange, real)>, k: nat)
    requires k <= |overrides| && WithOverrides(fees, overrides[..k]).Raised?
    ensures WithOverrides(fees, overrides) == WithOverrides(fees, overrides[..k])
    decreases |overrides|
  {
    if k == |overrides| {
      assert overrides[..k] == overrides;
    } else {
      assert overrides[..|overrides| - 1][..k] == overrides[..k];
      OverridesRaise(fees, overrides[..|overrides| - 1], k);
    }
  }

  /** Reading one tick more of a list of ticks does not change what was reported before. */
  lemma {:induction false} DetectorReadsPrefix(ticks: seq<Tick>, more: seq<Tick>, threshold: real, n: nat)
    requires n <= |ticks|
    ensures OpenAt(ticks + more, threshold, n) == OpenAt(ticks, threshold, n)
    ensures ClosedAt(ticks + more, threshold, n) == ClosedAt(ticks, threshold, n)
  {
    hide OpenAfterTick;
    hide ClosedByTick;
    if n > 0 {
      DetectorReadsPrefix(ticks, more, threshold, n - 1);
    }
  }

  lemma DetectorReadsOne(ticks: seq<Tick>, tick: Tick, threshold: real)
    ensures var n := |ticks|;
            && OpenAt(ticks + [tick], threshold, n + 1)
               == OpenAfterTick(OpenAt(ticks, threshold, n), tick.rows, threshold, tick.now)
            && ClosedAt(ticks + [tick], threshold, n + 1)
               == ClosedAt(ticks, threshold, n)
                  + ClosedByTick(OpenAt(ticks, threshold, n), tick.rows, threshold, tick.now)
  {
    hide OpenAfterTick;
    hide ClosedByTick;
    DetectorReadsPrefix(ticks, [tick], threshold, |ticks|);
  }

  lemma ReplayStarts(threshold: real)
    ensures OpenAt([], threshold, 0) == [] && ClosedAt([], threshold, 0) == [] && After([]) == []
  {
  }

  class BacktestEngine {
    const settings: Settings

    constructor (settings: Settings)
      ensures this.settings == settings
    {
      this.settings := settings;
    }

    method Run(params: BacktestParams, loaded: seq<LoadedRow>) returns (r: Result<BacktestResult>)
      ensures r == Backtest(settings, params, loaded)
    {
      hide Reported;
      hide TicksWithin;
      hide Qualifying;
      hide TotalPnl;
      hide TradingOf;
      var truncated := |loaded| > settings.maxTicks;
      var rows := if truncated then loaded[..settings.maxTicks] else loaded;
      var cache := new QuoteCache();
      var engine := new SpreadEngine(cache, TradingOf(settings, params), settings.fees);
      var raised := ApplyOverrides(engine, params.feeOverrides);
      if raised.Some? {
        return Raised(raised.value);
      }
      var replayed := Replay(params, rows, cache, engine);
      if replayed.Raised? {
        return Raised(replayed.error);
      }
      var qualifying := Select(replayed.value, params.minDurationMs);
      var total := AddUp(qualifying);
      var average := if qualifying == [] then None else Some(total / |qualifying| as real);
      return Ok(BacktestResult(|rows|, truncated, |qualifying|, qualifying, total, average));
    }

    method ApplyOverrides(engine: SpreadEngine, overrides: seq<(Exchange, real)>) returns (raised: Option<Error>)
      modifies engine
      ensures raised.Some? ==> WithOverrides(old(engine.fees), overrides) == Raised(raised.value)
      ensures raised.None? ==> WithOverrides(old(engine.fees), overrides) == Ok(engine.fees)
    {
      for i := 0 to |overrides|
        invariant WithOverrides(old(engine.fees), overrides[..i]) == Ok(engine.fees)
      {
        assert overrides[..i + 1][..i] == overrides[..i];
        var updated := engine.UpdateTakerFee(overrides[i].0, overrides[i].1);
        if updated.Raised? {
          OverridesRaise(old(engine.fees), overrides, i + 1);
          return Some(updated.error);
        }
      }
      assert overrides[..|overrides|] == overrides;
      return None;
    }

    /** One group of equal timestamps after the other: fill the cache, compute the slice, feed the detector. */
    method Replay(params: BacktestParams, rows: seq<LoadedRow>, cache: QuoteCache, engine: SpreadEngine)
      returns (r: Result<seq<ClosedEvent>>)
      requires cache.quotes == [] && engine.cache == cache
      modifies cache
      ensures var ticks := TicksWithin(rows, |rows|, engine.trading, engine.fees);
              r == if ticks.Raised? then Raised(ticks.error)
                   else Ok(Reported(ticks.value, ThresholdOf(settings, params), LastTimestamp(rows, params.fromMs)))
    {
      hide Computed;
      hide OpenAfterTick;
      hide ClosedByTick;
      hide Updated;
      hide After;
      hide OpenAt;
      hide ClosedAt;
      var threshold := ThresholdOf(settings, params);
      var tracker := new SpreadEventTracker(threshold);
      var closed: seq<ClosedEvent> := [];
      var lastTs := params.fromMs;
      var i := 0;
      ghost var ticks: seq<Tick> := [];
      assert Numbered(rows)[..0] == [];
      ReplayStarts(threshold);
      while i < |rows|
        invariant 0 <= i <= |rows| && tracker.Valid() && tracker.threshold == threshold
        invariant i == 0 || EndsTick(rows, i)
        invariant cache.quotes == After(Numbered(rows)[..i])
        invariant TicksWithin(rows, i, engine.trading, engine.fees) == Ok(ticks)
        invariant tracker.open == OpenAt(ticks, threshold, |ticks|)
        invariant closed == ClosedAt(ticks, threshold, |ticks|)
        invariant lastTs == if i == 0 then params.fromMs else rows[i - 1].timestamp
      {
        var tickTs := rows[i].timestamp;
        i := LoadTick(rows, i, cache, engine.trading, engine.fees);
        var slice := engine.ComputeAll(tickTs);
        if slice.Raised? {
          TicksRaise(rows, i, engine.trading, engine.fees);
          return Raised(slice.error);
        }
        var more := tracker.Process(slice.value, tickTs);
        closed := closed + more;
        DetectorReadsOne(ticks, Tick(slice.value, tickTs), threshold);
        ticks := ticks + [Tick(slice.value, tickTs)];
        lastTs := tickTs;
      }
      var flushed := tracker.FlushOpen(lastTs);
      return Ok(closed + flushed);
    }

    /** The inner loop of the replay: every row of the current timestamp goes to the cache. */
    method LoadTick(rows: seq<LoadedRow>, start: nat, cache: QuoteCache, ghost trading: Trading, ghost fees: TakerFees)
      returns (i: nat)
      requires start < |rows| && cache.quotes == After(Numbered(rows)[..start])
      modifies cache
      ensures start < i <= |rows| && EndsTick(rows, i) && rows[i - 1].timestamp == rows[start].timestamp
      ensures cache.quotes == After(Numbered(rows)[..i])
      ensures TicksWithin(rows, i - 1, trading, fees) == TicksWithin(rows, start, trading, fees)
    {
      hide Updated;
      hide After;
      hide TicksWithin;
      i := start;
      while i < |rows| && rows[i].timestamp == rows[start].timestamp
        invariant start <= i <= |rows|
        invariant i > start ==> rows[i - 1].timestamp == rows[start].timestamp
        invariant cache.quotes == After(Numbered(rows)[..i])
        invariant i > start ==> TicksWithin(rows, i - 1, trading, fees) == TicksWithin(rows, start, trading, fees)
      {
        AfterOneMore(rows, i);
        if i > start {
          TickGoesOn(rows, i, trading, fees);
        }
        var quote: RawQuote := rows[i].quote;
        var ok := cache.Update(quote.(sequence := Some(i + 1)));
        i := i + 1;
      }
    }

    method Select(events: seq<ClosedEvent>, minDurationMs: int) returns (qualifying: seq<ClosedEvent>)
      ensures qualifying == Qualifying(events, minDurationMs)
    {
      qualifying := [];
      for i := 0 to |events|
        invariant qualifying == Qualifying(events[..i], minDurationMs)
      {
        assert events[..i + 1][..i] == events[..i];
        if events[i].end - events[i].start >= minDurationMs {
          qualifying := qualifying + [events[i]];
        }
      }
      assert events[..|events|] == events;
    }

    method AddUp(events: seq<ClosedEvent>) returns (total: real)
      ensures total == TotalPnl(events)
    {
      total := 0.0;
      for i := 0 to |events|
        invariant total == TotalPnl(events[..i])
      {
        assert events[..i + 1][..i] == events[..i];
        total := total + events[i].peak.profit;
      }
      assert events[..|events|] == events;
    }
  }

  // ---- faithful replay ----------------------------------------------------

  /** The cache rejects no row of a replay. */
  lemma ReplayRejectsNothing(rows: seq<LoadedRow>, i: nat)
    requires i < |rows|
    ensures Accepts(Lookup(After(Numbered(rows)[..i]), KeyOf(Numbered(rows)[i])), Numbered(rows)[i])
  {
    var updates, key := Numbered(rows)[..i], KeyOf(Numbered(rows)[i]);
    var w := StoredWins(updates, key);
  }

  /** After the first `m` rows the cache holds, for each key, the last loaded row. */
  lemma ReplayHoldsLastRow(rows: seq<LoadedRow>, m: nat, j: nat)
    requires j < m <= |rows|
    requires forall i :: j < i < m ==> KeyOf(rows[i].quote) != KeyOf(rows[j].quote)
    ensures Lookup(After(Numbered(rows)[..m]), KeyOf(rows[j].quote)) == Some(Numbered(rows)[j])
  {
    var updates := Numbered(rows)[..m];
    assert forall i :: 0 <= i < m ==> KeyOf(updates[i]) == KeyOf(rows[i].quote);
    NewestWinsNumbered(updates, KeyOf(rows[j].quote), j);
  }

  // ---- the detector's theorem, carried over -------------------------------

  /** At the end of the tick that row `m` closes, some quoted direction has a negative fee. */
  ghost predicate FailsAt(rows: seq<LoadedRow>, m: nat, trading: Trading, fees: TakerFees) {
    && 0 < m <= |rows| && EndsTick(rows, m)
    && exists k :: QuotedBelowZero(After(Numbered(rows)[..m]), trading, fees, k)
  }

  lemma {:induction false} TicksRaiseIff(rows: seq<LoadedRow>, m: nat, trading: Trading, fees: TakerFees)
    requires m <= |rows|
    ensures TicksWithin(rows, m, trading, fees).Raised? <==> exists j: nat :: j <= m && FailsAt(rows, j, trading, fees)
  {
    hide FailsAt;
    hide TickAfter;
    if m == 0 {
      NothingFailsAt(rows, trading, fees);
    } else {
      TicksRaiseIff(rows, m - 1, trading, fees);
      TickRaisesIff(rows, m, trading, fees);
    }
  }

  lemma NothingFailsAt(rows: seq<LoadedRow>, trading: Trading, fees: TakerFees)
    ensures !FailsAt(rows, 0, trading, fees)
  {
  }

  lemma TickRaisesIff(rows: seq<LoadedRow>, m: nat, trading: Trading, fees: TakerFees)
    requires 0 < m <= |rows|
    ensures EndsTick(rows, m) && TickAfter(rows, m, trading, fees).Raised? <==> FailsAt(rows, m, trading, fees)
  {
    hide Computed;
    hide QuotedBelowZero;
    hide After;
    RunsKeyed(Numbered(rows)[..m]);
    SliceRaisesIff(After(Numbered(rows)[..m]), trading, fees, rows[m - 1].timestamp);
  }

  lemma {:induction false} OverridesRaiseIff(fees: TakerFees, overrides: seq<(Exchange, real)>)
    ensures WithOverrides(fees, overrides).Raised? <==> exists i :: 0 <= i < |overrides| && overrides[i].1 < 0.0
  {
    if overrides != [] {
      OverridesRaiseIff(fees, overrides[..|overrides| - 1]);
      assert forall i :: 0 <= i < |overrides| - 1 ==> overrides[..|overrides| - 1][i] == overrides[i];
    }
  }

  /** A replay raises exactly on a negative override, or when a tick quotes a direction with a negative fee. */
  lemma ReplayRaisesIff(settings: Settings, params: BacktestParams, rows: seq<LoadedRow>)
    ensures var fees := WithOverrides(settings.fees, params.feeOverrides);
            && (fees.Raised? <==> exists i :: 0 <= i < |params.feeOverrides| && params.feeOverrides[i].1 < 0.0)
            && (ReplayEvents(settings, params, rows).Raised?
                <==> fees.Raised? || exists m: nat :: FailsAt(rows, m, TradingOf(settings, params), fees.value))
  {
    hide Reported;
    hide FailsAt;
    OverridesRaiseIff(settings.fees, params.feeOverrides);
    var fees := WithOverrides(settings.fees, params.feeOverrides);
    if fees.Ok? {
      var trading := TradingOf(settings, params);
      TicksRaiseIff(rows, |rows|, trading, fees.value);
      if m: nat :| FailsAt(rows, m, trading, fees.value) {
        FailsWithin(rows, m, trading, fees.value);
      }
    }
  }

  lemma FailsWithin(rows: seq<LoadedRow>, m: nat, trading: Trading, fees: TakerFees)
    requires FailsAt(rows, m, trading, fees)
    ensures m <= |rows|
  {
  }

  /** How often the detector sees each active direction of a symbol per tick. */
  function CopiesOf(symbols: seq<string>, s: string): Positive {
    if Listings(symbols, s) == 0 then 1 else Listings(symbols, s)
  }

  lemma {:induction false} TicksEven(rows: seq<LoadedRow>, m: nat, trading: Trading, fees: TakerFees, k: Direction)
    requires m <= |rows| && TicksWithin(rows, m, trading, fees).Ok?
    ensures Even(TicksWithin(rows, m, trading, fees).value, k, CopiesOf(trading.symbols, k.0))
  {
    hide TickAfter;
    hide CopiesOf;
    hide EvenRows;
    if m > 0 {
      TicksEven(rows, m - 1, trading, fees, k);
      if EndsTick(rows, m) {
        TickEven(rows, m, trading, fees, k);
      }
    }
  }

  lemma TickEven(rows: seq<LoadedRow>, m: nat, trading: Trading, fees: TakerFees, k: Direction)
    requires 0 < m <= |rows| && TickAfter(rows, m, trading, fees).Ok?
    ensures EvenRows(TickAfter(rows, m, trading, fees).value.rows, k, CopiesOf(trading.symbols, k.0))
  {
    hide Computed;
    hide Agree;
    hide Copies;
    hide Listings;
    hide Quoted;
    hide After;
    RunsKeyed(Numbered(rows)[..m]);
    SliceIsExact(After(Numbered(rows)[..m]), trading, fees, rows[m - 1].timestamp, k);
  }

  /** A backtest's events are, per direction, the maximal runs of the replayed ticks. */
  lemma BacktestFindsMaximalRuns(settings: Settings, params: BacktestParams, rows: seq<LoadedRow>, k: Direction)
    requires ReplayEvents(settings, params, rows).Ok?
    ensures WithOverrides(settings.fees, params.feeOverrides).Ok?
    ensures var trading, threshold := TradingOf(settings, params), ThresholdOf(settings, params);
            var fees := WithOverrides(settings.fees, params.feeOverrides).value;
            && TicksWithin(rows, |rows|, trading, fees).Ok?
            && var ticks := TicksWithin(rows, |rows|, trading, fees).value;
               var runs := RunsOf(ticks, k, threshold);
               && (forall i :: 0 <= i < |runs| ==> AllActive(ticks, k, threshold, runs[i].start, runs[i].end))
               && ForDirection(ReplayEvents(settings, params, rows).value, k)
                  == EventsOf(ticks, k, threshold, LastTimestamp(rows, params.fromMs), runs)
  {
    hide Reported;
    hide ForDirection;
    hide RunsOf;
    hide TicksWithin;
    hide ActiveAt;
    var trading, fees := TradingOf(settings, params), WithOverrides(settings.fees, params.feeOverrides).value;
    TicksEven(rows, |rows|, trading, fees, k);
    ReportedAreMaximalRuns(TicksWithin(rows, |rows|, trading, fees).value, k, ThresholdOf(settings, params),
                           LastTimestamp(rows, params.fromMs), CopiesOf(trading.symbols, k.0));
  }

  // ---- profits and the duration filter ------------------------------------

  ghost predicate RowsGood(rows: seq<SpreadRow>, threshold: real) {
    forall i :: 0 <= i < |rows| && IsActive(rows[i], threshold) ==> rows[i].expectedNetProfit >= 0.0
  }

  ghost predicate OpenGood(open: Open) {
    forall i :: 0 <= i < |open| ==> open[i].value.peak.profit >= 0.0
  }

  ghost predicate ClosedGood(closed: seq<ClosedEvent>) {
    forall i :: 0 <= i < |closed| ==> closed[i].peak.profit >= 0.0
  }

  lemma {:induction false} RemovedItems(open: Open, k: Direction)
    ensures forall i :: 0 <= i < |Removed(open, k)| ==> Removed(open, k)[i] in open
  {
    if open != [] && open[0].key != k {
      RemovedItems(open[1..], k);
      assert forall x :: x in open[1..] ==> x in open;
    }
  }

  lemma {:induction false} RowsKeepGood(open: Open, rows: seq<SpreadRow>, threshold: real, now: int)
    requires OpenGood(open) && RowsGood(rows, threshold)
    ensures OpenGood(OpenAfterRows(open, rows, threshold, now))
    ensures ClosedGood(ClosedByRows(open, rows, threshold, now))
  {
    hide HasKey;
    if rows != [] {
      var n := |rows| - 1;
      RowsKeepGood(open, rows[..n], threshold, now);
      var before, row := OpenAfterRows(open, rows[..n], threshold, now), rows[n];
      var found := Find(before, row.Direction());
      PutItems(before, row.Direction(), Started(row, now));
      RemovedItems(before, row.Direction());
      if found.Some? {
        PutItems(before, row.Direction(), Extended(found.value, row));
      }
    }
  }

  lemma {:induction false} SweepKeepsGood(open: Open, seen: set<Direction>, threshold: real, now: int)
    requires OpenGood(open)
    ensures OpenGood(Swept(open, seen)) && ClosedGood(ClosedBySweep(open, seen, threshold, now))
  {
    if open != [] {
      SweepKeepsGood(open[..|open| - 1], seen, threshold, now);
    }
  }

  lemma {:induction false} FlushKeepsGood(open: Open, threshold: real, now: int)
    requires OpenGood(open)
    ensures ClosedGood(Flushed(open, threshold, now))
  {
    if open != [] {
      FlushKeepsGood(open[..|open| - 1], threshold, now);
    }
  }

  lemma {:induction false} DetectorKeepsGood(ticks: seq<Tick>, threshold: real, n: nat)
    requires n <= |ticks| && forall i :: 0 <= i < |ticks| ==> RowsGood(ticks[i].rows, threshold)
    ensures OpenGood(OpenAt(ticks, threshold, n)) && ClosedGood(ClosedAt(ticks, threshold, n))
  {
    hide OpenAfterRows;
    hide ClosedByRows;
    hide Swept;
    hide ClosedBySweep;
    hide RowsGood;
    if n > 0 {
      DetectorKeepsGood(ticks, threshold, n - 1);
      var open, t := OpenAt(ticks, threshold, n - 1), ticks[n - 1];
      RowsKeepGood(open, t.rows, threshold, t.now);
      SweepKeepsGood(OpenAfterRows(open, t.rows, threshold, t.now), SeenIn(t.rows), threshold, t.now);
    }
  }

  lemma {:induction false} RowsOfGood(pairs: seq<(Quote, Quote)>, trading: Trading, fees: TakerFees, now: int,
                                      threshold: real)
    requires threshold >= 0.0
    requires forall i :: 0 <= i < |pairs| ==> PairHasFees(pairs[i], fees)
    requires RowsOf(pairs, trading, fees, now).Ok?
    ensures RowsGood(RowsOf(pairs, trading, fees, now).value, threshold)
  {
    hide ComputePair;
    if pairs != [] {
      var n := |pairs| - 1;
      RowsOfGood(pairs[..n], trading, fees, now, threshold);
      assert PairHasFees(pairs[n], fees);
      var row := ComputePair(trading, fees, pairs[n].0, pairs[n].1, now);
      if IsActive(row.value, threshold) {
        ActiveProfitNonNegative(trading, fees, pairs[n].0, pairs[n].1, now, threshold);
      }
    }
  }

  lemma {:induction false} TicksGood(rows: seq<LoadedRow>, m: nat, trading: Trading, fees: TakerFees, threshold: real)
    requires m <= |rows| && threshold >= 0.0 && TicksWithin(rows, m, trading, fees).Ok?
    ensures forall i :: 0 <= i < |TicksWithin(rows, m, trading, fees).value| ==>
              RowsGood(TicksWithin(rows, m, trading, fees).value[i].rows, threshold)
  {
    hide RowsGood;
    hide RowsOf;
    hide AllPairs;
    if m > 0 {
      TicksGood(rows, m - 1, trading, fees, threshold);
      if EndsTick(rows, m) {
        var cache, n := After(Numbered(rows)[..m]), |trading.symbols|;
        AllPairsHaveFees(cache, trading, fees, n);
        RowsOfGood(AllPairs(cache, trading, fees, n), trading, fees, rows[m - 1].timestamp, threshold);
      }
    }
  }

  /** With a non-negative threshold no reported event promises a loss. */
  lemma EventsPromiseNoLoss(settings: Settings, params: BacktestParams, rows: seq<LoadedRow>)
    requires ThresholdOf(settings, params) >= 0.0 && ReplayEvents(settings, params, rows).Ok?
    ensures ClosedGood(ReplayEvents(settings, params, rows).value)
  {
    hide RowsGood;
    hide TicksWithin;
    hide OpenAt;
    hide ClosedAt;
    hide Flushed;
    var fees, threshold := WithOverrides(settings.fees, params.feeOverrides).value, ThresholdOf(settings, params);
    var ticks := TicksWithin(rows, |rows|, TradingOf(settings, params), fees).value;
    TicksGood(rows, |rows|, TradingOf(settings, params), fees, threshold);
    DetectorKeepsGood(ticks, threshold, |ticks|);
    FlushKeepsGood(OpenAt(ticks, threshold, |ticks|), threshold, LastTimestamp(rows, params.fromMs));
  }

  lemma {:induction false} LongerFilterKeepsLess(events: seq<ClosedEvent>, short: int, long: int)
    requires ClosedGood(events) && short <= long
    ensures |Qualifying(events, long)| <= |Qualifying(events, short)|
    ensures TotalPnl(Qualifying(events, long)) <= TotalPnl(Qualifying(events, short))
  {
    if events != [] {
      var n := |events| - 1;
      LongerFilterKeepsLess(events[..n], short, long);
      TotalPnlAppend(Qualifying(events[..n], short), events[n]);
      TotalPnlAppend(Qualifying(events[..n], long), events[n]);
      assert Qualifying(events[..n], short) + [] == Qualifying(events[..n], short);
      assert Qualifying(events[..n], long) + [] == Qualifying(events[..n], long);
    }
  }

  lemma TotalPnlAppend(events: seq<ClosedEvent>, e: ClosedEvent)
    ensures TotalPnl(events + [e]) == TotalPnl(events) + e.peak.profit
  {
    assert (events + [e])[..|events|] == events;
  }

  /** Raising the minimum duration never raises the number of events or the simulated profit. */
  lemma LongerDurationNeverHelps(settings: Settings, params: BacktestParams, loaded: seq<LoadedRow>, minDurationMs: int)
    requires ThresholdOf(settings, params) >= 0.0 && params.minDurationMs <= minDurationMs
    requires Backtest(settings, params, loaded).Ok?
    ensures var stricter := Backtest(settings, params.(minDurationMs := minDurationMs), loaded);
            var base := Backtest(settings, params, loaded);
            && stricter.Ok?
            && stricter.value.totalEvents <= base.value.totalEvents
            && stricter.value.totalPnl <= base.value.totalPnl
  {
    hide Reported;
    hide TicksWithin;
    hide Qualifying;
    hide TotalPnl;
    var rows := if |loaded| > settings.maxTicks then loaded[..settings.maxTicks] else loaded;
    EventsPromiseNoLoss(settings, params, rows);
    LongerFilterKeepsLess(ReplayEvents(settings, params, rows).value, params.minDurationMs, minDurationMs);
  }
}
