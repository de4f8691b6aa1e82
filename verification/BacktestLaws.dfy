/** What a backtest reports: which ticks it replays, which events it keeps, and what overrides mean. */
module BacktestLaws {
  import opened Prelude
  import opened QuoteCaching
  import opened SpreadRows
  import opened SpreadEvents
  import opened EventRuns
  import opened Backtesting

  // ---- the filter and the totals ------------------------------------------

  predicate Lasted(e: ClosedEvent, minDurationMs: int) {
    e.end - e.start >= minDurationMs
  }

  /** An event is kept as often as it was reported if it lasted long enough, and not at all otherwise. */
  lemma {:induction false} KeptExactly(events: seq<ClosedEvent>, minDurationMs: int, e: ClosedEvent)
    ensures multiset(Qualifying(events, minDurationMs))[e]
            == if Lasted(e, minDurationMs) then multiset(events)[e] else 0
  {
    if events != [] {
      var n := |events| - 1;
      KeptExactly(events[..n], minDurationMs, e);
      assert events == events[..n] + [events[n]];
    }
  }

  /** Keeping goes through the events in order. */
  lemma {:induction false} KeptInOrder(a: seq<ClosedEvent>, b: seq<ClosedEvent>, minDurationMs: int)
    ensures Qualifying(a + b, minDurationMs) == Qualifying(a, minDurationMs) + Qualifying(b, minDurationMs)
  {
    if b == [] {
      assert a + b == a;
    } else {
      assert (a + b)[..|a + b| - 1] == a + b[..|b| - 1];
      KeptInOrder(a, b[..|b| - 1], minDurationMs);
    }
  }

  function Profits(events: seq<ClosedEvent>): (r: seq<real>)
    ensures |r| == |events| && forall i :: 0 <= i < |r| ==> r[i] == events[i].peak.profit
  {
    seq(|events|, i requires 0 <= i < |events| => events[i].peak.profit)
  }

  /** The total is the sum of the profits at the peaks. */
  lemma {:induction false} TotalIsSum(events: seq<ClosedEvent>)
    ensures TotalPnl(events) == Sum(Profits(events))
  {
    if events != [] {
      var n := |events| - 1;
      TotalIsSum(events[..n]);
      SumAppend(Profits(events[..n]), events[n].peak.profit);
      assert Profits(events) == Profits(events[..n]) + [events[n].peak.profit];
    }
  }

  /** The rows that a run replays: the loaded ones, up to the limit. */
  function Replayed(settings: Settings, loaded: seq<LoadedRow>): (r: seq<LoadedRow>)
    ensures r <= loaded && |r| == if |loaded| <= settings.maxTicks then |loaded| else settings.maxTicks
  {
    if |loaded| <= settings.maxTicks then loaded else loaded[..settings.maxTicks]
  }

  /**
   * A result holds exactly the reported events that lasted long enough, in order, with their count, sum and mean; and a
   * run raises exactly when its replay does.
   */
  lemma ResultMeans(settings: Settings, params: BacktestParams, loaded: seq<LoadedRow>)
    ensures var events := ReplayEvents(settings, params, Replayed(settings, loaded));
            var result := Backtest(settings, params, loaded);
            && (result.Raised? <==> events.Raised?)
            && (result.Raised? ==> result.error == events.error)
            && (result.Ok? ==>
                  var r := result.value;
                  && r.ticksProcessed == |Replayed(settings, loaded)|
                  && (r.truncated <==> |loaded| > settings.maxTicks)
                  && r.totalEvents == |r.events| && r.totalPnl == Sum(Profits(r.events))
                  && (r.averagePnl.Some? <==> r.totalEvents > 0)
                  && (r.averagePnl.Some? ==> r.averagePnl.value * r.totalEvents as real == r.totalPnl)
                  && r.events == Qualifying(events.value, params.minDurationMs)
                  && forall e :: multiset(r.events)[e]
                                 == if Lasted(e, params.minDurationMs) then multiset(events.value)[e] else 0)
  {
    hide ReplayEvents;
    hide Qualifying;
    hide TotalPnl;
    var events := ReplayEvents(settings, params, Replayed(settings, loaded));
    if events.Ok? {
      var kept := Qualifying(events.value, params.minDurationMs);
      TotalIsSum(kept);
      if kept != [] {
        MeanTimesCount(TotalPnl(kept), |kept|);
      }
      forall e
        ensures multiset(kept)[e] == if Lasted(e, params.minDurationMs) then multiset(events.value)[e] else 0
      {
        KeptExactly(events.value, params.minDurationMs, e);
      }
    }
  }

  lemma MeanTimesCount(total: real, count: nat)
    requires count > 0
    ensures total / count as real * count as real == total
  {
  }

  // ---- the ticks are the groups of equal timestamps -----------------------

  /** Rows [a, b) are one group: one timestamp, and another one on either side. */
  ghost predicate IsGroup(rows: seq<LoadedRow>, a: nat, b: nat) {
    && a < b <= |rows|
    && (forall i :: a <= i < b ==> rows[i].timestamp == rows[a].timestamp)
    && (a > 0 ==> rows[a - 1].timestamp != rows[a].timestamp)
    && (b < |rows| ==> rows[b].timestamp != rows[a].timestamp)
  }

  /** Tick `t` is what a group's end makes of all the rows up to it. */
  ghost predicate TickOf(rows: seq<LoadedRow>, a: nat, b: nat, trading: Trading, fees: TakerFees, t: Tick) {
    && IsGroup(rows, a, b) && t.now == rows[a].timestamp
    && Computed(After(Numbered(rows)[..b]), trading, fees, t.now) == Ok(t.rows)
  }

  /** The bounds cut the first `m` rows into groups, one for each tick, in order. */
  ghost predicate Cuts(rows: seq<LoadedRow>, m: nat, trading: Trading, fees: TakerFees, ticks: seq<Tick>,
                       bounds: seq<nat>)
  {
    && |bounds| == |ticks| + 1 && bounds[0] == 0 && bounds[|ticks|] == m
    && forall j :: 0 <= j < |ticks| ==> TickOf(rows, bounds[j], bounds[j + 1], trading, fees, ticks[j])
  }

  /** The start of the group that row `m - 1` belongs to. */
  function GroupStart(rows: seq<LoadedRow>, m: nat): (a: nat)
    requires 0 < m <= |rows|
    ensures a < m && (a == 0 || EndsTick(rows, a))
    ensures forall i :: a <= i < m ==> rows[i].timestamp == rows[m - 1].timestamp
    ensures a > 0 ==> rows[a - 1].timestamp != rows[a].timestamp
  {
    if m == 1 || rows[m - 2].timestamp != rows[m - 1].timestamp then m - 1 else GroupStart(rows, m - 1)
  }

  lemma {:induction false} NoTickInside(rows: seq<LoadedRow>, a: nat, m: nat, trading: Trading, fees: TakerFees)
    requires a <= m < |rows| && forall i :: a <= i <= m ==> rows[i].timestamp == rows[a].timestamp
    ensures TicksWithin(rows, m, trading, fees) == TicksWithin(rows, a, trading, fees)
    decreases m - a
  {
    hide TickAfter;
    if a < m {
      NoTickInside(rows, a, m - 1, trading, fees);
      assert !EndsTick(rows, m);
    }
  }

  /** Up to the end of any group, the replayed ticks are exactly the groups of equal timestamps, in order. */
  lemma {:induction false} TicksAreGroups(rows: seq<LoadedRow>, m: nat, trading: Trading, fees: TakerFees)
    returns (bounds: seq<nat>)
    requires m <= |rows| && (m > 0 ==> EndsTick(rows, m))
    requires TicksWithin(rows, m, trading, fees).Ok?
    ensures Cuts(rows, m, trading, fees, TicksWithin(rows, m, trading, fees).value, bounds)
    decreases m
  {
    hide TicksWithin;
    hide TickAfter;
    hide TickOf;
    hide EndsTick;
    if m == 0 {
      NoTicksYet(rows, trading, fees);
      bounds := [0];
    } else {
      var a := GroupStart(rows, m);
      GroupMakesTick(rows, a, m, trading, fees);
      var before := TicksAreGroups(rows, a, trading, fees);
      bounds := before + [m];
      CutsExtend(rows, a, m, trading, fees, TicksWithin(rows, a, trading, fees).value,
                 TickAfter(rows, m, trading, fees).value, before);
    }
  }

  lemma NoTicksYet(rows: seq<LoadedRow>, trading: Trading, fees: TakerFees)
    ensures TicksWithin(rows, 0, trading, fees) == Ok([])
  {
  }

  lemma GroupMakesTick(rows: seq<LoadedRow>, a: nat, m: nat, trading: Trading, fees: TakerFees)
    requires 0 < m <= |rows| && EndsTick(rows, m) && a == GroupStart(rows, m)
    requires TicksWithin(rows, m, trading, fees).Ok?
    ensures TicksWithin(rows, a, trading, fees).Ok? && TickAfter(rows, m, trading, fees).Ok?
    ensures TicksWithin(rows, m, trading, fees).value
            == TicksWithin(rows, a, trading, fees).value + [TickAfter(rows, m, trading, fees).value]
    ensures TickOf(rows, a, m, trading, fees, TickAfter(rows, m, trading, fees).value)
  {
    hide TickAfter;
    hide TicksWithin;
    hide TickOf;
    hide EndsTick;
    hide GroupStart;
    NoTickInside(rows, a, m - 1, trading, fees);
    EndOfTick(rows, m, trading, fees);
    LastTickIs(rows, a, m, trading, fees);
  }

  lemma EndOfTick(rows: seq<LoadedRow>, m: nat, trading: Trading, fees: TakerFees)
    requires 0 < m <= |rows| && EndsTick(rows, m)
    ensures var before, tick := TicksWithin(rows, m - 1, trading, fees), TickAfter(rows, m, trading, fees);
            TicksWithin(rows, m, trading, fees)
            == if before.Raised? then before else if tick.Raised? then Raised(tick.error)
               else Ok(before.value + [tick.value])
  {
    hide TickAfter;
  }

  lemma CutsExtend(rows: seq<LoadedRow>, a: nat, m: nat, trading: Trading, fees: TakerFees, ticks: seq<Tick>, t: Tick,
                   bounds: seq<nat>)
    requires Cuts(rows, a, trading, fees, ticks, bounds) && TickOf(rows, a, m, trading, fees, t)
    ensures Cuts(rows, m, trading, fees, ticks + [t], bounds + [m])
  {
    hide TickOf;
    forall j | 0 <= j <= |ticks|
      ensures TickOf(rows, (bounds + [m])[j], (bounds + [m])[j + 1], trading, fees, (ticks + [t])[j])
    {
      if j < |ticks| {
        assert TickOf(rows, bounds[j], bounds[j + 1], trading, fees, ticks[j]);
      }
    }
  }

  lemma LastTickIs(rows: seq<LoadedRow>, a: nat, m: nat, trading: Trading, fees: TakerFees)
    requires 0 < m <= |rows| && EndsTick(rows, m) && a == GroupStart(rows, m)
    requires TickAfter(rows, m, trading, fees).Ok?
    ensures TickOf(rows, a, m, trading, fees, TickAfter(rows, m, trading, fees).value)
  {
    hide Computed;
    hide After;
  }

  /** What is still open at the end is flushed at the last tick's time. */
  lemma FlushTime(rows: seq<LoadedRow>, fromMs: int, trading: Trading, fees: TakerFees)
    requires TicksWithin(rows, |rows|, trading, fees).Ok?
    ensures var ticks := TicksWithin(rows, |rows|, trading, fees).value;
            LastTimestamp(rows, fromMs) == if ticks == [] then fromMs else ticks[|ticks| - 1].now
  {
    hide Computed;
    if rows != [] {
      assert EndsTick(rows, |rows|);
    }
  }

  // ---- overrides ----------------------------------------------------------

  /** The settings as they would be if the overrides were configured. */
  function Configured(settings: Settings, params: BacktestParams): Settings {
    var trading := settings.trading;
    settings.(
      trading := trading.(
        symbols := params.symbols,
        minQuantity := if params.minQuantity.Some? then params.minQuantity.value else trading.minQuantity,
        minNotional := if params.minNotional.Some? then params.minNotional.value else trading.minNotional),
      spreadThreshold := if params.threshold.Some? then params.threshold.value else settings.spreadThreshold)
  }

  function Plain(params: BacktestParams): BacktestParams {
    params.(minQuantity := None, minNotional := None, threshold := None)
  }

  /** Overriding a setting for one run is the same as configuring it. */
  lemma OverridesAreSettings(settings: Settings, params: BacktestParams, loaded: seq<LoadedRow>)
    ensures TradingOf(settings, params) == Configured(settings, params).trading
    ensures ThresholdOf(settings, params) == Configured(settings, params).spreadThreshold
    ensures Backtest(settings, params, loaded) == Backtest(Configured(settings, params), Plain(params), loaded)
  {
    hide TicksWithin;
    hide Reported;
    hide Qualifying;
    assert TradingOf(settings, params) == TradingOf(Configured(settings, params), Plain(params));
    assert ThresholdOf(settings, params) == ThresholdOf(Configured(settings, params), Plain(params));
  }

  /** The last override of an exchange, if any. */
  function LastOverride(overrides: seq<(Exchange, real)>, e: Exchange): Option<real> {
    if overrides == [] then None
    else if overrides[|overrides| - 1].0 == e then Some(overrides[|overrides| - 1].1)
    else LastOverride(overrides[..|overrides| - 1], e)
  }

  /** Each exchange's fee is its last override, or else the configured one; no other exchange gets a fee. */
  lemma {:induction false} FeeAfterOverrides(fees: TakerFees, overrides: seq<(Exchange, real)>, e: Exchange)
    requires WithOverrides(fees, overrides).Ok?
    ensures var after, own := WithOverrides(fees, overrides).value, LastOverride(overrides, e);
            && (e in after <==> own.Some? || e in fees)
            && (own.Some? ==> after[e] == own.value)
            && (own.None? && e in fees ==> after[e] == fees[e])
  {
    if overrides != [] {
      FeeAfterOverrides(fees, overrides[..|overrides| - 1], e);
    }
  }
}
