/** The online detector finds, for every direction, exactly the maximal runs of ticks at or above the threshold. */
module EventRuns {
  import opened Prelude
  import opened Dicts
  import opened QuoteCaching
  import opened SpreadRows
  import opened SpreadEvents

  datatype Tick = Tick(rows: seq<SpreadRow>, now: int)

  // ---- one tick, seen from one direction ----------------------------------

  /** All rows of the direction are the same row. */
  ghost predicate Agree(rows: seq<SpreadRow>, k: Direction) {
    forall i, j :: 0 <= i < j < |rows| && rows[i].Direction() == k == rows[j].Direction() ==> rows[i] == rows[j]
  }

  /** How often a tick shows the direction: a symbol configured twice shows each of its directions twice. */
  function Copies(rows: seq<SpreadRow>, k: Direction): nat {
    if rows == [] then 0 else
      Copies(rows[..|rows| - 1], k) + if rows[|rows| - 1].Direction() == k then 1 else 0
  }

  function RowFor(rows: seq<SpreadRow>, k: Direction): (r: Option<SpreadRow>)
    ensures r.Some? ==> r.value in rows && r.value.Direction() == k
    ensures r.None? ==> forall i :: 0 <= i < |rows| ==> rows[i].Direction() != k
  {
    if rows == [] then None else
      var last := rows[|rows| - 1];
      assert rows == rows[..|rows| - 1] + [last];
      if last.Direction() == k then Some(last) else RowFor(rows[..|rows| - 1], k)
  }

  /** The row that keeps (or makes) the direction active in this tick, if there is one. */
  function ActiveRow(rows: seq<SpreadRow>, k: Direction, threshold: real): (r: Option<SpreadRow>)
    ensures r.Some? ==> r.value.Direction() == k && r.value in rows && IsActive(r.value, threshold)
  {
    var row := RowFor(rows, k);
    if row.Some? && IsActive(row.value, threshold) then row else None
  }

  function ForDirection(closed: seq<ClosedEvent>, k: Direction): seq<ClosedEvent> {
    if closed == [] then [] else
      var last := closed[|closed| - 1];
      ForDirection(closed[..|closed| - 1], k) + if last.direction == k then [last] else []
  }

  lemma {:induction false} ForDirectionConcat(a: seq<ClosedEvent>, b: seq<ClosedEvent>, k: Direction)
    ensures ForDirection(a + b, k) == ForDirection(a, k) + ForDirection(b, k)
  {
    if b == [] {
      assert a + b == a;
    } else {
      assert (a + b)[..|a + b| - 1] == a + b[..|b| - 1];
      ForDirectionConcat(a, b[..|b| - 1], k);
    }
  }

  lemma ForDirectionOne(e: ClosedEvent, k: Direction)
    ensures ForDirection([e], k) == if e.direction == k then [e] else []
  {
    assert [e][..0] == [];
  }

  /** Every open event sits under its own direction. */
  ghost predicate Filed(open: Open) {
    && UniqueKeys(open)
    && forall i :: 0 <= i < |open| ==> open[i].value.direction == open[i].key
  }

  /** The event after seeing the same active row `n` more times. */
  function Repeated(e: OpenEvent, row: SpreadRow, n: nat): OpenEvent {
    if n == 0 then e else Extended(Repeated(e, row, n - 1), row)
  }

  /** What an active row, shown `copies` times, or its absence makes of the direction's event. */
  function NextOpen(e: Option<OpenEvent>, row: Option<SpreadRow>, copies: nat, now: int): Option<OpenEvent> {
    if row.None? || copies == 0 then None
    else if e.None? then Some(Repeated(Started(row.value, now), row.value, copies - 1))
    else Some(Repeated(e.value, row.value, copies))
  }

  lemma RepeatedLittle(e: OpenEvent, row: SpreadRow)
    ensures Repeated(e, row, 0) == e && Repeated(e, row, 1) == Extended(e, row)
  {
    assert Repeated(e, row, 0) == e;
  }

  lemma {:induction false} RepeatedSums(e: OpenEvent, row: SpreadRow, n: nat)
    ensures Repeated(e, row, n)
            == e.(samples := e.samples + n, spreadSum := e.spreadSum + Times(n as real, NetOf(row)),
                  maxNet := if n > 0 && NetOf(row) > e.maxNet then NetOf(row) else e.maxNet,
                  peak := if n > 0 && NetOf(row) > e.maxNet then PeakOf(row) else e.peak)
  {
    hide Times;
    if n == 0 {
      TimesZero(NetOf(row));
    } else {
      RepeatedSums(e, row, n - 1);
      TimesSum((n - 1) as real, 1.0, NetOf(row));
      TimesUnit(NetOf(row));
      assert (n - 1) as real + 1.0 == n as real;
    }
  }

  lemma FoundIsFiled(open: Open, k: Direction)
    requires Filed(open) && Find(open, k).Some?
    ensures Find(open, k).value.direction == k
  {
  }

  lemma {:induction false} PutFiled(open: Open, k: Direction, e: OpenEvent)
    requires Filed(open) && e.direction == k
    ensures Filed(Put(open, k, e))
  {
    hide HasKey;
    PutKeys(open, k, e);
    PutItems(open, k, e);
  }

  lemma RowFiled(open: Open, row: SpreadRow, threshold: real, now: int)
    requires Filed(open)
    ensures Filed(OpenAfterRow(open, row, threshold, now))
  {
    hide Find;
    hide Put;
    hide Removed;
    hide Filed;
    var key := row.Direction();
    if Find(open, key).None? {
      PutFiled(open, key, Started(row, now));
    } else {
      FoundIsFiled(open, key);
      PutFiled(open, key, Extended(Find(open, key).value, row));
      RemovedFiled(open, key);
    }
  }

  lemma RemovedFiled(open: Open, k: Direction)
    requires Filed(open)
    ensures Filed(Removed(open, k))
  {
    RemovedKeys(open, k);
  }

  /** A row moves its own direction and no other. */
  lemma RowAt(open: Open, row: SpreadRow, threshold: real, now: int, k: Direction)
    requires Filed(open)
    ensures Find(OpenAfterRow(open, row, threshold, now), k)
            == if row.Direction() == k
               then NextOpen(Find(open, k), if IsActive(row, threshold) then Some(row) else None, 1, now)
               else Find(open, k)
    ensures ForDirection(ClosedByRow(open, row, threshold, now), k)
            == if row.Direction() == k && !IsActive(row, threshold) && Find(open, k).Some?
               then [Closed(Find(open, k).value, now, threshold)] else []
  {
    hide HasKey;
    var key := row.Direction();
    RepeatedLittle(Started(row, now), row);
    FindPut(open, key, Started(row, now), k);
    FindRemoved(open, key, k);
    if Find(open, key).Some? {
      var e := Find(open, key).value;
      RepeatedLittle(e, row);
      FindPut(open, key, Extended(e, row), k);
      FoundIsFiled(open, key);
      ForDirectionOne(Closed(e, now, threshold), k);
    }
  }

  /** One more copy of the row that the direction has just seen. */
  lemma OneMoreCopy(e: Option<OpenEvent>, row: Option<SpreadRow>, copies: nat, now: int)
    requires copies > 0
    ensures NextOpen(NextOpen(e, row, copies, now), row, 1, now) == NextOpen(e, row, copies + 1, now)
  {
    if row.Some? {
      RepeatedLittle(NextOpen(e, row, copies, now).value, row.value);
    }
  }

  lemma AgreePrefix(rows: seq<SpreadRow>, k: Direction)
    requires rows != [] && Agree(rows, k)
    ensures var n := |rows| - 1;
            && Agree(rows[..n], k)
            && (rows[n].Direction() == k && RowFor(rows[..n], k).Some? ==> RowFor(rows[..n], k) == Some(rows[n]))
  {
    var n := |rows| - 1;
    if rows[n].Direction() == k && RowFor(rows[..n], k).Some? {
      var i :| 0 <= i < n && rows[..n][i] == RowFor(rows[..n], k).value;
      assert rows[i] == rows[n];
    }
  }

  lemma {:induction false} OpenRowsAt(open: Open, rows: seq<SpreadRow>, threshold: real, now: int, k: Direction)
    requires Filed(open) && Agree(rows, k)
    ensures Filed(OpenAfterRows(open, rows, threshold, now))
    ensures Copies(rows, k) > 0 <==> RowFor(rows, k).Some?
    ensures Find(OpenAfterRows(open, rows, threshold, now), k)
            == if RowFor(rows, k).Some?
               then NextOpen(Find(open, k), ActiveRow(rows, k, threshold), Copies(rows, k), now)
               else Find(open, k)
  {
    hide Find;
    hide OpenAfterRow;
    hide ClosedByRow;
    hide Filed;
    hide Agree;
    hide Repeated;
    hide IsActive;
    hide ForDirection;
    hide Started;
    if rows != [] {
      var n := |rows| - 1;
      var front, row := rows[..n], rows[n];
      AgreePrefix(rows, k);
      OpenRowsAt(open, front, threshold, now, k);
      var before := OpenAfterRows(open, front, threshold, now);
      RowFiled(before, row, threshold, now);
      RowAt(before, row, threshold, now, k);
      if row.Direction() == k && RowFor(front, k).Some? {
        OneMoreCopy(Find(open, k), ActiveRow(rows, k, threshold), Copies(front, k), now);
      }
    }
  }

  lemma {:induction false} ClosedRowsAt(open: Open, rows: seq<SpreadRow>, threshold: real, now: int, k: Direction)
    requires Filed(open) && Agree(rows, k)
    ensures ForDirection(ClosedByRows(open, rows, threshold, now), k)
            == if RowFor(rows, k).Some? && ActiveRow(rows, k, threshold).None? && Find(open, k).Some?
               then [Closed(Find(open, k).value, now, threshold)] else []
  {
    hide Find;
    hide OpenAfterRows;
    hide OpenAfterRow;
    hide ClosedByRow;
    hide Filed;
    hide Agree;
    hide Copies;
    hide Repeated;
    hide IsActive;
    hide ForDirection;
    hide Closed;
    hide Started;
    ForDirectionNone(k);
    if rows != [] {
      var n := |rows| - 1;
      var front, row := rows[..n], rows[n];
      AgreePrefix(rows, k);
      ClosedRowsAt(open, front, threshold, now, k);
      OpenRowsAt(open, front, threshold, now, k);
      var before := OpenAfterRows(open, front, threshold, now);
      RowAt(before, row, threshold, now, k);
      ForDirectionConcat(ClosedByRows(open, front, threshold, now), ClosedByRow(before, row, threshold, now), k);
    }
  }

  lemma {:induction false} SweptFinds(open: Open, seen: set<Direction>, k: Direction)
    requires UniqueKeys(open)
    ensures Find(Swept(open, seen), k) == if k in seen then Find(open, k) else None
  {
    hide Find;
    if open == [] {
      FindAbsent([], k);
    } else {
      var n := |open| - 1;
      var front, last := open[..n], open[n];
      SweptFinds(front, seen, k);
      FindAppend(front, last, k);
      assert front + [last] == open;
      if last.key in seen {
        FindAppend(Swept(front, seen), last, k);
      } else {
        assert Swept(open, seen) == Swept(front, seen);
        FindAbsent(front, last.key);
      }
    }
  }

  lemma {:induction false} SweepCloses(open: Open, seen: set<Direction>, threshold: real, now: int, k: Direction)
    requires Filed(open)
    ensures ForDirection(ClosedBySweep(open, seen, threshold, now), k)
            == if k !in seen && Find(open, k).Some? then [Closed(Find(open, k).value, now, threshold)] else []
  {
    hide Find;
    hide ForDirection;
    if open == [] {
      FindAbsent([], k);
      ForDirectionNone(k);
    } else {
      var n := |open| - 1;
      var front, last := open[..n], open[n];
      SweepCloses(front, seen, threshold, now, k);
      FindAppend(front, last, k);
      assert front + [last] == open;
      FindAbsent(front, last.key);
      var closed := Closed(last.value, now, threshold);
      ForDirectionConcat(ClosedBySweep(front, seen, threshold, now), if last.key in seen then [] else [closed], k);
      ForDirectionOne(closed, k);
      ForDirectionNone(k);
    }
  }

  lemma ForDirectionNone(k: Direction)
    ensures ForDirection([], k) == []
  {
  }

  lemma SweptAt(open: Open, seen: set<Direction>, threshold: real, now: int, k: Direction)
    requires Filed(open)
    ensures Filed(Swept(open, seen))
    ensures Find(Swept(open, seen), k) == if k in seen then Find(open, k) else None
    ensures ForDirection(ClosedBySweep(open, seen, threshold, now), k)
            == if k !in seen && Find(open, k).Some? then [Closed(Find(open, k).value, now, threshold)] else []
  {
    hide Find;
    hide ForDirection;
    SweptKeys(open, seen);
    SweptFinds(open, seen, k);
    SweepCloses(open, seen, threshold, now, k);
  }

  lemma {:induction false} FindAppend(open: Open, x: Item<Direction, OpenEvent>, k: Direction)
    ensures Find(open + [x], k)
            == if Find(open, k).Some? then Find(open, k) else if x.key == k then Some(x.value) else None
  {
    hide HasKey;
    if open == [] {
      assert open + [x] == [x];
      FindTail([x], k);
      assert [x][1..] == [];
    } else {
      FindTail(open + [x], k);
      FindTail(open, k);
      assert (open + [x])[1..] == open[1..] + [x];
      FindAppend(open[1..], x, k);
    }
  }

  lemma FindAbsent(open: Open, k: Direction)
    requires forall i :: 0 <= i < |open| ==> open[i].key != k
    ensures Find(open, k) == None
  {
    FindNone(open, k);
  }

  /** One tick moves each direction like a two-state automaton: open exactly while active. */
  lemma TickAt(open: Open, rows: seq<SpreadRow>, threshold: real, now: int, k: Direction)
    requires Filed(open) && Agree(rows, k)
    ensures Filed(OpenAfterTick(open, rows, threshold, now))
    ensures Find(OpenAfterTick(open, rows, threshold, now), k)
            == NextOpen(Find(open, k), ActiveRow(rows, k, threshold), Copies(rows, k), now)
    ensures ActiveRow(rows, k, threshold).Some? ==> Copies(rows, k) > 0
    ensures ForDirection(ClosedByTick(open, rows, threshold, now), k)
            == if ActiveRow(rows, k, threshold).None? && Find(open, k).Some?
               then [Closed(Find(open, k).value, now, threshold)] else []
  {
    hide Find;
    hide Filed;
    hide OpenAfterRows;
    hide ClosedByRows;
    hide Swept;
    hide ClosedBySweep;
    hide ForDirection;
    OpenRowsAt(open, rows, threshold, now, k);
    ClosedRowsAt(open, rows, threshold, now, k);
    var after := OpenAfterRows(open, rows, threshold, now);
    SweptAt(after, SeenIn(rows), threshold, now, k);
    ForDirectionConcat(ClosedByRows(open, rows, threshold, now),
                       ClosedBySweep(after, SeenIn(rows), threshold, now), k);
    assert k in SeenIn(rows) <==> RowFor(rows, k).Some?;
  }

  // ---- the declarative side: maximal runs ---------------------------------

  function ActiveAt(ticks: seq<Tick>, k: Direction, threshold: real, i: nat): Option<SpreadRow>
    requires i < |ticks|
  {
    ActiveRow(ticks[i].rows, k, threshold)
  }

  ghost predicate AllActive(ticks: seq<Tick>, k: Direction, threshold: real, a: nat, b: nat) {
    a < b <= |ticks| && forall i :: a <= i < b ==> ActiveAt(ticks, k, threshold, i).Some?
  }

  /** Ticks [a, b) are active, and the run cannot be extended on either side. */
  ghost predicate MaximalRun(ticks: seq<Tick>, k: Direction, threshold: real, a: nat, b: nat) {
    && AllActive(ticks, k, threshold, a, b)
    && (a > 0 ==> ActiveAt(ticks, k, threshold, a - 1).None?)
    && (b < |ticks| ==> ActiveAt(ticks, k, threshold, b).None?)
  }

  /** The ticks [start, end). */
  datatype Span = Span(start: nat, end: nat)

  ghost function NetAt(ticks: seq<Tick>, k: Direction, threshold: real, i: nat): real
    requires i < |ticks| && ActiveAt(ticks, k, threshold, i).Some?
  {
    ActiveAt(ticks, k, threshold, i).value.netSpreadPct / 100.0
  }

  ghost function NetSum(ticks: seq<Tick>, k: Direction, threshold: real, a: nat, b: nat): real
    requires AllActive(ticks, k, threshold, a, b)
    decreases b
  {
    NetAt(ticks, k, threshold, b - 1) + if b == a + 1 then 0.0 else NetSum(ticks, k, threshold, a, b - 1)
  }

  /** The first tick of the run at which the net spread is highest. */
  ghost function FirstPeak(ticks: seq<Tick>, k: Direction, threshold: real, a: nat, b: nat): (m: nat)
    requires AllActive(ticks, k, threshold, a, b)
    ensures a <= m < b
    ensures forall i :: a <= i < b ==> NetAt(ticks, k, threshold, i) <= NetAt(ticks, k, threshold, m)
    ensures forall i :: a <= i < m ==> NetAt(ticks, k, threshold, i) < NetAt(ticks, k, threshold, m)
    decreases b
  {
    if b == a + 1 then a else
      var m := FirstPeak(ticks, k, threshold, a, b - 1);
      if NetAt(ticks, k, threshold, b - 1) > NetAt(ticks, k, threshold, m) then b - 1 else m
  }

  /** What the row promised at its best. */
  ghost function PromiseAt(ticks: seq<Tick>, k: Direction, threshold: real, i: nat): Peak
    requires i < |ticks| && ActiveAt(ticks, k, threshold, i).Some?
  {
    var row := ActiveAt(ticks, k, threshold, i).value;
    Peak(row.quantity, row.notional, row.expectedNetProfit)
  }

  /** What should be reported for the run [a, b). */
  ghost function RunEvent(ticks: seq<Tick>, k: Direction, threshold: real, flushNow: int, a: nat, b: nat): ClosedEvent
    requires AllActive(ticks, k, threshold, a, b)
  {
    var first := ActiveAt(ticks, k, threshold, a).value;
    var m := FirstPeak(ticks, k, threshold, a, b);
    ClosedEvent(ticks[a].now, if b < |ticks| then ticks[b].now else flushNow, k, first.marketType,
                NetAt(ticks, k, threshold, a), NetAt(ticks, k, threshold, m),
                NetSum(ticks, k, threshold, a, b) / (b - a) as real,
                PromiseAt(ticks, k, threshold, m), threshold, first.calculationVersion)
  }

  /** A run's average lies between the threshold and the run's maximum. */
  lemma {:induction false} NetSumBounds(ticks: seq<Tick>, k: Direction, threshold: real, a: nat, b: nat, hi: real)
    requires AllActive(ticks, k, threshold, a, b)
    requires forall i :: a <= i < b ==> NetAt(ticks, k, threshold, i) <= hi
    ensures Times((b - a) as real, threshold) <= NetSum(ticks, k, threshold, a, b) <= Times((b - a) as real, hi)
    decreases b
  {
    hide Times;
    TimesUnit(threshold);
    TimesUnit(hi);
    if b > a + 1 {
      NetSumBounds(ticks, k, threshold, a, b - 1, hi);
      TimesSum((b - 1 - a) as real, 1.0, threshold);
      TimesSum((b - 1 - a) as real, 1.0, hi);
      assert (b - 1 - a) as real + 1.0 == (b - a) as real;
    } else {
      assert (b - a) as real == 1.0;
    }
  }

  lemma AverageBetween(ticks: seq<Tick>, k: Direction, threshold: real, flushNow: int, a: nat, b: nat)
    requires AllActive(ticks, k, threshold, a, b)
    ensures var e := RunEvent(ticks, k, threshold, flushNow, a, b);
            threshold <= e.averageNet <= e.maxNet && threshold <= e.startNet
  {
    hide Times;
    var m := FirstPeak(ticks, k, threshold, a, b);
    NetSumBounds(ticks, k, threshold, a, b, NetAt(ticks, k, threshold, m));
    QuotientBetween(NetSum(ticks, k, threshold, a, b), (b - a) as real, threshold, NetAt(ticks, k, threshold, m));
  }

  // ---- the detector -------------------------------------------------------

  function OpenAt(ticks: seq<Tick>, threshold: real, n: nat): Open
    requires n <= |ticks|
  {
    if n == 0 then []
    else OpenAfterTick(OpenAt(ticks, threshold, n - 1), ticks[n - 1].rows, threshold, ticks[n - 1].now)
  }

  function ClosedAt(ticks: seq<Tick>, threshold: real, n: nat): seq<ClosedEvent>
    requires n <= |ticks|
  {
    if n == 0 then []
    else ClosedAt(ticks, threshold, n - 1)
         + ClosedByTick(OpenAt(ticks, threshold, n - 1), ticks[n - 1].rows, threshold, ticks[n - 1].now)
  }

  /** Everything reported: the events closed along the way, then those still open when the detector is flushed. */
  function Reported(ticks: seq<Tick>, threshold: real, flushNow: int): seq<ClosedEvent> {
    ClosedAt(ticks, threshold, |ticks|) + Flushed(OpenAt(ticks, threshold, |ticks|), threshold, flushNow)
  }

  /** Every tick that shows the direction shows the same row, `copies` times. */
  ghost predicate Even(ticks: seq<Tick>, k: Direction, copies: Positive) {
    forall i :: 0 <= i < |ticks| ==> EvenRows(ticks[i].rows, k, copies)
  }

  ghost predicate EvenRows(rows: seq<SpreadRow>, k: Direction, copies: Positive) {
    Agree(rows, k) && (Copies(rows, k) == 0 || Copies(rows, k) == copies)
  }

  /** The first tick of the run that is still going after `n` ticks. */
  function RunStart(ticks: seq<Tick>, k: Direction, threshold: real, n: nat): (r: Option<nat>)
    requires n <= |ticks|
    ensures r.Some? ==> AllActive(ticks, k, threshold, r.value, n)
    ensures r.Some? && r.value > 0 ==> ActiveAt(ticks, k, threshold, r.value - 1).None?
    ensures r.None? <==> n == 0 || ActiveAt(ticks, k, threshold, n - 1).None?
  {
    if n == 0 || ActiveAt(ticks, k, threshold, n - 1).None? then None
    else if RunStart(ticks, k, threshold, n - 1).Some? then RunStart(ticks, k, threshold, n - 1)
    else Some(n - 1)
  }

  /** The runs that ended within the first `n` ticks, in order. */
  function EndedRuns(ticks: seq<Tick>, k: Direction, threshold: real, n: nat): seq<Span>
    requires n <= |ticks|
  {
    if n == 0 then [] else
      var start := RunStart(ticks, k, threshold, n - 1);
      EndedRuns(ticks, k, threshold, n - 1)
      + if start.Some? && ActiveAt(ticks, k, threshold, n - 1).None? then [Span(start.value, n - 1)] else []
  }

  function RunsOf(ticks: seq<Tick>, k: Direction, threshold: real): seq<Span> {
    EndedRuns(ticks, k, threshold, |ticks|)
    + var start := RunStart(ticks, k, threshold, |ticks|); if start.Some? then [Span(start.value, |ticks|)] else []
  }

  lemma {:induction false} EndedRunsExact(ticks: seq<Tick>, k: Direction, threshold: real, n: nat)
    requires n <= |ticks|
    ensures forall r: Span ::
              r in EndedRuns(ticks, k, threshold, n) <==> r.end < n && MaximalRun(ticks, k, threshold, r.start, r.end)
    ensures forall i, j :: 0 <= i < j < |EndedRuns(ticks, k, threshold, n)| ==>
              EndedRuns(ticks, k, threshold, n)[i].end < EndedRuns(ticks, k, threshold, n)[j].start
  {
    hide ActiveAt;
    if n > 0 {
      EndedRunsExact(ticks, k, threshold, n - 1);
      var before, start := EndedRuns(ticks, k, threshold, n - 1), RunStart(ticks, k, threshold, n - 1);
      if start.Some? && ActiveAt(ticks, k, threshold, n - 1).None? {
        assert MaximalRun(ticks, k, threshold, start.value, n - 1);
        forall i | 0 <= i < |before|
          ensures before[i].end < start.value
        {
          assert before[i] in before;
          RunsApart(ticks, k, threshold, before[i].start, before[i].end, start.value, n - 1);
        }
      }
      forall r: Span | r.end == n - 1 && MaximalRun(ticks, k, threshold, r.start, r.end)
        ensures r in EndedRuns(ticks, k, threshold, n)
      {
        assert ActiveAt(ticks, k, threshold, n - 2).Some?;
        RunsUnique(ticks, k, threshold, r.start, start.value, n - 1);
      }
    }
  }

  lemma RunsApart(ticks: seq<Tick>, k: Direction, threshold: real, a: nat, b: nat, c: nat, d: nat)
    requires MaximalRun(ticks, k, threshold, a, b) && AllActive(ticks, k, threshold, c, d) && b < d
    requires c > 0 ==> ActiveAt(ticks, k, threshold, c - 1).None?
    ensures b < c
  {
    hide ActiveAt;
    assert ActiveAt(ticks, k, threshold, b).None?;
  }

  lemma RunsUnique(ticks: seq<Tick>, k: Direction, threshold: real, a: nat, c: nat, b: nat)
    requires MaximalRun(ticks, k, threshold, a, b) && AllActive(ticks, k, threshold, c, b)
    requires c > 0 ==> ActiveAt(ticks, k, threshold, c - 1).None?
    ensures a == c
  {
    hide ActiveAt;
  }

  /** The list of runs is exactly the maximal runs, each once, in time order. */
  lemma RunsOfExact(ticks: seq<Tick>, k: Direction, threshold: real)
    ensures forall r: Span :: r in RunsOf(ticks, k, threshold) <==> MaximalRun(ticks, k, threshold, r.start, r.end)
    ensures forall i, j :: 0 <= i < j < |RunsOf(ticks, k, threshold)| ==>
              RunsOf(ticks, k, threshold)[i].end < RunsOf(ticks, k, threshold)[j].start
  {
    hide ActiveAt;
    hide EndedRuns;
    var n := |ticks|;
    EndedRunsExact(ticks, k, threshold, n);
    var ended, start := EndedRuns(ticks, k, threshold, n), RunStart(ticks, k, threshold, n);
    if start.Some? {
      assert MaximalRun(ticks, k, threshold, start.value, n);
      forall i | 0 <= i < |ended|
        ensures ended[i].end < start.value
      {
        assert ended[i] in ended;
        RunsApart(ticks, k, threshold, ended[i].start, ended[i].end, start.value, n);
      }
    }
    forall r: Span | r.end == n && MaximalRun(ticks, k, threshold, r.start, r.end)
      ensures r in RunsOf(ticks, k, threshold)
    {
      assert ActiveAt(ticks, k, threshold, n - 1).Some?;
      RunsUnique(ticks, k, threshold, r.start, start.value, n);
    }
  }

  // ---- the refinement -----------------------------------------------------

  /** The accumulator of a run [a, b) as the declarative side sees it. */
  ghost function RunState(ticks: seq<Tick>, k: Direction, threshold: real, copies: Positive, a: nat, b: nat): OpenEvent
    requires AllActive(ticks, k, threshold, a, b)
  {
    var first := ActiveAt(ticks, k, threshold, a).value;
    var m := FirstPeak(ticks, k, threshold, a, b);
    OpenEvent(ticks[a].now, k, first.marketType, NetAt(ticks, k, threshold, a), NetAt(ticks, k, threshold, m),
              Times(copies as real, NetSum(ticks, k, threshold, a, b)), Samples(copies, b - a),
              PromiseAt(ticks, k, threshold, m), first.calculationVersion)
  }

  function Samples(copies: Positive, ticks: Positive): (n: Positive)
    ensures n as real == copies as real * ticks as real
  {
    copies * ticks
  }

  lemma RunStateStarts(ticks: seq<Tick>, k: Direction, threshold: real, copies: Positive, a: nat)
    requires AllActive(ticks, k, threshold, a, a + 1)
    ensures var row := ActiveAt(ticks, k, threshold, a).value;
            RunState(ticks, k, threshold, copies, a, a + 1) == Repeated(Started(row, ticks[a].now), row, copies - 1)
  {
    hide ActiveRow;
    hide Times;
    var row := ActiveAt(ticks, k, threshold, a).value;
    RepeatedSums(Started(row, ticks[a].now), row, copies - 1);
    TimesSum((copies - 1) as real, 1.0, NetOf(row));
    TimesUnit(NetOf(row));
    assert (copies - 1) as real + 1.0 == copies as real;
  }

  lemma RunStateExtends(ticks: seq<Tick>, k: Direction, threshold: real, copies: Positive, a: nat, b: nat)
    requires AllActive(ticks, k, threshold, a, b + 1) && a < b
    ensures var row := ActiveAt(ticks, k, threshold, b).value;
            RunState(ticks, k, threshold, copies, a, b + 1)
            == Repeated(RunState(ticks, k, threshold, copies, a, b), row, copies)
  {
    hide ActiveRow;
    hide Times;
    var row := ActiveAt(ticks, k, threshold, b).value;
    RepeatedSums(RunState(ticks, k, threshold, copies, a, b), row, copies);
    TimesSum(NetSum(ticks, k, threshold, a, b), NetOf(row), copies as real);
    TimesSwap(copies as real, NetSum(ticks, k, threshold, a, b));
    TimesSwap(copies as real, NetOf(row));
    assert copies * (b + 1 - a) == copies * (b - a) + copies;
  }

  ghost function StateAfter(ticks: seq<Tick>, k: Direction, threshold: real, copies: Positive,
                            n: nat): Option<OpenEvent>
    requires n <= |ticks|
  {
    var start := RunStart(ticks, k, threshold, n);
    if start.Some? then Some(RunState(ticks, k, threshold, copies, start.value, n)) else None
  }

  /** The events of a list of finished runs. */
  ghost function EventsOf(ticks: seq<Tick>, k: Direction, threshold: real, flushNow: int,
                          runs: seq<Span>): seq<ClosedEvent>
    requires forall i :: 0 <= i < |runs| ==> AllActive(ticks, k, threshold, runs[i].start, runs[i].end)
  {
    seq(|runs|, i requires 0 <= i < |runs| => RunEvent(ticks, k, threshold, flushNow, runs[i].start, runs[i].end))
  }

  lemma {:induction false} EndedRunsActive(ticks: seq<Tick>, k: Direction, threshold: real, n: nat)
    requires n <= |ticks|
    ensures forall i :: 0 <= i < |EndedRuns(ticks, k, threshold, n)| ==>
              var r := EndedRuns(ticks, k, threshold, n)[i]; r.end < n && AllActive(ticks, k, threshold, r.start, r.end)
  {
    if n > 0 {
      EndedRunsActive(ticks, k, threshold, n - 1);
    }
  }

  lemma OpenFollowsRun(ticks: seq<Tick>, k: Direction, threshold: real, copies: Positive, n: nat)
    requires 0 < n <= |ticks|
    ensures StateAfter(ticks, k, threshold, copies, n)
            == NextOpen(StateAfter(ticks, k, threshold, copies, n - 1), ActiveAt(ticks, k, threshold, n - 1), copies,
                        ticks[n - 1].now)
  {
    hide RunState;
    hide Started;
    hide Repeated;
    hide ActiveAt;
    if ActiveAt(ticks, k, threshold, n - 1).Some? {
      var start := RunStart(ticks, k, threshold, n - 1);
      if start.Some? {
        RunStateExtends(ticks, k, threshold, copies, start.value, n - 1);
      } else {
        RunStateStarts(ticks, k, threshold, copies, n - 1);
      }
    }
  }

  lemma {:induction false} OpenFollowsRuns(ticks: seq<Tick>, k: Direction, threshold: real, copies: Positive, n: nat)
    requires Even(ticks, k, copies) && n <= |ticks|
    ensures Filed(OpenAt(ticks, threshold, n))
    ensures Find(OpenAt(ticks, threshold, n), k) == StateAfter(ticks, k, threshold, copies, n)
  {
    hide Find;
    hide OpenAfterTick;
    hide ClosedByTick;
    hide Repeated;
    hide ForDirection;
    hide ActiveRow;
    hide FirstPeak;
    hide Filed;
    hide RunState;
    if n == 0 {
      EmptyDetector(k);
    } else {
      OpenFollowsRuns(ticks, k, threshold, copies, n - 1);
      var t := ticks[n - 1];
      TickAt(OpenAt(ticks, threshold, n - 1), t.rows, threshold, t.now, k);
      OpenFollowsRun(ticks, k, threshold, copies, n);
    }
  }

  lemma {:induction false} DetectorFollowsRuns(ticks: seq<Tick>, k: Direction, threshold: real, flushNow: int,
                                               copies: Positive, n: nat)
    requires Even(ticks, k, copies) && n <= |ticks|
    ensures forall i :: 0 <= i < |EndedRuns(ticks, k, threshold, n)| ==>
              var r := EndedRuns(ticks, k, threshold, n)[i]; r.end < n && AllActive(ticks, k, threshold, r.start, r.end)
    ensures ForDirection(ClosedAt(ticks, threshold, n), k)
            == EventsOf(ticks, k, threshold, flushNow, EndedRuns(ticks, k, threshold, n))
  {
    hide Find;
    hide OpenAt;
    hide OpenAfterTick;
    hide ClosedByTick;
    hide NextOpen;
    hide ForDirection;
    hide ActiveRow;
    hide RunEvent;
    hide RunState;
    hide FirstPeak;
    hide Filed;
    hide Even;
    hide Closed;
    EndedRunsActive(ticks, k, threshold, n);
    if n == 0 {
      EmptyDetector(k);
    } else {
      DetectorFollowsRuns(ticks, k, threshold, flushNow, copies, n - 1);
      var open, t := OpenAt(ticks, threshold, n - 1), ticks[n - 1];
      OpenFollowsRuns(ticks, k, threshold, copies, n - 1);
      EvenAt(ticks, k, copies, n - 1);
      TickAt(open, t.rows, threshold, t.now, k);
      ForDirectionConcat(ClosedAt(ticks, threshold, n - 1), ClosedByTick(open, t.rows, threshold, t.now), k);
      ClosingRun(ticks, k, threshold, flushNow, copies, n);
      EndedRunsActive(ticks, k, threshold, n - 1);
      var start := RunStart(ticks, k, threshold, n - 1);
      if start.Some? && ActiveAt(ticks, k, threshold, n - 1).None? {
        EventsOfAppend(ticks, k, threshold, flushNow, EndedRuns(ticks, k, threshold, n - 1), Span(start.value, n - 1));
      } else {
        assert EndedRuns(ticks, k, threshold, n) == EndedRuns(ticks, k, threshold, n - 1);
      }
    }
  }

  lemma EventsOfAppend(ticks: seq<Tick>, k: Direction, threshold: real, flushNow: int, runs: seq<Span>, r: Span)
    requires forall i :: 0 <= i < |runs| ==> AllActive(ticks, k, threshold, runs[i].start, runs[i].end)
    requires AllActive(ticks, k, threshold, r.start, r.end)
    ensures EventsOf(ticks, k, threshold, flushNow, runs + [r])
            == EventsOf(ticks, k, threshold, flushNow, runs) + [RunEvent(ticks, k, threshold, flushNow, r.start, r.end)]
  {
    hide RunEvent;
    hide AllActive;
  }

  lemma EvenAt(ticks: seq<Tick>, k: Direction, copies: Positive, i: nat)
    requires Even(ticks, k, copies) && i < |ticks|
    ensures Agree(ticks[i].rows, k)
  {
  }

  lemma EmptyDetector(k: Direction)
    ensures var none: Open := []; Filed(none) && Find(none, k) == None && ForDirection([], k) == []
  {
  }

  /** The event that a run's end produces is the run's declarative event. */
  lemma ClosingRun(ticks: seq<Tick>, k: Direction, threshold: real, flushNow: int, copies: Positive, n: nat)
    requires 0 < n <= |ticks|
    ensures var start := RunStart(ticks, k, threshold, n - 1);
            start.Some? && ActiveAt(ticks, k, threshold, n - 1).None? ==>
              Closed(StateAfter(ticks, k, threshold, copies, n - 1).value, ticks[n - 1].now, threshold)
              == RunEvent(ticks, k, threshold, flushNow, start.value, n - 1)
  {
    hide ActiveAt;
    var start := RunStart(ticks, k, threshold, n - 1);
    if start.Some? {
      RunAverage(ticks, k, threshold, copies, start.value, n - 1);
    }
  }

  /** Counting every tick `copies` times does not change the average. */
  lemma RunAverage(ticks: seq<Tick>, k: Direction, threshold: real, copies: Positive, a: nat, b: nat)
    requires AllActive(ticks, k, threshold, a, b)
    ensures var e := RunState(ticks, k, threshold, copies, a, b);
            e.spreadSum / e.samples as real == NetSum(ticks, k, threshold, a, b) / (b - a) as real
  {
    hide ActiveAt;
    hide FirstPeak;
    hide NetSum;
    hide Times;
    CommonFactor(copies as real, NetSum(ticks, k, threshold, a, b), (b - a) as real);
  }

  lemma CommonFactor(c: real, x: real, n: real)
    requires c > 0.0 && n > 0.0
    ensures c * n != 0.0 && Times(c, x) / (c * n) == x / n
  {
    var y := x / n;
    assert y * n == x;
    assert c * x == y * (c * n);
  }

  lemma {:induction false} FlushCloses(open: Open, threshold: real, now: int, k: Direction)
    requires Filed(open)
    ensures ForDirection(Flushed(open, threshold, now), k)
            == if Find(open, k).Some? then [Closed(Find(open, k).value, now, threshold)] else []
  {
    hide Find;
    hide ForDirection;
    if open == [] {
      EmptyDetector(k);
    } else {
      var n := |open| - 1;
      var front, last := open[..n], open[n];
      FlushCloses(front, threshold, now, k);
      FindAppend(front, last, k);
      assert front + [last] == open;
      FindAbsent(front, last.key);
      ForDirectionConcat(Flushed(front, threshold, now), [Closed(last.value, now, threshold)], k);
      ForDirectionOne(Closed(last.value, now, threshold), k);
    }
  }

  /** For every direction, what is reported is exactly its maximal runs, in order, each with its declarative event. */
  lemma ReportedAreMaximalRuns(ticks: seq<Tick>, k: Direction, threshold: real, flushNow: int, copies: Positive)
    requires Even(ticks, k, copies)
    ensures forall i :: 0 <= i < |RunsOf(ticks, k, threshold)| ==>
              AllActive(ticks, k, threshold, RunsOf(ticks, k, threshold)[i].start, RunsOf(ticks, k, threshold)[i].end)
    ensures ForDirection(Reported(ticks, threshold, flushNow), k)
            == EventsOf(ticks, k, threshold, flushNow, RunsOf(ticks, k, threshold))
  {
    hide Find;
    hide ForDirection;
    hide OpenAt;
    hide ClosedAt;
    hide EndedRuns;
    hide ActiveAt;
    hide FirstPeak;
    hide NetSum;
    var n := |ticks|;
    DetectorFollowsRuns(ticks, k, threshold, flushNow, copies, n);
    OpenFollowsRuns(ticks, k, threshold, copies, n);
    if RunStart(ticks, k, threshold, n).Some? {
      RunAverage(ticks, k, threshold, copies, RunStart(ticks, k, threshold, n).value, n);
    }
    FlushCloses(OpenAt(ticks, threshold, n), threshold, flushNow, k);
    ForDirectionConcat(ClosedAt(ticks, threshold, n), Flushed(OpenAt(ticks, threshold, n), threshold, flushNow), k);
  }

  /** After every tick, the open directions are exactly the ones active in it. */
  lemma OpenIffActive(ticks: seq<Tick>, k: Direction, threshold: real, copies: Positive, n: nat)
    requires Even(ticks, k, copies) && 0 < n <= |ticks|
    ensures HasKey(OpenAt(ticks, threshold, n), k) <==> ActiveRow(ticks[n - 1].rows, k, threshold).Some?
  {
    hide OpenAt;
    hide ActiveRow;
    OpenFollowsRuns(ticks, k, threshold, copies, n);
  }
}
