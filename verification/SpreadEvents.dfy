/** The detector of spread events: an event is open while its direction stays at or above the threshold. */
module SpreadEvents {
  import opened Prelude
  import opened Dicts
  import opened QuoteCaching
  import opened SpreadRows

  type Positive = n: int | n > 0 witness 1

  datatype Peak = Peak(quantity: real, notional: real, profit: real)

  datatype OpenEvent = OpenEvent(
    start: int,
    direction: Direction,
    marketType: MarketType,
    startNet: real,
    maxNet: real,
    spreadSum: real,
    samples: Positive,
    peak: Peak,
    calculationVersion: int)

  datatype ClosedEvent = ClosedEvent(
    start: int,
    end: int,
    direction: Direction,
    marketType: MarketType,
    startNet: real,
    maxNet: real,
    averageNet: real,
    peak: Peak,
    threshold: real,
    calculationVersion: int)

  type Open = Dict<Direction, OpenEvent>

  function NetOf(row: SpreadRow): real {
    row.netSpreadPct / 100.0
  }

  predicate IsActive(row: SpreadRow, threshold: real) {
    row.valid && NetOf(row) >= threshold
  }

  function PeakOf(row: SpreadRow): Peak {
    Peak(row.quantity, row.notional, row.expectedNetProfit)
  }

  function Started(row: SpreadRow, now: int): OpenEvent {
    OpenEvent(now, row.Direction(), row.marketType, NetOf(row), NetOf(row), NetOf(row), 1, PeakOf(row),
              row.calculationVersion)
  }

  function Extended(e: OpenEvent, row: SpreadRow): OpenEvent {
    var counted := e.(samples := e.samples + 1, spreadSum := e.spreadSum + NetOf(row));
    if NetOf(row) > e.maxNet then counted.(maxNet := NetOf(row), peak := PeakOf(row)) else counted
  }

  function Closed(e: OpenEvent, end: int, threshold: real): ClosedEvent {
    ClosedEvent(e.start, end, e.direction, e.marketType, e.startNet, e.maxNet, e.spreadSum / e.samples as real,
                e.peak, threshold, e.calculationVersion)
  }

  // ---- one tick -----------------------------------------------------------

  function OpenAfterRow(open: Open, row: SpreadRow, threshold: real, now: int): Open {
    var key := row.Direction();
    match Find(open, key)
    case None => if IsActive(row, threshold) then Put(open, key, Started(row, now)) else open
    case Some(e) => if IsActive(row, threshold) then Put(open, key, Extended(e, row)) else Removed(open, key)
  }

  function ClosedByRow(open: Open, row: SpreadRow, threshold: real, now: int): seq<ClosedEvent> {
    match Find(open, row.Direction())
    case None => []
    case Some(e) => if IsActive(row, threshold) then [] else [Closed(e, now, threshold)]
  }

  function OpenAfterRows(open: Open, rows: seq<SpreadRow>, threshold: real, now: int): Open {
    if rows == [] then open
    else OpenAfterRow(OpenAfterRows(open, rows[..|rows| - 1], threshold, now), rows[|rows| - 1], threshold, now)
  }

  function ClosedByRows(open: Open, rows: seq<SpreadRow>, threshold: real, now: int): seq<ClosedEvent> {
    if rows == [] then [] else
      var front := rows[..|rows| - 1];
      ClosedByRows(open, front, threshold, now)
      + ClosedByRow(OpenAfterRows(open, front, threshold, now), rows[|rows| - 1], threshold, now)
  }

  /** Directions that vanished from the tick are closed too. */
  function Swept(open: Open, seen: set<Direction>): Open {
    if open == [] then [] else
      var last := open[|open| - 1];
      Swept(open[..|open| - 1], seen) + if last.key in seen then [last] else []
  }

  function ClosedBySweep(open: Open, seen: set<Direction>, threshold: real, now: int): seq<ClosedEvent> {
    if open == [] then [] else
      var last := open[|open| - 1];
      ClosedBySweep(open[..|open| - 1], seen, threshold, now)
      + if last.key in seen then [] else [Closed(last.value, now, threshold)]
  }

  function SeenIn(rows: seq<SpreadRow>): set<Direction> {
    set row | row in rows :: row.Direction()
  }

  function OpenAfterTick(open: Open, rows: seq<SpreadRow>, threshold: real, now: int): Open {
    Swept(OpenAfterRows(open, rows, threshold, now), SeenIn(rows))
  }

  function ClosedByTick(open: Open, rows: seq<SpreadRow>, threshold: real, now: int): seq<ClosedEvent> {
    ClosedByRows(open, rows, threshold, now)
    + ClosedBySweep(OpenAfterRows(open, rows, threshold, now), SeenIn(rows), threshold, now)
  }

  lemma {:induction false} RowsKeepUniqueKeys(open: Open, rows: seq<SpreadRow>, threshold: real, now: int)
    requires UniqueKeys(open)
    ensures UniqueKeys(OpenAfterRows(open, rows, threshold, now))
  {
    if rows != [] {
      var before, row := OpenAfterRows(open, rows[..|rows| - 1], threshold, now), rows[|rows| - 1];
      RowsKeepUniqueKeys(open, rows[..|rows| - 1], threshold, now);
      PutKeys(before, row.Direction(), Started(row, now));
      if Find(before, row.Direction()).Some? {
        PutKeys(before, row.Direction(), Extended(Find(before, row.Direction()).value, row));
      }
      RemovedKeys(before, row.Direction());
    }
  }

  lemma {:induction false} SweptKeys(open: Open, seen: set<Direction>)
    requires UniqueKeys(open)
    ensures UniqueKeys(Swept(open, seen))
    ensures forall i :: 0 <= i < |Swept(open, seen)| ==>
            Swept(open, seen)[i] in open && Swept(open, seen)[i].key in seen
  {
    if open != [] {
      var n := |open| - 1;
      SweptKeys(open[..n], seen);
      assert forall x :: x in open[..n] ==> x in open;
      forall i | 0 <= i < |Swept(open[..n], seen)|
        ensures Swept(open[..n], seen)[i].key != open[n].key
      {
        var m :| 0 <= m < n && open[..n][m] == Swept(open[..n], seen)[i];
      }
    }
  }

  lemma {:induction false} RemovedInside(a: Open, x: Item<Direction, OpenEvent>, b: Open)
    requires forall i :: 0 <= i < |a| ==> a[i].key != x.key
    ensures Removed(a + [x] + b, x.key) == a + b
  {
    var d := a + [x] + b;
    if a == [] {
      assert d[1..] == b;
    } else {
      assert d[1..] == a[1..] + [x] + b;
      RemovedInside(a[1..], x, b);
      assert [a[0]] + (a[1..] + b) == a + b;
    }
  }

  lemma SweepStart(all: Open, seen: set<Direction>, threshold: real, now: int)
    ensures Swept(all[..0], seen) + all[0..] == all
    ensures ClosedBySweep(all[..0], seen, threshold, now) == []
  {
  }

  lemma SweepStep(all: Open, i: nat, seen: set<Direction>)
    requires UniqueKeys(all) && i < |all|
    ensures var before, after := Swept(all[..i], seen) + all[i..], Swept(all[..i + 1], seen) + all[i + 1..];
            after == if all[i].key in seen then before else Removed(before, all[i].key)
  {
    var a := Swept(all[..i], seen);
    assert all[..i + 1][..i] == all[..i];
    assert a + all[i..] == a + [all[i]] + all[i + 1..];
    if all[i].key !in seen {
      SweptKeys(all[..i], seen);
      forall j | 0 <= j < |a|
        ensures a[j].key != all[i].key
      {
        var m :| 0 <= m < i && all[..i][m] == a[j];
      }
      RemovedInside(a, all[i], all[i + 1..]);
    }
  }

  class SpreadEventTracker {
    const threshold: real
    var open: Open

    ghost predicate Valid()
      reads this
    {
      UniqueKeys(open)
    }

    constructor (threshold: real)
      ensures Valid() && this.threshold == threshold && open == []
    {
      this.threshold, open := threshold, [];
    }

    method Process(rows: seq<SpreadRow>, now: int) returns (closed: seq<ClosedEvent>)
      requires Valid()
      modifies this
      ensures Valid()
      ensures open == OpenAfterTick(old(open), rows, threshold, now)
      ensures closed == ClosedByTick(old(open), rows, threshold, now)
    {
      hide OpenAfterRow;
      hide ClosedByRow;
      hide UniqueKeys;
      hide Swept;
      hide ClosedBySweep;
      closed := [];
      var seen: set<Direction> := {};
      for i := 0 to |rows|
        invariant open == OpenAfterRows(old(open), rows[..i], threshold, now)
        invariant closed == ClosedByRows(old(open), rows[..i], threshold, now)
        invariant seen == SeenIn(rows[..i])
      {
        assert rows[..i + 1][..i] == rows[..i];
        assert rows[..i + 1] == rows[..i] + [rows[i]];
        seen := seen + {rows[i].Direction()};
        var ended := ProcessRow(rows[i], now);
        closed := closed + ended;
      }
      assert rows[..|rows|] == rows;
      RowsKeepUniqueKeys(old(open), rows, threshold, now);
      var swept := Sweep(seen, now);
      closed := closed + swept;
    }

    /** One pass of the loop over the rows. */
    method ProcessRow(row: SpreadRow, now: int) returns (closed: seq<ClosedEvent>)
      modifies this
      ensures open == OpenAfterRow(old(open), row, threshold, now)
      ensures closed == ClosedByRow(old(open), row, threshold, now)
    {
      hide Put;
      hide Removed;
      hide Find;
      hide Extended;
      hide Started;
      hide Closed;
      hide IsActive;
      closed := [];
      var key := row.Direction();
      var active := IsActive(row, threshold);
      var event := Find(open, key);
      if event.None? {
        if active {
          open := Put(open, key, Started(row, now));
        }
      } else if active {
        open := Put(open, key, Extended(event.value, row));
      } else {
        closed := [Closed(event.value, now, threshold)];
        open := Removed(open, key);
      }
    }

    method Sweep(seen: set<Direction>, now: int) returns (closed: seq<ClosedEvent>)
      requires Valid()
      modifies this
      ensures Valid()
      ensures open == Swept(old(open), seen)
      ensures closed == ClosedBySweep(old(open), seen, threshold, now)
    {
      hide Swept;
      hide Removed;
      hide UniqueKeys;
      closed := [];
      var all := open;
      SweepStart(all, seen, threshold, now);
      for i := 0 to |all|
        invariant open == Swept(all[..i], seen) + all[i..]
        invariant closed == ClosedBySweep(all[..i], seen, threshold, now)
      {
        assert all[..i + 1][..i] == all[..i];
        SweepStep(all, i, seen);
        if all[i].key !in seen {
          closed := closed + [Closed(all[i].value, now, threshold)];
          open := Removed(open, all[i].key);
        }
      }
      assert all[..|all|] == all;
      assert open == Swept(all, seen);
      SweptKeys(all, seen);
    }

    method FlushOpen(now: int) returns (closed: seq<ClosedEvent>)
      modifies this
      ensures Valid() && open == []
      ensures closed == Flushed(old(open), threshold, now)
    {
      closed := [];
      for i := 0 to |open|
        invariant open == old(open)
        invariant closed == Flushed(open[..i], threshold, now)
      {
        assert open[..i + 1][..i] == open[..i];
        closed := closed + [Closed(open[i].value, now, threshold)];
      }
      assert open[..|open|] == open;
      open := [];
    }
  }

  function Flushed(open: Open, threshold: real, now: int): seq<ClosedEvent> {
    if open == [] then []
    else Flushed(open[..|open| - 1], threshold, now) + [Closed(open[|open| - 1].value, now, threshold)]
  }
}
