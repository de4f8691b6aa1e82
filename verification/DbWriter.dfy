/** The bounded queue between the collectors and the database, and the batches that drain it. */
module DbWriting {
  import opened Prelude
  import opened QueueTrails

  datatype OverflowPolicy = DROP_OLDEST | DROP_NEWEST | BLOCK

  datatype WriteItem = WriteItem(table: string, row: string)

  /** The consumer is either gathering a batch or waiting for the database to take one. */
  datatype Phase = Collecting(batch: seq<WriteItem>) | Writing(batch: seq<WriteItem>)

  datatype Metrics = Metrics(
    enqueuedTotal: nat,
    writtenTotal: nat,
    droppedTotal: nat,
    failedBatches: nat,
    batchesTotal: nat,
    lastBatchSize: nat,
    lastWriteLatencyMs: real,
    queueSize: nat)

  datatype Config = Config(queueSize: nat, policy: OverflowPolicy, batchMaxRows: nat)

  datatype Writer = Writer(queue: seq<WriteItem>, phase: Phase, metrics: Metrics)

  const NEW_WRITER := Writer([], Collecting([]), Metrics(0, 0, 0, 0, 0, 0, 0.0, 0))

  /** An asyncio queue of size zero is unbounded. */
  predicate IsFull(config: Config, queue: seq<WriteItem>) {
    config.queueSize > 0 && |queue| >= config.queueSize
  }

  predicate Admits(config: Config, w: Writer) {
    !IsFull(config, w.queue) || config.policy.DROP_OLDEST?
  }

  function Enqueued(config: Config, w: Writer, item: WriteItem): Writer {
    var m := w.metrics;
    if !IsFull(config, w.queue) then
      w.(queue := w.queue + [item], metrics := m.(enqueuedTotal := m.enqueuedTotal + 1, queueSize := |w.queue| + 1))
    else if config.policy.DROP_OLDEST? then
      var queue := w.queue[1..] + [item];
      w.(queue := queue, metrics := m.(enqueuedTotal := m.enqueuedTotal + 1, droppedTotal := m.droppedTotal + 1,
                                       queueSize := |queue|))
    else w.(metrics := m.(droppedTotal := m.droppedTotal + 1))
  }

  /** The collector has room and the queue has an item. */
  predicate CanTake(config: Config, w: Writer) {
    w.phase.Collecting? && |w.phase.batch| < config.batchMaxRows && w.queue != []
  }

  function Taken(w: Writer): Writer
    requires w.phase.Collecting? && w.queue != []
  {
    w.(queue := w.queue[1..], phase := Collecting(w.phase.batch + [w.queue[0]]))
  }

  /** Collecting ends on a full batch, the deadline, or an empty queue at shutdown; an empty batch is not written. */
  function Collected(w: Writer): Writer
    requires w.phase.Collecting?
  {
    var m := w.metrics.(queueSize := |w.queue|);
    w.(metrics := m, phase := if w.phase.batch == [] then w.phase else Writing(w.phase.batch))
  }

  /** `latencyMs`: how long the flush took, or nothing if it failed. */
  function Flushed(w: Writer, latencyMs: Option<real>): Writer
    requires w.phase.Writing?
  {
    var m, n := w.metrics, |w.phase.batch|;
    w.(phase := Collecting([]),
       metrics := if latencyMs.Some? then
                    m.(batchesTotal := m.batchesTotal + 1, lastBatchSize := n, writtenTotal := m.writtenTotal + n,
                       lastWriteLatencyMs := latencyMs.value)
                  else m.(failedBatches := m.failedBatches + 1))
  }

  // ---- grouping -----------------------------------------------------------

  /** The rows of one table, in batch order. */
  function RowsFor(batch: seq<WriteItem>, table: string): seq<string> {
    if batch == [] then [] else
      var last := batch[|batch| - 1];
      RowsFor(batch[..|batch| - 1], table) + if last.table == table then [last.row] else []
  }

  ghost predicate HasTable(batch: seq<WriteItem>, table: string) {
    exists i :: 0 <= i < |batch| && batch[i].table == table
  }

  /** A grouping lists exactly the batch's tables, each with its rows in batch order. */
  ghost predicate Groups(grouped: map<string, seq<string>>, batch: seq<WriteItem>) {
    && (forall t :: t in grouped <==> HasTable(batch, t))
    && (forall t :: t in grouped ==> grouped[t] == RowsFor(batch, t))
  }

  lemma {:induction false} NoRowsForAbsent(batch: seq<WriteItem>, table: string)
    requires !HasTable(batch, table)
    ensures RowsFor(batch, table) == []
  {
    if batch != [] {
      var n := |batch| - 1;
      assert batch[n].table != table;
      assert forall i :: 0 <= i < n ==> batch[..n][i] == batch[i];
      NoRowsForAbsent(batch[..n], table);
    }
  }

  lemma HasTableAppend(batch: seq<WriteItem>, item: WriteItem, table: string)
    ensures HasTable(batch + [item], table) <==> HasTable(batch, table) || item.table == table
  {
    if HasTable(batch, table) {
      var i :| 0 <= i < |batch| && batch[i].table == table;
      assert (batch + [item])[i].table == table;
    }
    if item.table == table {
      assert (batch + [item])[|batch|].table == table;
    }
  }

  lemma NothingGrouped()
    ensures Groups(map[], [])
  {
  }

  lemma GroupsAppend(grouped: map<string, seq<string>>, batch: seq<WriteItem>, item: WriteItem)
    requires Groups(grouped, batch)
    ensures var before := if item.table in grouped then grouped[item.table] else [];
            Groups(grouped[item.table := before + [item.row]], batch + [item])
  {
    hide HasTable;
    assert (batch + [item])[..|batch|] == batch;
    if item.table !in grouped {
      NoRowsForAbsent(batch, item.table);
    }
    forall t
      ensures HasTable(batch + [item], t) <==> HasTable(batch, t) || item.table == t
    {
      HasTableAppend(batch, item, t);
    }
  }

  class DbWriter {
    const config: Config
    var queue: seq<WriteItem>
    var phase: Phase
    var metrics: Metrics

    function State(): Writer
      reads this
    {
      Writer(queue, phase, metrics)
    }

    constructor (config: Config)
      ensures this.config == config && State() == NEW_WRITER
    {
      this.config, queue, phase, metrics := config, [], Collecting([]), Metrics(0, 0, 0, 0, 0, 0, 0.0, 0);
    }

    method Drop(n: nat)
      modifies this`metrics
      ensures metrics == old(metrics).(droppedTotal := old(metrics).droppedTotal + n)
    {
      metrics := metrics.(droppedTotal := metrics.droppedTotal + n);
    }

    method Enqueue(item: WriteItem) returns (ok: bool)
      modifies this
      ensures State() == Enqueued(config, old(State()), item)
      ensures ok == Admits(config, old(State()))
    {
      if IsFull(config, queue) {
        if config.policy.DROP_NEWEST? {
          Drop(1);
          return false;
        }
        if config.policy.DROP_OLDEST? {
          queue := queue[1..];
          Drop(1);
          queue := queue + [item];
        } else {
          Drop(1);
          return false;
        }
      } else {
        queue := queue + [item];
      }
      metrics := metrics.(enqueuedTotal := metrics.enqueuedTotal + 1);
      metrics := metrics.(queueSize := |queue|);
      return true;
    }

    method TakeItem()
      requires CanTake(config, State())
      modifies this
      ensures State() == Taken(old(State()))
    {
      phase := Collecting(phase.batch + [queue[0]]);
      queue := queue[1..];
    }

    method FinishCollecting()
      requires phase.Collecting?
      modifies this
      ensures State() == Collected(old(State()))
    {
      metrics := metrics.(queueSize := |queue|);
      if phase.batch != [] {
        phase := Writing(phase.batch);
      }
    }

    static method GroupByTable(batch: seq<WriteItem>) returns (grouped: map<string, seq<string>>)
      ensures Groups(grouped, batch)
    {
      hide Groups;
      grouped := map[];
      NothingGrouped();
      for i := 0 to |batch|
        invariant Groups(grouped, batch[..i])
      {
        assert batch[..i + 1] == batch[..i] + [batch[i]];
        GroupsAppend(grouped, batch[..i], batch[i]);
        ghost var before := grouped;
        if batch[i].table !in grouped {
          grouped := grouped[batch[i].table := []];
        }
        grouped := grouped[batch[i].table := grouped[batch[i].table] + [batch[i].row]];
        assert grouped == before[batch[i].table := grouped[batch[i].table]];
      }
      assert batch[..|batch|] == batch;
    }

    method FinishWriting(latencyMs: Option<real>)
      requires phase.Writing?
      modifies this
      ensures State() == Flushed(old(State()), latencyMs)
    {
      var n := |phase.batch|;
      phase := Collecting([]);
      if latencyMs.None? {
        metrics := metrics.(failedBatches := metrics.failedBatches + 1);
        return;
      }
      metrics := metrics.(batchesTotal := metrics.batchesTotal + 1);
      metrics := metrics.(lastBatchSize := n);
      metrics := metrics.(writtenTotal := metrics.writtenTotal + n);
      metrics := metrics.(lastWriteLatencyMs := latencyMs.value);
    }
  }

  // ---- every interleaving -------------------------------------------------

  datatype Event = Put(item: WriteItem) | Take | EndCollect | FlushOk(latencyMs: real) | FlushFail

  /** A batch that the database was given, and how long it took, or nothing if it was refused. */
  datatype Delivery = Delivery(batch: seq<WriteItem>, latencyMs: Option<real>) {
    predicate Ok() {
      latencyMs.Some?
    }
  }

  /** The writer with its history: every attempt, the trail of the queue, and the deliveries. */
  datatype World = World(writer: Writer, attempts: nat, rejected: nat, trail: Trail<WriteItem>,
                         deliveries: seq<Delivery>)

  const START := World(NEW_WRITER, 0, 0, Trail([], 0, []), [])

  function Step(config: Config, w: World, e: Event): World {
    match e
    case Put(item) =>
      var counted := w.(writer := Enqueued(config, w.writer, item), attempts := w.attempts + 1);
      if !Admits(config, w.writer) then counted.(rejected := w.rejected + 1)
      else if IsFull(config, w.writer.queue) then counted.(trail := w.trail.Evict().Accept(item))
      else counted.(trail := w.trail.Accept(item))
    case Take =>
      if CanTake(config, w.writer) then w.(writer := Taken(w.writer), trail := w.trail.Take()) else w
    case EndCollect =>
      if w.writer.phase.Collecting? then w.(writer := Collected(w.writer)) else w
    case FlushOk(latencyMs) => Delivered(w, Some(latencyMs))
    case FlushFail => Delivered(w, None)
  }

  function Delivered(w: World, latencyMs: Option<real>): World {
    if w.writer.phase.Writing? then
      w.(writer := Flushed(w.writer, latencyMs),
         deliveries := w.deliveries + [Delivery(w.writer.phase.batch, latencyMs)])
    else w
  }

  function Run(config: Config, events: seq<Event>): World {
    if events == [] then START
    else Step(config, Run(config, events[..|events| - 1]), events[|events| - 1])
  }

  /** All delivered items, in delivery order. */
  function DeliveredItems(deliveries: seq<Delivery>): seq<WriteItem> {
    if deliveries == [] then []
    else DeliveredItems(deliveries[..|deliveries| - 1]) + deliveries[|deliveries| - 1].batch
  }

  /** How many items the database took (or lost). */
  function CountDelivered(deliveries: seq<Delivery>, ok: bool): nat {
    if deliveries == [] then 0 else
      var last := deliveries[|deliveries| - 1];
      CountDelivered(deliveries[..|deliveries| - 1], ok) + if last.Ok() == ok then |last.batch| else 0
  }

  lemma {:induction false} DeliveredTotals(deliveries: seq<Delivery>)
    ensures |DeliveredItems(deliveries)| == CountDelivered(deliveries, true) + CountDelivered(deliveries, false)
  {
    if deliveries != [] {
      DeliveredTotals(deliveries[..|deliveries| - 1]);
    }
  }

  /** What every reachable state satisfies. */
  ghost predicate Consistent(config: Config, w: World) {
    && w.trail.Explains(w.writer.queue)
    && (config.queueSize > 0 ==> |w.writer.queue| <= config.queueSize)
    && w.trail.TakenItems() == DeliveredItems(w.deliveries) + w.writer.phase.batch
    && w.attempts == |w.trail.accepted| + w.rejected
    && w.writer.metrics.enqueuedTotal == |w.trail.accepted|
    && w.writer.metrics.droppedTotal == w.rejected + (w.trail.head - |w.trail.taken|)
    && w.writer.metrics.writtenTotal == CountDelivered(w.deliveries, true)
    && (config.policy.DROP_OLDEST? ==> w.rejected == 0)
    && (!config.policy.DROP_OLDEST? ==> w.trail.head == |w.trail.taken|)
  }

  lemma PutKeepsConsistent(config: Config, w: World, item: WriteItem)
    requires Consistent(config, w)
    ensures Consistent(config, Step(config, w, Put(item)))
  {
    if IsFull(config, w.writer.queue) && config.policy.DROP_OLDEST? {
      EvictExplains(w.trail, w.writer.queue);
      AcceptExplains(w.trail.Evict(), w.writer.queue[1..], item);
    } else if !IsFull(config, w.writer.queue) {
      AcceptExplains(w.trail, w.writer.queue, item);
    }
    var r := Step(config, w, Put(item));
    assert r.trail.TakenItems() == w.trail.TakenItems();
  }

  lemma TakeKeepsConsistent(config: Config, w: World)
    requires Consistent(config, w)
    ensures Consistent(config, Step(config, w, Take))
  {
    hide DeliveredItems;
    if CanTake(config, w.writer) {
      TakeExplains(w.trail, w.writer.queue);
    }
  }

  lemma DeliveryKeepsConsistent(config: Config, w: World, latencyMs: Option<real>)
    requires Consistent(config, w)
    ensures Consistent(config, Delivered(w, latencyMs))
  {
    var r := Delivered(w, latencyMs);
    if w.writer.phase.Writing? {
      assert r.deliveries[..|r.deliveries| - 1] == w.deliveries;
      assert DeliveredItems(r.deliveries) + [] == DeliveredItems(w.deliveries) + w.writer.phase.batch;
    }
  }

  lemma {:induction false} RunConsistent(config: Config, events: seq<Event>)
    ensures Consistent(config, Run(config, events))
  {
    hide Consistent;
    hide Enqueued;
    if events == [] {
      StartConsistent(config);
    } else {
      var before, last := Run(config, events[..|events| - 1]), events[|events| - 1];
      RunConsistent(config, events[..|events| - 1]);
      match last {
        case Put(item) => PutKeepsConsistent(config, before, item);
        case Take => TakeKeepsConsistent(config, before);
        case EndCollect => CollectKeepsConsistent(config, before);
        case FlushOk(latencyMs) => DeliveryKeepsConsistent(config, before, Some(latencyMs));
        case FlushFail => DeliveryKeepsConsistent(config, before, None);
      }
    }
  }

  lemma StartConsistent(config: Config)
    ensures Consistent(config, START)
  {
    assert START.trail.TakenItems() == [];
  }

  lemma CollectKeepsConsistent(config: Config, w: World)
    requires Consistent(config, w)
    ensures Consistent(config, Step(config, w, EndCollect))
  {
  }

  /** Over every interleaving: the queue is a bounded, contiguous suffix of the accepted items. */
  lemma QueueIsSuffix(config: Config, events: seq<Event>)
    ensures var w := Run(config, events);
            && w.trail.head <= |w.trail.accepted|
            && w.writer.queue == w.trail.accepted[w.trail.head..]
            && (config.queueSize > 0 ==> |w.writer.queue| <= config.queueSize)
  {
    RunConsistent(config, events);
  }

  /** Over every interleaving: no record is lost without being counted. */
  lemma RecordsAreConserved(config: Config, events: seq<Event>)
    ensures var w := Run(config, events);
            var m, lost := w.writer.metrics, CountDelivered(w.deliveries, false);
            && m.enqueuedTotal == |w.trail.accepted|
            && (config.policy.DROP_OLDEST? ==>
                  && w.attempts == m.enqueuedTotal
                  && m.enqueuedTotal
                     == m.writtenTotal + lost + m.droppedTotal + |w.writer.phase.batch| + |w.writer.queue|)
            && (!config.policy.DROP_OLDEST? ==>
                  && w.attempts == m.enqueuedTotal + m.droppedTotal
                  && m.enqueuedTotal == m.writtenTotal + lost + |w.writer.phase.batch| + |w.writer.queue|)
  {
    RunConsistent(config, events);
    DeliveredTotals(Run(config, events).deliveries);
  }

  /** Deliveries, then the batch in hand, are accepted items at increasing positions: acceptance order is kept. */
  lemma DeliveriesKeepOrder(config: Config, events: seq<Event>)
    ensures var w := Run(config, events);
            && Increasing(w.trail.taken)
            && (forall i :: 0 <= i < |w.trail.taken| ==> w.trail.taken[i] < |w.trail.accepted|)
            && w.trail.TakenItems() == DeliveredItems(w.deliveries) + w.writer.phase.batch
  {
    RunConsistent(config, events);
  }

  /** Each table receives its rows in acceptance order too: grouping batch by batch equals grouping the whole stream. */
  lemma {:induction false} TablesKeepOrder(deliveries: seq<Delivery>, table: string)
    ensures RowsFor(DeliveredItems(deliveries), table) == TableStream(deliveries, table)
  {
    if deliveries != [] {
      TablesKeepOrder(deliveries[..|deliveries| - 1], table);
      RowsForConcat(DeliveredItems(deliveries[..|deliveries| - 1]), deliveries[|deliveries| - 1].batch, table);
    }
  }

  /** What one table is given over all deliveries. */
  function TableStream(deliveries: seq<Delivery>, table: string): seq<string> {
    if deliveries == [] then []
    else TableStream(deliveries[..|deliveries| - 1], table) + RowsFor(deliveries[|deliveries| - 1].batch, table)
  }

  lemma {:induction false} RowsForConcat(a: seq<WriteItem>, b: seq<WriteItem>, table: string)
    ensures RowsFor(a + b, table) == RowsFor(a, table) + RowsFor(b, table)
  {
    if b == [] {
      assert a + b == a;
    } else {
      assert (a + b)[..|a + b| - 1] == a + b[..|b| - 1];
      RowsForConcat(a, b[..|b| - 1], table);
    }
  }

  // ---- batches and metrics ------------------------------------------------

  /** How many batches the database took (or refused). */
  function CountBatches(deliveries: seq<Delivery>, ok: bool): nat {
    if deliveries == [] then 0 else
      CountBatches(deliveries[..|deliveries| - 1], ok) + if deliveries[|deliveries| - 1].Ok() == ok then 1 else 0
  }

  /** The last batch that the database took. */
  function LastTaken(deliveries: seq<Delivery>): (d: Option<Delivery>)
    ensures d.Some? ==> d.value.Ok()
  {
    if deliveries == [] then None
    else if deliveries[|deliveries| - 1].Ok() then Some(deliveries[|deliveries| - 1])
    else LastTaken(deliveries[..|deliveries| - 1])
  }

  /** A batch is written only if there is something in it, and holds no more than the configured number of rows. */
  ghost predicate BatchesFit(config: Config, w: World) {
    && |w.writer.phase.batch| <= config.batchMaxRows
    && (w.writer.phase.Writing? ==> w.writer.phase.batch != [])
    && forall i :: 0 <= i < |w.deliveries| ==> 0 < |w.deliveries[i].batch| <= config.batchMaxRows
  }

  /** The metrics beside the record counts: batches by outcome, the last one taken, and the queue's reported size. */
  ghost predicate MetricsTell(config: Config, w: World) {
    var m := w.writer.metrics;
    && m.batchesTotal == CountBatches(w.deliveries, true) && m.failedBatches == CountBatches(w.deliveries, false)
    && m.lastBatchSize == (if LastTaken(w.deliveries).Some? then |LastTaken(w.deliveries).value.batch| else 0)
    && m.lastWriteLatencyMs
       == (if LastTaken(w.deliveries).Some? then LastTaken(w.deliveries).value.latencyMs.value else 0.0)
    && |w.writer.queue| <= m.queueSize && (config.queueSize > 0 ==> m.queueSize <= config.queueSize)
  }

  /** Over every interleaving the batches fit, and every metric tells what has happened. */
  lemma {:induction false} RunTells(config: Config, events: seq<Event>)
    ensures BatchesFit(config, Run(config, events)) && MetricsTell(config, Run(config, events))
  {
    if events != [] {
      RunTells(config, events[..|events| - 1]);
      RunConsistent(config, events[..|events| - 1]);
      StepTells(config, Run(config, events[..|events| - 1]), events[|events| - 1]);
    }
  }

  lemma StepTells(config: Config, w: World, e: Event)
    requires BatchesFit(config, w) && MetricsTell(config, w) && Consistent(config, w)
    ensures BatchesFit(config, Step(config, w, e)) && MetricsTell(config, Step(config, w, e))
  {
    match e {
      case Put(item) => PutTells(config, w, item);
      case Take =>
      case EndCollect =>
      case FlushOk(latencyMs) => DeliveryTells(config, w, Some(latencyMs));
      case FlushFail => DeliveryTells(config, w, None);
    }
  }

  lemma PutTells(config: Config, w: World, item: WriteItem)
    requires BatchesFit(config, w) && MetricsTell(config, w) && Consistent(config, w)
    ensures BatchesFit(config, Step(config, w, Put(item))) && MetricsTell(config, Step(config, w, Put(item)))
  {
    hide CountBatches;
    hide LastTaken;
  }

  lemma DeliveryTells(config: Config, w: World, latencyMs: Option<real>)
    requires BatchesFit(config, w) && MetricsTell(config, w)
    ensures BatchesFit(config, Delivered(w, latencyMs)) && MetricsTell(config, Delivered(w, latencyMs))
  {
    var r := Delivered(w, latencyMs);
    if w.writer.phase.Writing? {
      assert r.deliveries[..|r.deliveries| - 1] == w.deliveries;
    }
  }

  /** The reported queue size is exact after an accepted item and at the end of each collection. */
  lemma QueueSizeExact(config: Config, w: World, e: Event)
    requires (e.Put? && Admits(config, w.writer)) || (e.EndCollect? && w.writer.phase.Collecting?)
    ensures Step(config, w, e).writer.metrics.queueSize == |Step(config, w, e).writer.queue|
  {
  }

  /** An attempt succeeds exactly when its item is then the last one queued and counted; otherwise the queue stays. */
  lemma EnqueueVerdict(config: Config, w: Writer, item: WriteItem)
    ensures var after := Enqueued(config, w, item);
            && (Admits(config, w) <==> after.metrics.enqueuedTotal == w.metrics.enqueuedTotal + 1)
            && (Admits(config, w) ==> after.queue != [] && after.queue[|after.queue| - 1] == item)
            && (!Admits(config, w) ==>
                  after.queue == w.queue && after.metrics.droppedTotal == w.metrics.droppedTotal + 1)
            && (Admits(config, w) <==>
                  config.policy.DROP_OLDEST? || config.queueSize == 0 || |w.queue| < config.queueSize)
  {
  }
}
