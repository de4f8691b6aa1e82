/**
 * The push to dashboards: numbered messages, bounded client queues that drop the oldest, and the client's loss
 * counter.
 */
module SpreadFeeds {
  import opened Prelude
  import opened QueueTrails
  import opened QuoteCaching
  import opened SpreadRows
  import opened SpreadLaws

  datatype Kind = SpreadUpdate | Heartbeat

  datatype Message = Message(kind: Kind, sequence: nat, generatedAt: int, rows: seq<SpreadRow>)

  // ---- the server ---------------------------------------------------------

  /** The queue after a put that evicts the oldest until there is room. A size of zero is unbounded. */
  function PutEvicting<T>(queue: seq<T>, size: nat, x: T): seq<T> {
    if size == 0 || |queue| < size then queue + [x] else queue[|queue| - size + 1..] + [x]
  }

  /** A put keeps the newest messages that fit, the new one last, and evicts only from a full queue. */
  lemma PutKeepsNewest<T>(queue: seq<T>, size: nat, x: T)
    ensures var r, all := PutEvicting(queue, size, x), queue + [x];
            && |r| <= |all| && r == all[|all| - |r|..] && r != []
            && (size == 0 ==> r == all)
            && (size > 0 ==> |r| == if |all| <= size then |all| else size)
  {
  }

  class ConnectionManager {
    const queueSize: nat
    var clients: map<nat, seq<Message>>

    constructor (queueSize: nat)
      ensures this.queueSize == queueSize && clients == map[]
    {
      this.queueSize, clients := queueSize, map[];
    }

    method Connect(client: nat)
      modifies this
      ensures clients == old(clients)[client := []]
    {
      clients := clients[client := []];
    }

    method Disconnect(client: nat)
      modifies this
      ensures clients == old(clients) - {client}
    {
      clients := clients - {client};
    }

    /** The client's own sender takes the next message. */
    method Receive(client: nat) returns (m: Message)
      requires client in clients && clients[client] != []
      modifies this
      ensures m == old(clients)[client][0]
      ensures clients == old(clients)[client := old(clients)[client][1..]]
    {
      m := clients[client][0];
      clients := clients[client := clients[client][1..]];
    }

    /** Put without waiting; while the queue is full, lose its oldest message. */
    method PutDropOldest(initial: seq<Message>, m: Message) returns (queue: seq<Message>)
      ensures queue == PutEvicting(initial, queueSize, m)
    {
      queue := initial;
      while queueSize > 0 && |queue| >= queueSize
        invariant |queue| <= |initial| && queue == initial[|initial| - |queue|..]
        invariant |queue| < |initial| ==> queueSize > 0 && |queue| >= queueSize - 1
        decreases |queue|
      {
        queue := queue[1..];
      }
      assert |queue| == |initial| ==> queue == initial;
      queue := queue + [m];
    }

    /** Every client gets the message; a full queue loses its oldest ones; nobody else is affected. */
    method Broadcast(m: Message)
      modifies this
      ensures clients.Keys == old(clients).Keys
      ensures forall c :: c in clients ==> clients[c] == PutEvicting(old(clients)[c], queueSize, m)
    {
      hide PutEvicting;
      var remaining := clients.Keys;
      while remaining != {}
        invariant remaining <= clients.Keys == old(clients).Keys
        invariant forall c :: c in clients ==>
                    clients[c] == if c in remaining then old(clients)[c] else PutEvicting(old(clients)[c], queueSize, m)
        decreases |remaining|
      {
        var c :| c in remaining;
        var queue := PutDropOldest(clients[c], m);
        clients := clients[c := queue];
        remaining := remaining - {c};
      }
    }
  }

  class Broadcaster {
    const engine: SpreadEngine
    var sequence: nat

    constructor (engine: SpreadEngine)
      ensures this.engine == engine && sequence == 0
    {
      this.engine, sequence := engine, 0;
    }

    /** The number is used up even when computing the rows raises. */
    method BuildMessage(now: int) returns (m: Result<Message>)
      modifies this
      ensures sequence == old(sequence) + 1
      ensures var rows := Computed(engine.cache.quotes, engine.trading, engine.fees, now);
              m == if rows.Raised? then Raised(rows.error) else Ok(Message(SpreadUpdate, sequence, now, rows.value))
    {
      sequence := sequence + 1;
      var rows := engine.ComputeAll(now);
      if rows.Raised? {
        return Raised(rows.error);
      }
      return Ok(Message(SpreadUpdate, sequence, now, rows.value));
    }

    method BuildHeartbeat(now: int) returns (m: Message)
      modifies this
      ensures sequence == old(sequence) + 1 && m == Message(Heartbeat, sequence, now, [])
    {
      sequence := sequence + 1;
      return Message(Heartbeat, sequence, now, []);
    }
  }

  // ---- the client ---------------------------------------------------------

  /**
   * The hook's state. `pending` are the counter updates that the view library has queued but not yet run; each
   * will read the last-sequence reference at the time it runs, not at the time it was queued.
   */
  datatype Client = Client(lastSequence: Option<int>, missed: int, pending: seq<int>)

  /** A null reference counts as zero in arithmetic. */
  function ReferenceValue(c: Client): int {
    if c.lastSequence.Some? then c.lastSequence.value else 0
  }

  predicate ShowsGap(c: Client, sequence: int) {
    c.lastSequence.Some? && sequence > c.lastSequence.value + 1
  }

  /** `eager`: the queued update runs at once, before the reference moves on. */
  function OnMessage(c: Client, sequence: int, eager: bool): Client {
    var counted :=
      if !ShowsGap(c, sequence) then c
      else if eager then c.(missed := c.missed + (sequence - ReferenceValue(c) - 1))
      else c.(pending := c.pending + [sequence]);
    counted.(lastSequence := Some(sequence))
  }

  function OnOpen(c: Client): Client {
    c.(lastSequence := None)
  }

  /** The next render runs what is pending. */
  function OnRender(c: Client): Client {
    c.(missed := c.missed + PendingTotal(c.pending, ReferenceValue(c)), pending := [])
  }

  function PendingTotal(pending: seq<int>, reference: int): int {
    if pending == [] then 0
    else PendingTotal(pending[..|pending| - 1], reference) + (pending[|pending| - 1] - reference - 1)
  }

  class SpreadFeed {
    var lastSequence: Option<int>
    var missed: int
    var pending: seq<int>
    var backoffMs: int

    function State(): Client
      reads this
    {
      Client(lastSequence, missed, pending)
    }

    constructor ()
      ensures State() == Client(None, 0, []) && backoffMs == 1000
    {
      lastSequence, missed, pending, backoffMs := None, 0, [], 1000;
    }

    method Opened()
      modifies this
      ensures State() == OnOpen(old(State())) && backoffMs == 1000
    {
      backoffMs := 1000;
      lastSequence := None;
    }

    method Received(sequence: int, eager: bool)
      modifies this
      ensures State() == OnMessage(old(State()), sequence, eager) && backoffMs == old(backoffMs)
    {
      if lastSequence.Some? && sequence > lastSequence.value + 1 {
        if eager {
          missed := missed + (sequence - lastSequence.value - 1);
        } else {
          pending := pending + [sequence];
        }
      }
      lastSequence := Some(sequence);
    }

    method Rendered()
      modifies this
      ensures State() == OnRender(old(State())) && backoffMs == old(backoffMs)
    {
      var reference := if lastSequence.Some? then lastSequence.value else 0;
      var total := 0;
      for i := 0 to |pending|
        invariant total == PendingTotal(pending[..i], reference)
        invariant State() == old(State()) && backoffMs == old(backoffMs)
      {
        assert pending[..i + 1][..i] == pending[..i];
        total := total + (pending[i] - reference - 1);
      }
      assert pending[..|pending|] == pending;
      missed := missed + total;
      pending := [];
    }

    /** The wait before the next attempt, doubled for the one after it, up to fifteen seconds. */
    method Closed() returns (delayMs: int)
      modifies this
      ensures State() == old(State())
      ensures delayMs == old(backoffMs) && backoffMs == (if 2 * delayMs < 15000 then 2 * delayMs else 15000)
    {
      delayMs := backoffMs;
      backoffMs := if backoffMs * 2 < 15000 then backoffMs * 2 else 15000;
    }
  }

  // ---- counter updates that run late --------------------------------------

  /** What the page does: handle a message, whose counter update may or may not run at once, render, or reconnect. */
  datatype Turn = Handle(sequence: int, eager: bool) | Render | Open

  function OnTurn(c: Client, t: Turn): Client {
    match t
    case Handle(sequence, eager) => OnMessage(c, sequence, eager)
    case Render => OnRender(c)
    case Open => OnOpen(c)
  }

  function Watched(c: Client, turns: seq<Turn>): Client {
    if turns == [] then c else OnTurn(Watched(c, turns[..|turns| - 1]), turns[|turns| - 1])
  }

  /** How many numbers the handled messages really skip, connection by connection. */
  function Skipped(c: Client, turns: seq<Turn>): int {
    if turns == [] then 0 else
      var before, last := Watched(c, turns[..|turns| - 1]), turns[|turns| - 1];
      Skipped(c, turns[..|turns| - 1]) +
      if last.Handle? && ShowsGap(before, last.sequence) then last.sequence - ReferenceValue(before) - 1 else 0
  }

  /** How many of the gaps had their update put off. */
  function Deferred(c: Client, turns: seq<Turn>): nat {
    if turns == [] then 0 else
      var before, last := Watched(c, turns[..|turns| - 1]), turns[|turns| - 1];
      Deferred(c, turns[..|turns| - 1]) +
      if last.Handle? && !last.eager && ShowsGap(before, last.sequence) then 1 else 0
  }

  /** Within a connection the numbers handled rise, and a connection opens with no update pending. */
  ghost predicate Orderly(c: Client, turns: seq<Turn>) {
    turns == [] ||
    var before, last := Watched(c, turns[..|turns| - 1]), turns[|turns| - 1];
    && Orderly(c, turns[..|turns| - 1])
    && (last.Handle? && before.lastSequence.Some? ==> before.lastSequence.value < last.sequence)
    && (last.Open? ==> before.pending == [])
  }

  /** A pending update's number is never above the reference that it is going to read. */
  ghost predicate PendingBelow(c: Client) {
    forall i :: 0 <= i < |c.pending| ==> c.lastSequence.Some? && c.pending[i] <= c.lastSequence.value
  }

  lemma {:induction false} PendingCostsOneEach(pending: seq<int>, reference: int)
    requires forall i :: 0 <= i < |pending| ==> pending[i] <= reference
    ensures PendingTotal(pending, reference) <= -|pending|
  {
    if pending != [] {
      PendingCostsOneEach(pending[..|pending| - 1], reference);
    }
  }

  /** A deferred update always takes away from the counter instead of adding the gap. */
  lemma {:induction false} DeferredCosts(c: Client, turns: seq<Turn>)
    requires Orderly(c, turns) && c.pending == []
    ensures var w := Watched(c, turns);
            && PendingBelow(w)
            && c.missed + Skipped(c, turns) - w.missed >= 2 * Deferred(c, turns) - |w.pending|
            && |w.pending| <= Deferred(c, turns)
            && (Deferred(c, turns) == 0 ==> w.missed == c.missed + Skipped(c, turns))
  {
    if turns != [] {
      var n := |turns| - 1;
      DeferredCosts(c, turns[..n]);
      var before := Watched(c, turns[..n]);
      if turns[n].Render? {
        PendingCostsOneEach(before.pending, ReferenceValue(before));
      }
    }
  }

  /** The counter never exceeds what was skipped, and is right if and only if no gap's update was put off. */
  lemma CounterRightIff(c: Client, turns: seq<Turn>)
    requires Orderly(c, turns) && c.pending == []
    ensures var w := Watched(c, turns);
            && w.missed <= c.missed + Skipped(c, turns)
            && (w.missed == c.missed + Skipped(c, turns) <==> Deferred(c, turns) == 0)
  {
    DeferredCosts(c, turns);
  }

  /** For each pending update, what the reference was before its message: what the update should have read. */
  function Bases(c: Client, turns: seq<Turn>): seq<int> {
    if turns == [] then [] else
      var before, last := Watched(c, turns[..|turns| - 1]), turns[|turns| - 1];
      var bases := Bases(c, turns[..|turns| - 1]);
      match last
      case Handle(sequence, eager) =>
        if !eager && ShowsGap(before, sequence) then bases + [ReferenceValue(before)] else bases
      case Render => []
      case Open => bases
  }

  /** How far off a common reference is for updates that should have read their bases. */
  function Misread(bases: seq<int>, reference: int): int {
    if bases == [] then 0
    else Misread(bases[..|bases| - 1], reference) + (reference - bases[|bases| - 1])
  }

  /** By how much the updates run so far fall short: each by the reference it read less the one it should have read. */
  function Shortfall(c: Client, turns: seq<Turn>): int {
    if turns == [] then 0 else
      var front := turns[..|turns| - 1];
      Shortfall(c, front) +
      if turns[|turns| - 1].Render? then Misread(Bases(c, front), ReferenceValue(Watched(c, front))) else 0
  }

  /** The gaps whose updates are still pending. */
  function Owed(pending: seq<int>, bases: seq<int>): int
    requires |pending| == |bases|
  {
    if pending == [] then 0 else
      var n := |pending| - 1;
      Owed(pending[..n], bases[..n]) + (pending[n] - bases[n] - 1)
  }

  lemma {:induction false} OwedReads(pending: seq<int>, bases: seq<int>, reference: int)
    requires |pending| == |bases|
    ensures Owed(pending, bases) == PendingTotal(pending, reference) + Misread(bases, reference)
  {
    if pending != [] {
      var n := |pending| - 1;
      OwedReads(pending[..n], bases[..n], reference);
    }
  }

  /** The exact account, over any turns and connections: what was skipped, less the shortfall, less what is pending. */
  lemma {:induction false} CounterIs(c: Client, turns: seq<Turn>)
    requires c.pending == []
    ensures var w, bases := Watched(c, turns), Bases(c, turns);
            && |w.pending| == |bases|
            && w.missed == c.missed + Skipped(c, turns) - Shortfall(c, turns) - Owed(w.pending, bases)
  {
    if turns != [] {
      var n := |turns| - 1;
      CounterIs(c, turns[..n]);
      var before, bases := Watched(c, turns[..n]), Bases(c, turns[..n]);
      match turns[n] {
        case Handle(sequence, eager) =>
          if !eager && ShowsGap(before, sequence) {
            OwedOneMore(before.pending, bases, sequence, ReferenceValue(before));
          }
        case Render => OwedReads(before.pending, bases, ReferenceValue(before));
        case Open =>
      }
    }
  }

  lemma OwedOneMore(pending: seq<int>, bases: seq<int>, sequence: int, reference: int)
    requires |pending| == |bases|
    ensures Owed(pending + [sequence], bases + [reference]) == Owed(pending, bases) + (sequence - reference - 1)
  {
    assert (pending + [sequence])[..|pending|] == pending && (bases + [reference])[..|bases|] == bases;
  }

  /** Across any number of connections, whatever their numbers: with no update put off, the counter is right. */
  lemma {:induction false} PromptCounterIsRight(c: Client, turns: seq<Turn>)
    requires c.pending == [] && Deferred(c, turns) == 0
    ensures Watched(c, turns).pending == [] && Watched(c, turns).missed == c.missed + Skipped(c, turns)
  {
    if turns != [] {
      PromptCounterIsRight(c, turns[..|turns| - 1]);
    }
  }

  lemma WatchedAppends(c: Client, turns: seq<Turn>, t: Turn)
    ensures Watched(c, turns + [t]) == OnTurn(Watched(c, turns), t)
  {
    hide OnTurn;
    assert (turns + [t])[..|turns|] == turns;
  }

  lemma WatchedThree(c: Client, t: Turn, u: Turn, v: Turn)
    ensures Watched(c, [t, u, v]) == OnTurn(OnTurn(OnTurn(c, t), u), v)
  {
    hide OnTurn;
    assert Watched(c, []) == c;
    hide Watched;
    WatchedAppends(c, [], t);
    WatchedAppends(c, [t], u);
    WatchedAppends(c, [t, u], v);
    assert [] + [t] == [t] && [t] + [u] == [t, u] && [t, u] + [v] == [t, u, v];
  }

  lemma OnePending(sequence: int, reference: int)
    ensures PendingTotal([sequence], reference) == sequence - reference - 1
  {
    assert [sequence][..0] == [] && PendingTotal([], reference) == 0;
  }

  /** Number 1, then 5 (three lost), with the update run at the next render: the counter goes to minus one. */
  lemma DeferredUpdateMiscounts()
    ensures Watched(Client(None, 0, []), [Handle(1, true), Handle(5, false), Render]).missed == -1
  {
    hide Watched;
    hide PendingTotal;
    WatchedThree(Client(None, 0, []), Handle(1, true), Handle(5, false), Render);
    var late := Client(Some(5), 0, [5]);
    assert OnTurn(OnTurn(Client(None, 0, []), Handle(1, true)), Handle(5, false)) == late;
    OnePending(5, 5);
  }

  /** A reconnect in between turns the error round: the update reads a null reference and counts four for three. */
  lemma ReconnectOvercounts()
    ensures Watched(Client(None, 0, []), [Handle(1, true), Handle(5, false), Open, Render]).missed == 4
  {
    hide Watched;
    hide PendingTotal;
    WatchedThree(Client(None, 0, []), Handle(1, true), Handle(5, false), Open);
    WatchedAppends(Client(None, 0, []), [Handle(1, true), Handle(5, false), Open], Render);
    assert [Handle(1, true), Handle(5, false), Open] + [Render]
        == [Handle(1, true), Handle(5, false), Open, Render];
    var late := Client(Some(5), 0, [5]);
    assert OnTurn(OnTurn(Client(None, 0, []), Handle(1, true)), Handle(5, false)) == late;
    OnePending(5, 0);
  }

  // ---- one connection, end to end -----------------------------------------

  /**
   * The broadcaster builds an update from the spread engine's state of the moment, or a heartbeat; the client's sender
   * delivers a message, whose counter update may be put off; the page renders.
   */
  datatype Event =
    | Update(cache: Cache, trading: Trading, fees: TakerFees, now: int)
    | Beat
    | Deliver(eager: bool)
    | Rendering

  /**
   * One client's connection: the broadcaster's counter, the client's queue of numbers with its trail, the numbers
   * used up without a broadcast, and the client with what its page did.
   */
  datatype Connection = Connection(
    start: nat,
    sequence: nat,
    queue: seq<nat>,
    trail: Trail<nat>,
    failed: seq<nat>,
    client: Client,
    turns: seq<Turn>)

  function Fresh(missed: int): Client {
    Client(None, missed, [])
  }

  function Connected(sequence: nat, missed: int): Connection {
    Connection(sequence, sequence, [], Trail([], 0, []), [], Fresh(missed), [])
  }

  function Evictions(queued: nat, size: nat): nat {
    if size == 0 || queued < size then 0 else queued - size + 1
  }

  /** A message is built and broadcast. */
  function Pushed(size: nat, c: Connection): Connection {
    var n := c.sequence + 1;
    c.(sequence := n, queue := PutEvicting(c.queue, size, n),
       trail := c.trail.(head := c.trail.head + Evictions(|c.queue|, size), accepted := c.trail.accepted + [n]))
  }

  /** Building raises after the number has been taken. */
  function Failed(c: Connection): Connection {
    c.(sequence := c.sequence + 1, failed := c.failed + [c.sequence + 1])
  }

  function Paged(c: Connection, t: Turn): Connection {
    c.(client := OnTurn(c.client, t), turns := c.turns + [t])
  }

  function Step(size: nat, c: Connection, e: Event): Connection {
    match e
    case Update(cache, trading, fees, now) =>
      if Computed(cache, trading, fees, now).Raised? then Failed(c) else Pushed(size, c)
    case Beat => Pushed(size, c)
    case Deliver(eager) =>
      if c.queue == [] then c
      else Paged(c.(queue := c.queue[1..], trail := c.trail.Take()), Handle(c.queue[0], eager))
    case Rendering => Paged(c, Render)
  }

  function Run(size: nat, c: Connection, events: seq<Event>): Connection {
    if events == [] then c
    else Step(size, Run(size, c, events[..|events| - 1]), events[|events| - 1])
  }

  /** How many of the connection's gaps had their counter update put off. */
  function PutOff(c: Connection, missed: int): nat {
    Deferred(Fresh(missed), c.turns)
  }

  /** How many of the numbers are below `x`. */
  function CountBelow(numbers: seq<nat>, x: nat): nat {
    if numbers == [] then 0
    else CountBelow(numbers[..|numbers| - 1], x) + if numbers[|numbers| - 1] < x then 1 else 0
  }

  lemma {:induction false} AllBelow(numbers: seq<nat>, x: nat)
    requires forall i :: 0 <= i < |numbers| ==> numbers[i] < x
    ensures CountBelow(numbers, x) == |numbers|
  {
    if numbers != [] {
      AllBelow(numbers[..|numbers| - 1], x);
    }
  }

  /** Every number since the start was broadcast or failed, so a broadcast's number tells how many failed before it. */
  ghost predicate NumbersAddUp(start: nat, sequence: nat, accepted: seq<nat>, failed: seq<nat>) {
    && (forall i :: 0 <= i < |failed| ==> failed[i] <= sequence)
    && (forall i :: 0 <= i < |accepted| ==> accepted[i] <= sequence)
    && Increasing(accepted)
    && sequence == start + |accepted| + |failed|
    && forall i :: 0 <= i < |accepted| ==> accepted[i] == start + 1 + i + CountBelow(failed, accepted[i])
  }

  /** The page has handled exactly the numbers received, in rising order. */
  ghost predicate PageAgrees(client: Client, turns: seq<Turn>, got: seq<nat>, missed: int) {
    && client == Watched(Fresh(missed), turns) && Orderly(Fresh(missed), turns)
    && (got == [] ==> client.lastSequence == None && Skipped(Fresh(missed), turns) == 0)
    && (got != [] ==>
          && client.lastSequence == Some(got[|got| - 1])
          && Skipped(Fresh(missed), turns) == got[|got| - 1] - got[0] - (|got| - 1))
  }

  ghost predicate Accounted(size: nat, c: Connection, missed: int) {
    && c.trail.Explains(c.queue)
    && (size > 0 ==> |c.queue| <= size)
    && NumbersAddUp(c.start, c.sequence, c.trail.accepted, c.failed)
    && PageAgrees(c.client, c.turns, c.trail.TakenItems(), missed)
  }

  lemma PushExplains(t: Trail<nat>, queue: seq<nat>, size: nat, x: nat)
    requires t.Explains(queue) && (size > 0 ==> |queue| <= size)
    ensures var r := t.(head := t.head + Evictions(|queue|, size), accepted := t.accepted + [x]);
            && r.Explains(PutEvicting(queue, size, x))
            && r.TakenItems() == t.TakenItems()
    ensures size > 0 ==> |PutEvicting(queue, size, x)| <= size
  {
    var r := t.(head := t.head + Evictions(|queue|, size), accepted := t.accepted + [x]);
    assert r.accepted[r.head..] == PutEvicting(queue, size, x);
  }

  lemma PushAddsUp(start: nat, sequence: nat, accepted: seq<nat>, failed: seq<nat>)
    requires NumbersAddUp(start, sequence, accepted, failed)
    ensures NumbersAddUp(start, sequence + 1, accepted + [sequence + 1], failed)
  {
    AllBelow(failed, sequence + 1);
  }

  lemma PushAccounted(size: nat, c: Connection, missed: int)
    requires Accounted(size, c, missed)
    ensures Accounted(size, Pushed(size, c), missed)
  {
    hide NumbersAddUp;
    hide PageAgrees;
    PushAddsUp(c.start, c.sequence, c.trail.accepted, c.failed);
    PushExplains(c.trail, c.queue, size, c.sequence + 1);
    var r, head := Pushed(size, c), c.trail.head + Evictions(|c.queue|, size);
    assert r.trail == c.trail.(head := head, accepted := c.trail.accepted + [c.sequence + 1]);
  }

  lemma {:induction false} CountBelowAppend(numbers: seq<nat>, n: nat, x: nat)
    ensures CountBelow(numbers + [n], x) == CountBelow(numbers, x) + if n < x then 1 else 0
  {
    assert (numbers + [n])[..|numbers|] == numbers;
  }

  lemma FailureAccounted(size: nat, c: Connection, missed: int)
    requires Accounted(size, c, missed)
    ensures Accounted(size, Failed(c), missed)
  {
    hide PageAgrees;
    var r := Failed(c);
    forall i | 0 <= i < |c.trail.accepted|
      ensures CountBelow(r.failed, c.trail.accepted[i]) == CountBelow(c.failed, c.trail.accepted[i])
    {
      CountBelowAppend(c.failed, c.sequence + 1, c.trail.accepted[i]);
    }
  }

  lemma TurnAppends(c: Client, turns: seq<Turn>, t: Turn)
    ensures Watched(c, turns + [t]) == OnTurn(Watched(c, turns), t)
    ensures Skipped(c, turns + [t]) == Skipped(c, turns) +
              if t.Handle? && ShowsGap(Watched(c, turns), t.sequence)
              then t.sequence - ReferenceValue(Watched(c, turns)) - 1 else 0
    ensures Orderly(c, turns + [t]) <==>
              && Orderly(c, turns)
              && (t.Handle? && Watched(c, turns).lastSequence.Some? ==>
                    Watched(c, turns).lastSequence.value < t.sequence)
              && (t.Open? ==> Watched(c, turns).pending == [])
  {
    assert (turns + [t])[..|turns|] == turns;
  }

  lemma AddsUpIncreases(start: nat, sequence: nat, accepted: seq<nat>, failed: seq<nat>)
    requires NumbersAddUp(start, sequence, accepted, failed)
    ensures Increasing(accepted)
  {
  }

  lemma DeliverAccounted(size: nat, c: Connection, eager: bool, missed: int)
    requires Accounted(size, c, missed)
    ensures Accounted(size, Step(size, c, Deliver(eager)), missed)
  {
    hide NumbersAddUp;
    hide Watched;
    hide Skipped;
    hide Orderly;
    if c.queue != [] {
      TakeExplains(c.trail, c.queue);
      TurnAppends(Fresh(missed), c.turns, Handle(c.queue[0], eager));
      AddsUpIncreases(c.start, c.sequence, c.trail.accepted, c.failed);
      LastTakenBelow(c);
      var r := Step(size, c, Deliver(eager));
      assert r.trail.TakenItems() == c.trail.TakenItems() + [c.queue[0]];
      assert PageAgrees(r.client, r.turns, r.trail.TakenItems(), missed);
    }
  }

  /** Whatever is still queued has a higher number than what was received last. */
  lemma LastTakenBelow(c: Connection)
    requires c.trail.Explains(c.queue) && Increasing(c.trail.accepted) && c.queue != []
    ensures var got := c.trail.TakenItems();
            got != [] ==> got[|got| - 1] < c.queue[0]
  {
    var got := c.trail.TakenItems();
    if got != [] {
      var last := c.trail.taken[|got| - 1];
      assert got[|got| - 1] == c.trail.accepted[last] && last < c.trail.head;
      assert c.queue[0] == c.trail.accepted[c.trail.head];
    }
  }

  lemma RenderingAccounted(size: nat, c: Connection, missed: int)
    requires Accounted(size, c, missed)
    ensures Accounted(size, Step(size, c, Rendering), missed)
  {
    hide NumbersAddUp;
    hide Watched;
    hide Skipped;
    hide Orderly;
    TurnAppends(Fresh(missed), c.turns, Render);
  }

  lemma {:induction false} RunAccounted(size: nat, sequence: nat, missed: int, events: seq<Event>)
    ensures Accounted(size, Run(size, Connected(sequence, missed), events), missed)
    ensures Run(size, Connected(sequence, missed), events).start == sequence
  {
    hide Accounted;
    hide Computed;
    var c := Connected(sequence, missed);
    if events == [] {
      ConnectedAccounted(size, sequence, missed);
    } else {
      RunAccounted(size, sequence, missed, events[..|events| - 1]);
      var before := Run(size, c, events[..|events| - 1]);
      match events[|events| - 1] {
        case Update(_, _, _, _) =>
          PushAccounted(size, before, missed);
          FailureAccounted(size, before, missed);
        case Beat => PushAccounted(size, before, missed);
        case Deliver(eager) => DeliverAccounted(size, before, eager, missed);
        case Rendering => RenderingAccounted(size, before, missed);
      }
    }
  }

  lemma ConnectedAccounted(size: nat, sequence: nat, missed: int)
    ensures Accounted(size, Connected(sequence, missed), missed)
  {
  }

  /** A client's queue is always a bounded, contiguous suffix of what was broadcast since it connected. */
  lemma QueueIsSuffix(size: nat, sequence: nat, missed: int, events: seq<Event>)
    ensures var c := Run(size, Connected(sequence, missed), events);
            && c.trail.head <= |c.trail.accepted| && c.queue == c.trail.accepted[c.trail.head..]
            && (size > 0 ==> |c.queue| <= size)
            && Increasing(c.trail.accepted)
  {
    hide Run;
    RunAccounted(size, sequence, missed, events);
  }

  /** What was lost between the first and the last received message: evicted, or never broadcast. */
  function Lost(c: Connection): int
    requires c.trail.taken != []
    requires forall i :: 0 <= i < |c.trail.taken| ==> c.trail.taken[i] < |c.trail.accepted|
  {
    var first, last := c.trail.taken[0], c.trail.taken[|c.trail.taken| - 1];
    Missing(c.trail.taken, first, last)
    + (CountBelow(c.failed, c.trail.accepted[last]) - CountBelow(c.failed, c.trail.accepted[first]))
  }

  lemma AccountedLoss(size: nat, c: Connection, missed: int)
    requires Accounted(size, c, missed) && c.trail.taken != []
    ensures Skipped(Fresh(missed), c.turns) == Lost(c)
  {
    hide Missing;
    hide CountBelow;
    hide Watched;
    hide Skipped;
    hide Orderly;
    var taken := c.trail.taken;
    var last := |taken| - 1;
    assert taken[0] <= taken[last] < |c.trail.accepted|;
    MissingBetween(taken, 0, last);
    var got := c.trail.TakenItems();
    assert got[0] == c.trail.accepted[taken[0]] && got[last] == c.trail.accepted[taken[last]];
  }

  /**
   * Over every run of a connection, the counter never gains more than was lost between the first and the last received
   * message, and it gains exactly that if and only if no gap's update was put off.
   */
  lemma LossIsAccounted(size: nat, sequence: nat, missed: int, events: seq<Event>)
    requires Run(size, Connected(sequence, missed), events).trail.taken != []
    ensures var c := Run(size, Connected(sequence, missed), events);
            && (forall i :: 0 <= i < |c.trail.taken| ==> c.trail.taken[i] < |c.trail.accepted|)
            && c.client.missed - missed <= Lost(c)
            && (c.client.missed - missed == Lost(c) <==> PutOff(c, missed) == 0)
            && |c.client.pending| == |Bases(Fresh(missed), c.turns)|
            && c.client.missed - missed
               == Lost(c) - Shortfall(Fresh(missed), c.turns) - Owed(c.client.pending, Bases(Fresh(missed), c.turns))
  {
    hide Run;
    hide Lost;
    hide Bases;
    hide Shortfall;
    hide Owed;
    hide Watched;
    hide Skipped;
    hide Orderly;
    hide NumbersAddUp;
    RunAccounted(size, sequence, missed, events);
    var c := Run(size, Connected(sequence, missed), events);
    AccountedLoss(size, c, missed);
    CounterRightIff(Fresh(missed), c.turns);
    CounterIs(Fresh(missed), c.turns);
  }

  /** Of the numbers from `first` up to `last`, none was used up without a broadcast. */
  ghost predicate NoFailureBetween(failed: seq<nat>, first: nat, last: nat) {
    forall i :: 0 <= i < |failed| ==> !(first <= failed[i] < last)
  }

  lemma {:induction false} CountBelowEqualIff(numbers: seq<nat>, x: nat, y: nat)
    requires x <= y
    ensures CountBelow(numbers, x) <= CountBelow(numbers, y)
    ensures CountBelow(numbers, x) == CountBelow(numbers, y) <==> NoFailureBetween(numbers, x, y)
  {
    if numbers != [] {
      var n := |numbers| - 1;
      CountBelowEqualIff(numbers[..n], x, y);
      assert NoFailureBetween(numbers, x, y) <==> NoFailureBetween(numbers[..n], x, y) && !(x <= numbers[n] < y) by {
        assert forall i :: 0 <= i < n ==> numbers[..n][i] == numbers[i];
      }
    }
  }

  /** With no update put off: the counter gains exactly the evictions if and only if every number was broadcast. */
  lemma LossIsEvictionsIff(size: nat, sequence: nat, missed: int, events: seq<Event>)
    requires Run(size, Connected(sequence, missed), events).trail.taken != []
    requires PutOff(Run(size, Connected(sequence, missed), events), missed) == 0
    ensures var c := Run(size, Connected(sequence, missed), events);
            var first, last := c.trail.taken[0], c.trail.taken[|c.trail.taken| - 1];
            && first <= last < |c.trail.accepted|
            && (c.client.missed - missed == Missing(c.trail.taken, first, last)
                <==> NoFailureBetween(c.failed, c.trail.accepted[first], c.trail.accepted[last]))
  {
    hide Run;
    hide CountBelow;
    hide Missing;
    hide NoFailureBetween;
    hide PageAgrees;
    LossIsAccounted(size, sequence, missed, events);
    RunAccounted(size, sequence, missed, events);
    var c := Run(size, Connected(sequence, missed), events);
    var first, last := c.trail.taken[0], c.trail.taken[|c.trail.taken| - 1];
    assert first <= last;
    CountBelowEqualIff(c.failed, c.trail.accepted[first], c.trail.accepted[last]);
  }

  // ---- when a number is used up -------------------------------------------

  /** The update is built from a cache that a run of quotes can leave behind. */
  ghost predicate FromQuotes(e: Event) {
    e.Update? ==> WellKeyed(e.cache)
  }

  ghost predicate FairlyBuilt(e: Event) {
    FromQuotes(e) && (e.Update? ==> FeesNonNegative(e.fees))
  }

  /** An update's number is used up without a broadcast exactly when it quotes a direction with a negative fee. */
  lemma FailsIff(size: nat, c: Connection, e: Event)
    requires FromQuotes(e)
    ensures Step(size, c, e).failed != c.failed
            <==> e.Update? && exists k :: QuotedBelowZero(e.cache, e.trading, e.fees, k)
  {
    hide Computed;
    hide QuotedBelowZero;
    if e.Update? {
      SliceRaisesIff(e.cache, e.trading, e.fees, e.now);
    }
  }

  lemma {:induction false} NothingFails(size: nat, c: Connection, events: seq<Event>)
    requires forall i :: 0 <= i < |events| ==> FairlyBuilt(events[i])
    ensures Run(size, c, events).failed == c.failed
  {
    hide Step;
    if events != [] {
      var n := |events| - 1;
      NothingFails(size, c, events[..n]);
      FailsIff(size, Run(size, c, events[..n]), events[n]);
    }
  }

  /**
   * With non-negative fees no number is used up, so the counter gains at most the evictions, and exactly them if and
   * only if no gap's update was put off.
   */
  lemma FairFeesLossIff(size: nat, sequence: nat, missed: int, events: seq<Event>)
    requires Run(size, Connected(sequence, missed), events).trail.taken != []
    requires forall i :: 0 <= i < |events| ==> FairlyBuilt(events[i])
    ensures var c := Run(size, Connected(sequence, missed), events);
            var first, last := c.trail.taken[0], c.trail.taken[|c.trail.taken| - 1];
            && c.failed == []
            && c.client.missed - missed <= Missing(c.trail.taken, first, last)
            && (c.client.missed - missed == Missing(c.trail.taken, first, last) <==> PutOff(c, missed) == 0)
  {
    hide Run;
    hide PutOff;
    NothingFails(size, Connected(sequence, missed), events);
    LossIsAccounted(size, sequence, missed, events);
  }
}
