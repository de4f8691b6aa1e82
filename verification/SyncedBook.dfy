/** What a synced local book means: it agrees with the exchange's own book, whatever the network did. */
module SyncedBooks {
  import opened Prelude
  import opened OrderBooks

  datatype BookSide = Bids | Asks

  datatype Delta = Delta(bids: Levels, asks: Levels) {
    function On(side: BookSide): Levels {
      if side.Bids? then bids else asks
    }
  }

  /** The exchange's own book: its content at number `start`, then one change per number: log[k] has start + k + 1. */
  datatype Feed = Feed(start: int, bids: Side, asks: Side, log: seq<Delta>) {
    function Initial(side: BookSide): Side {
      if side.Bids? then bids else asks
    }

    ghost predicate Valid() {
      && (forall side :: AllPositive(Initial(side)))
      && (forall k, side :: 0 <= k < |log| ==> forall w :: w in log[k].On(side) ==> w.1 >= 0.0)
    }

    ghost predicate Numbers(sequence: int) {
      start <= sequence <= start + |log|
    }
  }

  /** The true quantity at a price after `n` changes: what the last change that mentions the price wrote. */
  ghost function TrueQuantity(feed: Feed, side: BookSide, n: nat, p: real): (q: real)
    requires n <= |feed.log|
  {
    if n == 0 then Quantity(feed.Initial(side), p)
    else match LastMention(feed.log[n - 1].On(side), p)
      case Some(q) => q
      case None => TrueQuantity(feed, side, n - 1, p)
  }

  function Quantity(store: Side, p: real): real {
    if p in store then store[p] else 0.0
  }

  function StoreOf(s: BookState, side: BookSide): Side {
    if side.Bids? then s.bids else s.asks
  }

  /** What arrives at the local book, in arrival order. */
  datatype Message =
    | Snapshot(bids: Levels, asks: Levels, sequence: int)
    | Update(bids: Levels, asks: Levels, sequence: int)
  {
    function On(side: BookSide): Levels {
      if side.Bids? then bids else asks
    }
  }

  /** The pairs list price `p` with `quantity` if that is positive, and with no other positive quantity. */
  ghost predicate Shows(levels: Levels, p: real, quantity: real) {
    && (quantity > 0.0 ==> (p, quantity) in levels)
    && forall q :: (p, q) in levels && q > 0.0 ==> q == quantity
  }

  /** A snapshot shows the true book at its number (zero quantities may be listed); an update is the logged change. */
  ghost predicate Faithful(feed: Feed, m: Message) {
    && feed.Numbers(m.sequence)
    && var n := m.sequence - feed.start;
       match m {
         case Snapshot(_, _, _) =>
           forall side, p :: Shows(m.On(side), p, TrueQuantity(feed, side, n, p))
         case Update(_, _, _) =>
           n > 0 && forall side :: m.On(side) == feed.log[n - 1].On(side)
       }
  }

  function Step(s: BookState, m: Message): (r: BookState)
    requires s.Valid()
    ensures r.Valid()
  {
    match m
    case Snapshot(bids, asks, sequence) => OnSnapshot(bids, asks, sequence)
    case Update(bids, asks, sequence) => OnDelta(s, bids, asks, sequence).0
  }

  /** The book after a stream of messages, from empty. */
  function Run(stream: seq<Message>): (r: BookState)
    ensures r.Valid()
  {
    if stream == [] then EMPTY_BOOK else Step(Run(stream[..|stream| - 1]), stream[|stream| - 1])
  }

  /** The local book is the exchange's book at the local number, level by level. */
  ghost predicate Current(s: BookState, feed: Feed)
  {
    && s.sequence.Some?
    && feed.Numbers(s.sequence.value)
    && forall side :: SideAgrees(StoreOf(s, side), feed, side, s.sequence.value - feed.start)
  }

  ghost predicate SideAgrees(store: Side, feed: Feed, side: BookSide, n: nat)
    requires n <= |feed.log|
  {
    && AllPositive(store)
    && forall p :: Quantity(store, p) == TrueQuantity(feed, side, n, p)
  }

  lemma {:induction false} TrueQuantityNonNegative(feed: Feed, side: BookSide, n: nat, p: real)
    requires feed.Valid() && n <= |feed.log|
    ensures TrueQuantity(feed, side, n, p) >= 0.0
  {
    if n > 0 && LastMention(feed.log[n - 1].On(side), p).None? {
      TrueQuantityNonNegative(feed, side, n - 1, p);
    }
  }

  lemma SnapshotIsCurrent(feed: Feed, m: Message)
    requires feed.Valid() && m.Snapshot? && Faithful(feed, m)
    ensures Current(OnSnapshot(m.bids, m.asks, m.sequence), feed)
  {
    hide TrueQuantity;
    hide SnapshotSide;
    hide Faithful;
    var s, n := OnSnapshot(m.bids, m.asks, m.sequence), m.sequence - feed.start;
    SnapshotShows(feed, m);
    forall side
      ensures SideAgrees(StoreOf(s, side), feed, side, n)
    {
      forall p
        ensures p in SnapshotSide(m.On(side)) ==> SnapshotSide(m.On(side))[p] > 0.0
        ensures Quantity(SnapshotSide(m.On(side)), p) == TrueQuantity(feed, side, n, p)
      {
        SnapshotPriceIsTrue(feed, m, side, p);
      }
      assert StoreOf(s, side) == SnapshotSide(m.On(side));
    }
  }

  lemma SnapshotShows(feed: Feed, m: Message)
    requires m.Snapshot? && Faithful(feed, m)
    ensures feed.Numbers(m.sequence)
  {
  }

  /** At one price a true snapshot leaves the true quantity. */
  lemma SnapshotPriceIsTrue(feed: Feed, m: Message, side: BookSide, p: real)
    requires feed.Valid() && m.Snapshot? && Faithful(feed, m)
    ensures var store := SnapshotSide(m.On(side));
            && feed.Numbers(m.sequence)
            && (p in store ==> store[p] > 0.0)
            && Quantity(store, p) == TrueQuantity(feed, side, m.sequence - feed.start, p)
  {
    var n := m.sequence - feed.start;
    TrueQuantityNonNegative(feed, side, n, p);
    assert Shows(m.On(side), p, TrueQuantity(feed, side, n, p));
    ShownIsStored(m.On(side), p, TrueQuantity(feed, side, n, p));
  }

  lemma ShownIsStored(levels: Levels, p: real, quantity: real)
    requires Shows(levels, p, quantity) && quantity >= 0.0
    ensures var store := SnapshotSide(levels);
            && (p in store ==> store[p] > 0.0)
            && Quantity(store, p) == quantity
  {
    hide SnapshotSide;
    var store := SnapshotSide(levels);
    SnapshotSideAt(levels, p);
    if p in store {
      var i: nat :| IsLastPositive(levels, p, i) && store[p] == levels[i].1;
      assert levels[i] == (p, store[p]) && (p, store[p]) in levels;
    }
  }

  lemma ChangeKeepsAgreement(store: Side, feed: Feed, side: BookSide, n: nat)
    requires feed.Valid() && 0 < n <= |feed.log|
    requires SideAgrees(store, feed, side, n - 1)
    ensures SideAgrees(AppliedSide(store, feed.log[n - 1].On(side)), feed, side, n)
  {
    var writes := feed.log[n - 1].On(side);
    forall p
      ensures p in AppliedSide(store, writes) ==> AppliedSide(store, writes)[p] > 0.0
      ensures Quantity(AppliedSide(store, writes), p) == TrueQuantity(feed, side, n, p)
    {
      AppliedSideAt(store, writes, p);
    }
  }

  lemma UpdateKeepsCurrent(feed: Feed, s: BookState, m: Message)
    requires feed.Valid() && m.Update? && Faithful(feed, m)
    requires s.synced && Current(s, feed)
    ensures Step(s, m).synced ==> Current(Step(s, m), feed)
  {
    var r := Step(s, m);
    if r.synced && m.sequence > s.sequence.value {
      var n := m.sequence - feed.start;
      forall side
        ensures SideAgrees(StoreOf(r, side), feed, side, n)
      {
        assert m.On(side) == feed.log[n - 1].On(side);
        ChangeKeepsAgreement(StoreOf(s, side), feed, side, n);
      }
    }
  }

  /** Under any loss, duplication and reordering of true messages, a synced book is the exchange's book. */
  lemma {:induction false} SyncedMeansCorrect(feed: Feed, stream: seq<Message>)
    requires feed.Valid()
    requires forall m :: m in stream ==> Faithful(feed, m)
    ensures Run(stream).synced ==> Current(Run(stream), feed)
  {
    if stream != [] {
      var front, last := stream[..|stream| - 1], stream[|stream| - 1];
      SyncedMeansCorrect(feed, front);
      assert last in stream;
      match last {
        case Snapshot(_, _, _) => SnapshotIsCurrent(feed, last);
        case Update(_, _, _) =>
          if Run(front).synced {
            UpdateKeepsCurrent(feed, Run(front), last);
          }
      }
    }
  }

  // ---- exactly when the book is synced ------------------------------------

  ghost predicate IsLastSnapshot(stream: seq<Message>, k: nat) {
    && k < |stream|
    && stream[k].Snapshot?
    && forall i :: k < i < |stream| ==> stream[i].Update?
  }

  /** The highest number seen in stream[k..n]. */
  ghost function HighestFrom(stream: seq<Message>, k: nat, n: nat): int
    requires k < n <= |stream|
    decreases n
  {
    var here := stream[n - 1].sequence;
    if n == k + 1 then here else
      var before := HighestFrom(stream, k, n - 1);
      if here > before then here else before
  }

  /** Message `i` does not skip a number past everything seen since `k`. */
  ghost predicate Follows(stream: seq<Message>, k: nat, i: nat)
    requires k < i < |stream|
  {
    stream[i].sequence <= HighestFrom(stream, k, i) + 1
  }

  ghost predicate NoGapAfter(stream: seq<Message>, k: nat) {
    forall i :: k < i < |stream| ==> Follows(stream, k, i)
  }

  lemma {:induction false} HighestFromPrefix(stream: seq<Message>, k: nat, n: nat, m: nat)
    requires k < n <= m <= |stream|
    ensures HighestFrom(stream[..m], k, n) == HighestFrom(stream, k, n)
    decreases n
  {
    if n > k + 1 {
      HighestFromPrefix(stream, k, n - 1, m);
    }
  }

  lemma FollowsPrefix(stream: seq<Message>, k: nat, i: nat, m: nat)
    requires k < i < m <= |stream|
    ensures Follows(stream[..m], k, i) <==> Follows(stream, k, i)
  {
    HighestFromPrefix(stream, k, i, m);
  }

  lemma NoGapExtends(stream: seq<Message>, k: nat)
    requires k + 1 < |stream|
    ensures var n := |stream| - 1;
            NoGapAfter(stream, k) <==> NoGapAfter(stream[..n], k) && Follows(stream, k, n)
  {
    var n := |stream| - 1;
    forall i | k < i < n
      ensures Follows(stream[..n], k, i) <==> Follows(stream, k, i)
    {
      FollowsPrefix(stream, k, i, n);
    }
    if NoGapAfter(stream, k) {
      assert Follows(stream, k, n);
      forall i | k < i < n
        ensures Follows(stream[..n], k, i)
      {
        assert Follows(stream, k, i);
      }
    }
    if NoGapAfter(stream[..n], k) && Follows(stream, k, n) {
      forall i | k < i < |stream|
        ensures Follows(stream, k, i)
      {
        if i < n {
          assert Follows(stream[..n], k, i);
        }
      }
    }
  }

  lemma {:induction false} SyncedAfterSnapshot(stream: seq<Message>, k: nat)
    requires IsLastSnapshot(stream, k)
    ensures Run(stream).synced <==> NoGapAfter(stream, k)
    ensures Run(stream).synced ==> Run(stream).sequence == Some(HighestFrom(stream, k, |stream|))
  {
    var n := |stream| - 1;
    if k < n {
      SyncedAfterSnapshot(stream[..n], k);
      HighestFromPrefix(stream, k, n, n);
      NoGapExtends(stream, k);
    }
  }

  /** Until the first snapshot the book stays empty and unsynced, whatever updates arrive. */
  lemma {:induction false} NeverSyncedWithoutSnapshot(stream: seq<Message>)
    requires forall i :: 0 <= i < |stream| ==> stream[i].Update?
    ensures !Run(stream).synced && Run(stream).sequence.None?
    ensures Run(stream).bids == map[] == Run(stream).asks
  {
    if stream != [] {
      NeverSyncedWithoutSnapshot(stream[..|stream| - 1]);
    }
  }

  lemma {:induction false} LastSnapshotExists(stream: seq<Message>) returns (k: nat)
    requires exists i :: 0 <= i < |stream| && stream[i].Snapshot?
    ensures IsLastSnapshot(stream, k)
  {
    k := |stream| - 1;
    if !stream[k].Snapshot? {
      var i :| 0 <= i < |stream| && stream[i].Snapshot?;
      assert stream[..k][i].Snapshot?;
      var front := stream[..k];
      k := LastSnapshotExists(front);
      assert forall j :: k < j < |front| ==> front[j].Update?;
    }
  }

  /** The book is synced exactly when there was a snapshot and no number was skipped since the last one. */
  lemma SyncedIff(stream: seq<Message>)
    ensures Run(stream).synced <==> exists k :: IsLastSnapshot(stream, k) && NoGapAfter(stream, k)
  {
    hide Run;
    if i :| 0 <= i < |stream| && stream[i].Snapshot? {
      var k := LastSnapshotExists(stream);
      SyncedAfterSnapshot(stream, k);
      forall j | IsLastSnapshot(stream, j)
        ensures j == k
      {
        OneLastSnapshot(stream, j, k);
      }
    } else {
      NeverSyncedWithoutSnapshot(stream);
    }
  }

  lemma OneLastSnapshot(stream: seq<Message>, j: nat, k: nat)
    requires IsLastSnapshot(stream, j) && IsLastSnapshot(stream, k)
    ensures j == k
  {
  }

  /** What the caller is told about the last message of a stream, an update. */
  function Verdict(stream: seq<Message>): bool
    requires stream != [] && stream[|stream| - 1].Update?
  {
    var n := |stream| - 1;
    OnDelta(Run(stream[..n]), stream[n].bids, stream[n].asks, stream[n].sequence).1
  }

  /** An update is reported as good exactly when there was a snapshot and no number was skipped up to it. */
  lemma VerdictIff(stream: seq<Message>)
    requires stream != [] && stream[|stream| - 1].Update?
    ensures Verdict(stream) <==> exists k :: IsLastSnapshot(stream, k) && NoGapAfter(stream, k)
  {
    var n := |stream| - 1;
    DeltaVerdict(Run(stream[..n]), stream[n].bids, stream[n].asks, stream[n].sequence);
    SyncedIff(stream);
  }
}
