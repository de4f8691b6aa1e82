/** The local order book of one (exchange, symbol) pair: a snapshot/delta state machine with gap detection. */
module OrderBooks {
  import opened Prelude

  datatype Level = Level(price: real, quantity: real)

  /** The (price, quantity) pairs of one side of a message, in message order. */
  type Levels = seq<(real, real)>

  /** One side of the book: price to quantity. */
  type Side = map<real, real>

  // ---- one side -----------------------------------------------------------

  /** A dictionary comprehension over the pairs with a positive quantity: later pairs overwrite earlier ones. */
  function SnapshotSide(levels: Levels): Side {
    if levels == [] then map[] else
      var last := levels[|levels| - 1];
      var store := SnapshotSide(levels[..|levels| - 1]);
      if last.1 > 0.0 then store[last.0 := last.1] else store
  }

  function AppliedSide(store: Side, levels: Levels): Side {
    if levels == [] then store else
      var last := levels[|levels| - 1];
      var before := AppliedSide(store, levels[..|levels| - 1]);
      if last.1 == 0.0 then before - {last.0} else before[last.0 := last.1]
  }

  /** The quantity that the last pair for price `p` carries. */
  function LastMention(levels: Levels, p: real): (q: Option<real>)
    ensures q.Some? <==> exists i :: 0 <= i < |levels| && levels[i].0 == p
    ensures q.Some? ==> (p, q.value) in levels
  {
    if levels == [] then None else
      var last := levels[|levels| - 1];
      if last.0 == p then
        assert levels[|levels| - 1] in levels;
        Some(last.1)
      else LastMention(levels[..|levels| - 1], p)
  }

  lemma {:induction false} AppliedSideAt(store: Side, levels: Levels, p: real)
    ensures LastMention(levels, p).None? ==>
              (p in AppliedSide(store, levels) <==> p in store) &&
              (p in store ==> AppliedSide(store, levels)[p] == store[p])
    ensures LastMention(levels, p).Some? ==>
              var q := LastMention(levels, p).value;
              (p in AppliedSide(store, levels) <==> q != 0.0) &&
              (q != 0.0 ==> AppliedSide(store, levels)[p] == q)
  {
    if levels != [] {
      AppliedSideAt(store, levels[..|levels| - 1], p);
    }
  }

  /** Pair `i` is the last one that lists price `p` with a positive quantity. */
  ghost predicate IsLastPositive(levels: Levels, p: real, i: nat) {
    && i < |levels| && levels[i].0 == p && levels[i].1 > 0.0
    && forall j :: i < j < |levels| && levels[j].0 == p ==> levels[j].1 <= 0.0
  }

  lemma {:induction false} SnapshotSideAt(levels: Levels, p: real)
    ensures p in SnapshotSide(levels) <==> exists q :: q > 0.0 && (p, q) in levels
    ensures p in SnapshotSide(levels) ==>
              exists i: nat :: IsLastPositive(levels, p, i) && SnapshotSide(levels)[p] == levels[i].1
  {
    if levels != [] {
      var n := |levels| - 1;
      var front, last := levels[..n], levels[n];
      assert levels == front + [last];
      SnapshotSideAt(front, p);
      if last.0 == p && last.1 > 0.0 {
        assert (p, last.1) in levels;
        assert IsLastPositive(levels, p, n);
      } else if p in SnapshotSide(front) {
        var i: nat :| IsLastPositive(front, p, i) && SnapshotSide(front)[p] == front[i].1;
        assert IsLastPositive(levels, p, i);
      }
    }
  }

  ghost predicate AllPositive(store: Side) {
    forall p :: p in store ==> store[p] > 0.0
  }

  ghost predicate EndsNonNegative(levels: Levels, p: real) {
    LastMention(levels, p).Some? ==> LastMention(levels, p).value >= 0.0
  }

  /** A delta keeps every stored quantity positive exactly when no price ends up with a negative one. */
  lemma DeltaKeepsPositiveIff(store: Side, levels: Levels)
    requires AllPositive(store)
    ensures AllPositive(AppliedSide(store, levels)) <==> forall p :: EndsNonNegative(levels, p)
  {
    var after := AppliedSide(store, levels);
    forall p
      ensures p in after ==> (after[p] > 0.0 <==> EndsNonNegative(levels, p))
      ensures p !in after ==> EndsNonNegative(levels, p)
    {
      AppliedSideAt(store, levels, p);
    }
  }

  // ---- the state machine --------------------------------------------------

  datatype BookState = BookState(bids: Side, asks: Side, sequence: Option<int>, synced: bool) {
    predicate Valid() {
      synced ==> sequence.Some?
    }
  }

  const EMPTY_BOOK := BookState(map[], map[], None, false)

  function OnSnapshot(bids: Levels, asks: Levels, sequence: int): BookState {
    BookState(SnapshotSide(bids), SnapshotSide(asks), Some(sequence), true)
  }

  /** The book after a delta, and whether the delta is reported as good. */
  function OnDelta(s: BookState, bids: Levels, asks: Levels, sequence: int): (r: (BookState, bool))
    requires s.Valid()
    ensures r.0.Valid()
  {
    if !s.synced then (s, false)
    else if sequence <= s.sequence.value then (s, true)
    else if sequence > s.sequence.value + 1 then (s.(synced := false), false)
    else (BookState(AppliedSide(s.bids, bids), AppliedSide(s.asks, asks), Some(sequence), true), true)
  }

  /**
   * A delta is reported as good exactly when the book is synced after it: when it was synced before and no number is
   * skipped. Only the next number changes anything but the sync mark.
   */
  lemma DeltaVerdict(s: BookState, bids: Levels, asks: Levels, sequence: int)
    requires s.Valid()
    ensures var (after, ok) := OnDelta(s, bids, asks, sequence);
            var next := s.synced && sequence == s.sequence.value + 1;
            && (ok <==> after.synced)
            && (ok <==> s.synced && sequence <= s.sequence.value + 1)
            && (!next ==> after.bids == s.bids && after.asks == s.asks && after.sequence == s.sequence)
            && (next ==> after.sequence == Some(sequence))
  {
  }

  class OrderBook {
    var bids: Side
    var asks: Side
    var sequence: Option<int>
    var synced: bool

    function State(): BookState
      reads this
    {
      BookState(bids, asks, sequence, synced)
    }

    ghost predicate Valid()
      reads this
    {
      State().Valid()
    }

    constructor ()
      ensures Valid() && State() == EMPTY_BOOK
    {
      bids, asks, sequence, synced := map[], map[], None, false;
    }

    method ApplySnapshot(newBids: Levels, newAsks: Levels, newSequence: int)
      modifies this
      ensures Valid() && State() == OnSnapshot(newBids, newAsks, newSequence)
    {
      bids := FilterPositive(newBids);
      asks := FilterPositive(newAsks);
      sequence := Some(newSequence);
      synced := true;
    }

    method ApplyDelta(deltaBids: Levels, deltaAsks: Levels, newSequence: int) returns (ok: bool)
      requires Valid()
      modifies this
      ensures Valid() && (State(), ok) == OnDelta(old(State()), deltaBids, deltaAsks, newSequence)
    {
      if !synced {
        return false;
      }
      if newSequence <= sequence.value {
        return true;
      }
      if newSequence > sequence.value + 1 {
        synced := false;
        return false;
      }
      sequence := Some(newSequence);
      bids := ApplySide(bids, deltaBids);
      asks := ApplySide(asks, deltaAsks);
      return true;
    }

    static method FilterPositive(levels: Levels) returns (store: Side)
      ensures store == SnapshotSide(levels)
    {
      store := map[];
      for i := 0 to |levels|
        invariant store == SnapshotSide(levels[..i])
      {
        assert levels[..i + 1][..i] == levels[..i];
        if levels[i].1 > 0.0 {
          store := store[levels[i].0 := levels[i].1];
        }
      }
      assert levels[..|levels|] == levels;
    }

    static method ApplySide(initial: Side, levels: Levels) returns (store: Side)
      ensures store == AppliedSide(initial, levels)
    {
      store := initial;
      for i := 0 to |levels|
        invariant store == AppliedSide(initial, levels[..i])
      {
        assert levels[..i + 1][..i] == levels[..i];
        if levels[i].1 == 0.0 {
          store := store - {levels[i].0};
        } else {
          store := store[levels[i].0 := levels[i].1];
        }
      }
      assert levels[..|levels|] == levels;
    }

    function BestBid(): Option<Level>
      reads this
    {
      BestBidOf(bids)
    }

    function BestAsk(): Option<Level>
      reads this
    {
      BestAskOf(asks)
    }

    function BidsSorted(): seq<Level>
      reads this
    {
      BidsOf(bids)
    }

    function AsksSorted(): seq<Level>
      reads this
    {
      AsksOf(asks)
    }

    /** How many levels each sorted view has. */
    function Depth(): (d: (int, int))
      reads this
      ensures d == (|BidsSorted()|, |AsksSorted()|)
    {
      ViewSizes(bids);
      ViewSizes(asks);
      (|bids|, |asks|)
    }
  }

  // ---- sorted views -------------------------------------------------------

  lemma SomeMember<T>(s: set<T>) returns (x: T)
    requires s != {}
    ensures x in s
  {
    x :| x in s;
  }

  /** A finite non-empty set of prices has a least and a greatest member. */
  lemma {:induction false} ExtremesExist(keys: set<real>)
    requires keys != {}
    ensures exists m :: m in keys && forall x :: x in keys ==> m <= x
    ensures exists m :: m in keys && forall x :: x in keys ==> x <= m
  {
    var k := SomeMember(keys);
    var rest := keys - {k};
    assert forall x :: x in keys <==> x == k || x in rest;
    if rest != {} {
      ExtremesExist(rest);
      var lo :| lo in rest && forall x :: x in rest ==> lo <= x;
      var hi :| hi in rest && forall x :: x in rest ==> x <= hi;
      var least, greatest := Min(k, lo), Max(k, hi);
      assert least in keys && forall x :: x in keys ==> least <= x;
      assert greatest in keys && forall x :: x in keys ==> x <= greatest;
    }
  }

  function Least(keys: set<real>): (m: real)
    requires keys != {}
    ensures m in keys && forall x :: x in keys ==> m <= x
  {
    ExtremesExist(keys);
    var m :| m in keys && forall x :: x in keys ==> m <= x;
    m
  }

  function Greatest(keys: set<real>): (m: real)
    requires keys != {}
    ensures m in keys && forall x :: x in keys ==> x <= m
  {
    ExtremesExist(keys);
    var m :| m in keys && forall x :: x in keys ==> x <= m;
    m
  }

  lemma PrependedKeys(keys: set<real>, m: real, others: set<real>, rest: seq<real>)
    requires m in keys && others == keys - {m}
    requires |rest| == |others|
    requires forall x :: x in rest <==> x in others
    ensures |[m] + rest| == |keys|
    ensures forall x :: x in [m] + rest <==> x in keys
    ensures forall j :: 0 <= j < |rest| ==> rest[j] in keys && rest[j] != m
  {
    forall j | 0 <= j < |rest|
      ensures rest[j] in others
    {
      var x := rest[j];
      assert x in rest;
    }
    assert forall x :: x in [m] + rest <==> x == m || x in rest;
  }

  function Ascending(keys: set<real>): (r: seq<real>)
    ensures |r| == |keys|
    ensures forall x :: x in r <==> x in keys
    ensures forall i, j :: 0 <= i < j < |r| ==> r[i] < r[j]
  {
    if keys == {} then [] else
      var m := Least(keys);
      var rest := Ascending(keys - {m});
      PrependedKeys(keys, m, keys - {m}, rest);
      [m] + rest
  }

  function Descending(keys: set<real>): (r: seq<real>)
    ensures |r| == |keys|
    ensures forall x :: x in r <==> x in keys
    ensures forall i, j :: 0 <= i < j < |r| ==> r[i] > r[j]
  {
    if keys == {} then [] else
      var m := Greatest(keys);
      var rest := Descending(keys - {m});
      PrependedKeys(keys, m, keys - {m}, rest);
      [m] + rest
  }

  function LevelsAt(store: Side, prices: seq<real>): (r: seq<Level>)
    requires forall i :: 0 <= i < |prices| ==> prices[i] in store
    ensures |r| == |prices|
    ensures forall i :: 0 <= i < |r| ==> r[i] == Level(prices[i], store[prices[i]])
  {
    seq(|prices|, i requires 0 <= i < |prices| => Level(prices[i], store[prices[i]]))
  }

  function AsksOf(store: Side): seq<Level> {
    LevelsAt(store, Ascending(store.Keys))
  }

  function BidsOf(store: Side): seq<Level> {
    LevelsAt(store, Descending(store.Keys))
  }

  function BestAskOf(store: Side): Option<Level> {
    if store == map[] then None else
      var price := Least(store.Keys);
      Some(Level(price, store[price]))
  }

  function BestBidOf(store: Side): Option<Level> {
    if store == map[] then None else
      var price := Greatest(store.Keys);
      Some(Level(price, store[price]))
  }

  lemma ViewSizes(store: Side)
    ensures |AsksOf(store)| == |store| == |BidsOf(store)|
  {
  }

  /** The sorted ask view: strictly rising prices, exactly the stored levels, best ask first. */
  lemma AsksSortedView(store: Side)
    ensures forall i, j :: 0 <= i < j < |AsksOf(store)| ==> AsksOf(store)[i].price < AsksOf(store)[j].price
    ensures forall l: Level :: l in AsksOf(store) <==> l.price in store && store[l.price] == l.quantity
    ensures BestAskOf(store) == if AsksOf(store) == [] then None else Some(AsksOf(store)[0])
  {
    var prices, levels := Ascending(store.Keys), AsksOf(store);
    forall l: Level | l.price in store && store[l.price] == l.quantity
      ensures l in levels
    {
      var i :| 0 <= i < |prices| && prices[i] == l.price;
      assert levels[i] == l;
    }
    if store != map[] {
      var best := Least(store.Keys);
      assert best in prices;
    }
  }

  /** The sorted bid view: strictly falling prices, exactly the stored levels, best bid first. */
  lemma BidsSortedView(store: Side)
    ensures forall i, j :: 0 <= i < j < |BidsOf(store)| ==> BidsOf(store)[i].price > BidsOf(store)[j].price
    ensures forall l: Level :: l in BidsOf(store) <==> l.price in store && store[l.price] == l.quantity
    ensures BestBidOf(store) == if BidsOf(store) == [] then None else Some(BidsOf(store)[0])
  {
    var prices, levels := Descending(store.Keys), BidsOf(store);
    forall l: Level | l.price in store && store[l.price] == l.quantity
      ensures l in levels
    {
      var i :| 0 <= i < |prices| && prices[i] == l.price;
      assert levels[i] == l;
    }
    if store != map[] {
      var best := Greatest(store.Keys);
      assert best in prices;
    }
  }
}
