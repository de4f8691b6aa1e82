/** In which order quotes, rows and closed events come out. */
module SpreadOrder {
  import opened Prelude
  import opened Dicts
  import opened QuoteCaching
  import opened SpreadRows
  import opened SpreadEvents

  // ---- the cache lists exchanges in the order they were first seen --------

  /** The first update of an exchange, or the length of the run if there is none. */
  function FirstSeen(updates: seq<Quote>, e: Exchange): (n: nat)
    ensures n <= |updates|
    ensures n < |updates| ==> updates[n].exchange == e
    ensures forall i :: 0 <= i < n ==> updates[i].exchange != e
  {
    if updates == [] then 0
    else if updates[0].exchange == e then 0
    else
      var rest := FirstSeen(updates[1..], e);
      assert forall i :: 0 < i < |updates| ==> updates[i] == updates[1..][i - 1];
      rest + 1
  }

  /** Every key was seen, and the keys stand in the order in which they were first seen. */
  ghost predicate InSeenOrder(cache: Cache, updates: seq<Quote>) {
    && (forall i :: 0 <= i < |cache| ==> FirstSeen(updates, cache[i].key) < |updates|)
    && (forall i, j :: 0 <= i < j < |cache| ==>
          FirstSeen(updates, cache[i].key) < FirstSeen(updates, cache[j].key))
  }

  lemma SeenStays(updates: seq<Quote>, q: Quote, e: Exchange)
    ensures FirstSeen(updates + [q], e)
            == if FirstSeen(updates, e) < |updates| then FirstSeen(updates, e)
               else if q.exchange == e then |updates| else |updates| + 1
  {
    var n, m := FirstSeen(updates, e), FirstSeen(updates + [q], e);
    if n < |updates| {
      assert (updates + [q])[n].exchange == e;
      assert m < |updates| ==> updates[m].exchange == e;
    } else {
      assert forall i :: 0 <= i < |updates| ==> (updates + [q])[i].exchange != e;
      assert (updates + [q])[|updates|] == q;
    }
  }

  ghost predicate AllListed(cache: Cache, updates: seq<Quote>) {
    forall q :: q in updates ==> HasKey(cache, q.exchange)
  }

  /** Over any run of updates the cache lists the exchanges in the order in which they were first seen. */
  lemma {:induction false} CacheInSeenOrder(updates: seq<Quote>)
    ensures InSeenOrder(After(updates), updates)
    ensures AllListed(After(updates), updates)
  {
    hide InSeenOrder;
    hide Updated;
    if updates == [] {
      NothingSeen();
    } else {
      var n := |updates| - 1;
      assert updates == updates[..n] + [updates[n]];
      CacheInSeenOrder(updates[..n]);
      UpdateInSeenOrder(After(updates[..n]), updates[..n], updates[n]);
    }
  }

  lemma NothingSeen()
    ensures InSeenOrder([], [])
  {
  }

  lemma UpdateInSeenOrder(cache: Cache, updates: seq<Quote>, q: Quote)
    requires InSeenOrder(cache, updates) && AllListed(cache, updates)
    ensures InSeenOrder(Updated(cache, q), updates + [q]) && AllListed(Updated(cache, q), updates + [q])
  {
    hide FirstSeen;
    hide Updated;
    hide HasKey;
    hide AllListed;
    var after := Updated(cache, q);
    UpdatePlaces(cache, q);
    SeenAfterUpdate(cache, updates, q);
    StillListed(cache, updates, q);
  }

  lemma SeenAfterUpdate(cache: Cache, updates: seq<Quote>, q: Quote)
    requires InSeenOrder(cache, updates) && AllListed(cache, updates)
    ensures forall i :: 0 <= i < |cache| ==>
              FirstSeen(updates + [q], cache[i].key) == FirstSeen(updates, cache[i].key)
    ensures !HasKey(cache, q.exchange) ==> FirstSeen(updates + [q], q.exchange) == |updates|
  {
    hide FirstSeen;
    hide HasKey;
    forall i | 0 <= i < |cache|
      ensures FirstSeen(updates + [q], cache[i].key) == FirstSeen(updates, cache[i].key)
    {
      SeenStays(updates, q, cache[i].key);
    }
    SeenStays(updates, q, q.exchange);
    if FirstSeen(updates, q.exchange) < |updates| {
      SeenIsListed(cache, updates, q.exchange);
    }
  }

  lemma StillListed(cache: Cache, updates: seq<Quote>, q: Quote)
    requires AllListed(cache, updates)
    ensures AllListed(Updated(cache, q), updates + [q])
  {
    hide Updated;
    var after := Updated(cache, q);
    UpdatePlaces(cache, q);
    forall p | p in updates + [q]
      ensures HasKey(after, p.exchange)
    {
      if p in updates {
        KeptKey(cache, after, p.exchange);
      }
    }
  }

  lemma SeenIsListed(cache: Cache, updates: seq<Quote>, e: Exchange)
    requires FirstSeen(updates, e) < |updates| && AllListed(cache, updates)
    ensures HasKey(cache, e)
  {
    assert updates[FirstSeen(updates, e)] in updates;
  }

  lemma KeptKey(cache: Cache, after: Cache, e: Exchange)
    requires HasKey(cache, e) && |cache| <= |after|
    requires forall i :: 0 <= i < |cache| ==> after[i].key == cache[i].key
    ensures HasKey(after, e)
  {
    var i :| 0 <= i < |cache| && cache[i].key == e;
    assert after[i].key == e;
  }

  /** An update keeps every exchange in its place; one not listed yet goes to the end. */
  lemma UpdatePlaces(cache: Cache, q: Quote)
    ensures var after := Updated(cache, q);
            && |after| == |cache| + (if HasKey(cache, q.exchange) then 0 else 1)
            && (forall i :: 0 <= i < |cache| ==> after[i].key == cache[i].key)
            && (!HasKey(cache, q.exchange) ==> after[|cache|].key == q.exchange)
            && HasKey(after, q.exchange)
  {
    var markets := MarketsOf(cache, q.exchange);
    var symbols := SymbolsOf(markets, q.marketType);
    var stored := if Accepts(Lookup(cache, KeyOf(q)), q) then symbols[q.symbol := q] else symbols;
    var value := markets[q.marketType := stored];
    if HasKey(cache, q.exchange) {
      PutKeepsPlaces(cache, q.exchange, value);
      KeptKey(cache, Put(cache, q.exchange, value), q.exchange);
    } else {
      PutNew(cache, q.exchange, value);
      assert Put(cache, q.exchange, value)[|cache|].key == q.exchange;
    }
  }

  /** A snapshot goes through the cache in order. */
  lemma {:induction false} SnapshotConcat(a: Cache, b: Cache, m: MarketType, s: string)
    ensures SnapshotOf(a + b, m, s) == SnapshotOf(a, m, s) + SnapshotOf(b, m, s)
  {
    if b == [] {
      assert a + b == a;
    } else {
      assert (a + b)[..|a + b| - 1] == a + b[..|b| - 1];
      SnapshotConcat(a, b[..|b| - 1], m, s);
    }
  }

  // ---- pairs --------------------------------------------------------------

  /** Where `j` stands among the partners of `i`, which leave out `i` itself. */
  function PartnerAt(i: nat, j: nat): nat
    requires i != j
  {
    if j < i then j else j - 1
  }

  lemma {:induction false} PairsFromPlaces<T>(s: seq<T>, i: nat, n: nat)
    requires i < |s| && n <= |s|
    ensures |PairsFrom(s, i, n)| == if i < n then n - 1 else n
    ensures forall j :: 0 <= j < n && j != i ==> PairsFrom(s, i, n)[PartnerAt(i, j)] == (s[i], s[j])
  {
    if n > 0 {
      PairsFromPlaces(s, i, n - 1);
    }
  }

  /** Before the pairs that start with s[i] come exactly those that start with an earlier member. */
  lemma {:induction false} PermutationsPlaces<T>(s: seq<T>, m: nat, i: nat)
    requires i < m <= |s|
    ensures Permutations(s, i) + PairsFrom(s, i, |s|) <= Permutations(s, m)
  {
    hide PairsFrom;
    assert Permutations(s, m) == Permutations(s, m - 1) + PairsFrom(s, m - 1, |s|);
    if i < m - 1 {
      PermutationsPlaces(s, m - 1, i);
      PrefixGrows(Permutations(s, i) + PairsFrom(s, i, |s|), Permutations(s, m - 1), PairsFrom(s, m - 1, |s|));
    }
  }

  lemma PrefixGrows<T>(a: seq<T>, b: seq<T>, c: seq<T>)
    requires a <= b
    ensures a <= b + c
  {
  }

  // ---- closed events ------------------------------------------------------

  /** Events close in the order of the rows that close them. */
  lemma {:induction false} ClosedInRowOrder(open: Open, a: seq<SpreadRow>, b: seq<SpreadRow>, threshold: real, now: int)
    ensures OpenAfterRows(open, a + b, threshold, now)
            == OpenAfterRows(OpenAfterRows(open, a, threshold, now), b, threshold, now)
    ensures ClosedByRows(open, a + b, threshold, now)
            == ClosedByRows(open, a, threshold, now)
               + ClosedByRows(OpenAfterRows(open, a, threshold, now), b, threshold, now)
  {
    hide OpenAfterRow;
    hide ClosedByRow;
    if b == [] {
      assert a + b == a;
    } else {
      assert (a + b)[..|a + b| - 1] == a + b[..|b| - 1];
      ClosedInRowOrder(open, a, b[..|b| - 1], threshold, now);
    }
  }

  /** Directions that vanished close, and the others stay, in the order in which they opened. */
  lemma {:induction false} SweptInOpenOrder(a: Open, b: Open, seen: set<Direction>, threshold: real, now: int)
    ensures Swept(a + b, seen) == Swept(a, seen) + Swept(b, seen)
    ensures ClosedBySweep(a + b, seen, threshold, now)
            == ClosedBySweep(a, seen, threshold, now) + ClosedBySweep(b, seen, threshold, now)
  {
    hide Closed;
    if b == [] {
      assert a + b == a;
    } else {
      assert (a + b)[..|a + b| - 1] == a + b[..|b| - 1];
      SweptInOpenOrder(a, b[..|b| - 1], seen, threshold, now);
    }
  }

  /** A flush closes in the order in which the events opened. */
  lemma {:induction false} FlushedInOpenOrder(a: Open, b: Open, threshold: real, now: int)
    ensures Flushed(a + b, threshold, now) == Flushed(a, threshold, now) + Flushed(b, threshold, now)
  {
    hide Closed;
    if b == [] {
      assert a + b == a;
    } else {
      assert (a + b)[..|a + b| - 1] == a + b[..|b| - 1];
      FlushedInOpenOrder(a, b[..|b| - 1], threshold, now);
    }
  }

  /** An event keeps its place while it goes on; a new one opens behind all the others. */
  lemma OpenPlaces(open: Open, row: SpreadRow, threshold: real, now: int)
    requires IsActive(row, threshold)
    ensures var after := OpenAfterRow(open, row, threshold, now);
            && |after| == |open| + (if HasKey(open, row.Direction()) then 0 else 1)
            && (forall i :: 0 <= i < |open| ==> after[i].key == open[i].key)
            && (!HasKey(open, row.Direction()) ==> after[|open|] == Item(row.Direction(), Started(row, now)))
  {
    hide Started;
    hide Extended;
    var key := row.Direction();
    if HasKey(open, key) {
      PutKeepsPlaces(open, key, Extended(Find(open, key).value, row));
    } else {
      PutNew(open, key, Started(row, now));
    }
  }
}
