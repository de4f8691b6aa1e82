/** The history of a first-in first-out queue whose oldest items may be taken or evicted. */
module QueueTrails {
  import opened Prelude

  /** All items ever put in, how many have left at the front, and which of those were taken rather than evicted. */
  datatype Trail<T> = Trail(accepted: seq<T>, head: nat, taken: seq<nat>) {
    /** The queue is what has not left yet: a contiguous suffix of everything accepted. */
    ghost predicate Explains(queue: seq<T>) {
      && head <= |accepted| && queue == accepted[head..]
      && Increasing(taken) && |taken| <= head
      && forall i :: 0 <= i < |taken| ==> taken[i] < head
    }

    function Accept(x: T): Trail<T> {
      this.(accepted := accepted + [x])
    }

    function Evict(): Trail<T> {
      this.(head := head + 1)
    }

    function Take(): Trail<T> {
      Trail(accepted, head + 1, taken + [head])
    }

    /** The items taken, in the order they were taken. */
    function TakenItems(): (r: seq<T>)
      requires forall i :: 0 <= i < |taken| ==> taken[i] < |accepted|
      ensures |r| == |taken| && forall i :: 0 <= i < |r| ==> r[i] == accepted[taken[i]]
    {
      seq(|taken|, i requires 0 <= i < |taken| => accepted[taken[i]])
    }
  }

  ghost predicate Increasing(s: seq<nat>) {
    forall i, j :: 0 <= i < j < |s| ==> s[i] < s[j]
  }

  lemma AcceptExplains<T>(t: Trail<T>, queue: seq<T>, x: T)
    requires t.Explains(queue)
    ensures t.Accept(x).Explains(queue + [x])
  {
  }

  lemma EvictExplains<T>(t: Trail<T>, queue: seq<T>)
    requires t.Explains(queue) && queue != []
    ensures t.Evict().Explains(queue[1..])
  {
  }

  lemma TakeExplains<T>(t: Trail<T>, queue: seq<T>)
    requires t.Explains(queue) && queue != []
    ensures t.Take().Explains(queue[1..]) && t.Take().TakenItems() == t.TakenItems() + [queue[0]]
  {
    assert t.Take().Explains(queue[1..]);
  }

  /** How many numbers of [lo, hi) are not listed. */
  function Missing(taken: seq<nat>, lo: nat, hi: nat): nat {
    if hi <= lo then 0 else Missing(taken, lo, hi - 1) + if hi - 1 in taken then 0 else 1
  }

  lemma {:induction false} AllMissing(taken: seq<nat>, lo: nat, hi: nat)
    requires lo <= hi && forall x :: lo <= x < hi ==> x !in taken
    ensures Missing(taken, lo, hi) == hi - lo
    decreases hi
  {
    if lo < hi {
      AllMissing(taken, lo, hi - 1);
    }
  }

  lemma {:induction false} MissingSplits(taken: seq<nat>, lo: nat, mid: nat, hi: nat)
    requires lo <= mid <= hi
    ensures Missing(taken, lo, hi) == Missing(taken, lo, mid) + Missing(taken, mid, hi)
    decreases hi
  {
    if mid < hi {
      MissingSplits(taken, lo, mid, hi - 1);
    }
  }

  /** Between two taken positions, as many were evicted as the positions exceed the takings. */
  lemma {:induction false} MissingBetween(taken: seq<nat>, i: nat, j: nat)
    requires Increasing(taken) && i <= j < |taken|
    ensures Missing(taken, taken[i], taken[j]) == taken[j] - taken[i] - (j - i)
    decreases j
  {
    if i < j {
      MissingBetween(taken, i, j - 1);
      var a, b := taken[j - 1], taken[j];
      assert taken[i] <= a by { if i < j - 1 { assert taken[i] < taken[j - 1]; } }
      MissingSplits(taken, taken[i], a, b);
      MissingSplits(taken, a, a + 1, b);
      forall x | a + 1 <= x < b
        ensures x !in taken
      {
        if x in taken {
          var m :| 0 <= m < |taken| && taken[m] == x;
          OrderOfIndices(taken, j - 1, m, j);
        }
      }
      AllMissing(taken, a + 1, b);
      assert Missing(taken, a, a + 1) == 0;
    }
  }

  lemma OrderOfIndices(taken: seq<nat>, i: nat, m: nat, j: nat)
    requires Increasing(taken) && i < |taken| && m < |taken| && j < |taken| && j == i + 1
    ensures !(taken[i] < taken[m] < taken[j])
  {
    if m < i {
      assert taken[m] < taken[i];
    } else if m > j {
      assert taken[j] < taken[m];
    }
  }
}
