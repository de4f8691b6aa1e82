/** The fixed one-second window rate limiter, and what it bounds in sliding time. */
module RateLimiting {
  import opened Prelude

  datatype Limiter = Limiter(max: nat, window: Option<int>, count: nat)

  function NewLimiter(max: nat): Limiter {
    Limiter(max, None, 0)
  }

  /** The limiter after a call at `now`, and whether the call is allowed. */
  function Allowed(limiter: Limiter, now: int): (Limiter, bool) {
    var count := if limiter.window == Some(now / 1000) then limiter.count else 0;
    if count >= limiter.max then (Limiter(limiter.max, Some(now / 1000), count), false)
    else (Limiter(limiter.max, Some(now / 1000), count + 1), true)
  }

  class RateLimiter {
    const max: nat
    var window: Option<int>
    var count: nat

    function State(): Limiter
      reads this
    {
      Limiter(max, window, count)
    }

    constructor (maxPerSecond: nat)
      ensures State() == NewLimiter(maxPerSecond)
    {
      max, window, count := maxPerSecond, None, 0;
    }

    method Allow(now: int) returns (ok: bool)
      modifies this
      ensures (State(), ok) == Allowed(old(State()), now)
    {
      var current := now / 1000;
      if window != Some(current) {
        window := Some(current);
        count := 0;
      }
      if count >= max {
        return false;
      }
      count := count + 1;
      return true;
    }
  }

  // ---- runs ---------------------------------------------------------------

  function After(max: nat, times: seq<int>): Limiter {
    if times == [] then NewLimiter(max)
    else Allowed(After(max, times[..|times| - 1]), times[|times| - 1]).0
  }

  /** Whether each call of a run is allowed. */
  function Verdicts(max: nat, times: seq<int>): (ok: seq<bool>)
    ensures |ok| == |times|
  {
    if times == [] then [] else
      var front := times[..|times| - 1];
      Verdicts(max, front) + [Allowed(After(max, front), times[|times| - 1]).1]
  }

  ghost predicate NonDecreasing(times: seq<int>) {
    forall i, j :: 0 <= i < j < |times| ==> times[i] <= times[j]
  }

  /** The calls of the half-open interval [from, to). */
  function CallsIn(times: seq<int>, from: int, to: int): nat {
    if times == [] then 0 else
      CallsIn(times[..|times| - 1], from, to) + if from <= times[|times| - 1] < to then 1 else 0
  }

  /** The allowed calls of the half-open interval [from, to). */
  function AcceptedIn(times: seq<int>, ok: seq<bool>, from: int, to: int): nat
    requires |ok| == |times|
  {
    if times == [] then 0 else
      var n := |times| - 1;
      AcceptedIn(times[..n], ok[..n], from, to) + if ok[n] && from <= times[n] < to then 1 else 0
  }

  function MinNat(a: nat, b: nat): nat {
    if a <= b then a else b
  }

  lemma {:induction false} NoCallsBefore(times: seq<int>, from: int, to: int)
    requires forall t :: t in times ==> t < from
    ensures CallsIn(times, from, to) == 0
  {
    if times != [] {
      var n := |times| - 1;
      assert times[n] in times;
      assert forall t :: t in times[..n] ==> t in times;
      NoCallsBefore(times[..n], from, to);
    }
  }

  /** The limiter's state is the last call's second and how much of it is used up. */
  lemma {:induction false} AfterIsLastSecond(max: nat, times: seq<int>)
    requires NonDecreasing(times)
    ensures After(max, times).max == max
    ensures times == [] ==> After(max, times).window.None?
    ensures times != [] ==>
              var w := times[|times| - 1] / 1000;
              && After(max, times).window == Some(w)
              && After(max, times).count == MinNat(max, CallsIn(times, w * 1000, w * 1000 + 1000))
  {
    if times != [] {
      var n := |times| - 1;
      var front, w := times[..n], times[n] / 1000;
      AfterIsLastSecond(max, front);
      if front == [] || front[n - 1] / 1000 != w {
        forall t | t in front
          ensures t < w * 1000
        {
          var i :| 0 <= i < n && front[i] == t;
          assert times[i] <= times[n - 1] <= times[n];
        }
        NoCallsBefore(front, w * 1000, w * 1000 + 1000);
      }
    }
  }

  /** The last call of a run is allowed exactly if its second is not used up yet. */
  lemma LastVerdict(max: nat, times: seq<int>)
    requires NonDecreasing(times) && times != []
    ensures var n := |times| - 1;
            var w := times[n] / 1000;
            Allowed(After(max, times[..n]), times[n]).1 <==> CallsIn(times[..n], w * 1000, w * 1000 + 1000) < max
  {
    hide CallsIn;
    var n := |times| - 1;
    var front, w := times[..n], times[n] / 1000;
    AfterIsLastSecond(max, front);
    if front == [] || front[n - 1] / 1000 != w {
      forall t | t in front
        ensures t < w * 1000
      {
        var i :| 0 <= i < n && front[i] == t;
        assert times[i] <= times[n - 1] <= times[n];
      }
      NoCallsBefore(front, w * 1000, w * 1000 + 1000);
    }
  }

  /** Each aligned second accepts as many calls as it gets, up to the maximum. */
  lemma {:induction false} AlignedSecondExact(max: nat, times: seq<int>, w: int)
    requires NonDecreasing(times)
    ensures AcceptedIn(times, Verdicts(max, times), w * 1000, w * 1000 + 1000)
            == MinNat(max, CallsIn(times, w * 1000, w * 1000 + 1000))
  {
    hide Allowed;
    hide After;
    if times != [] {
      var n := |times| - 1;
      AlignedSecondExact(max, times[..n], w);
      LastVerdict(max, times);
      assert Verdicts(max, times)[..n] == Verdicts(max, times[..n]);
      SecondOf(times[n], w);
    }
  }

  lemma SecondOf(time: int, w: int)
    ensures w * 1000 <= time < w * 1000 + 1000 <==> time / 1000 == w
  {
  }

  lemma {:induction false} AcceptedSplits(times: seq<int>, ok: seq<bool>, a: int, b: int, c: int)
    requires |ok| == |times| && a <= b <= c
    ensures AcceptedIn(times, ok, a, c) == AcceptedIn(times, ok, a, b) + AcceptedIn(times, ok, b, c)
  {
    if times != [] {
      var n := |times| - 1;
      AcceptedSplits(times[..n], ok[..n], a, b, c);
    }
  }

  /** `n` consecutive seconds accept at most n times the maximum. */
  lemma {:induction false} SecondsBound(max: nat, times: seq<int>, w: int, n: nat)
    requires NonDecreasing(times)
    ensures AcceptedIn(times, Verdicts(max, times), w * 1000, (w + n) * 1000) <= n * max
    decreases n
  {
    var ok := Verdicts(max, times);
    if n == 0 {
      NothingInEmptyInterval(times, ok, w * 1000);
    } else {
      SecondsBound(max, times, w, n - 1);
      AlignedSecondExact(max, times, w + n - 1);
      AcceptedSplits(times, ok, w * 1000, (w + n - 1) * 1000, (w + n) * 1000);
      assert n * max == (n - 1) * max + max;
    }
  }

  lemma {:induction false} NothingInEmptyInterval(times: seq<int>, ok: seq<bool>, a: int)
    requires |ok| == |times|
    ensures AcceptedIn(times, ok, a, a) == 0
  {
    if times != [] {
      var n := |times| - 1;
      NothingInEmptyInterval(times[..n], ok[..n], a);
    }
  }

  /** Any half-open interval of `length` ms accepts at most (ceil(length / 1000) + 1) times the maximum. */
  lemma SlidingBound(max: nat, times: seq<int>, from: int, length: nat)
    requires NonDecreasing(times)
    ensures AcceptedIn(times, Verdicts(max, times), from, from + length) <= ((length + 999) / 1000 + 1) * max
  {
    var ok := Verdicts(max, times);
    var w, n := from / 1000, (length + 999) / 1000 + 1;
    SecondsBound(max, times, w, n);
    AcceptedSplits(times, ok, w * 1000, from, (w + n) * 1000);
    AcceptedSplits(times, ok, from, from + length, (w + n) * 1000);
  }

  function Repeat(t: int, n: nat): (s: seq<int>)
    ensures |s| == n && forall i :: 0 <= i < n ==> s[i] == t
  {
    seq(n, _ => t)
  }

  lemma {:induction false} AllCallsCounted(times: seq<int>, from: int, to: int)
    requires forall t :: t in times ==> from <= t < to
    ensures CallsIn(times, from, to) == |times|
  {
    if times != [] {
      var n := |times| - 1;
      assert times[n] in times;
      assert forall t :: t in times[..n] ==> t in times;
      AllCallsCounted(times[..n], from, to);
    }
  }

  lemma {:induction false} CallsConcat(s: seq<int>, t: seq<int>, from: int, to: int)
    ensures CallsIn(s + t, from, to) == CallsIn(s, from, to) + CallsIn(t, from, to)
  {
    if t == [] {
      assert s + t == s;
    } else {
      CallsConcat(s, t[..|t| - 1], from, to);
      assert (s + t)[..|s + t| - 1] == s + t[..|t| - 1];
    }
  }

  /** The sliding bound is reached: twice the maximum can pass within two milliseconds. */
  lemma BurstAcrossBoundary(max: nat)
    ensures var times := Repeat(999, max) + Repeat(1000, max);
            NonDecreasing(times) && AcceptedIn(times, Verdicts(max, times), 999, 1001) == 2 * max
  {
    var s, t := Repeat(999, max), Repeat(1000, max);
    var times := s + t;
    var ok := Verdicts(max, times);
    AlignedSecondExact(max, times, 0);
    AlignedSecondExact(max, times, 1);
    CallsConcat(s, t, 0, 1000);
    CallsConcat(s, t, 1000, 2000);
    AllCallsCounted(s, 0, 1000);
    AllCallsCounted(t, 1000, 2000);
    AcceptedSplits(times, ok, 0, 1000, 2000);
    AcceptedSplits(times, ok, 0, 999, 1000);
    AcceptedSplits(times, ok, 1000, 1001, 2000);
    AcceptedSplits(times, ok, 999, 1000, 1001);
    OutsideEmpty(times, ok, 0, 999);
    OutsideEmpty(times, ok, 1001, 2000);
  }

  lemma {:induction false} OutsideEmpty(times: seq<int>, ok: seq<bool>, from: int, to: int)
    requires |ok| == |times| && forall t :: t in times ==> !(from <= t < to)
    ensures AcceptedIn(times, ok, from, to) == 0
  {
    if times != [] {
      var n := |times| - 1;
      assert times[n] in times;
      assert forall t :: t in times[..n] ==> t in times;
      OutsideEmpty(times[..n], ok[..n], from, to);
    }
  }
}
