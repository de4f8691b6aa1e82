/** The greedy depth walk that fills a target quantity level by level, and what it optimises. */
module DepthWalk {
  import opened Prelude
  import opened OrderBooks

  datatype VwapResult = VwapResult(vwapPrice: Option<real>, filledQuantity: real, notional: real, fullyFilled: bool)

  // ---- the walk -----------------------------------------------------------

  function Take(level: Level, remaining: real): real {
    Min(level.quantity, remaining)
  }

  /** How much each level gives when `remaining` is still wanted. */
  function Takes(levels: seq<Level>, remaining: real): (x: seq<real>)
    ensures |x| == |levels|
  {
    if levels == [] then [] else
      var take := if remaining <= 0.0 then 0.0 else Take(levels[0], remaining);
      [take] + Takes(levels[1..], remaining - take)
  }

  function Fill(levels: seq<Level>, remaining: real): real {
    if levels == [] || remaining <= 0.0 then 0.0 else
      var take := Take(levels[0], remaining);
      take + Fill(levels[1..], remaining - take)
  }

  function Cost(levels: seq<Level>, remaining: real): real {
    if levels == [] || remaining <= 0.0 then 0.0 else
      var take := Take(levels[0], remaining);
      Times(take, levels[0].price) + Cost(levels[1..], remaining - take)
  }

  function Walked(levels: seq<Level>, target: real): VwapResult {
    var filled, notional := Fill(levels, target), Cost(levels, target);
    if filled == 0.0 then VwapResult(None, 0.0, 0.0, false)
    else VwapResult(Some(notional / filled), filled, notional, filled >= target)
  }

  function WalkResult(levels: seq<Level>, target: real): Result<VwapResult> {
    if target <= 0.0 then Raised(TargetQuantityNotPositive) else Ok(Walked(levels, target))
  }

  method ComputeVwap(levels: seq<Level>, target: real) returns (r: Result<VwapResult>)
    ensures r == WalkResult(levels, target)
  {
    hide Times;
    if target <= 0.0 {
      return Raised(TargetQuantityNotPositive);
    }
    var remaining, filled, notional := target, 0.0, 0.0;
    var i := 0;
    while i < |levels| && remaining > 0.0
      invariant 0 <= i <= |levels|
      invariant remaining == target - filled
      invariant filled + Fill(levels[i..], remaining) == Fill(levels, target)
      invariant notional + Cost(levels[i..], remaining) == Cost(levels, target)
    {
      assert levels[i..][1..] == levels[i + 1..];
      var take := Min(levels[i].quantity, remaining);
      filled := filled + take;
      notional := notional + Times(take, levels[i].price);
      remaining := remaining - take;
      i := i + 1;
    }
    if filled == 0.0 {
      return Ok(VwapResult(None, 0.0, 0.0, false));
    }
    return Ok(VwapResult(Some(notional / filled), filled, notional, remaining <= 0.0));
  }

  // ---- allocations --------------------------------------------------------

  function Depth(levels: seq<Level>): real {
    if levels == [] then 0.0 else levels[0].quantity + Depth(levels[1..])
  }

  /** The notional of taking x[i] from level i. */
  function Value(levels: seq<Level>, x: seq<real>): real
    requires |x| == |levels|
  {
    if levels == [] then 0.0 else Times(x[0], levels[0].price) + Value(levels[1..], x[1..])
  }

  ghost predicate NonNegative(levels: seq<Level>) {
    forall i :: 0 <= i < |levels| ==> levels[i].quantity >= 0.0
  }

  ghost predicate Feasible(levels: seq<Level>, x: seq<real>) {
    |x| == |levels| && forall i :: 0 <= i < |x| ==> 0.0 <= x[i] <= levels[i].quantity
  }

  ghost predicate Rising(levels: seq<Level>) {
    forall i, j :: 0 <= i < j < |levels| ==> levels[i].price <= levels[j].price
  }

  ghost predicate Falling(levels: seq<Level>) {
    forall i, j :: 0 <= i < j < |levels| ==> levels[i].price >= levels[j].price
  }

  lemma {:induction false} DepthNonNegative(levels: seq<Level>)
    requires NonNegative(levels)
    ensures Depth(levels) >= 0.0
  {
    if levels != [] {
      DepthNonNegative(levels[1..]);
    }
  }

  /** The walk fills the target or all there is, whichever is less. */
  lemma {:induction false} FillIsMin(levels: seq<Level>, t: real)
    requires NonNegative(levels) && t >= 0.0
    ensures Fill(levels, t) == Min(t, Depth(levels))
  {
    DepthNonNegative(levels);
    if levels != [] && t > 0.0 {
      DepthNonNegative(levels[1..]);
      FillIsMin(levels[1..], t - Take(levels[0], t));
    }
  }

  lemma {:induction false} TakesFeasible(levels: seq<Level>, t: real)
    requires NonNegative(levels) && t >= 0.0
    ensures Feasible(levels, Takes(levels, t))
  {
    if levels != [] {
      var take := if t <= 0.0 then 0.0 else Take(levels[0], t);
      var rest := Takes(levels[1..], t - take);
      TakesFeasible(levels[1..], t - take);
      assert Takes(levels, t) == [take] + rest;
      forall i | 0 < i < |levels|
        ensures 0.0 <= Takes(levels, t)[i] <= levels[i].quantity
      {
        assert Takes(levels, t)[i] == rest[i - 1] && levels[i] == levels[1..][i - 1];
      }
    }
  }

  lemma {:induction false} TakesTotals(levels: seq<Level>, t: real)
    ensures Sum(Takes(levels, t)) == Fill(levels, t)
    ensures Value(levels, Takes(levels, t)) == Cost(levels, t)
  {
    hide Times;
    if levels != [] {
      var take := if t <= 0.0 then 0.0 else Take(levels[0], t);
      var rest := Takes(levels[1..], t - take);
      TakesTotals(levels[1..], t - take);
      assert Takes(levels, t)[1..] == rest;
      TimesZero(levels[0].price);
    }
  }

  /** The walk is a feasible allocation of what it fills, at the cost it reports. */
  lemma TakesAreTheWalk(levels: seq<Level>, t: real)
    requires NonNegative(levels) && t >= 0.0
    ensures Feasible(levels, Takes(levels, t))
    ensures Sum(Takes(levels, t)) == Fill(levels, t)
    ensures Value(levels, Takes(levels, t)) == Cost(levels, t)
  {
    TakesFeasible(levels, t);
    TakesTotals(levels, t);
  }

  lemma CostUnfold(levels: seq<Level>, t: real) returns (a: real, r: real)
    requires levels != [] && t >= 0.0 && levels[0].quantity >= 0.0
    ensures a == Min(levels[0].quantity, t) && 0.0 <= a <= t && r == t - a
    ensures Cost(levels, t) == Times(a, levels[0].price) + Cost(levels[1..], r)
  {
    hide Times;
    a := Min(levels[0].quantity, t);
    r := t - a;
    if t == 0.0 {
      assert Cost(levels[1..], 0.0) == 0.0;
      TimesZero(levels[0].price);
    }
  }

  lemma {:induction false} CostBeyondDepth(levels: seq<Level>, t: real)
    requires NonNegative(levels) && t >= 0.0
    ensures Cost(levels, t) == Cost(levels, Min(t, Depth(levels)))
  {
    hide Times;
    DepthNonNegative(levels);
    if levels != [] {
      var d := Min(t, Depth(levels));
      DepthNonNegative(levels[1..]);
      var a, u := CostUnfold(levels, t);
      var b, v := CostUnfold(levels, d);
      assert a == b;
      CostBeyondDepth(levels[1..], u);
      CostBeyondDepth(levels[1..], v);
      assert Min(u, Depth(levels[1..])) == Min(v, Depth(levels[1..]));
    }
  }

  /** What the whole book costs. */
  function Notional(levels: seq<Level>): real {
    if levels == [] then 0.0 else Times(levels[0].quantity, levels[0].price) + Notional(levels[1..])
  }

  /** A target that the book cannot fill, or only just, buys the whole book. */
  lemma {:induction false} WholeBookCost(levels: seq<Level>, t: real)
    requires NonNegative(levels) && t >= Depth(levels)
    ensures t >= 0.0 && Cost(levels, t) == Notional(levels)
  {
    hide Times;
    DepthNonNegative(levels);
    if levels != [] {
      DepthNonNegative(levels[1..]);
      var a, r := CostUnfold(levels, t);
      WholeBookCost(levels[1..], r);
    }
  }

  /** Each further unit costs at least the lowest price in the book. */
  lemma {:induction false} MarginalCost(levels: seq<Level>, t: real, d: real, lo: real)
    requires NonNegative(levels) && t >= 0.0 && d >= 0.0 && t + d <= Depth(levels)
    requires forall i :: 0 <= i < |levels| ==> lo <= levels[i].price
    ensures Cost(levels, t + d) >= Cost(levels, t) + Times(d, lo)
  {
    hide Times;
    if levels == [] {
      assert Times(d, lo) == 0.0 by { assert d == 0.0; TimesZero(lo); }
    } else {
      var p := levels[0].price;
      var a, u := CostUnfold(levels, t);
      var b, v := CostUnfold(levels, t + d);
      DepthNonNegative(levels[1..]);
      MarginalCost(levels[1..], u, v - u, lo);
      assert u + (v - u) == v;
      TimesSum(b - a, v - u, lo);
      assert b - a + (v - u) == d;
      TimesMonotone(lo, p, b - a);
      TimesSum(b - a, a, p);
      assert b - a + a == b;
    }
  }

  lemma {:induction false} SumWithinDepth(levels: seq<Level>, x: seq<real>)
    requires Feasible(levels, x)
    ensures 0.0 <= Sum(x) <= Depth(levels)
  {
    if levels != [] {
      SumWithinDepth(levels[1..], x[1..]);
    }
  }

  lemma {:induction false} WalkBeatsAllocation(levels: seq<Level>, x: seq<real>)
    requires Rising(levels) && Feasible(levels, x)
    ensures Sum(x) >= 0.0 && Cost(levels, Sum(x)) <= Value(levels, x)
  {
    hide Times;
    SumWithinDepth(levels, x);
    if levels != [] {
      var p, rest, s := levels[0].price, levels[1..], Sum(x[1..]);
      SumWithinDepth(rest, x[1..]);
      var a, u := CostUnfold(levels, Sum(x));
      WalkBeatsAllocation(rest, x[1..]);
      MarginalCost(rest, u, a - x[0], p);
      assert u + (a - x[0]) == s;
      TimesSum(x[0], a - x[0], p);
      assert x[0] + (a - x[0]) == a;
    }
  }

  /** Buying: over asks sorted best-first, no allocation of the filled quantity is cheaper than the walk. */
  lemma CheapestBuy(levels: seq<Level>, target: real, x: seq<real>)
    requires Rising(levels) && NonNegative(levels) && target > 0.0
    requires Feasible(levels, x) && Sum(x) == Fill(levels, target)
    ensures Cost(levels, target) <= Value(levels, x)
  {
    hide Times;
    FillIsMin(levels, target);
    CostBeyondDepth(levels, target);
    WalkBeatsAllocation(levels, x);
  }

  // ---- the sell side, by negating prices ----------------------------------

  function Flip(levels: seq<Level>): (r: seq<Level>)
    ensures |r| == |levels|
    ensures forall i :: 0 <= i < |r| ==> r[i] == Level(-levels[i].price, levels[i].quantity)
  {
    seq(|levels|, i requires 0 <= i < |levels| => Level(-levels[i].price, levels[i].quantity))
  }

  lemma {:induction false} FlipWalk(levels: seq<Level>, t: real)
    ensures Fill(Flip(levels), t) == Fill(levels, t)
    ensures Cost(Flip(levels), t) == -Cost(levels, t)
    ensures Depth(Flip(levels)) == Depth(levels)
  {
    hide Times;
    if levels != [] {
      assert Flip(levels)[1..] == Flip(levels[1..]);
      FlipWalk(levels[1..], t - Take(levels[0], t));
      TimesNegated(Take(levels[0], t), levels[0].price);
    }
  }

  lemma {:induction false} FlipValue(levels: seq<Level>, x: seq<real>)
    requires |x| == |levels|
    ensures Value(Flip(levels), x) == -Value(levels, x)
  {
    hide Times;
    if levels != [] {
      assert Flip(levels)[1..] == Flip(levels[1..]);
      FlipValue(levels[1..], x[1..]);
      TimesNegated(x[0], levels[0].price);
    }
  }

  /** Selling: over bids sorted best-first, no allocation of the filled quantity earns more than the walk. */
  lemma RichestSell(levels: seq<Level>, target: real, x: seq<real>)
    requires Falling(levels) && NonNegative(levels) && target > 0.0
    requires Feasible(levels, x) && Sum(x) == Fill(levels, target)
    ensures Cost(levels, target) >= Value(levels, x)
  {
    hide Times;
    FlipWalk(levels, target);
    FlipValue(levels, x);
    CheapestBuy(Flip(levels), target, x);
  }

  // ---- the average price --------------------------------------------------

  /** What a result reports: quantity, completeness, and a price exactly when the book has depth. */
  lemma ResultMeaning(levels: seq<Level>, target: real)
    requires NonNegative(levels) && target > 0.0
    ensures WalkResult(levels, target).Ok?
    ensures var r := WalkResult(levels, target).value;
            && r.filledQuantity == Min(target, Depth(levels))
            && (r.fullyFilled <==> Depth(levels) >= target)
            && (r.vwapPrice.Some? <==> Depth(levels) > 0.0)
            && (r.vwapPrice.Some? ==> Times(r.vwapPrice.value, r.filledQuantity) == r.notional)
            && r.notional == Value(levels, Takes(levels, target))
  {
    hide Times;
    FillIsMin(levels, target);
    DepthNonNegative(levels);
    TakesAreTheWalk(levels, target);
    CostBeyondDepth(levels, target);
    var f, c := Fill(levels, target), Cost(levels, target);
    if f == 0.0 {
      assert Cost(levels, 0.0) == 0.0;
    } else {
      QuotientTimes(c, f);
    }
  }

  /** Cost is convex through the origin: the average over a shorter walk is no worse. */
  lemma {:induction false} AverageRises(levels: seq<Level>, s: real, t: real)
    requires Rising(levels) && NonNegative(levels)
    requires 0.0 <= s <= t <= Depth(levels)
    ensures Times(Cost(levels, s), t) <= Times(Cost(levels, t), s)
  {
    hide Times;
    if levels != [] {
      var q, p, rest := levels[0].quantity, levels[0].price, levels[1..];
      var a, u := CostUnfold(levels, s);
      var b, v := CostUnfold(levels, t);
      if s <= q {
        assert Cost(rest, 0.0) == 0.0 == Cost(levels, 0.0);
        MarginalCost(levels, 0.0, t, p);
        assert Cost(levels, 0.0 + t) == Cost(levels, t);
        FlatAverage(p, s, t, Cost(levels, t));
      } else {
        AverageRises(rest, u, v);
        MarginalCost(rest, u, v - u, p);
        assert u + (v - u) == v;
        SteepAverage(q, p, u, v, s, t, Cost(rest, u), Cost(rest, v));
      }
    }
  }

  lemma FlatAverage(p: real, s: real, t: real, d: real)
    requires 0.0 <= s && Times(t, p) <= d
    ensures Times(Times(s, p), t) <= Times(d, s)
  {
    TimesMonotone(t * p, d, s);
  }

  lemma SteepAverage(q: real, p: real, u: real, v: real, s: real, t: real, c: real, d: real)
    requires 0.0 <= q && s == u + q && t == v + q
    requires Times(c, v) <= Times(d, u) && d >= c + Times(v - u, p)
    ensures Times(Times(q, p) + c, t) <= Times(Times(q, p) + d, s)
  {
    var m := q * p;
    TimesMonotone(c + (v - u) * p, d, q);
    assert (c + (v - u) * p) * q == c * q + (m * v - m * u);
    assert (m + c) * (v + q) == m * v + m * q + c * v + c * q;
    assert (m + d) * (u + q) == m * u + m * q + d * u + d * q;
  }

  /** Buying more never lowers the average price. */
  lemma BuyPriceMonotone(levels: seq<Level>, small: real, large: real)
    requires Rising(levels) && NonNegative(levels) && 0.0 < small <= large && Depth(levels) > 0.0
    ensures WalkResult(levels, small).Ok? && WalkResult(levels, large).Ok?
    ensures var a, b := WalkResult(levels, small).value, WalkResult(levels, large).value;
            a.vwapPrice.Some? && b.vwapPrice.Some? && a.vwapPrice.value <= b.vwapPrice.value
  {
    hide Times;
    FillIsMin(levels, small);
    FillIsMin(levels, large);
    CostBeyondDepth(levels, small);
    CostBeyondDepth(levels, large);
    var s, t := Min(small, Depth(levels)), Min(large, Depth(levels));
    AverageRises(levels, s, t);
    QuotientOrder(Cost(levels, small), s, Cost(levels, large), t);
  }

  lemma NegatedQuotient(a: real, s: real)
    requires s != 0.0
    ensures (-a) / s == -(a / s)
  {
  }

  /** Selling more never raises the average price. */
  lemma SellPriceMonotone(levels: seq<Level>, small: real, large: real)
    requires Falling(levels) && NonNegative(levels) && 0.0 < small <= large && Depth(levels) > 0.0
    ensures WalkResult(levels, small).Ok? && WalkResult(levels, large).Ok?
    ensures var a, b := WalkResult(levels, small).value, WalkResult(levels, large).value;
            a.vwapPrice.Some? && b.vwapPrice.Some? && a.vwapPrice.value >= b.vwapPrice.value
  {
    hide Times;
    FlipWalk(levels, small);
    FlipWalk(levels, large);
    BuyPriceMonotone(Flip(levels), small, large);
    NegatedQuotient(Cost(levels, small), Fill(levels, small));
    NegatedQuotient(Cost(levels, large), Fill(levels, large));
  }

  /** Level k gives something and no later level does. */
  ghost predicate IsLastTouched(levels: seq<Level>, target: real, k: nat) {
    && k < |levels|
    && Takes(levels, target)[k] > 0.0
    && forall i :: k < i < |levels| ==> Takes(levels, target)[i] == 0.0
  }

  lemma {:induction false} ValueBounds(levels: seq<Level>, x: seq<real>, lo: real, hi: real)
    requires Feasible(levels, x)
    requires forall i :: 0 <= i < |levels| && x[i] > 0.0 ==> lo <= levels[i].price <= hi
    ensures Times(Sum(x), lo) <= Value(levels, x) <= Times(Sum(x), hi)
  {
    hide Times;
    if levels == [] {
      TimesZero(lo);
      TimesZero(hi);
    } else {
      ValueBounds(levels[1..], x[1..], lo, hi);
      if x[0] > 0.0 {
        TimesMonotone(lo, levels[0].price, x[0]);
        TimesMonotone(levels[0].price, hi, x[0]);
      } else {
        TimesZero(lo);
        TimesZero(hi);
        TimesZero(levels[0].price);
      }
      TimesSum(x[0], Sum(x[1..]), lo);
      TimesSum(x[0], Sum(x[1..]), hi);
    }
  }

  /** The notional of a buy lies between the filled quantity at the best and at the worst touched price. */
  lemma BuyCostBounds(levels: seq<Level>, target: real, k: nat)
    requires Rising(levels) && NonNegative(levels) && target > 0.0
    requires IsLastTouched(levels, target, k)
    ensures Fill(levels, target) > 0.0
    ensures Times(Fill(levels, target), levels[0].price) <= Cost(levels, target)
            <= Times(Fill(levels, target), levels[k].price)
  {
    hide Times;
    TakesAreTheWalk(levels, target);
    SumCoversElement(Takes(levels, target), k);
    ValueBounds(levels, Takes(levels, target), levels[0].price, levels[k].price);
  }

  lemma {:induction false} SumCoversElement(x: seq<real>, k: nat)
    requires k < |x| && forall i :: 0 <= i < |x| ==> x[i] >= 0.0
    ensures Sum(x) >= x[k]
  {
    if k > 0 {
      SumCoversElement(x[1..], k - 1);
    } else if |x| > 1 {
      SumCoversElement(x[1..], 0);
    }
  }

  lemma {:induction false} LastTouchedExists(levels: seq<Level>, target: real) returns (k: nat)
    requires NonNegative(levels) && target > 0.0 && Depth(levels) > 0.0
    ensures IsLastTouched(levels, target, k)
  {
    TakesAreTheWalk(levels, target);
    FillIsMin(levels, target);
    k := LastPositive(Takes(levels, target));
  }

  lemma {:induction false} LastPositive(x: seq<real>) returns (k: nat)
    requires Sum(x) > 0.0 && forall i :: 0 <= i < |x| ==> x[i] >= 0.0
    ensures k < |x| && x[k] > 0.0 && forall i :: k < i < |x| ==> x[i] == 0.0
  {
    if Sum(x[1..]) > 0.0 {
      var j := LastPositive(x[1..]);
      k := j + 1;
    } else {
      k := 0;
      forall i | 0 < i < |x|
        ensures x[i] == 0.0
      {
        SumCoversElement(x[1..], i - 1);
      }
    }
  }

  // ---- slippage -----------------------------------------------------------

  function BuySlippagePct(topAsk: real, vwapPrice: real): Result<real> {
    if topAsk <= 0.0 then Raised(ReferencePriceNotPositive)
    else Ok((vwapPrice / topAsk - 1.0) * 100.0)
  }

  function SellSlippagePct(topBid: real, vwapPrice: real): Result<real> {
    if topBid <= 0.0 then Raised(ReferencePriceNotPositive)
    else Ok((1.0 - vwapPrice / topBid) * 100.0)
  }

  /** Slippage is the percentage by which the price is worse: the reference scaled by it is the price. */
  lemma SlippageExact(top: real, price: real)
    ensures BuySlippagePct(top, price).Raised? <==> top <= 0.0
    ensures SellSlippagePct(top, price).Raised? <==> top <= 0.0
    ensures top > 0.0 ==> top * (1.0 + BuySlippagePct(top, price).value / 100.0) == price
    ensures top > 0.0 ==> top * (1.0 - SellSlippagePct(top, price).value / 100.0) == price
  {
    if top > 0.0 {
      var ratio := price / top;
      assert top * ratio == price;
      assert 1.0 + BuySlippagePct(top, price).value / 100.0 == ratio;
      assert 1.0 - SellSlippagePct(top, price).value / 100.0 == ratio;
    }
  }

  /** Buy slippage is never negative, and at most the distance to the worst touched ask. */
  lemma BuySlippageBounds(levels: seq<Level>, target: real, k: nat)
    requires Rising(levels) && NonNegative(levels) && target > 0.0
    requires IsLastTouched(levels, target, k) && levels[0].price > 0.0
    ensures WalkResult(levels, target).Ok? && WalkResult(levels, target).value.vwapPrice.Some?
    ensures var price := WalkResult(levels, target).value.vwapPrice.value;
            && levels[0].price <= price <= levels[k].price
            && BuySlippagePct(levels[0].price, price).Ok?
            && 0.0 <= BuySlippagePct(levels[0].price, price).value
                   <= (levels[k].price / levels[0].price - 1.0) * 100.0
  {
    hide Times;
    BuyCostBounds(levels, target, k);
    var top, f := levels[0].price, Fill(levels, target);
    var price := Cost(levels, target) / f;
    QuotientBetween(Cost(levels, target), f, top, levels[k].price);
    QuotientSelf(top);
    QuotientMonotone(top, price, top);
    QuotientMonotone(price, levels[k].price, top);
  }

  /** Sell slippage is never negative, and at most the distance to the worst touched bid. */
  lemma SellSlippageBounds(levels: seq<Level>, target: real, k: nat)
    requires Falling(levels) && NonNegative(levels) && target > 0.0
    requires IsLastTouched(levels, target, k) && levels[0].price > 0.0
    ensures WalkResult(levels, target).Ok? && WalkResult(levels, target).value.vwapPrice.Some?
    ensures var price := WalkResult(levels, target).value.vwapPrice.value;
            && levels[k].price <= price <= levels[0].price
            && SellSlippagePct(levels[0].price, price).Ok?
            && 0.0 <= SellSlippagePct(levels[0].price, price).value
                   <= (1.0 - levels[k].price / levels[0].price) * 100.0
  {
    hide Times;
    TakesAreTheWalk(levels, target);
    var x, top, f := Takes(levels, target), levels[0].price, Fill(levels, target);
    SumCoversElement(x, k);
    ValueBounds(levels, x, levels[k].price, top);
    QuotientBetween(Cost(levels, target), f, levels[k].price, top);
    var price := Cost(levels, target) / f;
    QuotientSelf(top);
    QuotientMonotone(price, top, top);
    QuotientMonotone(levels[k].price, price, top);
  }
}
