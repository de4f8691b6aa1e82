/** Values and small facts shared by the other modules. `Decimal` is modelled by `real`. */
module Prelude {

  datatype Option<+T> = None | Some(value: T)

  /** A call of the source either returns or raises. */
  datatype Result<+T> = Ok(value: T) | Raised(error: Error)

  datatype Error =
    | TargetQuantityNotPositive
    | ReferencePriceNotPositive
    | BuyAskNotPositive
    | NegativeFee
    | TickSizeNotPositive
    | StepSizeNotPositive
    | NotComparable

  datatype Exchange = BINANCE | BYBIT | OKX

  function Min(a: real, b: real): real {
    if b < a then b else a
  }

  function Max(a: real, b: real): real {
    if b > a then b else a
  }

  function Abs(a: real): real {
    if a < 0.0 then -a else a
  }

  function Sum(s: seq<real>): real {
    if s == [] then 0.0 else s[0] + Sum(s[1..])
  }

  lemma {:induction false} SumAppend(s: seq<real>, x: real)
    ensures Sum(s + [x]) == Sum(s) + x
  {
    if s == [] {
      assert s + [x] == [x];
    } else {
      SumAppend(s[1..], x);
      assert (s + [x])[1..] == s[1..] + [x];
    }
  }

  ghost predicate Distinct<T>(s: seq<T>) {
    forall i, j :: 0 <= i < j < |s| ==> s[i] != s[j]
  }

  /** A product under a name, so that proofs over sums of products can `hide` the multiplication. */
  function Times(a: real, b: real): real {
    a * b
  }

  lemma TimesMonotone(a: real, b: real, c: real)
    requires a <= b && 0.0 <= c
    ensures Times(a, c) <= Times(b, c) && Times(c, a) <= Times(c, b)
  {
    assert 0.0 <= (b - a) * c;
    assert (b - a) * c == b * c - a * c;
  }

  lemma TimesStrict(a: real, b: real, c: real)
    requires a < b && 0.0 < c
    ensures Times(a, c) < Times(b, c)
  {
    assert 0.0 < (b - a) * c;
    assert (b - a) * c == b * c - a * c;
  }

  lemma TimesSum(a: real, b: real, c: real)
    ensures Times(a + b, c) == Times(a, c) + Times(b, c) == Times(c, a + b)
  {
  }

  lemma TimesZero(a: real)
    ensures Times(0.0, a) == 0.0 == Times(a, 0.0)
  {
  }

  lemma TimesUnit(a: real)
    ensures Times(1.0, a) == a == Times(a, 1.0)
  {
  }

  lemma TimesNegated(a: real, b: real)
    ensures Times(a, -b) == -Times(a, b) == Times(-a, b)
  {
  }

  lemma TimesSwap(a: real, b: real)
    ensures Times(a, b) == Times(b, a)
  {
  }

  /** The order of two quotients with positive denominators. */
  lemma QuotientOrder(a: real, s: real, b: real, t: real)
    requires s > 0.0 && t > 0.0 && Times(a, t) <= Times(b, s)
    ensures a / s <= b / t
  {
    var x, y := a / s, b / t;
    assert a * t == x * (s * t) && b * s == y * (s * t);
    if x > y {
      TimesStrict(y, x, s * t);
    }
  }

  lemma QuotientSelf(s: real)
    requires s != 0.0
    ensures s / s == 1.0
  {
  }

  lemma QuotientMonotone(a: real, b: real, s: real)
    requires s > 0.0 && a <= b
    ensures a / s <= b / s
  {
    TimesMonotone(a, b, s);
    QuotientOrder(a, s, b, s);
  }

  lemma QuotientTimes(a: real, s: real)
    requires s != 0.0
    ensures Times(a / s, s) == a && Times(a, s) / s == a
  {
  }

  lemma QuotientBetween(c: real, f: real, lo: real, hi: real)
    requires f > 0.0 && Times(f, lo) <= c <= Times(f, hi)
    ensures lo <= c / f <= hi
  {
    QuotientOrder(lo, 1.0, c, f);
    QuotientOrder(c, f, hi, 1.0);
  }
}
