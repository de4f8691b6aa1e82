/** Exchange trading rules: tick and step sizes, minimum quantity and notional. */
module TradingRules {
  import opened Prelude
  import opened OrderBooks
  import opened DepthWalk

  datatype SymbolRules = SymbolRules(tickSize: real, stepSize: real, minQuantity: real, minNotional: real)

  datatype Violation =
    | QuantityNotPositive
    | PriceNotPositive
    | BelowMinQuantity
    | BelowMinNotional
    | NotStepAligned
    | NotTickAligned

  /** `Decimal.__floordiv__`: the quotient's integer part, which truncates toward zero. */
  function IntegerPart(quotient: real): int {
    if quotient >= 0.0 then quotient.Floor else -((-quotient).Floor)
  }

  function AlignedPart(x: real, unit: real): real
    requires unit != 0.0
  {
    Times(IntegerPart(x / unit) as real, unit)
  }

  function RoundToTick(price: real, tickSize: real): Result<real> {
    if tickSize <= 0.0 then Raised(TickSizeNotPositive) else Ok(AlignedPart(price, tickSize))
  }

  function RoundToStep(quantity: real, stepSize: real): Result<real> {
    if stepSize <= 0.0 then Raised(StepSizeNotPositive) else Ok(AlignedPart(quantity, stepSize))
  }

  // ---- what rounding means ------------------------------------------------

  ghost predicate IsMultiple(x: real, unit: real) {
    exists n: int :: x == Multiple(n, unit)
  }

  function Multiple(n: int, unit: real): real {
    Times(n as real, unit)
  }

  lemma MultipleOrder(m: int, n: int, unit: real)
    requires unit > 0.0
    ensures Multiple(m, unit) <= Multiple(n, unit) <==> m <= n
  {
    hide Times;
    if m <= n {
      TimesMonotone(m as real, n as real, unit);
    } else {
      TimesStrict(n as real, m as real, unit);
    }
  }

  lemma FloorBracket(x: real, unit: real)
    requires unit > 0.0
    ensures Times((x / unit).Floor as real, unit) <= x < Times((x / unit).Floor as real + 1.0, unit)
  {
    hide Times;
    var q := x / unit;
    QuotientTimes(x, unit);
    TimesMonotone(q.Floor as real, q, unit);
    TimesStrict(q, q.Floor as real + 1.0, unit);
  }

  /** A quantity rounds to the greatest multiple not above it, when it is not negative. */
  lemma RoundsToGreatestMultiple(x: real, unit: real, n: int)
    requires x >= 0.0 && unit > 0.0
    ensures IsMultiple(AlignedPart(x, unit), unit)
    ensures AlignedPart(x, unit) <= x < AlignedPart(x, unit) + unit
    ensures Multiple(n, unit) <= x ==> Multiple(n, unit) <= AlignedPart(x, unit)
  {
    hide Times;
    QuotientBetweenZero(x, unit);
    FloorBracket(x, unit);
    var f := (x / unit).Floor;
    TimesSum(f as real, 1.0, unit);
    TimesUnit(unit);
    assert AlignedPart(x, unit) == Multiple(f, unit);
    if Multiple(n, unit) <= x {
      MultipleOrder(f + 1, n, unit);
      assert (f + 1) as real == f as real + 1.0;
      MultipleOrder(n, f, unit);
    }
  }

  lemma QuotientBetweenZero(x: real, unit: real)
    requires unit > 0.0
    ensures x >= 0.0 <==> x / unit >= 0.0
    ensures (-x) / unit == -(x / unit)
  {
    if x >= 0.0 {
      QuotientMonotone(0.0, x, unit);
    } else {
      QuotientTimes(x, unit);
      if x / unit >= 0.0 {
        TimesMonotone(0.0, x / unit, unit);
        TimesZero(unit);
        assert false;
      }
    }
  }

  lemma AlignedPartMirrors(x: real, unit: real)
    requires x < 0.0 < unit
    ensures AlignedPart(x, unit) == -AlignedPart(-x, unit)
  {
    hide Times;
    QuotientBetweenZero(x, unit);
    QuotientBetweenZero(-x, unit);
    TimesNegated((-(x / unit)).Floor as real, unit);
  }

  lemma MultipleMirrors(x: real, unit: real)
    requires IsMultiple(x, unit)
    ensures IsMultiple(-x, unit)
  {
    hide Times;
    var n: int :| x == Multiple(n, unit);
    TimesNegated(n as real, unit);
    assert -x == Multiple(-n, unit);
  }

  lemma AlignedIffNonNegative(x: real, unit: real)
    requires x >= 0.0 && unit > 0.0
    ensures x == AlignedPart(x, unit) <==> IsMultiple(x, unit)
  {
    hide Times;
    RoundsToGreatestMultiple(x, unit, 0);
    if IsMultiple(x, unit) {
      var n: int :| x == Multiple(n, unit);
      RoundsToGreatestMultiple(x, unit, n);
    }
  }

  /** Being equal to one's own rounding is being a multiple, for either sign. */
  lemma AlignedIff(x: real, unit: real)
    requires unit > 0.0
    ensures x == AlignedPart(x, unit) <==> IsMultiple(x, unit)
  {
    hide Times;
    if x >= 0.0 {
      AlignedIffNonNegative(x, unit);
    } else {
      AlignedPartMirrors(x, unit);
      AlignedIffNonNegative(-x, unit);
      if IsMultiple(x, unit) {
        MultipleMirrors(x, unit);
      }
      if IsMultiple(-x, unit) {
        MultipleMirrors(-x, unit);
        assert -(-x) == x;
      }
    }
  }

  /** "Rounds down, never increases the quantity" holds exactly for non-negative or already aligned values. */
  lemma NeverIncreasesIff(x: real, unit: real)
    requires unit > 0.0
    ensures AlignedPart(x, unit) <= x <==> x >= 0.0 || IsMultiple(x, unit)
  {
    hide Times;
    AlignedIff(x, unit);
    if x >= 0.0 {
      RoundsToGreatestMultiple(x, unit, 0);
    } else {
      AlignedPartMirrors(x, unit);
      RoundsToGreatestMultiple(-x, unit, 0);
    }
  }

  // ---- alignment passes through the fill ----------------------------------

  /** Rounding -1.5 to whole units gives -1, which is more. */
  lemma RoundingCanIncrease()
    ensures RoundToStep(-1.5, 1.0) == Ok(-1.0)
  {
    assert (1.5).Floor == 1;
  }

  lemma MultipleSum(x: real, y: real, unit: real)
    requires IsMultiple(x, unit) && IsMultiple(y, unit)
    ensures IsMultiple(x + y, unit) && IsMultiple(x - y, unit)
  {
    hide Times;
    var m: int :| x == Multiple(m, unit);
    var n: int :| y == Multiple(n, unit);
    TimesSum(m as real, n as real, unit);
    TimesSum(m as real, -(n as real), unit);
    TimesNegated(n as real, unit);
    assert (m + n) as real == m as real + n as real;
    assert (m - n) as real == m as real + -(n as real);
    assert x + y == Multiple(m + n, unit);
    assert x - y == Multiple(m - n, unit);
  }

  /** If the request and every level are multiples of the step, so is the fill. */
  lemma {:induction false} FillAligned(levels: seq<Level>, t: real, step: real)
    requires IsMultiple(t, step)
    requires forall i :: 0 <= i < |levels| ==> IsMultiple(levels[i].quantity, step)
    ensures IsMultiple(Fill(levels, t), step)
  {
    hide Times;
    if levels == [] || t <= 0.0 {
      TimesZero(step);
      assert 0.0 == Multiple(0, step);
    } else {
      var take := Take(levels[0], t);
      MultipleSum(t, take, step);
      FillAligned(levels[1..], t - take, step);
      MultipleSum(take, Fill(levels[1..], t - take), step);
    }
  }

  // ---- validation ---------------------------------------------------------

  datatype Validation = Validation(valid: bool, violations: seq<Violation>)

  function AddIf(violations: seq<Violation>, found: bool, v: Violation): seq<Violation> {
    if found then violations + [v] else violations
  }

  function SignViolations(quantity: real, price: real): seq<Violation> {
    AddIf(AddIf([], quantity <= 0.0, QuantityNotPositive), price <= 0.0, PriceNotPositive)
  }

  function LimitViolations(quantity: real, price: real, rules: SymbolRules): seq<Violation>
    requires rules.stepSize > 0.0 && rules.tickSize > 0.0
  {
    var small := AddIf([], quantity < rules.minQuantity, BelowMinQuantity);
    var cheap := AddIf(small, Times(quantity, price) < rules.minNotional, BelowMinNotional);
    var offStep := AddIf(cheap, quantity != AlignedPart(quantity, rules.stepSize), NotStepAligned);
    AddIf(offStep, price != AlignedPart(price, rules.tickSize), NotTickAligned)
  }

  function Validated(quantity: real, price: real, rules: SymbolRules): Result<Validation> {
    if quantity <= 0.0 || price <= 0.0 then Ok(Validation(false, SignViolations(quantity, price)))
    else if rules.stepSize <= 0.0 then Raised(StepSizeNotPositive)
    else if rules.tickSize <= 0.0 then Raised(TickSizeNotPositive)
    else
      var violations := LimitViolations(quantity, price, rules);
      Ok(Validation(violations == [], violations))
  }

  method ValidateOrder(quantity: real, price: real, rules: SymbolRules) returns (r: Result<Validation>)
    ensures r == Validated(quantity, price, rules)
  {
    hide Times;
    var violations: seq<Violation> := [];
    if quantity <= 0.0 {
      violations := violations + [QuantityNotPositive];
    }
    if price <= 0.0 {
      violations := violations + [PriceNotPositive];
    }
    if violations != [] {
      return Ok(Validation(false, violations));
    }
    if quantity < rules.minQuantity {
      violations := violations + [BelowMinQuantity];
    }
    var notional := Times(quantity, price);
    if notional < rules.minNotional {
      violations := violations + [BelowMinNotional];
    }
    var step := RoundToStep(quantity, rules.stepSize);
    if step.Raised? {
      return Raised(step.error);
    }
    if quantity != step.value {
      violations := violations + [NotStepAligned];
    }
    var tick := RoundToTick(price, rules.tickSize);
    if tick.Raised? {
      return Raised(tick.error);
    }
    if price != tick.value {
      violations := violations + [NotTickAligned];
    }
    return Ok(Validation(violations == [], violations));
  }

  /** An order is valid exactly when it is positive, large enough, and aligned to both grids. */
  lemma ValidIff(quantity: real, price: real, rules: SymbolRules)
    ensures var r := Validated(quantity, price, rules);
            && (r.Ok? && r.value.valid <==>
                  && quantity > 0.0 && price > 0.0
                  && quantity >= rules.minQuantity && Times(quantity, price) >= rules.minNotional
                  && rules.stepSize > 0.0 && IsMultiple(quantity, rules.stepSize)
                  && rules.tickSize > 0.0 && IsMultiple(price, rules.tickSize))
            && (r.Ok? ==>
                  (NotStepAligned in r.value.violations
                   <==> quantity > 0.0 && price > 0.0 && !IsMultiple(quantity, rules.stepSize)))
  {
    hide Times;
    if rules.stepSize > 0.0 && rules.tickSize > 0.0 {
      AlignedIff(quantity, rules.stepSize);
      AlignedIff(price, rules.tickSize);
    }
  }

  /** What each violation says of an order; the limits are looked at only for a positive one. */
  ghost predicate Breaks(v: Violation, quantity: real, price: real, rules: SymbolRules) {
    match v
    case QuantityNotPositive => quantity <= 0.0
    case PriceNotPositive => price <= 0.0
    case BelowMinQuantity => quantity > 0.0 && price > 0.0 && quantity < rules.minQuantity
    case BelowMinNotional => quantity > 0.0 && price > 0.0 && quantity * price < rules.minNotional
    case NotStepAligned => quantity > 0.0 && price > 0.0 && !IsMultiple(quantity, rules.stepSize)
    case NotTickAligned => quantity > 0.0 && price > 0.0 && !IsMultiple(price, rules.tickSize)
  }

  function Rank(v: Violation): nat {
    match v
    case QuantityNotPositive => 0
    case PriceNotPositive => 1
    case BelowMinQuantity => 2
    case BelowMinNotional => 3
    case NotStepAligned => 4
    case NotTickAligned => 5
  }

  /** The violations listed are exactly those that the order breaks, each once, in the order of the checks. */
  lemma ViolationsExact(quantity: real, price: real, rules: SymbolRules)
    requires Validated(quantity, price, rules).Ok?
    ensures var r := Validated(quantity, price, rules).value;
            && (r.valid <==> r.violations == [])
            && (forall v :: v in r.violations <==> Breaks(v, quantity, price, rules))
            && (forall i, j :: 0 <= i < j < |r.violations| ==> Rank(r.violations[i]) < Rank(r.violations[j]))
  {
    if quantity > 0.0 && price > 0.0 {
      AlignedIff(quantity, rules.stepSize);
      AlignedIff(price, rules.tickSize);
    }
  }

  /** Validation raises exactly when a positive order meets a step or a tick that is not positive. */
  lemma ValidationRaisesIff(quantity: real, price: real, rules: SymbolRules)
    ensures Validated(quantity, price, rules).Raised? <==>
              quantity > 0.0 && price > 0.0 && (rules.stepSize <= 0.0 || rules.tickSize <= 0.0)
    ensures Validated(quantity, price, rules).Raised? ==>
              Validated(quantity, price, rules).error
              == if rules.stepSize <= 0.0 then StepSizeNotPositive else TickSizeNotPositive
  {
  }

  /** A positive order under a step size of zero, which the configuration does not refuse: validation raises. */
  lemma ValidationCanRaise()
    ensures Validated(1.0, 100.0, SymbolRules(0.01, 0.0, 0.00001, 10.0)) == Raised(StepSizeNotPositive)
  {
  }
}
