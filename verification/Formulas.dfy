/** The spread formulas. */
module SpreadFormulas {
  import opened Prelude

  const CALCULATION_VERSION := 1

  function GrossSpread(buyAsk: real, sellBid: real): Result<real> {
    if buyAsk <= 0.0 then Raised(BuyAskNotPositive) else Ok(sellBid / buyAsk - 1.0)
  }

  function NetSpread(buyAsk: real, sellBid: real, buyFee: real, sellFee: real): Result<real> {
    if buyAsk <= 0.0 then Raised(BuyAskNotPositive)
    else if buyFee < 0.0 || sellFee < 0.0 then Raised(NegativeFee)
    else
      TimesPositive(buyAsk, 1.0 + buyFee);
      Ok(Times(sellBid, 1.0 - sellFee) / Times(buyAsk, 1.0 + buyFee) - 1.0)
  }

  function ExecutableQuantity(buyAskQuantity: real, sellBidQuantity: real): real {
    Min(buyAskQuantity, sellBidQuantity)
  }

  function ExecutableNotional(quantity: real, buyAsk: real): real {
    Times(quantity, buyAsk)
  }

  function ExpectedNetProfit(quantity: real, buyAsk: real, sellBid: real, buyFee: real, sellFee: real): Result<real> {
    var net := NetSpread(buyAsk, sellBid, buyFee, sellFee);
    if net.Raised? then net else Ok(Times(Times(quantity, buyAsk), net.value))
  }

  lemma TimesPositive(a: real, b: real)
    requires a > 0.0 && b > 0.0
    ensures Times(a, b) > 0.0
  {
  }

  /** A net spread is positive exactly when the sale after its fee brings more than the purchase with its fee. */
  lemma NetSpreadSign(buyAsk: real, sellBid: real, buyFee: real, sellFee: real)
    requires buyAsk > 0.0 && buyFee >= 0.0 && sellFee >= 0.0
    ensures NetSpread(buyAsk, sellBid, buyFee, sellFee).Ok?
    ensures NetSpread(buyAsk, sellBid, buyFee, sellFee).value > 0.0 <==>
            Times(sellBid, 1.0 - sellFee) > Times(buyAsk, 1.0 + buyFee)
  {
    hide Times;
    TimesPositive(buyAsk, 1.0 + buyFee);
    var proceeds, cost := Times(sellBid, 1.0 - sellFee), Times(buyAsk, 1.0 + buyFee);
    QuotientSelf(cost);
    if proceeds <= cost {
      QuotientMonotone(proceeds, cost, cost);
    } else {
      QuotientTimes(proceeds, cost);
      if proceeds / cost <= 1.0 {
        TimesMonotone(proceeds / cost, 1.0, cost);
        TimesUnit(cost);
        assert false;
      }
    }
  }

  /** Scaling the net spread back by the cost gives what the round trip earns. */
  lemma NetSpreadEarns(quantity: real, buyAsk: real, sellBid: real, buyFee: real, sellFee: real)
    requires buyAsk > 0.0 && buyFee >= 0.0 && sellFee >= 0.0
    ensures NetSpread(buyAsk, sellBid, buyFee, sellFee).Ok?
    ensures Times(Times(Times(quantity, buyAsk), 1.0 + buyFee), NetSpread(buyAsk, sellBid, buyFee, sellFee).value)
            == Times(Times(quantity, sellBid), 1.0 - sellFee) - Times(Times(quantity, buyAsk), 1.0 + buyFee)
  {
    TimesPositive(buyAsk, 1.0 + buyFee);
    var proceeds, cost := Times(sellBid, 1.0 - sellFee), Times(buyAsk, 1.0 + buyFee);
    EarnsArithmetic(quantity, proceeds, cost);
    TimesAssociate(quantity, buyAsk, 1.0 + buyFee);
    TimesAssociate(quantity, sellBid, 1.0 - sellFee);
  }

  lemma TimesAssociate(a: real, b: real, c: real)
    ensures Times(Times(a, b), c) == Times(a, Times(b, c))
  {
  }

  lemma EarnsArithmetic(quantity: real, proceeds: real, cost: real)
    requires cost > 0.0
    ensures Times(Times(quantity, cost), proceeds / cost - 1.0) == Times(quantity, proceeds) - Times(quantity, cost)
  {
    var r := proceeds / cost;
    assert cost * r == proceeds;
    assert quantity * cost * (r - 1.0) == quantity * (cost * r) - quantity * cost;
  }
}
