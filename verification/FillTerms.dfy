/** A fill in its own terms: what it moves, what it pays besides the price, and whether it can be accounted for. The
    engines' quantities and costs are these. */
module FillTerms {
  import opened Results
  import opened TradeAccounting

  /** The fee was taken out of, or added to, the base quantity. */
  predicate PaidInBase(fill: Fill) { fill.baseFee && fill.commission > 0.0 }

  /** The quantity a fill moves. */
  function Moved(fill: Fill): real {
    if !PaidInBase(fill) then fill.qty
    else if fill.isBuy then fill.qty - fill.commission else fill.qty + fill.commission
  }

  /** The fee that is paid in cash, in quote. */
  function CashPaid(fill: Fill): real {
    if PaidInBase(fill) then 0.0 else fill.feeQuote.GetOr(0.0)
  }

  predicate PossibleAmounts(fill: Fill) {
    && fill.price > 0.0 && fill.qty > 0.0 && fill.commission >= 0.0 && Moved(fill) > 0.0
    && (fill.feeQuote.Some? ==> fill.feeQuote.value >= 0.0)
  }

  /** A commission has a value whose source is known. */
  predicate FeeIsValued(fill: Fill) {
    fill.commission > 0.0 ==> fill.feeQuote.Some? && fill.valued
  }

  /** The engines move these quantities, accept these fills and pay or receive these amounts. */
  lemma InEngines(fill: Fill)
    ensures Executable(fill) <==> PossibleAmounts(fill)
    ensures NetQuantity(fill) == Moved(fill)
    ensures ValuedCommission(fill).Some? <==> FeeIsValued(fill)
    ensures FeeIsValued(fill) ==>
              && ValuedCommission(fill) == Some(fill.feeQuote.GetOr(0.0))
              && BuyCost(fill) == fill.price * fill.qty + CashPaid(fill)
              && SellProceeds(fill) == fill.price * fill.qty - CashPaid(fill)
  {
  }
}
