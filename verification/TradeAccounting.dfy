/** One executed trade and what it means for inventory and cash. */
module TradeAccounting {
  import opened Results

  /** A fill as the exchange reports it. `baseFee` says that the commission was paid in the base asset,
      `valued` that its quote value has a recognised provenance. Amounts are exact decimals. */
  datatype Fill = Fill(
    symbol: string, isBuy: bool, price: real, qty: real, baseFee: bool, commission: real,
    feeQuote: Option<real>, valued: bool, tradeId: string, orderId: string, timeMs: int)

  /** A base-asset commission is taken out of a purchase and added to a sale. */
  function NetQuantity(f: Fill): real {
    if f.commission <= 0.0 || !f.baseFee then f.qty
    else if f.isBuy then f.qty - f.commission else f.qty + f.commission
  }

  predicate Executable(f: Fill) {
    f.price > 0.0 && f.qty > 0.0 && f.commission >= 0.0 && NetQuantity(f) > 0.0
    && (f.feeQuote.Some? ==> f.feeQuote.value >= 0.0)
  }

  /** The commission's quote value, or None when it is unpriced. */
  function ValuedCommission(f: Fill): Option<real> {
    if f.commission > 0.0 && (f.feeQuote == None || !f.valued) then None
    else if f.feeQuote == None then Some(0.0) else f.feeQuote
  }

  // A base commission is already inside the net quantity and costs no cash.
  function CashFee(f: Fill): real {
    if f.commission > 0.0 && f.baseFee then 0.0 else ValuedCommission(f).GetOr(0.0)
  }

  function BuyCost(f: Fill): real { f.price * f.qty + CashFee(f) }

  function SellProceeds(f: Fill): real { f.price * f.qty - CashFee(f) }

  lemma BuyCostPositive(f: Fill)
    requires Executable(f)
    ensures BuyCost(f) > 0.0 && BuyCost(f) / NetQuantity(f) > 0.0
  {
    assert f.price * f.qty > 0.0;
  }
}
