/** Settling a terminal BUY from its complete fills: exact text amounts, summed in decimal arithmetic of a
    given precision. The source uses 512 digits; `None` is arithmetic that never rounds. */
module BuySettlement {
  import opened Results
  import opened ExactDecimal
  import opened OrderJournal

  datatype Report = Report(symbol: string, side: Side, orderId: int, status: Status, original: string, executed: string,
                           quote: string)

  datatype FillRow = FillRow(
    symbol: string, orderId: int, isBuyer: bool, id: int, qty: string, price: string, quote: string, commission: string,
        asset: string,
    time: int)

  datatype Settlement = Settlement(gross: Dec, net: Dec, quote: Dec, ids: set<int>)

  const MAX_LENGTH := 128
  const MAX_FILLS := 10000
  const DIGITS := 512

  function Amount(s: string, positive: bool): Option<Dec> {
    if |s| > MAX_LENGTH then None
    else match ParseAmount(s)
      case None => None
      case Some(d) => if positive && d.coeff == 0 then None else Some(d)
  }

  predicate AssetName(s: string) {
    0 < |s| <= 32 && forall i | 0 <= i < |s| :: 'A' <= s[i] <= 'Z' || '0' <= s[i] <= '9'
  }

  predicate TerminalStatus(status: Status) {
    status == Filled || status == Canceled || status == Expired || status == ExpiredInMatch
  }

  /** An identified terminal BUY with consistent quantities: its executed quantity and quote. */
  function Expected(order: Report, symbol: string, orderId: int): Option<(Dec, Dec)> {
    if orderId < 0 || order.symbol != symbol || order.side != Buy || order.orderId != orderId
        || !TerminalStatus(order.status) then None
    else match (Amount(order.original, true), Amount(order.executed, true), Amount(order.quote, true))
      case (Some(original), Some(executed), Some(quote)) =>
        if !AtMost(executed, original) || (order.status == Filled && !Same(executed, original)) then None
        else Some((executed, quote))
      case _ => None
  }

  /** What one fill contributes. */
  datatype Part = Part(gross: Dec, net: Dec, quote: Dec)

  predicate Identified(f: FillRow, symbol: string, orderId: int) {
    f.symbol == symbol && f.orderId == orderId && f.isBuyer && f.id >= 0
  }

  /** A fill whose quote is exactly quantity times price. A commission in the base asset is taken out of the
      acquired quantity. */
  function PartFrom(p: Precision, qty: Dec, price: Dec, quote: Dec, commission: Dec, inBase: bool): Option<Part> {
    if !Same(quote, Multiply(p, qty, price)) then None
    else if commission.coeff > 0 && inBase then
      match Subtract(p, qty, commission)
      case None => None
      case Some(net) => Some(Part(qty, net, quote))
    else Some(Part(qty, qty, quote))
  }

  function PartOf(p: Precision, f: FillRow, symbol: string, orderId: int, base: string,
                  quoteAsset: string): Option<Part>
  {
    if !Identified(f, symbol, orderId) || !AssetName(f.asset) || f.asset !in {base, quoteAsset, "BNB"} then None
    else match (Amount(f.qty, true), Amount(f.price, true), Amount(f.quote, true), Amount(f.commission, false))
      case (Some(qty), Some(price), Some(quote), Some(commission)) =>
          PartFrom(p, qty, price, quote, commission, f.asset == base)
      case _ => None
  }

  /** One more fill, if it is acceptable and its id is new. */
  function Taken(p: Precision, s: Settlement, f: FillRow, symbol: string, orderId: int, base: string,
                 quoteAsset: string)
    : Option<Settlement>
  {
    match PartOf(p, f, symbol, orderId, base, quoteAsset)
    case None => None
    case Some(part) =>
      if f.id in s.ids then None
      else Some(Settlement(Add(p, s.gross, part.gross), Add(p, s.net, part.net), Add(p, s.quote, part.quote),
                           s.ids + {f.id}))
  }

  function Sums(p: Precision, fills: seq<FillRow>, symbol: string, orderId: int, base: string,
                quoteAsset: string): Option<Settlement>
  {
    if fills == [] then Some(Settlement(ZERO, ZERO, ZERO, {}))
    else match Sums(p, fills[..|fills| - 1], symbol, orderId, base, quoteAsset)
      case None => None
      case Some(s) => Taken(p, s, fills[|fills| - 1], symbol, orderId, base, quoteAsset)
  }

  /** The fills cover the terminal order completely, and something is left of it. */
  predicate Covers(s: Settlement, executed: Dec, quote: Dec) {
    Same(s.gross, executed) && Same(s.quote, quote) && s.net.coeff > 0 && AtMost(s.net, s.gross)
  }

  function Settled(p: Precision, order: Report, fills: seq<FillRow>, symbol: string, orderId: int, base: string,
                   quoteAsset: string)
    : Option<Settlement>
  {
    match Expected(order, symbol, orderId)
    case None => None
    case Some((executed, quote)) =>
      if !(1 <= |fills| <= MAX_FILLS) then None
      else match Sums(p, fills, symbol, orderId, base, quoteAsset)
        case None => None
        case Some(s) => if Covers(s, executed, quote) then Some(s) else None
  }

  method SettleBuy(order: Report, fills: seq<FillRow>, symbol: string, orderId: int, base: string, quoteAsset: string)
      returns (result: Option<Settlement>)
    ensures result == Settled(Some(DIGITS), order, fills, symbol, orderId, base, quoteAsset)
  {
    var expected := Expected(order, symbol, orderId);
    if expected == None || |fills| < 1 || |fills| > MAX_FILLS {
      return None;
    }
    var s := Settlement(ZERO, ZERO, ZERO, {});
    for k := 0 to |fills|
      invariant Sums(Some(DIGITS), fills[..k], symbol, orderId, base, quoteAsset) == Some(s)
    {
      assert fills[..k + 1][..k] == fills[..k];
      var next := TakeFill(Some(DIGITS), s, fills[k], symbol, orderId, base, quoteAsset);
      if next == None {
        PrefixRefused(Some(DIGITS), fills, k + 1, symbol, orderId, base, quoteAsset);
        return None;
      }
      s := next.value;
    }
    assert fills[..|fills|] == fills;
    return if Covers(s, expected.value.0, expected.value.1) then Some(s) else None;
  }

  method TakeFill(p: Precision, s: Settlement, f: FillRow, symbol: string, orderId: int, base: string,
                  quoteAsset: string)
      returns (next: Option<Settlement>)
    ensures next == Taken(p, s, f, symbol, orderId, base, quoteAsset)
  {
    if f.id in s.ids {
      return None;
    }
    var part := ReadFill(p, f, symbol, orderId, base, quoteAsset);
    if part == None {
      return None;
    }
    return Some(Settlement(Add(p, s.gross, part.value.gross), Add(p, s.net, part.value.net),
                           Add(p, s.quote, part.value.quote),
                           s.ids + {f.id}));
  }

  method ReadFill(p: Precision, f: FillRow, symbol: string, orderId: int, base: string, quoteAsset: string)
      returns (part: Option<Part>)
    ensures part == PartOf(p, f, symbol, orderId, base, quoteAsset)
  {
    if !Identified(f, symbol, orderId) {
      return None;
    }
    var qty, price := Amount(f.qty, true), Amount(f.price, true);
    var quote, commission := Amount(f.quote, true), Amount(f.commission, false);
    if qty == None || price == None || quote == None || commission == None {
      return None;
    }
    if !AssetName(f.asset) || f.asset !in {base, quoteAsset, "BNB"} {
      return None;
    }
    return PartFrom(p, qty.value, price.value, quote.value, commission.value, f.asset == base);
  }

  lemma {:induction false} PrefixRefused(p: Precision, fills: seq<FillRow>, n: nat, symbol: string, orderId: int,
                                         base: string,
                                         quoteAsset: string)
    requires n <= |fills| && Sums(p, fills[..n], symbol, orderId, base, quoteAsset) == None
    ensures Sums(p, fills, symbol, orderId, base, quoteAsset) == None
  {
    if n < |fills| {
      assert fills[..|fills| - 1][..n] == fills[..n];
      PrefixRefused(p, fills[..|fills| - 1], n, symbol, orderId, base, quoteAsset);
    } else {
      assert fills[..n] == fills;
    }
  }
}
