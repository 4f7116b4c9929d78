/** The other reader of complete fills: a terminal order of either side and all of its trades. It accepts
    whatever the BUY settlement accepted, with the same sums. */
module FillEvidence {
  import opened Results
  import opened ExactDecimal
  import opened BuySettlement
  import opened OrderJournal

  const MAX_TRADES := 1000

  /** How names and commission texts are validated before this check. */
  datatype Reader = Reader(named: string -> bool, readable: string -> bool)

  predicate Plain(s: string) { Amount(s, false).Some? }

  /** Everything that is a plain amount or a plain asset name is valid. */
  ghost predicate Accepting(r: Reader) {
    && (forall s | Plain(s) :: r.readable(s))
    && forall s | AssetName(s) :: r.named(s)
  }

  function TerminalOrder(r: Reader, order: Report, symbol: string, orderId: int): Option<(Dec, Dec)> {
    if !r.named(symbol) || orderId < 0 || order.symbol != symbol || order.orderId != orderId
        || !TerminalStatus(order.status) then None
    else match (Amount(order.original, false), Amount(order.executed, false), Amount(order.quote, false))
      case (Some(original), Some(executed), Some(quote)) =>
        if executed.coeff == 0 || !AtMost(executed, original)
            || (order.status == Filled && !Same(executed, original)) then None
        else Some((executed, quote))
      case _ => None
  }

  predicate CheckedTrade(r: Reader, f: FillRow, symbol: string) {
    && f.symbol == symbol && f.id >= 0 && f.orderId >= 0 && f.time > 0 && r.named(f.asset) && r.readable(f.commission)
  }

  datatype Seen = Seen(quantity: Dec, quote: Dec, ids: set<int>)

  function Indexed(p: Precision, r: Reader, side: Side, s: Seen, f: FillRow, symbol: string,
                   orderId: int): Option<Seen>
  {
    if !CheckedTrade(r, f, symbol) || f.orderId != orderId || f.isBuyer != (side == Buy) || f.id in s.ids then None
    else match (Amount(f.price, true), Amount(f.qty, true), Amount(f.quote, false))
      case (Some(price), Some(qty), Some(paid)) =>
        if !Same(Multiply(p, price, qty), paid) then None
        else Some(Seen(Add(p, s.quantity, qty), Add(p, s.quote, paid), s.ids + {f.id}))
      case _ => None
  }

  function AllIndexed(p: Precision, r: Reader, side: Side, fills: seq<FillRow>, symbol: string,
                      orderId: int): Option<Seen>
  {
    if fills == [] then Some(Seen(ZERO, ZERO, {}))
    else match AllIndexed(p, r, side, fills[..|fills| - 1], symbol, orderId)
      case None => None
      case Some(s) => Indexed(p, r, side, s, fills[|fills| - 1], symbol, orderId)
  }

  function CompleteFills(p: Precision, r: Reader, order: Report, fills: seq<FillRow>, symbol: string, orderId: int)
    : Option<set<int>>
  {
    match TerminalOrder(r, order, symbol, orderId)
    case None => None
    case Some((executed, quote)) =>
      if !(1 <= |fills| <= MAX_TRADES) then None
      else match AllIndexed(p, r, order.side, fills, symbol, orderId)
        case None => None
        case Some(s) => if Same(s.quantity, executed) && Same(s.quote, quote) then Some(s.ids) else None
  }

  method CheckFills(r: Reader, order: Report, fills: seq<FillRow>, symbol: string, orderId: int)
      returns (ids: Option<set<int>>)
    ensures ids == CompleteFills(Some(DIGITS), r, order, fills, symbol, orderId)
  {
    var expected := TerminalOrder(r, order, symbol, orderId);
    if expected == None || |fills| < 1 || |fills| > MAX_TRADES {
      return None;
    }
    var s := IndexFills(Some(DIGITS), r, order.side, fills, symbol, orderId);
    if s == None {
      return None;
    }
    return if Same(s.value.quantity, expected.value.0) && Same(s.value.quote, expected.value.1)
           then Some(s.value.ids) else None;
  }

  /** The loop over the fills, in decimal arithmetic of the given precision. */
  method IndexFills(p: Precision, r: Reader, side: Side, fills: seq<FillRow>, symbol: string, orderId: int)
      returns (seen: Option<Seen>)
    ensures seen == AllIndexed(p, r, side, fills, symbol, orderId)
  {
    var s := Seen(ZERO, ZERO, {});
    for k := 0 to |fills|
      invariant AllIndexed(p, r, side, fills[..k], symbol, orderId) == Some(s)
    {
      assert fills[..k + 1][..k] == fills[..k];
      var next := Indexed(p, r, side, s, fills[k], symbol, orderId);
      if next == None {
        IndexRefused(p, r, side, fills, k + 1, symbol, orderId);
        return None;
      }
      s := next.value;
    }
    assert fills[..|fills|] == fills;
    return Some(s);
  }

  lemma {:induction false} IndexRefused(p: Precision, r: Reader, side: Side, fills: seq<FillRow>, n: nat,
                                        symbol: string, orderId: int)
    requires n <= |fills| && AllIndexed(p, r, side, fills[..n], symbol, orderId) == None
    ensures AllIndexed(p, r, side, fills, symbol, orderId) == None
  {
    if n < |fills| {
      assert fills[..|fills| - 1][..n] == fills[..n];
      IndexRefused(p, r, side, fills[..|fills| - 1], n, symbol, orderId);
    } else {
      assert fills[..n] == fills;
    }
  }

  lemma SameEitherWay(p: Precision, a: Dec, b: Dec, c: Dec)
    ensures Same(c, Multiply(p, a, b)) <==> Same(Multiply(p, b, a), c)
  {
    assert a.coeff * b.coeff == b.coeff * a.coeff;
    assert Multiply(p, a, b) == Multiply(p, b, a);
  }

  lemma PartMeans(p: Precision, f: FillRow, symbol: string, orderId: int, base: string, quoteAsset: string)
    requires PartOf(p, f, symbol, orderId, base, quoteAsset).Some?
    ensures var part := PartOf(p, f, symbol, orderId, base, quoteAsset).value;
            && Identified(f, symbol, orderId) && AssetName(f.asset) && Amount(f.commission, false).Some?
            && Amount(f.qty, true) == Some(part.gross) && Amount(f.quote, true) == Some(part.quote)
            && Amount(f.price, true).Some?
            && Same(part.quote, Multiply(p, part.gross, Amount(f.price, true).value))
  {
  }

  lemma PlainIsChecked(r: Reader, f: FillRow, symbol: string)
    requires Accepting(r) && f.symbol == symbol && f.id >= 0 && f.orderId >= 0 && f.time > 0
    requires AssetName(f.asset) && Plain(f.commission)
    ensures CheckedTrade(r, f, symbol)
  {
  }

  lemma TakenIsIndexed(p: Precision, r: Reader, s: Settlement, f: FillRow, symbol: string, orderId: int, base: string,
                       quoteAsset: string)
    requires Accepting(r) && f.time > 0 && orderId >= 0 && Taken(p, s, f, symbol, orderId, base, quoteAsset).Some?
    ensures var next := Taken(p, s, f, symbol, orderId, base, quoteAsset).value;
            Indexed(p, r, Buy, Seen(s.gross, s.quote, s.ids), f, symbol, orderId)
                == Some(Seen(next.gross, next.quote, next.ids))
  {
    PartMeans(p, f, symbol, orderId, base, quoteAsset);
    PlainIsChecked(r, f, symbol);
    var part := PartOf(p, f, symbol, orderId, base, quoteAsset).value;
    IndexedByPart(p, r, Seen(s.gross, s.quote, s.ids), f, symbol, orderId, part.gross, Amount(f.price, true).value,
                  part.quote);
  }

  lemma IndexedByPart(p: Precision, r: Reader, s: Seen, f: FillRow, symbol: string, orderId: int, qty: Dec, price: Dec,
                      quote: Dec)
    requires CheckedTrade(r, f, symbol) && f.orderId == orderId && f.isBuyer && f.id !in s.ids
    requires Amount(f.price, true) == Some(price) && Amount(f.qty, true) == Some(qty)
             && Amount(f.quote, true) == Some(quote)
    requires Same(quote, Multiply(p, qty, price))
    ensures Indexed(p, r, Buy, s, f, symbol, orderId)
            == Some(Seen(Add(p, s.quantity, qty), Add(p, s.quote, quote), s.ids + {f.id}))
  {
    SameEitherWay(p, qty, price, quote);
    assert Amount(f.quote, false) == Some(quote);
  }

  lemma {:induction false} SumsAreIndexed(p: Precision, r: Reader, fills: seq<FillRow>, symbol: string, orderId: int,
                                          base: string,
                                          quoteAsset: string)
    requires Accepting(r) && orderId >= 0 && forall i | 0 <= i < |fills| :: fills[i].time > 0
    requires Sums(p, fills, symbol, orderId, base, quoteAsset).Some?
    ensures var s := Sums(p, fills, symbol, orderId, base, quoteAsset).value;
            AllIndexed(p, r, Buy, fills, symbol, orderId) == Some(Seen(s.gross, s.quote, s.ids))
  {
    if fills != [] {
      SumsAreIndexed(p, r, fills[..|fills| - 1], symbol, orderId, base, quoteAsset);
      TakenIsIndexed(p, r, Sums(p, fills[..|fills| - 1], symbol, orderId, base, quoteAsset).value, fills[|fills| - 1],
                     symbol, orderId,
                     base, quoteAsset);
    }
  }

  /** A BUY that settled from dated fills, a thousand at most, also has complete fill evidence, for the very
      same trades. */
  lemma SettledFillsAreComplete(r: Reader, order: Report, fills: seq<FillRow>, symbol: string, orderId: int,
                                base: string,
                                quoteAsset: string)
    requires Accepting(r) && r.named(symbol) && |fills| <= MAX_TRADES && forall i | 0 <= i < |fills| ::
             fills[i].time > 0
    requires Settled(Some(DIGITS), order, fills, symbol, orderId, base, quoteAsset).Some?
    ensures CompleteFills(Some(DIGITS), r, order, fills, symbol, orderId)
            == Some(Settled(Some(DIGITS), order, fills, symbol, orderId, base, quoteAsset).value.ids)
  {
    SumsAreIndexed(Some(DIGITS), r, fills, symbol, orderId, base, quoteAsset);
  }
}
