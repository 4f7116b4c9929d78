/** Choosing LIMIT order values on the step and tick lattice, with minimum quantity, minimum notional and a
    maximum notional. */
module OrderValues {
  import opened Results
  import opened ExactDecimal
  import opened ExchangeMath
  import opened OrderJournal

  datatype Filters = Filters(tick: Dec, step: Dec, minQuantity: real, minNotional: real)

  predicate ValidFilters(f: Filters) {
    f.tick.coeff > 0 && f.step.coeff > 0 && f.minQuantity > 0.0 && f.minNotional > 0.0
  }

  datatype Choice = NoOrder | Invalid | Order(quantity: real, price: real)

  lemma {:induction false} SizePositive(d: Dec)
    requires d.coeff > 0
    ensures Size(d) > 0.0
  {
    if d.exp >= 0 {
      assert d.coeff * Pow10(d.exp) >= 1;
    }
  }

  function StepSize(d: Dec): (s: real)
    requires d.coeff > 0
    ensures s > 0.0
  {
    SizePositive(d);
    Size(d)
  }

  function LatticePrice(price: real, f: Filters, side: Side): real
    requires ValidFilters(f)
  {
    RoundStep(price, StepSize(f.tick), if side == Buy then Down else Up)
  }

  /** A LIMIT order on the lattice: a BUY too small in notional is raised, a SELL is not. */
  function BoundedOrder(qty: real, price: real, f: Filters, side: Side, limit: Option<real>): Choice
    requires ValidFilters(f)
  {
    var quantity, orderPrice := RoundStep(qty, StepSize(f.step), Down), LatticePrice(price, f, side);
    if orderPrice <= 0.0 || quantity < f.minQuantity then NoOrder
    else if Notional(quantity, orderPrice) < f.minNotional && side == Sell then NoOrder
    else
      var chosen := if Notional(quantity, orderPrice) < f.minNotional
                    then RoundStep(Max(f.minNotional / orderPrice, f.minQuantity), StepSize(f.step), Up) else quantity;
      if chosen <= 0.0 || Notional(chosen, orderPrice) < f.minNotional then NoOrder
      else match limit
        case None => Order(chosen, orderPrice)
        case Some(most) =>
          if most < 0.0 then Invalid else if Notional(chosen, orderPrice) > most then NoOrder
              else Order(chosen, orderPrice)
  }

  /** The wanted quantity rounded down, or up from the minimum quantity if that is more. */
  function Enough(qty: real, f: Filters): real
    requires ValidFilters(f)
  {
    var floored := RoundStep(qty, StepSize(f.step), Down);
    if floored < f.minQuantity then RoundStep(f.minQuantity, StepSize(f.step), Up) else floored
  }

  /** Order values that are raised to the minima whatever the side. */
  function NormalizedOrder(qty: real, price: real, f: Filters, side: Side): Choice
    requires ValidFilters(f)
  {
    var step, p, enough := StepSize(f.step), LatticePrice(price, f, side), Enough(qty, f);
    var q := if p > 0.0 && Notional(enough, p) < f.minNotional then RoundStep(f.minNotional / p, step, Up) else enough;
    if q <= 0.0 || p <= 0.0 then Invalid else Order(q, p)
  }

  // ---------- what the chosen values satisfy ----------

  lemma QuotientCovers(q: real, p: real, notional: real)
    requires p > 0.0 && q >= notional / p
    ensures Notional(q, p) >= notional
  {
    var d := q - notional / p;
    assert d * p >= 0.0;
    assert notional / p * p == notional;
  }

  lemma QuotientFallsShort(q: real, p: real, notional: real)
    requires p > 0.0 && q < notional / p
    ensures Notional(q, p) < notional
  {
    var d := notional / p - q;
    assert d * p > 0.0;
    assert notional / p * p == notional;
  }

  lemma ProductAtLeast(q: real, p: real, notional: real)
    requires p > 0.0
    ensures q >= notional / p <==> Notional(q, p) >= notional
  {
    if q >= notional / p {
      QuotientCovers(q, p, notional);
    } else {
      QuotientFallsShort(q, p, notional);
    }
  }

  /** The k-th step is the last one up to the value. */
  predicate LastUpTo(k: int, value: real, step: real) { Multiple(k, step) <= value < Multiple(k + 1, step) }

  /** The k-th step is the first one from the value on. */
  predicate FirstFrom(k: int, value: real, step: real) { Multiple(k - 1, step) < value <= Multiple(k, step) }

  lemma RoundedTo(k: int, value: real, step: real)
    requires step > 0.0
    ensures LastUpTo(k, value, step) ==> RoundStep(value, step, Down) == Multiple(k, step)
    ensures FirstFrom(k, value, step) ==> RoundStep(value, step, Up) == Multiple(k, step)
  {
    var down, up := Steps(value, step, Down), Steps(value, step, Up);
    DownIsGreatest(value, step, k);
    DownIsGreatest(value, step, k + 1);
    UpIsLeast(value, step, k);
    UpIsLeast(value, step, k - 1);
    MultiplesOrdered(k, down, step);
    MultiplesOrdered(k + 1, down, step);
    MultiplesOrdered(up, k, step);
    MultiplesOrdered(up, k - 1, step);
  }

  /** The k-th tick is the price of a BUY if it is the last one up to the wanted price, and of a SELL if it is the first
      one from there on. */
  predicate IsPrice(k: int, price: real, f: Filters, side: Side) {
    if side == Buy then LastUpTo(k, price, Size(f.tick)) else FirstFrom(k, price, Size(f.tick))
  }

  lemma PriceAt(k: int, price: real, f: Filters, side: Side)
    requires ValidFilters(f) && IsPrice(k, price, f, side)
    ensures LatticePrice(price, f, side) == Multiple(k, Size(f.tick))
  {
    RoundedTo(k, price, StepSize(f.tick));
  }

  /** The price is on the tick lattice: never above the wanted one for a BUY, never below it for a SELL, and
      within a tick of it. */
  lemma PriceOnLattice(price: real, f: Filters, side: Side) returns (k: int)
    requires ValidFilters(f)
    ensures LatticePrice(price, f, side) == Multiple(k, Size(f.tick)) && IsPrice(k, price, f, side)
    ensures if side == Buy then LatticePrice(price, f, side) <= price else price <= LatticePrice(price, f, side)
  {
    var tick := StepSize(f.tick);
    k := Steps(price, tick, if side == Buy then Down else Up);
    NextMultiple(k, tick);
    NextMultiple(k - 1, tick);
    if side == Buy {
      DownIsGreatest(price, tick, k);
    } else {
      UpIsLeast(price, tick, k);
    }
  }

  // n steps meet both minima at this price.
  predicate Meets(n: int, step: real, price: real, f: Filters) {
    Multiple(n, step) >= f.minQuantity && Notional(Multiple(n, step), price) >= f.minNotional
  }

  // ... and no smaller number of steps does.
  ghost predicate LeastMeeting(n: int, step: real, price: real, f: Filters) {
    Meets(n, step, price, f) && forall k: int | Meets(k, step, price, f) :: Multiple(n, step) <= Multiple(k, step)
  }

  lemma NeededMeets(f: Filters, step: real, price: real, n: int)
    requires step > 0.0 && price > 0.0
    ensures Meets(n, step, price, f) <==> Multiple(n, step) >= Max(f.minNotional / price, f.minQuantity)
  {
    ProductAtLeast(Multiple(n, step), price, f.minNotional);
  }

  lemma RaisedIsLeast(f: Filters, step: real, price: real, n: int)
    requires step > 0.0 && price > 0.0 && n == Steps(Max(f.minNotional / price, f.minQuantity), step, Up)
    ensures LeastMeeting(n, step, price, f)
  {
    var needed := Max(f.minNotional / price, f.minQuantity);
    UpIsLeast(needed, step, n);
    NeededMeets(f, step, price, n);
    forall k: int | Meets(k, step, price, f) ensures Multiple(n, step) <= Multiple(k, step) {
      NeededMeets(f, step, price, k);
      UpIsLeast(needed, step, k);
    }
  }

  /** A bounded order is on the lattice, meets both minima and the maximum, and has a positive price. Its
      quantity is the wanted one rounded down, unless that was too small in notional: then, for a BUY only, it
      is the least number of steps that meets both minima. */
  lemma BoundedOrderIsSound(qty: real, price: real, f: Filters, side: Side, limit: Option<real>) returns (n: int)
    requires ValidFilters(f) && BoundedOrder(qty, price, f, side, limit).Order?
    ensures var o, step := BoundedOrder(qty, price, f, side, limit), StepSize(f.step);
            && o.quantity == Multiple(n, step) && o.price == LatticePrice(price, f, side) && o.price > 0.0
            && Meets(n, step, o.price, f) && (limit.Some? ==> Notional(o.quantity, o.price) <= limit.value)
            && (o.quantity == RoundStep(qty, step, Down) <= qty
                || (side == Buy && Notional(RoundStep(qty, step, Down), o.price) < f.minNotional
                    && LeastMeeting(n, step, o.price, f)))
  {
    var step, p := StepSize(f.step), LatticePrice(price, f, side);
    n := Steps(qty, step, Down);
    DownIsGreatest(qty, step, n);
    if Notional(RoundStep(qty, step, Down), p) < f.minNotional {
      n := Steps(Max(f.minNotional / p, f.minQuantity), step, Up);
      RaisedIsLeast(f, step, p, n);
    }
  }

  /** The two texts of a bounded order read back as exactly its quantity and price. */
  lemma PrintedOrderReadsBack(qty: real, price: real, f: Filters, side: Side, limit: Option<real>)
    requires ValidFilters(f) && BoundedOrder(qty, price, f, side, limit).Order?
    ensures var o := BoundedOrder(qty, price, f, side, limit);
            Read(FormatStep(o.quantity, f.step)) == Some(o.quantity)
                && Read(FormatStep(o.price, f.tick)) == Some(o.price)
  {
    var n := BoundedOrderIsSound(qty, price, f, side, limit);
    var k := PriceOnLattice(price, f, side);
    FormattedReadsBack(n, f.step);
    FormattedReadsBack(k, f.tick);
  }

  lemma ProductOrdered(a: real, b: real, p: real)
    requires p > 0.0 && a <= b
    ensures Notional(a, p) <= Notional(b, p)
  {
    assert (b - a) * p >= 0.0;
  }

  // Some number of steps meets both minima without exceeding the maximum.
  ghost predicate Possible(step: real, price: real, f: Filters, limit: real) {
    exists k: int :: Meets(k, step, price, f) && Notional(Multiple(k, step), price) <= limit
  }

  lemma LeastFits(n: int, step: real, price: real, f: Filters, limit: real)
    requires price > 0.0 && LeastMeeting(n, step, price, f)
    ensures Possible(step, price, f, limit) <==> Notional(Multiple(n, step), price) <= limit
  {
    if Possible(step, price, f, limit) {
      var k: int :| Meets(k, step, price, f) && Notional(Multiple(k, step), price) <= limit;
      ProductOrdered(Multiple(n, step), Multiple(k, step), price);
    }
  }

  /** When the wanted quantity is too small in notional, a BUY is placed exactly when some number of steps
      meets both minima without exceeding the maximum. */
  lemma RaisedExactlyWhenPossible(qty: real, price: real, f: Filters, limit: real)
    requires ValidFilters(f) && limit >= 0.0
    requires var p := LatticePrice(price, f, Buy);
             && p > 0.0 && RoundStep(qty, StepSize(f.step), Down) >= f.minQuantity
             && Notional(RoundStep(qty, StepSize(f.step), Down), p) < f.minNotional
    ensures BoundedOrder(qty, price, f, Buy, Some(limit)).Order?
            <==> Possible(StepSize(f.step), LatticePrice(price, f, Buy), f, limit)
  {
    var step, p := StepSize(f.step), LatticePrice(price, f, Buy);
    var n := Steps(Max(f.minNotional / p, f.minQuantity), step, Up);
    RaisedIsLeast(f, step, p, n);
    LeastFits(n, step, p, f, limit);
  }

  lemma LeastIsNeeded(n: int, step: real, price: real, f: Filters)
    requires step > 0.0 && price > 0.0 && LeastMeeting(n, step, price, f)
    ensures RoundStep(Max(f.minNotional / price, f.minQuantity), step, Up) == Multiple(n, step)
  {
    var needed := Steps(Max(f.minNotional / price, f.minQuantity), step, Up);
    RaisedIsLeast(f, step, price, needed);
    assert Meets(needed, step, price, f) && Meets(n, step, price, f);
  }

  predicate Affordable(quantity: real, price: real, limit: Option<real>) {
    limit.Some? ==> 0.0 <= limit.value && Notional(quantity, price) <= limit.value
  }

  /** What a bounded order of m steps at the k-th tick becomes, given the number of steps that would do: nothing if the
      price or the quantity is too small; as it is if its notional suffices; otherwise nothing for a SELL and the
      sufficient quantity for a BUY. More than the maximum is nothing, and a negative maximum is invalid. */
  lemma AcceptedExactly(qty: real, price: real, f: Filters, side: Side, limit: Option<real>, k: int, m: int, n: int)
    requires ValidFilters(f) && IsPrice(k, price, f, side) && LastUpTo(m, qty, Size(f.step))
    requires k > 0 ==> LeastMeeting(n, Size(f.step), Multiple(k, Size(f.tick)), f)
    ensures var p, q, raised := Multiple(k, Size(f.tick)), Multiple(m, Size(f.step)), Multiple(n, Size(f.step));
            var chosen := if Notional(q, p) >= f.minNotional then q else raised;
            var open := k > 0 && q >= f.minQuantity && (Notional(q, p) >= f.minNotional || side == Buy);
            BoundedOrder(qty, price, f, side, limit) ==
              if !open then NoOrder
              else if limit.Some? && limit.value < 0.0 then Invalid
              else if Affordable(chosen, p, limit) then Order(chosen, p) else NoOrder
  {
    var tick, step := StepSize(f.tick), StepSize(f.step);
    PriceAt(k, price, f, side);
    RoundedTo(m, qty, step);
    MultiplesOrdered(k, 0, tick);
    NextMultiple(0, tick);
    if k > 0 {
      LeastIsNeeded(n, step, Multiple(k, tick), f);
    }
  }

  // ---------- normalised values ----------

  lemma EnoughIsLeast(qty: real, f: Filters, k: int) returns (n: int)
    requires ValidFilters(f)
    ensures Enough(qty, f) == Multiple(n, StepSize(f.step))
    ensures Enough(qty, f) >= RoundStep(qty, StepSize(f.step), Down) && Enough(qty, f) >= f.minQuantity
    ensures Multiple(k, StepSize(f.step)) >= RoundStep(qty, StepSize(f.step), Down)
            && Multiple(k, StepSize(f.step)) >= f.minQuantity
            ==> Enough(qty, f) <= Multiple(k, StepSize(f.step))
  {
    var step := StepSize(f.step);
    UpIsLeast(f.minQuantity, step, k);
    n := if RoundStep(qty, step, Down) < f.minQuantity then Steps(f.minQuantity, step, Up) else Steps(qty, step, Down);
  }

  /** Normalisation refuses only a price that rounds to nothing; otherwise its quantity is the least number of
      steps, not below the wanted one rounded down, that meets both minima. */
  lemma NormalizedIsLeast(qty: real, price: real, f: Filters, side: Side, k: int) returns (n: int)
    requires ValidFilters(f)
    ensures var o, step, p := NormalizedOrder(qty, price, f, side), StepSize(f.step), LatticePrice(price, f, side);
            && (o.Order? <==> p > 0.0)
            && (o.Order? ==> o.price == p && o.quantity == Multiple(n, step) && Meets(n, step, p, f))
            && (o.Order? ==> o.quantity >= RoundStep(qty, step, Down))
            && (o.Order? && Multiple(k, step) >= RoundStep(qty, step, Down) && Meets(k, step, p, f)
                ==> o.quantity <= Multiple(k, step))
  {
    var step, p := StepSize(f.step), LatticePrice(price, f, side);
    n := EnoughIsLeast(qty, f, k);
    if p > 0.0 && Notional(Enough(qty, f), p) < f.minNotional {
      n := Steps(f.minNotional / p, step, Up);
      UpIsLeast(f.minNotional / p, step, k);
      ProductAtLeast(Enough(qty, f), p, f.minNotional);
      ProductAtLeast(Multiple(n, step), p, f.minNotional);
      ProductAtLeast(Multiple(k, step), p, f.minNotional);
    }
  }
}
