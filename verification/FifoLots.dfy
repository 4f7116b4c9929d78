/** First-in, first-out lots: what every FIFO engine of the repository computes in its own loop.
    A lot is a positive quantity with an arbitrary tag (cost, provenance, age). */
module FifoLots {
  import opened Results

  datatype Lot<T> = Lot(qty: real, tag: T)

  function Total<T>(lots: seq<Lot<T>>): real {
    if lots == [] then 0.0 else lots[0].qty + Total(lots[1..])
  }

  predicate Positive<T>(lots: seq<Lot<T>>) {
    forall i | 0 <= i < |lots| :: lots[i].qty > 0.0
  }

  function Clamp(x: real, low: real, high: real): real { Max(low, Min(x, high)) }

  /** Consuming from the oldest lot on, as the loops do it. */
  function Drain<T>(lots: seq<Lot<T>>, sold: real): seq<Lot<T>> {
    if lots == [] || sold <= 0.0 then lots
    else if lots[0].qty <= sold then Drain(lots[1..], sold - lots[0].qty)
    else [lots[0].(qty := lots[0].qty - sold)] + lots[1..]
  }

  /** The closed form: what is left of lot i after `sold` has been taken from the front. */
  function Residual<T>(lots: seq<Lot<T>>, i: nat, sold: real): real
    requires i < |lots|
  {
    Clamp(Total(lots[..i + 1]) - sold, 0.0, lots[i].qty)
  }

  /** How many lots are used up. */
  function Spent<T>(lots: seq<Lot<T>>, sold: real): (k: nat)
    ensures k <= |lots|
  {
    if lots == [] || sold <= 0.0 || lots[0].qty > sold then 0 else 1 + Spent(lots[1..], sold - lots[0].qty)
  }

  lemma {:induction false} TotalConcat<T>(a: seq<Lot<T>>, b: seq<Lot<T>>)
    ensures Total(a + b) == Total(a) + Total(b)
  {
    if a == [] {
      assert a + b == b;
    } else {
      assert (a + b)[1..] == a[1..] + b;
      TotalConcat(a[1..], b);
    }
  }

  lemma TotalOne<T>(lot: Lot<T>)
    ensures Total([lot]) == lot.qty
  {
    assert [lot][1..] == [];
  }

  lemma {:induction false} TotalNonNegative<T>(lots: seq<Lot<T>>)
    requires Positive(lots)
    ensures Total(lots) >= 0.0 && (lots != [] ==> Total(lots) > 0.0)
  {
    if lots != [] {
      TotalNonNegative(lots[1..]);
    }
  }

  lemma {:induction false} DrainKeeps<T>(lots: seq<Lot<T>>, sold: real)
    requires Positive(lots)
    ensures Positive(Drain(lots, sold))
    ensures 0.0 <= sold <= Total(lots) ==> Total(Drain(lots, sold)) == Total(lots) - sold
    ensures sold >= Total(lots) && sold > 0.0 ==> Drain(lots, sold) == []
  {
    TotalNonNegative(lots);
    if lots == [] || sold <= 0.0 {
    } else if lots[0].qty <= sold {
      TotalNonNegative(lots[1..]);
      DrainKeeps(lots[1..], sold - lots[0].qty);
      if sold == lots[0].qty && sold >= Total(lots) {
        assert lots[1..] == [];
      }
    } else {
      TotalNonNegative(lots[1..]);
    }
  }

  lemma {:induction false} LastOfPrefix<T>(lots: seq<Lot<T>>, i: nat)
    requires Positive(lots) && i < |lots|
    ensures Total(lots[..i + 1]) >= lots[i].qty
  {
    assert lots[..i + 1] == lots[..i] + [lots[i]];
    TotalConcat(lots[..i], [lots[i]]);
    TotalNonNegative(lots[..i]);
  }

  lemma ResidualOfTail<T>(lots: seq<Lot<T>>, i: nat, sold: real)
    requires 0 < i < |lots|
    ensures Residual(lots, i, sold) == Residual(lots[1..], i - 1, sold - lots[0].qty)
  {
    assert lots[..i + 1][1..] == lots[1..][..i];
  }

  lemma ResidualUntouched<T>(lots: seq<Lot<T>>, i: nat, sold: real)
    requires Positive(lots) && i < |lots| && sold <= 0.0
    ensures Residual(lots, i, sold) == lots[i].qty
  {
    LastOfPrefix(lots, i);
  }

  lemma ResidualOfHead<T>(lots: seq<Lot<T>>, sold: real)
    requires lots != []
    ensures Residual(lots, 0, sold) == Clamp(lots[0].qty - sold, 0.0, lots[0].qty)
  {
    assert lots[..1] == [lots[0]];
    assert Total([lots[0]]) == lots[0].qty + Total<T>([]);
  }

  /** Lot i of `lots` is either used up or found again, with its tag, k places further left. */
  ghost predicate Accounted<T>(lots: seq<Lot<T>>, i: nat, sold: real, left: seq<Lot<T>>, k: nat)
    requires i < |lots| && k + |left| == |lots|
  {
    var r := Residual(lots, i, sold);
    if i < k then r == 0.0
    else r > 0.0 && left[i - k] == lots[i].(qty := r) && (i > k ==> r == lots[i].qty)
  }

  /** The loops compute the closed form: the survivors are exactly a suffix of the lots, every one
      before it has residual zero, and only the first survivor can be cut. */
  lemma {:induction false} DrainClosedForm<T>(lots: seq<Lot<T>>, sold: real)
    requires Positive(lots) && sold >= 0.0
    ensures Spent(lots, sold) + |Drain(lots, sold)| == |lots|
    ensures forall i | 0 <= i < |lots| :: Accounted(lots, i, sold, Drain(lots, sold), Spent(lots, sold))
  {
    if lots == [] {
    } else if sold <= 0.0 {
      forall i | 0 <= i < |lots| ensures Accounted(lots, i, sold, lots, 0) {
        ResidualUntouched(lots, i, sold);
      }
    } else if lots[0].qty > sold {
      var left := Drain(lots, sold);
      forall i | 0 <= i < |lots| ensures Accounted(lots, i, sold, left, 0) {
        if i == 0 {
          ResidualOfHead(lots, sold);
        } else {
          ResidualOfTail(lots, i, sold);
          ResidualUntouched(lots[1..], i - 1, sold - lots[0].qty);
        }
      }
    } else {
      var tail, rest := lots[1..], sold - lots[0].qty;
      DrainClosedForm(tail, rest);
      forall i | 0 <= i < |lots| ensures Accounted(lots, i, sold, Drain(lots, sold), Spent(lots, sold)) {
        if i == 0 {
          ResidualOfHead(lots, sold);
        } else {
          ResidualOfTail(lots, i, sold);
          assert Accounted(tail, i - 1, rest, Drain(tail, rest), Spent(tail, rest));
        }
      }
    }
  }

  lemma {:induction false} DrainTwice<T>(lots: seq<Lot<T>>, a: real, b: real)
    requires Positive(lots) && a >= 0.0 && b >= 0.0
    ensures Drain(Drain(lots, a), b) == Drain(lots, a + b)
  {
    if lots != [] && a > 0.0 && lots[0].qty <= a {
      DrainTwice(lots[1..], a - lots[0].qty, b);
    }
  }

  lemma {:induction false} DrainAppend<T>(lots: seq<Lot<T>>, more: seq<Lot<T>>, sold: real)
    requires Positive(lots) && sold <= Total(lots)
    ensures Drain(lots + more, sold) == Drain(lots, sold) + more
  {
    if lots == [] {
    } else if sold <= 0.0 {
    } else {
      assert (lots + more)[1..] == lots[1..] + more;
      if lots[0].qty <= sold {
        DrainAppend(lots[1..], more, sold - lots[0].qty);
      }
    }
  }

  // ---------- histories ----------

  datatype Move<T> = Buy(lot: Lot<T>) | Sell(qty: real)

  predicate ValidMoves<T>(moves: seq<Move<T>>, n: nat)
    requires n <= |moves|
  {
    forall i | 0 <= i < n :: if moves[i].Buy? then moves[i].lot.qty > 0.0 else moves[i].qty > 0.0
  }

  /** Lots after the first n moves, or None once a SELL has exceeded them. */
  function Replay<T>(seed: seq<Lot<T>>, moves: seq<Move<T>>, n: nat): Option<seq<Lot<T>>>
    requires n <= |moves|
  {
    if n == 0 then Some(seed)
    else match Replay(seed, moves, n - 1)
      case None => None
      case Some(lots) =>
        match moves[n - 1]
        case Buy(lot) => Some(lots + [lot])
        case Sell(qty) => if qty > Total(lots) then None else Some(Drain(lots, qty))
  }

  function Bought<T>(moves: seq<Move<T>>, n: nat): seq<Lot<T>>
    requires n <= |moves|
  {
    if n == 0 then [] else if moves[n - 1].Buy? then Bought(moves, n - 1) + [moves[n - 1].lot] else Bought(moves, n - 1)
  }

  function Sold<T>(moves: seq<Move<T>>, n: nat): real
    requires n <= |moves|
  {
    if n == 0 then 0.0 else if moves[n - 1].Sell? then Sold(moves, n - 1) + moves[n - 1].qty else Sold(moves, n - 1)
  }

  function Balance<T>(moves: seq<Move<T>>, n: nat): real
    requires n <= |moves|
  {
    Total(Bought(moves, n)) - Sold(moves, n)
  }

  lemma {:induction false} BoughtPositive<T>(moves: seq<Move<T>>, n: nat)
    requires n <= |moves| && ValidMoves(moves, n)
    ensures Positive(Bought(moves, n)) && Sold(moves, n) >= 0.0
  {
    if n > 0 {
      BoughtPositive(moves, n - 1);
    }
  }

  lemma BalanceStep<T>(moves: seq<Move<T>>, n: nat)
    requires n < |moves|
    ensures Balance(moves, n + 1) == Balance(moves, n) + if moves[n].Buy? then moves[n].lot.qty else -moves[n].qty
  {
    if moves[n].Buy? {
      TotalConcat(Bought(moves, n), [moves[n].lot]);
    }
  }

  ghost predicate NeverShort<T>(seed: seq<Lot<T>>, moves: seq<Move<T>>, n: nat)
    requires n <= |moves|
  {
    forall k | 0 <= k <= n :: Total(seed) + Balance(moves, k) >= 0.0
  }

  ghost predicate Closed<T>(seed: seq<Lot<T>>, moves: seq<Move<T>>, n: nat, lots: seq<Lot<T>>)
    requires n <= |moves|
  {
    && lots == Drain(seed + Bought(moves, n), Sold(moves, n))
    && Total(lots) == Total(seed) + Balance(moves, n)
    && Positive(lots)
  }

  lemma ClosedAfterBuy<T>(seed: seq<Lot<T>>, moves: seq<Move<T>>, n: nat, lots: seq<Lot<T>>)
    requires n < |moves| && Positive(seed) && ValidMoves(moves, n) && moves[n].Buy? && moves[n].lot.qty > 0.0
    requires Closed(seed, moves, n, lots)
    ensures Closed(seed, moves, n + 1, lots + [moves[n].lot])
  {
    var bought, lot := seed + Bought(moves, n), moves[n].lot;
    assert bought + [lot] == seed + Bought(moves, n + 1);
    assert Drain(bought + [lot], Sold(moves, n)) == Drain(bought, Sold(moves, n)) + [lot] by {
      BoughtPositive(moves, n);
      TotalNonNegative(lots);
      TotalConcat(seed, Bought(moves, n));
      DrainAppend(bought, [lot], Sold(moves, n));
    }
    TotalConcat(lots, [lot]);
    TotalOne(lot);
    BalanceStep(moves, n);
  }

  lemma {:induction false} ClosedAfterSell<T>(seed: seq<Lot<T>>, moves: seq<Move<T>>, n: nat, lots: seq<Lot<T>>)
    requires n < |moves| && Positive(seed) && ValidMoves(moves, n) && moves[n].Sell? && moves[n].qty > 0.0
    requires Closed(seed, moves, n, lots)
    requires moves[n].qty <= Total(lots)
    ensures Closed(seed, moves, n + 1, Drain(lots, moves[n].qty))
  {
    BoughtPositive(moves, n);
    DrainTwice(seed + Bought(moves, n), Sold(moves, n), moves[n].qty);
    DrainKeeps(lots, moves[n].qty);
    BalanceStep(moves, n);
  }

  /** The order in which sales interleave with purchases does not matter: a history is replayable
      exactly when no prefix goes below zero, and then it leaves the closed form of all purchases
      against all sales. */
  lemma {:induction false} ReplayClosedForm<T>(seed: seq<Lot<T>>, moves: seq<Move<T>>, n: nat)
    requires n <= |moves| && Positive(seed) && ValidMoves(moves, n)
    ensures Replay(seed, moves, n).Some? <==> NeverShort(seed, moves, n)
    ensures Replay(seed, moves, n).Some? ==> Closed(seed, moves, n, Replay(seed, moves, n).value)
  {
    if n == 0 {
      assert seed + Bought(moves, 0) == seed;
      TotalNonNegative(seed);
    } else {
      ReplayClosedForm(seed, moves, n - 1);
      if Replay(seed, moves, n - 1).Some? {
        var lots := Replay(seed, moves, n - 1).value;
        BalanceStep(moves, n - 1);
        if moves[n - 1].Buy? {
          ClosedAfterBuy(seed, moves, n - 1, lots);
          TotalNonNegative(lots + [moves[n - 1].lot]);
        } else if moves[n - 1].qty <= Total(lots) {
          ClosedAfterSell(seed, moves, n - 1, lots);
        }
      } else {
        assert !NeverShort(seed, moves, n - 1);
      }
    }
  }
}
