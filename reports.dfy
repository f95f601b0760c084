/** Trades and the execution report that both books return from a placement. */
module Reports {
  import opened Orders

  /** One match: the taker trades `quantity` with the maker at `price`. */
  datatype Trade = Trade(takerId: int, makerId: int, price: real, quantity: real)

  /** The trades of one placement, in the order they happened, with their
      total quantity and their volume-weighted average price. */
  datatype ExecutionReport = ExecutionReport(trades: seq<Trade>, filledQuantity: real, vwap: real)

  /** Sum of the trade quantities. */
  function Filled(trades: seq<Trade>): real
  {
    if trades == [] then 0.0 else trades[0].quantity + Filled(trades[1..])
  }

  /** Sum of price times quantity over the trades. */
  function Notional(trades: seq<Trade>): real
  {
    if trades == [] then 0.0 else trades[0].price * trades[0].quantity + Notional(trades[1..])
  }

  predicate AllPositive(trades: seq<Trade>)
  {
    forall i :: 0 <= i < |trades| ==> trades[i].quantity > 0.0
  }

  predicate PricesWithin(trades: seq<Trade>, lo: real, hi: real)
  {
    forall i :: 0 <= i < |trades| ==> lo <= trades[i].price <= hi
  }

  /** The report of a placement. No trades is a normal outcome and reports
      zero filled at a zero average; otherwise the average is notional over
      filled (guarded against a zero total). */
  function Report(trades: seq<Trade>): (r: ExecutionReport)
    ensures r.trades == trades
    ensures trades == [] ==> r.filledQuantity == 0.0 && r.vwap == 0.0
    ensures r.filledQuantity == Filled(trades)
    ensures r.filledQuantity > 0.0 ==> r.vwap * r.filledQuantity == Notional(trades)
  {
    if trades == [] then ExecutionReport(trades, 0.0, 0.0)
    else
      var filled := Filled(trades);
      var notional := Notional(trades);
      ExecutionReport(trades, filled, if filled > 0.0 then notional / filled else 0.0)
  }

  lemma {:induction false} FilledAppend(a: seq<Trade>, b: seq<Trade>)
    ensures Filled(a + b) == Filled(a) + Filled(b)
  {
    if a == [] {
      assert a + b == b;
    } else {
      assert (a + b)[0] == a[0];
      assert (a + b)[1..] == a[1..] + b;
      FilledAppend(a[1..], b);
    }
  }

  lemma {:induction false} FilledPositive(trades: seq<Trade>)
    requires AllPositive(trades) && trades != []
    ensures Filled(trades) > 0.0
  {
    if |trades| > 1 {
      FilledPositive(trades[1..]);
    }
  }

  /** Notional is bracketed by the lowest and highest price times the total. */
  lemma {:induction false} NotionalBounds(trades: seq<Trade>, lo: real, hi: real)
    requires AllPositive(trades) && PricesWithin(trades, lo, hi)
    ensures lo * Filled(trades) <= Notional(trades) <= hi * Filled(trades)
  {
    if trades != [] {
      var t, rest := trades[0], trades[1..];
      var f, n := Filled(rest), Notional(rest);
      assert Filled(trades) == t.quantity + f;
      assert Notional(trades) == t.price * t.quantity + n;
      assert AllPositive(rest) && PricesWithin(rest, lo, hi);
      NotionalBounds(rest, lo, hi);
      AddBetween(t.price, t.quantity, n, f, lo, hi);
    }
  }

  /** With positive quantities, the average price of a non-empty report lies
      between the lowest and the highest trade price. */
  lemma VwapWithin(trades: seq<Trade>, lo: real, hi: real)
    requires trades != [] && AllPositive(trades) && PricesWithin(trades, lo, hi)
    ensures Report(trades).filledQuantity > 0.0
    ensures lo <= Report(trades).vwap <= hi
  {
    FilledPositive(trades);
    NotionalBounds(trades, lo, hi);
    var f, n := Filled(trades), Notional(trades);
    assert Report(trades).vwap == n / f;
    DivBetween(n, f, lo, hi);
  }
}
