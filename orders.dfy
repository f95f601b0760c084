/** Order values of the exchange core: immutable snapshots of one order's
    economic state. A fill never changes an order in place; `Consume` returns
    a new value. Prices and sizes are exact reals, so an order is done exactly
    when nothing of it remains. */
module Orders {

  datatype Direction = Buy | Sell

  /** The side a taker of direction `d` trades against. */
  function Opposite(d: Direction): Direction
  {
    if d == Buy then Sell else Buy
  }

  /** The failure kinds of the core, standing in for its exceptions. */
  datatype Error =
    | InvalidArgument   // a non-positive quantity, price or fill amount
    | Overfill          // a fill larger than what remains
    | WrongOrderType    // a book handed the other order variant
    | CrossingSeed      // a seed order traded during bulk construction
    | EmptySide         // a query that needs resting volume on an empty side

  datatype Result<T> = Ok(value: T) | Err(error: Error)

  /** Whether a sequence of steps ran to completion or stopped on a failure. */
  datatype Outcome = Pass | Fail(error: Error)

  function Min(a: real, b: real): real
  {
    if a <= b then a else b
  }

  /** A total bracketed by `lo` and `hi` times a positive weight gives an
      average bracketed by `lo` and `hi`. */
  lemma DivBetween(n: real, v: real, lo: real, hi: real)
    requires v > 0.0 && lo * v <= n <= hi * v
    ensures lo <= n / v <= hi
  {
    assert (n / v) * v == n;
    assert lo <= n / v by {
      assert (n / v - lo) * v == n - lo * v;
    }
    assert n / v <= hi by {
      assert (hi - n / v) * v == hi * v - n;
    }
  }

  /** Scaling a price bracket by a non-negative quantity. */
  lemma MulBetween(p: real, q: real, lo: real, hi: real)
    requires q >= 0.0 && lo <= p <= hi
    ensures lo * q <= p * q <= hi * q
  {
    assert (p - lo) * q >= 0.0;
    assert (hi - p) * q >= 0.0;
  }

  /** Adding one more priced quantity to a bracketed running sum keeps it bracketed. */
  lemma AddBetween(p: real, q: real, n: real, f: real, lo: real, hi: real)
    requires q >= 0.0 && lo <= p <= hi && lo * f <= n <= hi * f
    ensures lo * (q + f) <= p * q + n <= hi * (q + f)
  {
    MulBetween(p, q, lo, hi);
    assert lo * (q + f) == lo * q + lo * f;
    assert hi * (q + f) == hi * q + hi * f;
  }

  /** An order with a limit price. */
  datatype LimitOrder = LimitOrder(id: int, side: Direction, price: real, quantity: real, remaining: real)
  {
    /** The four-argument constructor: nothing has been filled yet. */
    static function New(id: int, side: Direction, price: real, quantity: real): (o: LimitOrder)
      ensures o.id == id && o.side == side && o.price == price && o.quantity == quantity
      ensures o.remaining == o.quantity
    {
      LimitOrder(id, side, price, quantity, quantity)
    }

    /** The validating factory: quantity and price must both be positive. */
    static function Of(id: int, side: Direction, price: real, quantity: real): (r: Result<LimitOrder>)
      ensures r.Ok? <==> 0.0 < quantity && 0.0 < price
      ensures r.Err? ==> r.error == InvalidArgument
      ensures r.Ok? ==> r.value == New(id, side, price, quantity)
      ensures r.Ok? ==> r.value.WellFormed() && !r.value.IsDone()
    {
      if quantity <= 0.0 then Err(InvalidArgument)
      else if price <= 0.0 then Err(InvalidArgument)
      else Ok(New(id, side, price, quantity))
    }

    /** What every order built by `Of` and then filled satisfies. */
    predicate WellFormed()
    {
      0.0 < quantity && 0.0 <= remaining <= quantity && 0.0 < price
    }

    /** Done exactly when nothing remains: a done order accepts no fill at
        all, and an order with something left accepts a fill of all of it. */
    predicate IsDone(): (done: bool)
      ensures done ==> forall amount: real :: Consume(amount).Err?
      ensures !done && 0.0 <= remaining ==> Consume(remaining).Ok?
    {
      remaining == 0.0
    }

    /** A fill of `amount`: rejects a non-positive amount and an overfill,
        never clamps; otherwise only `remaining` changes. */
    function Consume(amount: real): (r: Result<LimitOrder>)
      ensures amount <= 0.0 ==> r == Err(InvalidArgument)
      ensures 0.0 < amount && remaining < amount ==> r == Err(Overfill)
      ensures r.Ok? <==> 0.0 < amount <= remaining
      ensures r.Ok? ==> (r.value.id == id && r.value.side == side && r.value.price == price &&
                         r.value.quantity == quantity && r.value.remaining == remaining - amount)
    {
      if amount <= 0.0 then Err(InvalidArgument)
      else if amount > remaining then Err(Overfill)
      else Ok(this.(remaining := remaining - amount))
    }
  }

  /** An order without a price of its own: it executes at a reference price
      supplied by whoever matches it. */
  datatype MidOrder = MidOrder(id: int, side: Direction, quantity: real, remaining: real)
  {
    /** The three-argument constructor: nothing has been filled yet. */
    static function New(id: int, side: Direction, quantity: real): (o: MidOrder)
      ensures o.id == id && o.side == side && o.quantity == quantity
      ensures o.remaining == o.quantity
    {
      MidOrder(id, side, quantity, quantity)
    }

    /** The validating factory. It is declared on an instance, whose fields
        it ignores; only the quantity is checked. */
    function Of(id: int, side: Direction, quantity: real): (r: Result<MidOrder>)
      ensures r.Ok? <==> 0.0 < quantity
      ensures r.Err? ==> r.error == InvalidArgument
      ensures r.Ok? ==> r.value == New(id, side, quantity)
      ensures r.Ok? ==> r.value.WellFormed() && !r.value.IsDone()
    {
      if quantity <= 0.0 then Err(InvalidArgument)
      else Ok(New(id, side, quantity))
    }

    predicate WellFormed()
    {
      0.0 < quantity && 0.0 <= remaining <= quantity
    }

    /** Done exactly when nothing remains: a done order accepts no fill at
        all, and an order with something left accepts a fill of all of it. */
    predicate IsDone(): (done: bool)
      ensures done ==> forall amount: real :: Consume(amount).Err?
      ensures !done && 0.0 <= remaining ==> Consume(remaining).Ok?
    {
      remaining == 0.0
    }

    /** A fill of `amount`: rejects a non-positive amount and an overfill
        alike, with one undifferentiated error; otherwise only `remaining`
        changes. */
    function Consume(amount: real): (r: Result<MidOrder>)
      ensures r.Ok? <==> 0.0 < amount <= remaining
      ensures r.Err? ==> r.error == InvalidArgument
      ensures r.Ok? ==> (r.value.id == id && r.value.side == side &&
                         r.value.quantity == quantity && r.value.remaining == remaining - amount)
    {
      if amount <= 0.0 || amount > remaining then Err(InvalidArgument)
      else Ok(this.(remaining := remaining - amount))
    }
  }

  /** The order capability both books accept; each book takes one variant. */
  datatype Order = Limit(limit: LimitOrder) | Mid(mid: MidOrder)

  /** A valid fill keeps `0 <= remaining <= quantity`, and filling all that
      remains leaves a done order. */
  lemma LimitConsumeKeepsBounds(o: LimitOrder, amount: real)
    requires o.WellFormed()
    ensures o.Consume(amount).Ok? ==> o.Consume(amount).value.WellFormed()
    ensures o.remaining > 0.0 ==> o.Consume(o.remaining).Ok? && o.Consume(o.remaining).value.IsDone()
  {
  }

  /** Two successive fills are the same as one fill of their sum. */
  lemma LimitConsumeTwice(o: LimitOrder, a: real, b: real)
    requires o.Consume(a).Ok? && o.Consume(a).value.Consume(b).Ok?
    ensures o.Consume(a + b) == o.Consume(a).value.Consume(b)
  {
  }

  lemma MidConsumeKeepsBounds(o: MidOrder, amount: real)
    requires o.WellFormed()
    ensures o.Consume(amount).Ok? ==> o.Consume(amount).value.WellFormed()
    ensures o.remaining > 0.0 ==> o.Consume(o.remaining).Ok? && o.Consume(o.remaining).value.IsDone()
  {
  }

  lemma MidConsumeTwice(o: MidOrder, a: real, b: real)
    requires o.Consume(a).Ok? && o.Consume(a).value.Consume(b).Ok?
    ensures o.Consume(a + b) == o.Consume(a).value.Consume(b)
  {
  }
}
