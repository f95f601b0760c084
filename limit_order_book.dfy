/** The price-time priority limit order book. `Place` specifies one call of
    `placeOrder` on the two sides as values; the class `LimitOrderBook` holds
    the sides as fields and its methods are proved to do what `Place` and the
    query functions say. */
module LimitBook {
  import opened Orders
  import opened Reports
  import opened Levels
  import opened Matching

  /** The taker's own side and the side it trades against. */
  function Own(d: Direction, bids: seq<Level>, asks: seq<Level>): seq<Level>
  {
    if d == Buy then bids else asks
  }

  function Other(d: Direction, bids: seq<Level>, asks: seq<Level>): seq<Level>
  {
    if d == Buy then asks else bids
  }

  /** No resting cross: the best bid is below the best ask. */
  predicate Uncrossed(bids: seq<Level>, asks: seq<Level>)
  {
    bids == [] || asks == [] || bids[0].price < asks[0].price
  }

  /** What a placement returns and the two sides it leaves behind. */
  datatype Placement = Placement(report: Result<ExecutionReport>, bids: seq<Level>, asks: seq<Level>)

  /** One placement: a mid order is refused without a change; a limit order
      sweeps the other side and, when the sweep passes and leaves something
      of the taker, rests that remainder on its own side. A failing sweep
      returns the error and leaves the other side as the failure left it. */
  function Place(bids: seq<Level>, asks: seq<Level>, order: Order): (p: Placement)
    ensures order.Mid? ==> p == Placement(Err(WrongOrderType), bids, asks)
    ensures order.Limit? && p.report.Err? ==> p.report.error == InvalidArgument || p.report.error == Overfill
  {
    match order
    case Mid(_) => Placement(Err(WrongOrderType), bids, asks)
    case Limit(lo) =>
      var s := Sweep(lo, Other(lo.side, bids, asks));
      var own := Own(lo.side, bids, asks);
      var own' := if s.status.Pass? && !s.taker.IsDone() then Insert(own, s.taker) else own;
      var report := if s.status.Fail? then Err(s.status.error) else Ok(Report(s.trades));
      if lo.side == Buy then Placement(report, own', s.book) else Placement(report, s.book, own')
  }

  /** The two sides as a value. */
  datatype Sides = Sides(bids: seq<Level>, asks: seq<Level>)

  /** Bulk construction: place the seed orders one after the other, stopping
      at the first error or the first seed order that trades. */
  function SeedFrom(bids: seq<Level>, asks: seq<Level>, orders: seq<LimitOrder>): (r: Result<Sides>)
    ensures r.Err? ==> r.error == InvalidArgument || r.error == Overfill || r.error == CrossingSeed
    ensures orders == [] ==> r == Ok(Sides(bids, asks))
    decreases |orders|
  {
    if orders == [] then Ok(Sides(bids, asks))
    else
      var p := Place(bids, asks, Limit(orders[0]));
      if p.report.Err? then Err(p.report.error)
      else if p.report.value.trades != [] then Err(CrossingSeed)
      else SeedFrom(p.bids, p.asks, orders[1..])
  }

  // ---- properties of one placement ----

  /** Whatever is placed, both sides keep their shape, and a book without a
      resting cross has none afterwards. */
  lemma PlaceShape(bids: seq<Level>, asks: seq<Level>, order: Order)
    requires SideOk(Buy, bids) && SideOk(Sell, asks)
    ensures SideOk(Buy, Place(bids, asks, order).bids) && SideOk(Sell, Place(bids, asks, order).asks)
    ensures Uncrossed(bids, asks) ==> Uncrossed(Place(bids, asks, order).bids, Place(bids, asks, order).asks)
  {
    if order.Limit? {
      var lo := order.limit;
      var opp := Other(lo.side, bids, asks);
      var own := Own(lo.side, bids, asks);
      var s := Sweep(lo, opp);
      SweepTail(lo, opp);
      SweepStops(lo, opp);
      LevelTailKeepsShape(Opposite(lo.side), s.book, opp);
      if s.status.Pass? && !s.taker.IsDone() {
        InsertSpec(own, s.taker);
      }
    }
  }

  /** On a book of live orders, a limit order with nothing negative remaining
      never fails, and the book stays live and free of empty levels. */
  lemma PlaceLive(bids: seq<Level>, asks: seq<Level>, lo: LimitOrder)
    requires SideOk(Buy, bids) && SideOk(Sell, asks) && Live(bids) && Live(asks)
    requires lo.remaining >= 0.0
    ensures Place(bids, asks, Limit(lo)).report.Ok?
    ensures Live(Place(bids, asks, Limit(lo)).bids) && Live(Place(bids, asks, Limit(lo)).asks)
    ensures Compact(bids) && Compact(asks) ==>
              Compact(Place(bids, asks, Limit(lo)).bids) && Compact(Place(bids, asks, Limit(lo)).asks)
  {
    var opp := Other(lo.side, bids, asks);
    var own := Own(lo.side, bids, asks);
    SweepFifo(lo, opp);
    SweepTaker(lo, opp);
    SweepKeepsLive(lo, opp);
    var s := Sweep(lo, opp);
    if !s.taker.IsDone() {
      InsertSpec(own, s.taker);
    }
  }

  /** On a book of live orders, a limit order trades with the other side in
      price-time priority, the quantity it trades leaves that side, it stops
      trading with something left only where the other side no longer
      crosses it, and what is left of the order, when anything is, rests at
      the back of the queue at its price on its own side. */
  lemma PlaceMatches(bids: seq<Level>, asks: seq<Level>, lo: LimitOrder)
    requires SideOk(Buy, bids) && SideOk(Sell, asks) && Live(bids) && Live(asks)
    requires lo.remaining >= 0.0
    ensures Place(bids, asks, Limit(lo)).report.Ok?
    ensures var p := Place(bids, asks, Limit(lo));
            FifoMatch(lo.remaining, Flatten(Other(lo.side, bids, asks)), p.report.value.trades,
                      Flatten(Other(lo.side, p.bids, p.asks)))
    ensures var p := Place(bids, asks, Limit(lo));
            Volume(Flatten(Other(lo.side, p.bids, p.asks))) ==
              Volume(Flatten(Other(lo.side, bids, asks))) - p.report.value.filledQuantity
    ensures var p := Place(bids, asks, Limit(lo));
            var left := lo.remaining - p.report.value.filledQuantity;
            left >= 0.0 &&
            Own(lo.side, p.bids, p.asks) ==
              if left == 0.0 then Own(lo.side, bids, asks)
              else Insert(Own(lo.side, bids, asks), lo.(remaining := left))
    ensures var p := Place(bids, asks, Limit(lo));
            var other' := Other(lo.side, p.bids, p.asks);
            lo.remaining - p.report.value.filledQuantity != 0.0 ==> other' == [] || !Crosses(lo, other'[0].price)
    ensures var ts := Place(bids, asks, Limit(lo)).report.value.trades;
            forall i :: 0 <= i < |ts| ==> ts[i].takerId == lo.id && ts[i].quantity > 0.0 && Crosses(lo, ts[i].price)
  {
    var opp := Other(lo.side, bids, asks);
    SweepFifo(lo, opp);
    SweepTaker(lo, opp);
    SweepTrades(lo, opp);
    SweepStops(lo, opp);
    var s := Sweep(lo, opp);
    FifoConserves(lo.remaining, Flatten(opp), s.trades, Flatten(s.book));
    var own := Own(lo.side, bids, asks);
    var own' := if s.taker.IsDone() then own else Insert(own, s.taker);
    var p := Place(bids, asks, Limit(lo));
    assert p.report == Ok(Report(s.trades));
    assert Other(lo.side, p.bids, p.asks) == s.book && Own(lo.side, p.bids, p.asks) == own';
  }

  /** A limit order that trades gets an average price no worse than its own
      limit and no better than the best price the other side offered. */
  lemma PlacePriceImprovement(bids: seq<Level>, asks: seq<Level>, lo: LimitOrder)
    requires SideOk(Buy, bids) && SideOk(Sell, asks) && Live(bids) && Live(asks)
    requires lo.remaining >= 0.0
    ensures Place(bids, asks, Limit(lo)).report.Ok?
    ensures var r := Place(bids, asks, Limit(lo)).report.value;
            r.trades != [] ==>
              r.filledQuantity > 0.0 &&
              if lo.side == Buy then asks != [] && asks[0].price <= r.vwap <= lo.price
              else bids != [] && lo.price <= r.vwap <= bids[0].price
  {
    var opp := Other(lo.side, bids, asks);
    SweepFifo(lo, opp);
    SweepTaker(lo, opp);
    SweepTrades(lo, opp);
    var s := Sweep(lo, opp);
    var ts := s.trades;
    if ts != [] {
      FifoInOrder(lo.remaining, Flatten(opp), ts, Flatten(s.book));
      assert opp != [];
      FlattenBracketed(Opposite(lo.side), opp);
      var fo := Flatten(opp);
      var lower := if lo.side == Buy then opp[0].price else lo.price;
      var upper := if lo.side == Buy then lo.price else opp[0].price;
      forall i | 0 <= i < |ts| ensures lower <= ts[i].price <= upper {
        assert ts[i].price == fo[i].price;
      }
      VwapWithin(ts, lower, upper);
    }
  }

  /** A limit order that does not reach the best price of the other side
      trades nothing and rests whole. */
  lemma PlaceWithoutCross(bids: seq<Level>, asks: seq<Level>, lo: LimitOrder)
    requires !lo.IsDone()
    requires Other(lo.side, bids, asks) == [] || !Crosses(lo, Other(lo.side, bids, asks)[0].price)
    ensures Place(bids, asks, Limit(lo)).report == Ok(ExecutionReport([], 0.0, 0.0))
    ensures Own(lo.side, Place(bids, asks, Limit(lo)).bids, Place(bids, asks, Limit(lo)).asks) ==
              Insert(Own(lo.side, bids, asks), lo)
    ensures Other(lo.side, Place(bids, asks, Limit(lo)).bids, Place(bids, asks, Limit(lo)).asks) ==
              Other(lo.side, bids, asks)
  {
  }

  /** Two makers at one price are filled oldest first: a buy for 12 against
      asks of 10 and then 5 at 100 takes all of the first and 2 of the second,
      which stays at the head of the level with 3 left; nothing rests. */
  lemma FifoScenario()
    ensures var a1 := LimitOrder(1, Sell, 100.0, 10.0, 10.0);
            var a2 := LimitOrder(2, Sell, 100.0, 5.0, 5.0);
            var taker := LimitOrder(3, Buy, 100.0, 12.0, 12.0);
            Place([], [Level(100.0, [a1, a2])], Limit(taker)) ==
              Placement(Ok(ExecutionReport([Trade(3, 1, 100.0, 10.0), Trade(3, 2, 100.0, 2.0)], 12.0, 100.0)),
                        [], [Level(100.0, [a2.(remaining := 3.0)])])
  {
    var a1 := LimitOrder(1, Sell, 100.0, 10.0, 10.0);
    var a2 := LimitOrder(2, Sell, 100.0, 5.0, 5.0);
    var taker := LimitOrder(3, Buy, 100.0, 12.0, 12.0);
    var t1 := taker.(remaining := 2.0);
    var t2 := taker.(remaining := 0.0);
    assert FillQueue(t1, [a2]) == QueueFill(t2, [a2.(remaining := 3.0)], [Trade(3, 2, 100.0, 2.0)], Pass);
    assert FillQueue(taker, [a1, a2]) ==
             QueueFill(t2, [a2.(remaining := 3.0)], [Trade(3, 1, 100.0, 10.0), Trade(3, 2, 100.0, 2.0)], Pass);
  }

  /** Seeding with a bid at 101 and then an ask at 100 is refused. */
  lemma CrossingSeedScenario()
    ensures SeedFrom([], [], [LimitOrder(1, Buy, 101.0, 10.0, 10.0), LimitOrder(2, Sell, 100.0, 10.0, 10.0)]) == Err(CrossingSeed)
  {
    var b := LimitOrder(1, Buy, 101.0, 10.0, 10.0);
    var a := LimitOrder(2, Sell, 100.0, 10.0, 10.0);
    assert Place([], [], Limit(b)) == Placement(Ok(ExecutionReport([], 0.0, 0.0)), [Level(101.0, [b])], []);
    var seeds := [b, a];
    assert seeds[0] == b && seeds[1..] == [a];
    assert FillQueue(a, [b]).status == Pass && FillQueue(a, [b]).trades != [];
    assert Sweep(a, [Level(101.0, [b])]).trades != [];
    assert Place([Level(101.0, [b])], [], Limit(a)).report.value.trades != [];
  }

  /** The book as written loses a maker when a fill fails: a taker with a
      negative remaining quantity takes the maker off its queue, fails to
      consume, and leaves an empty level behind. */
  lemma NegativeTakerDropsMaker()
    ensures var maker := LimitOrder(1, Sell, 100.0, 10.0, 10.0);
            var taker := LimitOrder(2, Buy, 100.0, 5.0, -1.0);
            Place([], [Level(100.0, [maker])], Limit(taker)) == Placement(Err(InvalidArgument), [], [Level(100.0, [])])
  {
    var maker := LimitOrder(1, Sell, 100.0, 10.0, 10.0);
    var taker := LimitOrder(2, Buy, 100.0, 5.0, -1.0);
    assert FillQueue(taker, [maker]) == QueueFill(taker, [], [], Fail(InvalidArgument));
  }

  /** Seeding a well-shaped, uncrossed book of live orders with orders that
      have nothing negative remaining can only fail because a seed order
      traded, and a successful seeding leaves a well-shaped, uncrossed book of
      live orders without empty levels. */
  lemma {:induction false} SeedSound(bids: seq<Level>, asks: seq<Level>, orders: seq<LimitOrder>)
    requires SideOk(Buy, bids) && SideOk(Sell, asks) && Uncrossed(bids, asks)
    requires Live(bids) && Live(asks) && Compact(bids) && Compact(asks)
    requires forall k :: 0 <= k < |orders| ==> orders[k].remaining >= 0.0
    ensures SeedFrom(bids, asks, orders).Err? ==> SeedFrom(bids, asks, orders).error == CrossingSeed
    ensures SeedFrom(bids, asks, orders).Ok? ==>
              var s := SeedFrom(bids, asks, orders).value;
              SideOk(Buy, s.bids) && SideOk(Sell, s.asks) && Uncrossed(s.bids, s.asks) &&
              Live(s.bids) && Live(s.asks) && Compact(s.bids) && Compact(s.asks)
    decreases |orders|
  {
    if orders != [] {
      var p := Place(bids, asks, Limit(orders[0]));
      PlaceShape(bids, asks, Limit(orders[0]));
      PlaceLive(bids, asks, orders[0]);
      SeedSound(p.bids, p.asks, orders[1..]);
    }
  }

  // ---- the loops of placeOrder and of the queries ----

  /** The inner matching loop of `placeOrder` on one level's queue: poll
      the head maker, fill, and put a partly filled maker back at the head. */
  method FillLevel(taker: LimitOrder, orders: seq<LimitOrder>) returns (t: LimitOrder, queue: seq<LimitOrder>, trades: seq<Trade>, status: Outcome)
    ensures QueueFill(t, queue, trades, status) == FillQueue(taker, orders)
    ensures status.Pass? ==> t.IsDone() || queue == []
  {
    t, queue, trades, status := taker, orders, [], Pass;
    while !t.IsDone() && queue != []
      invariant FillQueue(taker, orders) == FillQueue(t, queue).(trades := trades + FillQueue(t, queue).trades)
      decreases |queue|, if t.IsDone() then 0 else 1
    {
      var maker := queue[0];
      ghost var polled := queue;
      queue := queue[1..];
      var fill := Min(t.remaining, maker.remaining);
      var r := t.Consume(fill);
      if r.Err? {
        assert FillQueue(t, polled) == QueueFill(t, queue, [], Fail(r.error));
        return t, queue, trades, Fail(r.error);
      }
      var maker' := maker.Consume(fill).value;
      trades := trades + [Trade(t.id, maker.id, maker.price, fill)];
      t := r.value;
      if !maker'.IsDone() {
        queue := [maker'] + queue;
      }
    }
  }

  /** The outer matching loop of `placeOrder` on one side: while the taker
      crosses the best level and is not done, fill against that level and
      remove it once drained. */
  method SweepSide(taker: LimitOrder, levels: seq<Level>) returns (t: LimitOrder, rest: seq<Level>, trades: seq<Trade>, status: Outcome)
    ensures SweepResult(t, rest, trades, status) == Sweep(taker, levels)
  {
    t, rest, trades, status := taker, levels, [], Pass;
    while rest != [] && !t.IsDone() && Crosses(t, rest[0].price)
      invariant Sweep(taker, levels) == Sweep(t, rest).(trades := trades + Sweep(t, rest).trades)
      decreases |rest|, if t.IsDone() then 0 else 1
    {
      var price := rest[0].price;
      var t', queue, level, outcome := FillLevel(t, rest[0].orders);
      if outcome.Fail? {
        return t', [Level(price, queue)] + rest[1..], trades + level, outcome;
      }
      t := t';
      trades := trades + level;
      if queue == [] {
        rest := rest[1..];
      } else {
        rest := [Level(price, queue)] + rest[1..];
      }
    }
  }

  /** Adds the notional and volume of one queue to running totals. */
  method AccumulateQueue(q: seq<LimitOrder>, notional0: real, volume0: real) returns (notional: real, volume: real)
    ensures notional == notional0 + Worth(q)
    ensures volume == volume0 + Volume(q)
  {
    notional, volume := notional0, volume0;
    for k := 0 to |q|
      invariant notional == notional0 + Worth(q[..k])
      invariant volume == volume0 + Volume(q[..k])
    {
      assert q[..k + 1] == q[..k] + [q[k]];
      VolumeAppend(q[..k], [q[k]]);
      notional := notional + q[k].price * q[k].remaining;
      volume := volume + q[k].remaining;
    }
    assert q[..|q|] == q;
  }

  /** Adds the notional and volume of one side to running totals, level by
      level and order by order. */
  method Accumulate(side: seq<Level>, notional0: real, volume0: real) returns (notional: real, volume: real)
    ensures notional == notional0 + Worth(Flatten(side))
    ensures volume == volume0 + Volume(Flatten(side))
  {
    notional, volume := notional0, volume0;
    for i := 0 to |side|
      invariant notional == notional0 + Worth(Flatten(side[..i]))
      invariant volume == volume0 + Volume(Flatten(side[..i]))
    {
      notional, volume := AccumulateQueue(side[i].orders, notional, volume);
      assert side[..i + 1] == side[..i] + [side[i]];
      FlattenAppend(side[..i], [side[i]]);
      VolumeAppend(Flatten(side[..i]), side[i].orders);
      assert Flatten([side[i]]) == side[i].orders;
    }
    assert side[..|side|] == side;
  }

  /** Sum of the level totals. */
  function Total(levels: seq<BookLevel>): real
  {
    if levels == [] then 0.0 else levels[0].totalQuantity + Total(levels[1..])
  }

  lemma {:induction false} TotalsMatch(out: seq<BookLevel>, side: seq<Level>)
    requires |out| == |side|
    requires forall i :: 0 <= i < |side| ==> out[i].totalQuantity == Volume(side[i].orders)
    ensures Total(out) == Volume(Flatten(side))
  {
    if side != [] {
      TotalsMatch(out[1..], side[1..]);
      VolumeAppend(side[0].orders, Flatten(side[1..]));
    }
  }

  /** One aggregated entry per level, in the side's order, each holding the
      remaining quantity at that level; together they hold the whole side. */
  method LevelTotals(side: seq<Level>) returns (out: seq<BookLevel>)
    ensures |out| == |side|
    ensures forall i :: 0 <= i < |side| ==> out[i].price == side[i].price && out[i].totalQuantity == Volume(side[i].orders)
    ensures Total(out) == Volume(Flatten(side))
    ensures Live(side) && Compact(side) ==> forall i :: 0 <= i < |out| ==> out[i].totalQuantity > 0.0
  {
    out := [];
    for i := 0 to |side|
      invariant |out| == i
      invariant forall k :: 0 <= k < i ==> out[k].price == side[k].price && out[k].totalQuantity == Volume(side[k].orders)
    {
      out := out + [BookLevel(side[i].price, Volume(side[i].orders))];
    }
    TotalsMatch(out, side);
    if Live(side) && Compact(side) {
      forall i | 0 <= i < |out| ensures out[i].totalQuantity > 0.0 {
        LiveVolumePositive(side[i].orders);
      }
    }
  }

  // ---- the book ----

  class LimitOrderBook {
    var bids: seq<Level>
    var asks: seq<Level>

    /** Bids strictly descending and asks strictly ascending by price, every
        order on its side at its level's price. */
    ghost predicate Valid()
      reads this
    {
      SideOk(Buy, bids) && SideOk(Sell, asks)
    }

    /** The empty book. */
    constructor ()
      ensures Valid() && bids == [] && asks == []
    {
      bids, asks := [], [];
    }

    /** An independent copy: the same levels and queues, which later changes
        to either book do not share. */
    constructor Copy(book: LimitOrderBook)
      ensures bids == book.bids && asks == book.asks
      ensures book.Valid() ==> Valid()
    {
      bids, asks := book.bids, book.asks;
    }

    /** The seeding constructor: places every seed order and refuses the whole
        book as soon as one of them fails or trades. */
    static method FromOrders(orders: seq<LimitOrder>) returns (r: Result<LimitOrderBook>)
      ensures r.Err? <==> SeedFrom([], [], orders).Err?
      ensures r.Err? ==> r.error == SeedFrom([], [], orders).error
      ensures r.Ok? ==> fresh(r.value) && r.value.Valid() &&
                        Sides(r.value.bids, r.value.asks) == SeedFrom([], [], orders).value
    {
      var book := new LimitOrderBook();
      for i := 0 to |orders|
        invariant fresh(book) && book.Valid()
        invariant SeedFrom([], [], orders) == SeedFrom(book.bids, book.asks, orders[i..])
      {
        assert orders[i..][0] == orders[i] && orders[i..][1..] == orders[i + 1..];
        var report := book.PlaceOrder(Limit(orders[i]));
        if report.Err? {
          return Err(report.error);
        }
        if report.value.trades != [] {
          return Err(CrossingSeed);
        }
      }
      assert orders[|orders|..] == [];
      return Ok(book);
    }

    /** Appends `o` to the back of the queue at its price on its side,
        creating the level in its place when absent; nothing else changes. */
    method AddOrder(o: LimitOrder)
      requires Valid()
      modifies this
      ensures Valid()
      ensures Other(o.side, bids, asks) == Other(o.side, old(bids), old(asks))
      ensures forall p :: QueueAt(Own(o.side, bids, asks), p) ==
                if p == o.price then QueueAt(Own(o.side, old(bids), old(asks)), p) + [o]
                else QueueAt(Own(o.side, old(bids), old(asks)), p)
      ensures forall p :: HasLevel(Own(o.side, bids, asks), p) <==> HasLevel(Own(o.side, old(bids), old(asks)), p) || p == o.price
      ensures Own(o.side, bids, asks) == Insert(Own(o.side, old(bids), old(asks)), o)
    {
      if o.side == Buy {
        InsertSpec(bids, o);
        bids := Insert(bids, o);
      } else {
        InsertSpec(asks, o);
        asks := Insert(asks, o);
      }
    }

    /** The highest bid price; fails on an empty bid side. */
    function BestBid(): (r: Result<real>)
      reads this
      requires Valid()
      ensures r.Ok? <==> bids != []
      ensures r.Err? ==> r.error == EmptySide
      ensures r.Ok? ==> HasLevel(bids, r.value) && forall i :: 0 <= i < |bids| ==> bids[i].price <= r.value
    {
      if bids == [] then Err(EmptySide) else Ok(bids[0].price)
    }

    /** The lowest ask price; fails on an empty ask side. */
    function BestAsk(): (r: Result<real>)
      reads this
      requires Valid()
      ensures r.Ok? <==> asks != []
      ensures r.Err? ==> r.error == EmptySide
      ensures r.Ok? ==> HasLevel(asks, r.value) && forall i :: 0 <= i < |asks| ==> r.value <= asks[i].price
    {
      if asks == [] then Err(EmptySide) else Ok(asks[0].price)
    }

    /** The midpoint of the best bid and ask; fails when either side is empty.
        On a book without a resting cross it lies strictly between them. */
    function Mid(): (r: Result<real>)
      reads this
      requires Valid()
      ensures r.Ok? <==> bids != [] && asks != []
      ensures r.Err? ==> r.error == EmptySide
      ensures r.Ok? ==> r.value == (BestBid().value + BestAsk().value) / 2.0
      ensures r.Ok? && Uncrossed(bids, asks) ==> BestBid().value < r.value < BestAsk().value
    {
      match BestBid()
      case Err(e) => Err(e)
      case Ok(b) =>
        match BestAsk()
        case Err(e) => Err(e)
        case Ok(a) => Ok((b + a) / 2.0)
    }

    /** A snapshot of the queue at `price`: the bid queue when there is a bid
        level there, otherwise the ask queue, and empty when neither exists. */
    function OrdersAtPrice(price: real): (r: seq<LimitOrder>)
      reads this
      requires Valid()
      ensures HasLevel(bids, price) ==> r == QueueAt(bids, price)
      ensures !HasLevel(bids, price) ==> r == QueueAt(asks, price)
      ensures !HasLevel(bids, price) && !HasLevel(asks, price) ==> r == []
      ensures forall k :: 0 <= k < |r| ==> r[k].price == price
    {
      QueueAtFacts(Buy, bids, price);
      QueueAtFacts(Sell, asks, price);
      if HasLevel(bids, price) then QueueAt(bids, price) else QueueAt(asks, price)
    }

    /** The bid levels, best first, each with its total remaining quantity. */
    method BidLevels() returns (out: seq<BookLevel>)
      requires Valid()
      ensures |out| == |bids|
      ensures forall i :: 0 <= i < |out| ==> out[i].price == bids[i].price && out[i].totalQuantity == Volume(bids[i].orders)
      ensures forall i, j :: 0 <= i < j < |out| ==> out[i].price > out[j].price
      ensures Total(out) == Volume(Flatten(bids))
    {
      out := LevelTotals(bids);
    }

    /** The ask levels, best first, each with its total remaining quantity. */
    method AskLevels() returns (out: seq<BookLevel>)
      requires Valid()
      ensures |out| == |asks|
      ensures forall i :: 0 <= i < |out| ==> out[i].price == asks[i].price && out[i].totalQuantity == Volume(asks[i].orders)
      ensures forall i, j :: 0 <= i < j < |out| ==> out[i].price < out[j].price
      ensures Total(out) == Volume(Flatten(asks))
    {
      out := LevelTotals(asks);
    }

    /** The volume-weighted price of one side; fails when the side holds no
        volume. On live orders the price lies between the side's worst and
        best level. */
    method VwapSide(side: Direction) returns (r: Result<real>)
      requires Valid()
      ensures r.Err? <==> Volume(Flatten(Own(side, bids, asks))) == 0.0
      ensures r.Err? ==> r.error == EmptySide
      ensures r.Ok? ==> r.value == Worth(Flatten(Own(side, bids, asks))) / Volume(Flatten(Own(side, bids, asks)))
      ensures var s := Own(side, bids, asks); Live(s) && Compact(s) && s != [] ==> r.Ok?
      ensures var s := Own(side, bids, asks);
              Live(s) && r.Ok? ==>
                s != [] &&
                if side == Buy then s[|s| - 1].price <= r.value <= s[0].price
                else s[0].price <= r.value <= s[|s| - 1].price
    {
      var s := if side == Buy then bids else asks;
      var notional, volume := Accumulate(s, 0.0, 0.0);
      if Live(s) && Compact(s) && s != [] {
        SideVolumePositive(s);
      }
      if volume == 0.0 {
        return Err(EmptySide);
      }
      r := Ok(notional / volume);
      if Live(s) {
        assert s != [];
        FlattenBracketed(side, s);
        var lo := if side == Buy then s[|s| - 1].price else s[0].price;
        var hi := if side == Buy then s[0].price else s[|s| - 1].price;
        AverageWithin(Flatten(s), lo, hi);
      }
    }

    /** The volume-weighted price of the whole book; fails when it holds no
        volume. On live orders without a resting cross, with both sides
        non-empty, it lies between the worst bid and the worst ask. */
    method VwapBook() returns (r: Result<real>)
      requires Valid()
      ensures r.Err? <==> Volume(Flatten(bids) + Flatten(asks)) == 0.0
      ensures r.Err? ==> r.error == EmptySide
      ensures r.Ok? ==> r.value == Worth(Flatten(bids) + Flatten(asks)) / Volume(Flatten(bids) + Flatten(asks))
      ensures Live(bids) && Live(asks) && Compact(bids) && Compact(asks) && (bids != [] || asks != []) ==> r.Ok?
      ensures Live(bids) && Live(asks) && Uncrossed(bids, asks) && bids != [] && asks != [] && r.Ok? ==>
                bids[|bids| - 1].price <= r.value <= asks[|asks| - 1].price
    {
      var notional, volume := Accumulate(bids, 0.0, 0.0);
      notional, volume := Accumulate(asks, notional, volume);
      VolumeAppend(Flatten(bids), Flatten(asks));
      if Live(bids) && Live(asks) && Compact(bids) && Compact(asks) && (bids != [] || asks != []) {
        BookVolumePositive(bids, asks);
      }
      if volume == 0.0 {
        return Err(EmptySide);
      }
      r := Ok(notional / volume);
      if Live(bids) && Live(asks) && Uncrossed(bids, asks) && bids != [] && asks != [] {
        BookAverageWithin(bids, asks);
      }
    }

    /** Places an order: the sweep's result becomes the book, and the report
        is returned. The book keeps its shape and gains no resting cross. */
    method PlaceOrder(order: Order) returns (r: Result<ExecutionReport>)
      requires Valid()
      modifies this
      ensures Valid()
      ensures Placement(r, bids, asks) == Place(old(bids), old(asks), order)
      ensures Uncrossed(old(bids), old(asks)) ==> Uncrossed(bids, asks)
    {
      PlaceShape(bids, asks, order);
      if !order.Limit? {
        return Err(WrongOrderType);
      }
      var lo := order.limit;
      var t, rest, trades, status;
      if lo.side == Buy {
        t, rest, trades, status := SweepSide(lo, asks);
        asks := rest;
      } else {
        t, rest, trades, status := SweepSide(lo, bids);
        bids := rest;
      }
      if status.Fail? {
        return Err(status.error);
      }
      ghost var s := Sweep(lo, Other(lo.side, old(bids), old(asks)));
      SweepTail(lo, Other(lo.side, old(bids), old(asks)));
      SweepStops(lo, Other(lo.side, old(bids), old(asks)));
      LevelTailKeepsShape(Opposite(lo.side), s.book, Other(lo.side, old(bids), old(asks)));
      if !t.IsDone() {
        AddOrder(t);
      }
      r := Ok(Report(trades));
    }

    /** A placement that either completes or leaves the book as it was: on
        an error the sides are restored to their state before the call. */
    method PlaceOrderAtomic(order: Order) returns (r: Result<ExecutionReport>)
      requires Valid()
      modifies this
      ensures Valid()
      ensures r == Place(old(bids), old(asks), order).report
      ensures r.Ok? ==> bids == Place(old(bids), old(asks), order).bids && asks == Place(old(bids), old(asks), order).asks
      ensures r.Err? ==> bids == old(bids) && asks == old(asks)
      ensures Uncrossed(old(bids), old(asks)) ==> Uncrossed(bids, asks)
    {
      var savedBids, savedAsks := bids, asks;
      r := PlaceOrder(order);
      if r.Err? {
        bids, asks := savedBids, savedAsks;
      }
    }
  }

  /** On an uncrossed book of live orders with both sides non-empty, every
      resting order lies between the worst bid and the worst ask, and so
      does the volume-weighted price of the book when it has volume. */
  lemma BookAverageWithin(bids: seq<Level>, asks: seq<Level>)
    requires SideOk(Buy, bids) && SideOk(Sell, asks) && Live(bids) && Live(asks)
    requires Uncrossed(bids, asks) && bids != [] && asks != []
    ensures Bracketed(Flatten(bids) + Flatten(asks), bids[|bids| - 1].price, asks[|asks| - 1].price)
    ensures var all := Flatten(bids) + Flatten(asks);
            Volume(all) != 0.0 ==> bids[|bids| - 1].price <= Worth(all) / Volume(all) <= asks[|asks| - 1].price
  {
    var lo, hi := bids[|bids| - 1].price, asks[|asks| - 1].price;
    FlattenBracketed(Buy, bids);
    FlattenBracketed(Sell, asks);
    var fb, fa := Flatten(bids), Flatten(asks);
    var all := fb + fa;
    assert bids[0].price < asks[0].price;
    forall k | 0 <= k < |all| ensures lo <= all[k].price <= hi && all[k].remaining >= 0.0 {
      if k >= |fb| {
        assert all[k] == fa[k - |fb|];
      } else {
        assert all[k] == fb[k];
      }
    }
    if Volume(all) != 0.0 {
      AverageWithin(all, lo, hi);
    }
  }

  /** A book of live orders without empty levels has volume when it has a
      level. */
  lemma BookVolumePositive(bids: seq<Level>, asks: seq<Level>)
    requires SideOk(Buy, bids) && SideOk(Sell, asks)
    requires Live(bids) && Live(asks) && Compact(bids) && Compact(asks) && (bids != [] || asks != [])
    ensures Volume(Flatten(bids)) + Volume(Flatten(asks)) > 0.0
  {
    if bids != [] {
      SideVolumePositive(bids);
      FlattenBracketed(Buy, bids);
    } else {
      assert Flatten(bids) == [];
    }
    if asks != [] {
      SideVolumePositive(asks);
      FlattenBracketed(Sell, asks);
    } else {
      assert Flatten(asks) == [];
    }
    if bids != [] && asks != [] {
      NonNegativeVolume(Flatten(asks), asks[0].price, asks[|asks| - 1].price);
    }
  }
}
