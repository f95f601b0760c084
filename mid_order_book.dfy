/** The mid-price crossing book: two flat FIFO queues of mid orders that
    trade with each other at the current mid price of a companion limit
    order book, which is only read. */
module MidBook {
  import opened Orders
  import opened Reports
  import opened Levels
  import opened LimitBook

  datatype MidFill = MidFill(taker: MidOrder, rest: seq<MidOrder>, trades: seq<Trade>, status: Outcome)

  /** The matching loop over the opposite queue, with `mid` the companion
      book's answer to the mid-price query. The head maker is polled first;
      a failing mid query or a failing fill of the taker then stops the loop
      with that maker already off the queue. A partly filled maker goes back
      to the front. There is no price condition. */
  function Match(taker: MidOrder, queue: seq<MidOrder>, mid: Result<real>): (r: MidFill)
    ensures r.status.Fail? ==> r.status.error == InvalidArgument || mid == Err(r.status.error)
    decreases |queue|, if taker.IsDone() then 0 else 1
  {
    if queue == [] || taker.IsDone() then MidFill(taker, queue, [], Pass)
    else
      var maker := queue[0];
      var fill := Min(taker.remaining, maker.remaining);
      if mid.Err? then MidFill(taker, queue[1..], [], Fail(mid.error))
      else
        match taker.Consume(fill)
        case Err(e) => MidFill(taker, queue[1..], [], Fail(e))
        case Ok(taker') =>
          var maker' := maker.Consume(fill).value;
          var back := if maker'.IsDone() then queue[1..] else [maker'] + queue[1..];
          var f := Match(taker', back, mid);
          f.(trades := [Trade(taker.id, maker.id, mid.value, fill)] + f.trades)
  }

  datatype MidPlacement = MidPlacement(report: Result<ExecutionReport>, bids: seq<MidOrder>, asks: seq<MidOrder>)

  /** One placement on the mid book: a limit order is refused without a
      change; a mid order matches the opposite queue and, when the loop
      passes and leaves something of the taker, joins the back of its own
      queue. */
  function PlaceMid(bids: seq<MidOrder>, asks: seq<MidOrder>, mid: Result<real>, order: Order): (p: MidPlacement)
    ensures order.Limit? ==> p == MidPlacement(Err(WrongOrderType), bids, asks)
    ensures order.Mid? && p.report.Err? ==> p.report.error == InvalidArgument || mid == Err(p.report.error)
  {
    match order
    case Limit(_) => MidPlacement(Err(WrongOrderType), bids, asks)
    case Mid(mo) =>
      var m := Match(mo, if mo.side == Buy then asks else bids, mid);
      var own := if mo.side == Buy then bids else asks;
      var own' := if m.status.Pass? && !m.taker.IsDone() then own + [m.taker] else own;
      var report := if m.status.Fail? then Err(m.status.error) else Ok(Report(m.trades));
      if mo.side == Buy then MidPlacement(report, own', m.rest) else MidPlacement(report, m.rest, own')
  }

  /** At most one of the queues holds orders. */
  predicate OneSided(bids: seq<MidOrder>, asks: seq<MidOrder>)
  {
    bids == [] || asks == []
  }

  predicate MidLive(queue: seq<MidOrder>)
  {
    forall k :: 0 <= k < |queue| ==> queue[k].remaining > 0.0
  }

  /** Sum of `remaining` over a queue of mid orders. */
  function MidVolume(queue: seq<MidOrder>): real
  {
    if queue == [] then 0.0 else queue[0].remaining + MidVolume(queue[1..])
  }

  /** FIFO over a queue of mid orders, every trade at `price`: the trades
      take the makers head first, each for the smaller of what the taker
      still has and what the maker has. A maker filled completely drops out;
      one filled partly ends the walk and stays at the head of `left`. */
  predicate MidFifo(takerRemaining: real, makers: seq<MidOrder>, price: real, trades: seq<Trade>, left: seq<MidOrder>)
    decreases |trades|
  {
    if trades == [] then left == makers
    else
      makers != [] &&
      var m := makers[0];
      var q := Min(takerRemaining, m.remaining);
      trades[0].makerId == m.id && trades[0].price == price && trades[0].quantity == q &&
      if q == m.remaining then MidFifo(takerRemaining - q, makers[1..], price, trades[1..], left)
      else |trades| == 1 && left == [m.(remaining := m.remaining - q)] + makers[1..]
  }

  /** What the walk trades is exactly what leaves the queue. */
  lemma {:induction false} MidFifoConserves(r: real, makers: seq<MidOrder>, price: real, ts: seq<Trade>, left: seq<MidOrder>)
    requires MidFifo(r, makers, price, ts, left)
    ensures MidVolume(left) == MidVolume(makers) - Filled(ts)
    decreases |ts|
  {
    if ts != [] {
      var m := makers[0];
      var q := Min(r, m.remaining);
      if q == m.remaining {
        MidFifoConserves(r - q, makers[1..], price, ts[1..], left);
      } else {
        assert left[1..] == makers[1..];
        assert ts[1..] == [];
      }
    }
  }

  /** With a mid price available, live makers and a taker with nothing
      negative remaining, the loop never fails, is the FIFO walk at that
      price, reduces the taker by exactly what it traded, and stops only
      when the taker is done or the queue is empty. */
  lemma {:induction false} MatchFifo(taker: MidOrder, queue: seq<MidOrder>, price: real)
    requires taker.remaining >= 0.0 && MidLive(queue)
    ensures Match(taker, queue, Ok(price)).status == Pass
    ensures MidFifo(taker.remaining, queue, price, Match(taker, queue, Ok(price)).trades, Match(taker, queue, Ok(price)).rest)
    ensures Match(taker, queue, Ok(price)).taker == taker.(remaining := taker.remaining - Filled(Match(taker, queue, Ok(price)).trades))
    ensures Match(taker, queue, Ok(price)).taker.remaining >= 0.0
    ensures Match(taker, queue, Ok(price)).taker.IsDone() || Match(taker, queue, Ok(price)).rest == []
    ensures MidLive(Match(taker, queue, Ok(price)).rest)
    ensures forall i :: 0 <= i < |Match(taker, queue, Ok(price)).trades| ==>
              var t := Match(taker, queue, Ok(price)).trades[i];
              t.takerId == taker.id && t.quantity > 0.0 && t.price == price
    decreases |queue|, if taker.IsDone() then 0 else 1
  {
    if queue != [] && !taker.IsDone() {
      var maker := queue[0];
      var fill := Min(taker.remaining, maker.remaining);
      var taker' := taker.Consume(fill).value;
      var maker' := maker.Consume(fill).value;
      var back := if maker'.IsDone() then queue[1..] else [maker'] + queue[1..];
      MatchFifo(taker', back, price);
      var f' := Match(taker', back, Ok(price));
      var t := Trade(taker.id, maker.id, price, fill);
      assert Match(taker, queue, Ok(price)).trades == [t] + f'.trades;
      assert ([t] + f'.trades)[1..] == f'.trades;
      if !maker'.IsDone() {
        assert maker' == maker.(remaining := maker.remaining - fill);
      }
    }
  }

  /** Whatever the mid query answers, the loop leaves a queue no longer than
      it found, hands back a taker on the same side, and passes with the
      taker not done only after emptying the queue. */
  lemma {:induction false} MatchTail(taker: MidOrder, queue: seq<MidOrder>, mid: Result<real>)
    ensures |Match(taker, queue, mid).rest| <= |queue|
    ensures Match(taker, queue, mid).taker.side == taker.side
    ensures Match(taker, queue, mid).status.Pass? && !Match(taker, queue, mid).taker.IsDone() ==>
              Match(taker, queue, mid).rest == []
    decreases |queue|, if taker.IsDone() then 0 else 1
  {
    if queue != [] && !taker.IsDone() && mid.Ok? {
      var fill := Min(taker.remaining, queue[0].remaining);
      if taker.Consume(fill).Ok? {
        var taker' := taker.Consume(fill).value;
        var maker' := queue[0].Consume(fill).value;
        MatchTail(taker', if maker'.IsDone() then queue[1..] else [maker'] + queue[1..], mid);
      }
    }
  }

  /** Whatever is placed and whatever the mid query answers, at most one of
      the queues holds orders afterwards if that held before. */
  lemma PlaceMidOneSided(bids: seq<MidOrder>, asks: seq<MidOrder>, mid: Result<real>, order: Order)
    requires OneSided(bids, asks)
    ensures OneSided(PlaceMid(bids, asks, mid, order).bids, PlaceMid(bids, asks, mid, order).asks)
  {
    if order.Mid? {
      var mo := order.mid;
      MatchTail(mo, if mo.side == Buy then asks else bids, mid);
    }
  }

  /** With a mid price available and live resting orders, a mid order with
      nothing negative remaining never fails; it trades head first at the
      mid price, what it trades leaves the opposite queue, it keeps
      something only once that queue is empty, what is left of it joins the
      back of its own queue, every queue stays live, and a
      report with trades has the mid price as its average. */
  lemma PlaceMidMatches(bids: seq<MidOrder>, asks: seq<MidOrder>, price: real, mo: MidOrder)
    requires MidLive(bids) && MidLive(asks) && mo.remaining >= 0.0
    ensures PlaceMid(bids, asks, Ok(price), Mid(mo)).report.Ok?
    ensures var p := PlaceMid(bids, asks, Ok(price), Mid(mo));
            var other := if mo.side == Buy then asks else bids;
            var other' := if mo.side == Buy then p.asks else p.bids;
            MidFifo(mo.remaining, other, price, p.report.value.trades, other') &&
            MidVolume(other') == MidVolume(other) - p.report.value.filledQuantity
    ensures var p := PlaceMid(bids, asks, Ok(price), Mid(mo));
            var own := if mo.side == Buy then bids else asks;
            var own' := if mo.side == Buy then p.bids else p.asks;
            var left := mo.remaining - p.report.value.filledQuantity;
            left >= 0.0 && own' == if left == 0.0 then own else own + [mo.(remaining := left)]
    ensures var p := PlaceMid(bids, asks, Ok(price), Mid(mo));
            var other' := if mo.side == Buy then p.asks else p.bids;
            mo.remaining - p.report.value.filledQuantity != 0.0 ==> other' == []
    ensures var p := PlaceMid(bids, asks, Ok(price), Mid(mo));
            MidLive(p.bids) && MidLive(p.asks)
    ensures var r := PlaceMid(bids, asks, Ok(price), Mid(mo)).report.value;
            r.trades != [] ==> r.filledQuantity > 0.0 && r.vwap == price
  {
    var other := if mo.side == Buy then asks else bids;
    MatchFifo(mo, other, price);
    MatchTail(mo, other, Ok(price));
    var m := Match(mo, other, Ok(price));
    MidFifoConserves(mo.remaining, other, price, m.trades, m.rest);
    if m.trades != [] {
      VwapWithin(m.trades, price, price);
    }
  }

  /** With a mid of 101, a mid buy for 5 against a resting mid sell for 10
      trades 5 at 101 and leaves the sell at the head of its queue with 5. */
  lemma MidScenario()
    ensures var sell := MidOrder(1, Sell, 10.0, 10.0);
            var buy := MidOrder(2, Buy, 5.0, 5.0);
            PlaceMid([], [sell], Ok(101.0), Mid(buy)) ==
              MidPlacement(Ok(ExecutionReport([Trade(2, 1, 101.0, 5.0)], 5.0, 101.0)), [], [sell.(remaining := 5.0)])
  {
    var sell := MidOrder(1, Sell, 10.0, 10.0);
    var buy := MidOrder(2, Buy, 5.0, 5.0);
    assert Match(buy, [sell], Ok(101.0)) ==
             MidFill(buy.(remaining := 0.0), [sell.(remaining := 5.0)], [Trade(2, 1, 101.0, 5.0)], Pass);
  }

  /** The book as written loses a maker when the companion book has an empty
      side: the head maker is polled before the mid query fails, so the
      placement fails with the opposite queue short of its head. */
  lemma EmptyMidDropsMaker(bids: seq<MidOrder>, asks: seq<MidOrder>, e: Error, mo: MidOrder)
    requires !mo.IsDone() && (if mo.side == Buy then asks else bids) != []
    ensures PlaceMid(bids, asks, Err(e), Mid(mo)).report == Err(e)
    ensures mo.side == Buy ==> PlaceMid(bids, asks, Err(e), Mid(mo)).asks == asks[1..] &&
                               PlaceMid(bids, asks, Err(e), Mid(mo)).bids == bids
    ensures mo.side == Sell ==> PlaceMid(bids, asks, Err(e), Mid(mo)).bids == bids[1..] &&
                                PlaceMid(bids, asks, Err(e), Mid(mo)).asks == asks
  {
  }

  /** The matching loop of `placeOrder`: polls the head maker, asks the
      companion book for its mid, fills, and puts a partly filled maker back
      at the front. */
  method MatchQueue(taker: MidOrder, queue: seq<MidOrder>, lob: LimitOrderBook) returns (t: MidOrder, rest: seq<MidOrder>, trades: seq<Trade>, status: Outcome)
    requires lob.Valid()
    ensures MidFill(t, rest, trades, status) == Match(taker, queue, lob.Mid())
  {
    ghost var m := lob.Mid();
    t, rest, trades, status := taker, queue, [], Pass;
    while rest != [] && !t.IsDone()
      invariant Match(taker, queue, m) == Match(t, rest, m).(trades := trades + Match(t, rest, m).trades)
      decreases |rest|, if t.IsDone() then 0 else 1
    {
      var maker := rest[0];
      ghost var polled := rest;
      rest := rest[1..];
      var fill := Min(t.remaining, maker.remaining);
      var mid := lob.Mid();
      if mid.Err? {
        assert Match(t, polled, m) == MidFill(t, rest, [], Fail(mid.error));
        return t, rest, trades, Fail(mid.error);
      }
      var r := t.Consume(fill);
      if r.Err? {
        assert Match(t, polled, m) == MidFill(t, rest, [], Fail(r.error));
        return t, rest, trades, Fail(r.error);
      }
      var maker' := maker.Consume(fill).value;
      ghost var back := if maker'.IsDone() then rest else [maker'] + rest;
      var step := Trade(t.id, maker.id, mid.value, fill);
      assert Match(t, polled, m) == Match(r.value, back, m).(trades := [step] + Match(r.value, back, m).trades);
      assert trades + ([step] + Match(r.value, back, m).trades) == (trades + [step]) + Match(r.value, back, m).trades;
      trades := trades + [step];
      t := r.value;
      if !maker'.IsDone() {
        rest := [maker'] + rest;
      }
    }
  }

  class MidOrderBook {
    var bids: seq<MidOrder>
    var asks: seq<MidOrder>
    const limitOrderBook: LimitOrderBook

    /** Two empty queues and the companion book. */
    constructor (lob: LimitOrderBook)
      ensures bids == [] && asks == [] && limitOrderBook == lob
      ensures OneSided(bids, asks)
    {
      bids, asks := [], [];
      limitOrderBook := lob;
    }

    /** Appends `o` to the back of its own side's queue. */
    method AddOrder(o: MidOrder)
      modifies this
      ensures o.side == Buy ==> bids == old(bids) + [o] && asks == old(asks)
      ensures o.side == Sell ==> asks == old(asks) + [o] && bids == old(bids)
    {
      if o.side == Buy {
        bids := bids + [o];
      } else {
        asks := asks + [o];
      }
    }

    /** Places an order: the loop's result becomes the queues, and the
        report is returned. The companion book is only read. */
    method PlaceOrder(order: Order) returns (r: Result<ExecutionReport>)
      requires limitOrderBook.Valid()
      modifies this
      ensures MidPlacement(r, bids, asks) == PlaceMid(old(bids), old(asks), old(limitOrderBook.Mid()), order)
      ensures OneSided(old(bids), old(asks)) ==> OneSided(bids, asks)
      ensures limitOrderBook.bids == old(limitOrderBook.bids) && limitOrderBook.asks == old(limitOrderBook.asks)
    {
      if OneSided(bids, asks) {
        PlaceMidOneSided(bids, asks, limitOrderBook.Mid(), order);
      }
      if !order.Mid? {
        return Err(WrongOrderType);
      }
      var mo := order.mid;
      MatchTail(mo, if mo.side == Buy then asks else bids, limitOrderBook.Mid());
      var t, rest, trades, status;
      if mo.side == Buy {
        t, rest, trades, status := MatchQueue(mo, asks, limitOrderBook);
        asks := rest;
      } else {
        t, rest, trades, status := MatchQueue(mo, bids, limitOrderBook);
        bids := rest;
      }
      if status.Fail? {
        return Err(status.error);
      }
      if !t.IsDone() {
        AddOrder(t);
      }
      r := Ok(Report(trades));
    }

    /** A placement that either completes or leaves the queues as they were:
        on an error both queues are restored. */
    method PlaceOrderAtomic(order: Order) returns (r: Result<ExecutionReport>)
      requires limitOrderBook.Valid()
      modifies this
      ensures r == PlaceMid(old(bids), old(asks), old(limitOrderBook.Mid()), order).report
      ensures r.Ok? ==> bids == PlaceMid(old(bids), old(asks), old(limitOrderBook.Mid()), order).bids &&
                        asks == PlaceMid(old(bids), old(asks), old(limitOrderBook.Mid()), order).asks
      ensures r.Err? ==> bids == old(bids) && asks == old(asks)
      ensures OneSided(old(bids), old(asks)) ==> OneSided(bids, asks)
    {
      var savedBids, savedAsks := bids, asks;
      r := PlaceOrder(order);
      if r.Err? {
        bids, asks := savedBids, savedAsks;
      }
    }
  }
}
