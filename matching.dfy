/** The sweep of one limit order against the opposite side of the book, as a
    specification: `FillQueue` runs the inner loop over one level's queue,
    `Sweep` the outer loop over levels. `FifoMatch` is an independent
    description of price-time priority over the flattened side, and the
    lemmas show the level-by-level sweep is exactly that walk. */
module Matching {
  import opened Orders
  import opened Reports
  import opened Levels

  /** The taker's limit reaches a resting price: a buy at or above it, a sell
      at or below it. */
  predicate Crosses(taker: LimitOrder, at: real)
  {
    if taker.side == Buy then taker.price >= at else taker.price <= at
  }

  datatype QueueFill = QueueFill(taker: LimitOrder, rest: seq<LimitOrder>, trades: seq<Trade>, status: Outcome)

  /** The inner loop: take the head maker, trade the smaller remaining at the
      maker's price, consume both, and put a maker with something left back at
      the head. A failing `Consume` stops the loop with the maker already
      taken off the queue. */
  function FillQueue(taker: LimitOrder, queue: seq<LimitOrder>): (r: QueueFill)
    ensures r.status.Fail? ==> r.status.error == InvalidArgument || r.status.error == Overfill
    decreases |queue|, if taker.IsDone() then 0 else 1
  {
    if taker.IsDone() || queue == [] then QueueFill(taker, queue, [], Pass)
    else
      var maker := queue[0];
      var fill := Min(taker.remaining, maker.remaining);
      match taker.Consume(fill)
      case Err(e) => QueueFill(taker, queue[1..], [], Fail(e))
      case Ok(taker') =>
        var maker' := maker.Consume(fill).value;
        var back := if maker'.IsDone() then queue[1..] else [maker'] + queue[1..];
        var f := FillQueue(taker', back);
        f.(trades := [Trade(taker.id, maker.id, maker.price, fill)] + f.trades)
  }

  datatype SweepResult = SweepResult(taker: LimitOrder, book: seq<Level>, trades: seq<Trade>, status: Outcome)

  /** The outer loop: while the best level crosses and the taker is not done,
      fill against that level's queue and drop the level once it is empty. */
  function Sweep(taker: LimitOrder, book: seq<Level>): (r: SweepResult)
    ensures r.status.Fail? ==> r.status.error == InvalidArgument || r.status.error == Overfill
    decreases |book|
  {
    if book == [] || taker.IsDone() || !Crosses(taker, book[0].price) then SweepResult(taker, book, [], Pass)
    else
      var f := FillQueue(taker, book[0].orders);
      if f.status.Fail? then SweepResult(f.taker, [Level(book[0].price, f.rest)] + book[1..], f.trades, f.status)
      else if f.rest == [] then
        var s := Sweep(f.taker, book[1..]);
        s.(trades := f.trades + s.trades)
      else SweepResult(f.taker, [Level(book[0].price, f.rest)] + book[1..], f.trades, Pass)
  }

  /** Price-time priority over a flat sequence of makers: the trades take the
      makers head first, each for the smaller of what the taker still has and
      what the maker has, at the maker's price. A maker filled completely drops
      out and the walk goes on; a maker filled partly ends the walk and stays
      at the head of what is `left`. */
  predicate FifoMatch(takerRemaining: real, makers: seq<LimitOrder>, trades: seq<Trade>, left: seq<LimitOrder>)
    decreases |trades|
  {
    if trades == [] then left == makers
    else
      makers != [] &&
      var m := makers[0];
      var q := Min(takerRemaining, m.remaining);
      trades[0].makerId == m.id && trades[0].price == m.price && trades[0].quantity == q &&
      if q == m.remaining then FifoMatch(takerRemaining - q, makers[1..], trades[1..], left)
      else |trades| == 1 && left == [m.(remaining := m.remaining - q)] + makers[1..]
  }

  /** Same order, possibly with a different `remaining`. */
  predicate SameOrder(a: LimitOrder, b: LimitOrder)
  {
    a.id == b.id && a.side == b.side && a.price == b.price && a.quantity == b.quantity
  }

  /** `rest` is what is left of `queue` after some head orders were taken
      off and the new head possibly partly filled. */
  predicate OrdersTail(rest: seq<LimitOrder>, queue: seq<LimitOrder>)
  {
    |rest| <= |queue| &&
    (forall k :: 0 < k < |rest| ==> rest[k] == queue[|queue| - |rest| + k]) &&
    (rest != [] ==> SameOrder(rest[0], queue[|queue| - |rest|]))
  }

  /** `nb` is what is left of side `book` after some best levels were removed
      and the queue of the new best level possibly shortened. */
  predicate LevelTail(nb: seq<Level>, book: seq<Level>)
  {
    |nb| <= |book| &&
    (forall k :: 0 < k < |nb| ==> nb[k] == book[|book| - |nb| + k]) &&
    (nb != [] ==> nb[0].price == book[|book| - |nb|].price && OrdersTail(nb[0].orders, book[|book| - |nb|].orders))
  }

  // ---- the flat description ----

  /** A walk that consumed all of `a` continues into `b`. */
  lemma {:induction false} FifoChain(r: real, a: seq<LimitOrder>, b: seq<LimitOrder>, ts1: seq<Trade>, ts2: seq<Trade>, left: seq<LimitOrder>)
    requires FifoMatch(r, a, ts1, [])
    requires FifoMatch(r - Filled(ts1), b, ts2, left)
    ensures FifoMatch(r, a + b, ts1 + ts2, left)
    decreases |ts1|
  {
    if ts1 == [] {
      assert a == [] && ts1 + ts2 == ts2 && a + b == b;
    } else {
      var m := a[0];
      var q := Min(r, m.remaining);
      assert (a + b)[0] == m && (a + b)[1..] == a[1..] + b;
      assert (ts1 + ts2)[0] == ts1[0] && (ts1 + ts2)[1..] == ts1[1..] + ts2;
      assert q == m.remaining;
      assert Filled(ts1) == q + Filled(ts1[1..]);
      FifoChain(r - q, a[1..], b, ts1[1..], ts2, left);
    }
  }

  /** Makers after the walked ones are simply carried along. */
  lemma {:induction false} FifoExtend(r: real, a: seq<LimitOrder>, b: seq<LimitOrder>, ts: seq<Trade>, left: seq<LimitOrder>)
    requires FifoMatch(r, a, ts, left)
    ensures FifoMatch(r, a + b, ts, left + b)
    decreases |ts|
  {
    if ts != [] {
      var m := a[0];
      var q := Min(r, m.remaining);
      assert (a + b)[0] == m && (a + b)[1..] == a[1..] + b;
      if q == m.remaining {
        FifoExtend(r - q, a[1..], b, ts[1..], left);
      } else {
        assert left + b == [m.(remaining := m.remaining - q)] + (a[1..] + b);
      }
    }
  }

  /** The walk in index form: the i-th trade is with the i-th maker in
      priority order at that maker's price, and every trade before the last
      takes its maker's whole remaining quantity. */
  lemma {:induction false} FifoInOrder(r: real, makers: seq<LimitOrder>, ts: seq<Trade>, left: seq<LimitOrder>)
    requires FifoMatch(r, makers, ts, left)
    ensures |ts| <= |makers|
    ensures forall i :: 0 <= i < |ts| ==> ts[i].makerId == makers[i].id && ts[i].price == makers[i].price
    ensures forall i :: 0 <= i < |ts| - 1 ==> ts[i].quantity == makers[i].remaining
    decreases |ts|
  {
    if ts != [] {
      var q := Min(r, makers[0].remaining);
      if q == makers[0].remaining {
        FifoInOrder(r - q, makers[1..], ts[1..], left);
      }
    }
  }

  /** What the walk trades is exactly what leaves the makers. */
  lemma {:induction false} FifoConserves(r: real, makers: seq<LimitOrder>, ts: seq<Trade>, left: seq<LimitOrder>)
    requires FifoMatch(r, makers, ts, left)
    ensures Volume(left) == Volume(makers) - Filled(ts)
    decreases |ts|
  {
    if ts != [] {
      var m := makers[0];
      var q := Min(r, m.remaining);
      if q == m.remaining {
        FifoConserves(r - q, makers[1..], ts[1..], left);
      } else {
        assert left[1..] == makers[1..];
        assert ts[1..] == [];
      }
    }
  }

  // ---- the inner loop ----

  /** On live makers and a taker with nothing negative remaining, the inner
      loop never fails, is the flat FIFO walk over the queue, reduces the
      taker by exactly what it traded, and stops only when the taker is done
      or the queue is empty. Every trade has a positive quantity, names the
      taker and is at the level's price. */
  lemma {:induction false} FillQueueFifo(taker: LimitOrder, queue: seq<LimitOrder>, price: real)
    requires taker.remaining >= 0.0 && AllLive(queue)
    requires forall k :: 0 <= k < |queue| ==> queue[k].price == price
    ensures FillQueue(taker, queue).status == Pass
    ensures FifoMatch(taker.remaining, queue, FillQueue(taker, queue).trades, FillQueue(taker, queue).rest)
    ensures FillQueue(taker, queue).taker == taker.(remaining := taker.remaining - Filled(FillQueue(taker, queue).trades))
    ensures FillQueue(taker, queue).taker.remaining >= 0.0
    ensures FillQueue(taker, queue).taker.IsDone() || FillQueue(taker, queue).rest == []
    ensures forall i :: 0 <= i < |FillQueue(taker, queue).trades| ==>
              var t := FillQueue(taker, queue).trades[i];
              t.takerId == taker.id && t.quantity > 0.0 && t.price == price
    decreases |queue|, if taker.IsDone() then 0 else 1
  {
    if !taker.IsDone() && queue != [] {
      var maker := queue[0];
      var fill := Min(taker.remaining, maker.remaining);
      var taker' := taker.Consume(fill).value;
      var maker' := maker.Consume(fill).value;
      var back := if maker'.IsDone() then queue[1..] else [maker'] + queue[1..];
      FillQueueFifo(taker', back, price);
      var f' := FillQueue(taker', back);
      var t := Trade(taker.id, maker.id, maker.price, fill);
      assert FillQueue(taker, queue).trades == [t] + f'.trades;
      assert ([t] + f'.trades)[1..] == f'.trades;
      if !maker'.IsDone() {
        assert maker' == maker.(remaining := maker.remaining - fill);
      }
    }
  }

  /** The inner loop hands back the same taker order. */
  lemma {:induction false} FillQueueSame(taker: LimitOrder, queue: seq<LimitOrder>)
    ensures SameOrder(FillQueue(taker, queue).taker, taker)
    decreases |queue|, if taker.IsDone() then 0 else 1
  {
    if !taker.IsDone() && queue != [] {
      var fill := Min(taker.remaining, queue[0].remaining);
      if taker.Consume(fill).Ok? {
        var taker' := taker.Consume(fill).value;
        var maker' := queue[0].Consume(fill).value;
        FillQueueSame(taker', if maker'.IsDone() then queue[1..] else [maker'] + queue[1..]);
      }
    }
  }

  /** A tail of a tail is a tail. */
  lemma OrdersTailTrans(c: seq<LimitOrder>, b: seq<LimitOrder>, a: seq<LimitOrder>)
    requires OrdersTail(c, b) && OrdersTail(b, a)
    ensures OrdersTail(c, a)
  {
    forall k | 0 < k < |c| ensures c[k] == a[|a| - |c| + k] {
      assert c[k] == b[|b| - |c| + k];
    }
    if c != [] && |b| - |c| > 0 {
      assert b[|b| - |c|] == a[|a| - |c|];
    }
  }

  /** Taking the head maker off, or putting back a partial fill of it,
      leaves a tail of the queue. */
  lemma OrdersTailStep(queue: seq<LimitOrder>, m: LimitOrder)
    requires queue != [] && SameOrder(m, queue[0])
    ensures OrdersTail(queue[1..], queue)
    ensures OrdersTail([m] + queue[1..], queue)
  {
    var back := [m] + queue[1..];
    forall k | 0 < k < |back| ensures back[k] == queue[k] {
      assert back[k] == queue[1..][k - 1];
    }
  }

  /** The inner loop leaves a tail of the queue: the head possibly
      partially filled, the rest untouched. */
  lemma {:induction false} FillQueueTail(taker: LimitOrder, queue: seq<LimitOrder>)
    ensures OrdersTail(FillQueue(taker, queue).rest, queue)
    decreases |queue|, if taker.IsDone() then 0 else 1
  {
    if taker.IsDone() || queue == [] {
      assert FillQueue(taker, queue).rest == queue;
    } else {
      var maker := queue[0];
      var fill := Min(taker.remaining, maker.remaining);
      if taker.Consume(fill).Ok? {
        var taker' := taker.Consume(fill).value;
        var maker' := maker.Consume(fill).value;
        var back := if maker'.IsDone() then queue[1..] else [maker'] + queue[1..];
        OrdersTailStep(queue, maker');
        FillQueueTail(taker', back);
        assert FillQueue(taker, queue).rest == FillQueue(taker', back).rest;
        OrdersTailTrans(FillQueue(taker', back).rest, back, queue);
      } else {
        OrdersTailStep(queue, maker);
      }
    }
  }

  /** The inner loop never puts back a maker with nothing remaining. */
  lemma {:induction false} FillQueueLive(taker: LimitOrder, queue: seq<LimitOrder>)
    requires AllLive(queue)
    ensures AllLive(FillQueue(taker, queue).rest)
    decreases |queue|, if taker.IsDone() then 0 else 1
  {
    if !taker.IsDone() && queue != [] {
      var maker := queue[0];
      var fill := Min(taker.remaining, maker.remaining);
      if taker.Consume(fill).Ok? {
        var taker' := taker.Consume(fill).value;
        var maker' := maker.Consume(fill).value;
        var back := if maker'.IsDone() then queue[1..] else [maker'] + queue[1..];
        assert AllLive(back);
        FillQueueLive(taker', back);
      }
    }
  }

  /** The inner loop passes with makers left only once the taker is done. */
  lemma {:induction false} FillQueueStops(taker: LimitOrder, queue: seq<LimitOrder>)
    ensures FillQueue(taker, queue).status.Pass? && FillQueue(taker, queue).rest != [] ==>
              FillQueue(taker, queue).taker.IsDone()
    decreases |queue|, if taker.IsDone() then 0 else 1
  {
    if !taker.IsDone() && queue != [] {
      var maker := queue[0];
      var fill := Min(taker.remaining, maker.remaining);
      if taker.Consume(fill).Ok? {
        var taker' := taker.Consume(fill).value;
        var maker' := maker.Consume(fill).value;
        FillQueueStops(taker', if maker'.IsDone() then queue[1..] else [maker'] + queue[1..]);
      }
    }
  }

  // ---- the outer loop ----

  /** On a live side, the level-by-level sweep never fails and is exactly the
      FIFO walk over the side flattened into price-time priority order. */
  lemma {:induction false} SweepFifo(taker: LimitOrder, book: seq<Level>)
    requires taker.remaining >= 0.0 && Live(book) && Fits(Opposite(taker.side), book)
    ensures Sweep(taker, book).status == Pass
    ensures FifoMatch(taker.remaining, Flatten(book), Sweep(taker, book).trades, Flatten(Sweep(taker, book).book))
    decreases |book|
  {
    var s := Sweep(taker, book);
    if book != [] && !taker.IsDone() && Crosses(taker, book[0].price) {
      var lvl := book[0];
      assert AllLive(lvl.orders);
      FillQueueFifo(taker, lvl.orders, lvl.price);
      var f := FillQueue(taker, lvl.orders);
      assert Flatten(book) == lvl.orders + Flatten(book[1..]);
      if f.rest == [] {
        var tail := book[1..];
        assert Live(tail) && Fits(Opposite(taker.side), tail);
        SweepFifo(f.taker, tail);
        var s' := Sweep(f.taker, tail);
        assert s == s'.(trades := f.trades + s'.trades);
        FifoChain(taker.remaining, lvl.orders, Flatten(tail), f.trades, s'.trades, Flatten(s'.book));
      } else {
        FifoExtend(taker.remaining, lvl.orders, Flatten(book[1..]), f.trades, f.rest);
        assert s == SweepResult(f.taker, [Level(lvl.price, f.rest)] + book[1..], f.trades, Pass);
        assert Flatten(s.book) == f.rest + Flatten(book[1..]) by {
          assert s.book[1..] == book[1..];
        }
      }
    }
  }

  /** On a live side, the taker the sweep hands back has lost exactly what
      it traded, and never goes below nothing remaining. */
  lemma {:induction false} SweepTaker(taker: LimitOrder, book: seq<Level>)
    requires taker.remaining >= 0.0 && Live(book) && Fits(Opposite(taker.side), book)
    ensures Sweep(taker, book).taker == taker.(remaining := taker.remaining - Filled(Sweep(taker, book).trades))
    ensures Sweep(taker, book).taker.remaining >= 0.0
    decreases |book|
  {
    var s := Sweep(taker, book);
    if book != [] && !taker.IsDone() && Crosses(taker, book[0].price) {
      var lvl := book[0];
      assert AllLive(lvl.orders);
      FillQueueFifo(taker, lvl.orders, lvl.price);
      var f := FillQueue(taker, lvl.orders);
      if f.rest == [] {
        var tail := book[1..];
        assert Live(tail) && Fits(Opposite(taker.side), tail);
        SweepTaker(f.taker, tail);
        var s' := Sweep(f.taker, tail);
        assert s == s'.(trades := f.trades + s'.trades);
        FilledAppend(f.trades, s'.trades);
      } else {
        assert s == SweepResult(f.taker, [Level(lvl.price, f.rest)] + book[1..], f.trades, Pass);
      }
    }
  }

  /** On a live side, every trade of the sweep is the taker's, has a
      positive quantity, and is at a price the taker's limit accepts. */
  lemma {:induction false} SweepTrades(taker: LimitOrder, book: seq<Level>)
    requires taker.remaining >= 0.0 && Live(book) && Fits(Opposite(taker.side), book)
    ensures forall i :: 0 <= i < |Sweep(taker, book).trades| ==>
              var t := Sweep(taker, book).trades[i];
              t.takerId == taker.id && t.quantity > 0.0 && Crosses(taker, t.price)
    decreases |book|
  {
    var s := Sweep(taker, book);
    if book != [] && !taker.IsDone() && Crosses(taker, book[0].price) {
      var lvl := book[0];
      assert AllLive(lvl.orders);
      FillQueueFifo(taker, lvl.orders, lvl.price);
      var f := FillQueue(taker, lvl.orders);
      if f.rest == [] {
        var tail := book[1..];
        assert Live(tail) && Fits(Opposite(taker.side), tail);
        SweepTrades(f.taker, tail);
        var s' := Sweep(f.taker, tail);
        assert s.trades == f.trades + s'.trades;
        forall i | 0 <= i < |s.trades|
          ensures s.trades[i].takerId == taker.id && s.trades[i].quantity > 0.0 && Crosses(taker, s.trades[i].price)
        {
          if i >= |f.trades| {
            assert s.trades[i] == s'.trades[i - |f.trades|];
          }
        }
      }
    }
  }

  /** The sweep leaves a tail of the side: best levels removed and the queue
      of the new best level possibly shortened. */
  lemma {:induction false} SweepTail(taker: LimitOrder, book: seq<Level>)
    ensures LevelTail(Sweep(taker, book).book, book)
    decreases |book|
  {
    var s := Sweep(taker, book);
    if book != [] && !taker.IsDone() && Crosses(taker, book[0].price) {
      var lvl := book[0];
      FillQueueTail(taker, lvl.orders);
      var f := FillQueue(taker, lvl.orders);
      if f.status.Pass? && f.rest == [] {
        SweepTail(f.taker, book[1..]);
        LevelTailStep(s.book, book);
      } else {
        assert s.book == [Level(lvl.price, f.rest)] + book[1..];
      }
    }
  }

  /** A tail of the side without its best level is a tail of the side. */
  lemma LevelTailStep(nb: seq<Level>, book: seq<Level>)
    requires book != [] && LevelTail(nb, book[1..])
    ensures LevelTail(nb, book)
  {
    forall k | 0 < k < |nb| ensures nb[k] == book[|book| - |nb| + k] {
      assert nb[k] == book[1..][|book| - 1 - |nb| + k];
    }
    if nb != [] {
      assert book[1..][|book| - 1 - |nb|] == book[|book| - |nb|];
    }
  }

  /** The sweep never leaves a maker with nothing remaining, and it leaves an
      empty level only when it failed. */
  lemma {:induction false} SweepKeepsLive(taker: LimitOrder, book: seq<Level>)
    ensures Live(book) ==> Live(Sweep(taker, book).book)
    ensures Compact(book) && Sweep(taker, book).status.Pass? ==> Compact(Sweep(taker, book).book)
    decreases |book|
  {
    var s := Sweep(taker, book);
    if book != [] && !taker.IsDone() && Crosses(taker, book[0].price) {
      var lvl := book[0];
      var f := FillQueue(taker, lvl.orders);
      if f.status.Pass? && f.rest == [] {
        SweepKeepsLive(f.taker, book[1..]);
        if Live(book) {
          assert Live(book[1..]);
        }
        if Compact(book) {
          assert Compact(book[1..]);
        }
      } else {
        assert s.book == [Level(lvl.price, f.rest)] + book[1..];
        if Live(book) {
          assert AllLive(lvl.orders);
          FillQueueLive(taker, lvl.orders);
          forall i, k | 0 <= i < |s.book| && 0 <= k < |s.book[i].orders| ensures s.book[i].orders[k].remaining > 0.0 {
            if i > 0 { assert s.book[i] == book[i]; }
          }
        }
      }
    }
  }

  /** The sweep hands back the same taker order, and when it passes with the
      taker not done it stopped at a level the taker does not cross, whatever
      the side holds. */
  lemma {:induction false} SweepStops(taker: LimitOrder, book: seq<Level>)
    ensures SameOrder(Sweep(taker, book).taker, taker)
    ensures Sweep(taker, book).status.Pass? && !Sweep(taker, book).taker.IsDone() ==>
              Sweep(taker, book).book == [] || !Crosses(taker, Sweep(taker, book).book[0].price)
    decreases |book|
  {
    if book != [] && !taker.IsDone() && Crosses(taker, book[0].price) {
      FillQueueStops(taker, book[0].orders);
      FillQueueSame(taker, book[0].orders);
      var f := FillQueue(taker, book[0].orders);
      if f.status.Pass? && f.rest == [] {
        SweepStops(f.taker, book[1..]);
      }
    }
  }

  /** A tail of a well-shaped side is well shaped, and its best price is no
      better than the old best. */
  lemma LevelTailKeepsShape(d: Direction, nb: seq<Level>, book: seq<Level>)
    requires LevelTail(nb, book) && SideOk(d, book)
    ensures SideOk(d, nb)
    ensures nb != [] ==> book != [] && (nb[0].price == book[0].price || Ahead(d, book[0].price, nb[0].price))
  {
    var off := |book| - |nb|;
    forall i, j | 0 <= i < j < |nb| ensures Ahead(d, nb[i].price, nb[j].price) {
      assert nb[i].price == book[off + i].price && nb[j] == book[off + j];
    }
    forall i, k | 0 <= i < |nb| && 0 <= k < |nb[i].orders|
      ensures nb[i].orders[k].side == d && nb[i].orders[k].price == nb[i].price
    {
      if i > 0 {
        assert nb[i] == book[off + i];
      } else {
        var q, r := book[off].orders, nb[0].orders;
        if k > 0 {
          assert r[k] == q[|q| - |r| + k];
        }
      }
    }
    if nb != [] && off > 0 {
      assert Ahead(d, book[0].price, book[off].price);
    }
  }
}
