/** One side of the limit order book: price levels in priority order, each a
    FIFO queue of resting limit orders. The bid side is sorted by descending
    price and the ask side by ascending price; the head of a level's queue is
    its oldest order. */
module Levels {
  import opened Orders

  datatype Level = Level(price: real, orders: seq<LimitOrder>)

  /** An aggregated level: its price and the total remaining quantity. */
  datatype BookLevel = BookLevel(price: real, totalQuantity: real)

  /** On side `d`, price `a` comes before price `b`: higher first for bids,
      lower first for asks. */
  predicate Ahead(d: Direction, a: real, b: real)
  {
    if d == Buy then a > b else a < b
  }

  /** Level prices are distinct and in the side's priority order. */
  predicate Sorted(d: Direction, side: seq<Level>)
  {
    forall i, j :: 0 <= i < j < |side| ==> Ahead(d, side[i].price, side[j].price)
  }

  /** Every resting order is on side `d` and at its level's price. */
  predicate Fits(d: Direction, side: seq<Level>)
  {
    forall i, k :: 0 <= i < |side| && 0 <= k < |side[i].orders| ==>
      side[i].orders[k].side == d && side[i].orders[k].price == side[i].price
  }

  /** The shape every side keeps, whatever is added to it. */
  predicate SideOk(d: Direction, side: seq<Level>)
  {
    Sorted(d, side) && Fits(d, side)
  }

  /** Every order of a queue still has something to trade. */
  predicate AllLive(orders: seq<LimitOrder>)
  {
    forall k :: 0 <= k < |orders| ==> orders[k].remaining > 0.0
  }

  /** Every resting order of a side still has something to trade. */
  predicate Live(side: seq<Level>)
  {
    forall i :: 0 <= i < |side| ==> AllLive(side[i].orders)
  }

  /** No level with an empty queue. */
  predicate Compact(side: seq<Level>)
  {
    forall i :: 0 <= i < |side| ==> side[i].orders != []
  }

  /** All resting orders of a side in price-time priority order. */
  function Flatten(side: seq<Level>): seq<LimitOrder>
  {
    if side == [] then [] else side[0].orders + Flatten(side[1..])
  }

  /** The side has a level at `price` (possibly with an empty queue). */
  predicate HasLevel(side: seq<Level>, price: real)
  {
    side != [] && (side[0].price == price || HasLevel(side[1..], price))
  }

  /** The queue resting at `price`, empty when the side has no such level. */
  function QueueAt(side: seq<Level>, price: real): seq<LimitOrder>
  {
    if side == [] then []
    else if side[0].price == price then side[0].orders
    else QueueAt(side[1..], price)
  }

  /** The side after appending `o` to the back of the queue at its price,
      creating the level in its sorted place when absent. */
  function Insert(side: seq<Level>, o: LimitOrder): (r: seq<Level>)
    ensures r != [] && HasLevel(r, o.price)
    ensures |side| <= |r| <= |side| + 1
    ensures !HasLevel(side, o.price) ==> |r| == |side| + 1
  {
    if side == [] then [Level(o.price, [o])]
    else if side[0].price == o.price then [Level(o.price, side[0].orders + [o])] + side[1..]
    else if Ahead(o.side, o.price, side[0].price) then [Level(o.price, [o])] + side
    else [side[0]] + Insert(side[1..], o)
  }

  /** A side has no queue at a price it has no level for, and every order
      of the queue at a price is priced at it. */
  lemma {:induction false} QueueAtFacts(d: Direction, side: seq<Level>, price: real)
    requires Fits(d, side)
    ensures !HasLevel(side, price) ==> QueueAt(side, price) == []
    ensures forall k :: 0 <= k < |QueueAt(side, price)| ==> QueueAt(side, price)[k].price == price
  {
    if side != [] && side[0].price != price {
      QueueAtFacts(d, side[1..], price);
    }
  }

  /** Every level of `side` comes after price `x` on side `d`. */
  predicate Behind(d: Direction, x: real, side: seq<Level>)
  {
    forall i :: 0 <= i < |side| ==> Ahead(d, x, side[i].price)
  }

  lemma {:induction false} BehindAbsent(d: Direction, x: real, side: seq<Level>)
    requires Behind(d, x, side)
    ensures !HasLevel(side, x) && QueueAt(side, x) == []
  {
    if side != [] {
      BehindAbsent(d, x, side[1..]);
    }
  }

  lemma {:induction false} InsertBehind(d: Direction, x: real, side: seq<Level>, o: LimitOrder)
    requires o.side == d && Behind(d, x, side) && Ahead(d, x, o.price)
    ensures Behind(d, x, Insert(side, o))
  {
    if side != [] && side[0].price != o.price && !Ahead(o.side, o.price, side[0].price) {
      InsertBehind(d, x, side[1..], o);
      var t := Insert(side[1..], o);
      assert Insert(side, o) == [side[0]] + t;
    }
  }

  /** Adding an order keeps the side sorted, and the new best price is the
      better of the old best and the order's price. */
  lemma {:induction false} InsertSorted(side: seq<Level>, o: LimitOrder)
    requires Sorted(o.side, side)
    ensures Sorted(o.side, Insert(side, o))
    ensures Insert(side, o)[0].price ==
              if side == [] || Ahead(o.side, o.price, side[0].price) then o.price else side[0].price
  {
    var r := Insert(side, o);
    if side == [] {
    } else if side[0].price == o.price {
      assert r[1..] == side[1..];
      assert forall j :: 0 < j < |r| ==> r[j] == side[j];
    } else if Ahead(o.side, o.price, side[0].price) {
      assert r[1..] == side;
      assert forall j :: 0 < j < |r| ==> r[j] == side[j - 1];
    } else {
      var tail := side[1..];
      InsertSorted(tail, o);
      var t := Insert(tail, o);
      assert r == [side[0]] + t;
      assert Behind(o.side, side[0].price, tail);
      InsertBehind(o.side, side[0].price, tail, o);
      assert forall j :: 0 < j < |r| ==> r[j] == t[j - 1];
    }
  }

  lemma {:induction false} InsertFits(d: Direction, side: seq<Level>, o: LimitOrder)
    requires o.side == d && Fits(d, side)
    ensures Fits(d, Insert(side, o))
    ensures Live(side) && o.remaining > 0.0 ==> Live(Insert(side, o))
    ensures Compact(side) ==> Compact(Insert(side, o))
  {
    var r := Insert(side, o);
    if side == [] {
    } else if side[0].price == o.price {
      assert forall j :: 0 < j < |r| ==> r[j] == side[j];
      assert forall k :: 0 <= k < |side[0].orders| ==> r[0].orders[k] == side[0].orders[k];
    } else if Ahead(o.side, o.price, side[0].price) {
      assert forall j :: 0 < j < |r| ==> r[j] == side[j - 1];
    } else {
      InsertFits(d, side[1..], o);
      var t := Insert(side[1..], o);
      assert r == [side[0]] + t;
      assert forall j :: 0 < j < |r| ==> r[j] == t[j - 1];
    }
  }

  /** Adding an order appends it to the back of the queue at its price and
      leaves the queue at every other price as it was. */
  lemma {:induction false} InsertQueueAt(side: seq<Level>, o: LimitOrder, p: real)
    requires Sorted(o.side, side)
    ensures QueueAt(Insert(side, o), p) == if p == o.price then QueueAt(side, p) + [o] else QueueAt(side, p)
    ensures HasLevel(Insert(side, o), p) <==> HasLevel(side, p) || p == o.price
  {
    if side == [] {
    } else if side[0].price == o.price {
    } else if Ahead(o.side, o.price, side[0].price) {
      assert Behind(o.side, o.price, side);
      BehindAbsent(o.side, o.price, side);
      assert Insert(side, o)[1..] == side;
    } else {
      InsertQueueAt(side[1..], o, p);
      assert Insert(side, o)[1..] == Insert(side[1..], o);
    }
  }

  /** What adding a resting order does to a side, in one place. */
  lemma InsertSpec(side: seq<Level>, o: LimitOrder)
    requires SideOk(o.side, side)
    ensures SideOk(o.side, Insert(side, o))
    ensures forall p :: QueueAt(Insert(side, o), p) == if p == o.price then QueueAt(side, p) + [o] else QueueAt(side, p)
    ensures forall p :: HasLevel(Insert(side, o), p) <==> HasLevel(side, p) || p == o.price
    ensures Insert(side, o)[0].price ==
              if side == [] || Ahead(o.side, o.price, side[0].price) then o.price else side[0].price
    ensures Live(side) && o.remaining > 0.0 ==> Live(Insert(side, o))
    ensures Compact(side) ==> Compact(Insert(side, o))
  {
    InsertSorted(side, o);
    InsertFits(o.side, side, o);
    forall p ensures QueueAt(Insert(side, o), p) == if p == o.price then QueueAt(side, p) + [o] else QueueAt(side, p)
      ensures HasLevel(Insert(side, o), p) <==> HasLevel(side, p) || p == o.price
    {
      InsertQueueAt(side, o, p);
    }
  }

  // ---- volumes ----

  /** Sum of `remaining` over a queue. */
  function Volume(orders: seq<LimitOrder>): real
  {
    if orders == [] then 0.0 else orders[0].remaining + Volume(orders[1..])
  }

  /** Sum of price times `remaining` over a queue: the notional value resting in it. */
  function Worth(orders: seq<LimitOrder>): real
  {
    if orders == [] then 0.0 else orders[0].price * orders[0].remaining + Worth(orders[1..])
  }

  lemma {:induction false} VolumeAppend(a: seq<LimitOrder>, b: seq<LimitOrder>)
    ensures Volume(a + b) == Volume(a) + Volume(b)
    ensures Worth(a + b) == Worth(a) + Worth(b)
  {
    if a == [] {
      assert a + b == b;
    } else {
      assert (a + b)[0] == a[0];
      assert (a + b)[1..] == a[1..] + b;
      VolumeAppend(a[1..], b);
    }
  }

  lemma {:induction false} FlattenAppend(a: seq<Level>, b: seq<Level>)
    ensures Flatten(a + b) == Flatten(a) + Flatten(b)
  {
    if a == [] {
      assert a + b == b;
    } else {
      assert (a + b)[0] == a[0];
      assert (a + b)[1..] == a[1..] + b;
      FlattenAppend(a[1..], b);
    }
  }

  /** The prices of the given orders lie in [lo, hi] and nothing remaining is negative. */
  predicate Bracketed(orders: seq<LimitOrder>, lo: real, hi: real)
  {
    forall k :: 0 <= k < |orders| ==> lo <= orders[k].price <= hi && orders[k].remaining >= 0.0
  }

  /** The worth of a queue lies between its volume at the lowest and at
      the highest price. */
  lemma {:induction false} WorthBounds(orders: seq<LimitOrder>, lo: real, hi: real)
    requires Bracketed(orders, lo, hi)
    ensures lo * Volume(orders) <= Worth(orders) <= hi * Volume(orders)
  {
    if orders != [] {
      var o, rest := orders[0], orders[1..];
      var v, w := Volume(rest), Worth(rest);
      assert Volume(orders) == o.remaining + v;
      assert Worth(orders) == o.price * o.remaining + w;
      assert Bracketed(rest, lo, hi);
      WorthBounds(rest, lo, hi);
      AddBetween(o.price, o.remaining, w, v, lo, hi);
    }
  }

  /** The volume-weighted price of a queue with some volume lies between its
      lowest and highest price. */
  lemma AverageWithin(orders: seq<LimitOrder>, lo: real, hi: real)
    requires Bracketed(orders, lo, hi) && Volume(orders) != 0.0
    ensures lo <= Worth(orders) / Volume(orders) <= hi
  {
    WorthBounds(orders, lo, hi);
    var v, n := Volume(orders), Worth(orders);
    NonNegativeVolume(orders, lo, hi);
    DivBetween(n, v, lo, hi);
  }

  lemma {:induction false} NonNegativeVolume(orders: seq<LimitOrder>, lo: real, hi: real)
    requires Bracketed(orders, lo, hi)
    ensures Volume(orders) >= 0.0
  {
    if orders != [] {
      NonNegativeVolume(orders[1..], lo, hi);
    }
  }

  /** A non-empty queue of live orders has positive volume. */
  lemma {:induction false} LiveVolumePositive(orders: seq<LimitOrder>)
    requires orders != [] && AllLive(orders)
    ensures Volume(orders) > 0.0
  {
    if |orders| > 1 {
      LiveVolumePositive(orders[1..]);
    }
  }

  /** Every order of a side lies between its first and last level's price. */
  lemma {:induction false} FlattenBracketed(d: Direction, side: seq<Level>)
    requires SideOk(d, side) && Live(side) && side != []
    ensures var hi := if d == Buy then side[0].price else side[|side| - 1].price;
            var lo := if d == Buy then side[|side| - 1].price else side[0].price;
            Bracketed(Flatten(side), lo, hi)
  {
    var hi := if d == Buy then side[0].price else side[|side| - 1].price;
    var lo := if d == Buy then side[|side| - 1].price else side[0].price;
    FlattenWithin(side, lo, hi);
  }

  lemma {:induction false} FlattenWithin(side: seq<Level>, lo: real, hi: real)
    requires Live(side)
    requires forall i, k :: 0 <= i < |side| && 0 <= k < |side[i].orders| ==> lo <= side[i].orders[k].price <= hi
    ensures Bracketed(Flatten(side), lo, hi)
  {
    if side != [] {
      FlattenWithin(side[1..], lo, hi);
      var f := Flatten(side);
      forall k | 0 <= k < |f| ensures lo <= f[k].price <= hi && f[k].remaining >= 0.0 {
        if k >= |side[0].orders| {
          assert f[k] == Flatten(side[1..])[k - |side[0].orders|];
        }
      }
    }
  }

  /** A side of live orders without empty levels has volume exactly when it
      has levels. */
  lemma {:induction false} SideVolumePositive(side: seq<Level>)
    requires Live(side) && Compact(side) && side != []
    ensures Volume(Flatten(side)) > 0.0
  {
    LiveVolumePositive(side[0].orders);
    VolumeAppend(side[0].orders, Flatten(side[1..]));
    if |side| > 1 {
      SideVolumePositive(side[1..]);
    } else {
      assert Flatten(side[1..]) == [];
    }
  }
}
