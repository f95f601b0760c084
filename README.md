# Exchange matching core in Dafny

This project models the matching core of a single-instrument exchange and
proves properties of it. The core has three parts:

- **Order values.** `LimitOrder` and `MidOrder` are immutable. `Consume`
  returns a new value with less remaining and refuses a non-positive
  amount or an overfill.
- **The limit order book.** It is a price-time priority book:
  - Bids are price levels in descending order and asks are in ascending
    order. Each level is a FIFO queue of limit orders.
  - `placeOrder` sweeps the opposite side level by level while the taker's
    limit crosses the best price. It fills the head maker for the smaller
    of the two remaining quantities, at the maker's price, and puts a
    partly filled maker back at the head. It drops a drained level and
    rests what is left of the taker.
  - Queries: best bid and ask, mid, the queue at a price, level totals and
    volume-weighted prices.
  - Seeding replays orders through `placeOrder` and refuses any seed order
    that trades.
- **The mid book.** It has two flat FIFO queues of mid orders. A mid order
  fills against the opposite queue with no price condition, and every
  trade is priced at the limit book's current mid.

How the model is laid out:

- `orders.dfy` (`Orders`): the order values, `Direction`, `Order` (the two
  variants a book may be handed) and the error kinds.
- `reports.dfy` (`Reports`): `Trade` and `ExecutionReport`, with the VWAP
  formula.
- `levels.dfy` (`Levels`): a book side as a sequence of price levels, and
  what adding a resting order does to it.
- `matching.dfy` (`Matching`): the sweep as a specification.
  - `FillQueue` is the inner loop over one level's queue; `Sweep` is the
    outer loop over levels.
  - `FifoMatch` describes price-time priority independently, over the
    side flattened into priority order.
- `limit_order_book.dfy` (`LimitBook`): the limit book.
  - `Place` specifies one `placeOrder` call on the two sides as values.
  - The loops of `placeOrder` and of the queries are methods proved equal
    to their specification functions.
  - The class `LimitOrderBook` holds the two sides as fields.
- `mid_order_book.dfy` (`MidBook`): the mid book. The same structure, with
  `Match`, `PlaceMid`, the loop method `MatchQueue` and the class
  `MidOrderBook`.

Modelling choices:

- **Numbers.** Prices and sizes are exact reals, and an order is done
  exactly when its remaining quantity is zero.
- **Errors.** A Java exception becomes an `Err` of a `Result`, with the
  error kind as its payload. The failure states are modelled as the code
  leaves them (see Findings).
- **Sides.** A side is a sequence of `Level(price, orders)`. The map
  ordering becomes the predicate `Sorted`, and `Fits` says every order sits
  at its level's price on the right side. Together these are the class
  invariant `Valid`.
- **Separate predicates.** Liveness (every resting order has something
  left) and compactness (no empty level) are kept out of `Valid`. The
  public `addOrder` accepts any order, and a failed placement can leave an
  empty level behind.

## Model

| member | source | states |
|---|---|---|
| Orders.LimitOrder.New | exchange/src/main/java/org/example/LimitOrder.java:15-17 | a new limit order has the given fields and remaining equal to quantity |
| Orders.LimitOrder.Of | exchange/src/main/java/org/example/LimitOrder.java:19-23 | succeeds exactly when quantity and price are both positive, otherwise an invalid-argument error; the order it builds is well formed and not done |
| Orders.LimitOrder.Consume | exchange/src/main/java/org/example/LimitOrder.java:25-32 | a non-positive amount is an invalid-argument error, a positive amount above what remains is an overfill error, it succeeds exactly for 0 < amount <= remaining, and then only remaining changes, by exactly the amount |
| Orders.LimitOrder.IsDone | exchange/src/main/java/org/example/LimitOrder.java:35-37 | done exactly when remaining is 0 (the 1e-9 tolerance becomes an exact zero); a done order accepts no fill of any amount, and one with something left accepts a fill of all of it |
| Orders.LimitConsumeKeepsBounds | exchange/src/main/java/org/example/LimitOrder.java:25-37 | a valid fill keeps 0 <= remaining <= quantity, and consuming all that remains gives a done order |
| Orders.LimitConsumeTwice | exchange/src/main/java/org/example/LimitOrder.java:25-32 | two successive fills equal one fill of their sum |
| Orders.MidOrder.New | exchange/src/main/java/org/example/MidOrder.java:12-14 | a new mid order has the given fields and remaining equal to quantity |
| Orders.MidOrder.Of | exchange/src/main/java/org/example/MidOrder.java:16-19 | succeeds exactly when quantity is positive (an instance method whose receiver is ignored), otherwise an invalid-argument error |
| Orders.MidOrder.Consume | exchange/src/main/java/org/example/MidOrder.java:21-25 | succeeds exactly for 0 < amount <= remaining, with one invalid-argument error for both failures; then only remaining changes, by exactly the amount |
| Orders.MidOrder.IsDone | exchange/src/main/java/org/example/MidOrder.java:28 | done exactly when remaining is 0 (the 1e-9 tolerance becomes an exact zero); a done order accepts no fill of any amount, and one with something left accepts a fill of all of it |
| Orders.MidConsumeKeepsBounds | exchange/src/main/java/org/example/MidOrder.java:21-28 | a valid fill keeps 0 <= remaining <= quantity, and consuming all that remains gives a done order |
| Orders.MidConsumeTwice | exchange/src/main/java/org/example/MidOrder.java:21-25 | two successive fills equal one fill of their sum |
| Reports.Report | exchange/src/main/java/org/example/LimitOrderBook.java:228-236 | no trades report 0 filled at a 0 average; otherwise filled is the sum of trade quantities and, when positive, vwap times filled is the sum of price times quantity |
| Reports.VwapWithin | exchange/src/main/java/org/example/LimitOrderBook.java:228-236 | with positive quantities, the report of a non-empty trade list has positive filled and a vwap between the lowest and highest trade price |
| Levels.Insert | exchange/src/main/java/org/example/LimitOrderBook.java:75-79 | the side after `addOrder`: the order is appended to the queue at its price, a new level is created only when none is there, so the result has a level at that price and at most one more level |
| Levels.InsertSpec | exchange/src/main/java/org/example/LimitOrderBook.java:75-79 | adding an order keeps the side sorted and fitting, appends the order to the back of the queue at its price, leaves every other queue as it was, creates the level when absent, and keeps liveness and compactness |
| Levels.QueueAtFacts | exchange/src/main/java/org/example/LimitOrderBook.java:95-99 | a side without a level at a price has an empty queue there, and every order in a queue is at that queue's price |
| Levels.SideVolumePositive | exchange/src/main/java/org/example/LimitOrderBook.java:140-157 | a non-empty side of live orders without empty levels has positive volume |
| Levels.AverageWithin | exchange/src/main/java/org/example/LimitOrderBook.java:117-157 | the volume-weighted price of resting orders with volume lies between their lowest and highest price |
| Matching.FifoInOrder | exchange/src/main/java/org/example/LimitOrderBook.java:174-189 | under price-time priority, the i-th trade is with the i-th maker in priority order at that maker's price, and every trade but the last takes its maker's whole remaining |
| Matching.FifoConserves | exchange/src/main/java/org/example/LimitOrderBook.java:176-188 | the resting volume lost by the makers equals the quantity traded |
| Matching.FillQueue | exchange/src/main/java/org/example/LimitOrderBook.java:174-189 | the inner loop over one price level: poll the head maker, fill the smaller of the two remainders, requeue a partly filled maker at the front; it fails only when the taker rejects the fill, with an invalid-argument or overfill error |
| Matching.FillQueueFifo | exchange/src/main/java/org/example/LimitOrderBook.java:174-189 | on live makers, the inner loop never fails and is the FIFO walk over the queue; the taker loses exactly what it traded; it stops only when the taker is done or the queue is empty; every trade is positive, the taker's, and at the level's price |
| Matching.FillQueueTail | exchange/src/main/java/org/example/LimitOrderBook.java:174-189 | the inner loop leaves a tail of the queue: only the head may be a partial fill of the maker it replaces, every later order is untouched |
| Matching.FillQueueLive | exchange/src/main/java/org/example/LimitOrderBook.java:185-188 | a maker with nothing remaining is never put back on the queue |
| Matching.FillQueueStops | exchange/src/main/java/org/example/LimitOrderBook.java:174 | on any queue, the inner loop passes with makers left only once the taker is done |
| Matching.FillQueueSame | exchange/src/main/java/org/example/LimitOrderBook.java:182 | the inner loop hands back the same taker order, with only its remaining changed |
| Matching.Sweep | exchange/src/main/java/org/example/LimitOrderBook.java:168-222 | the outer loop: while the other side's best level crosses the taker's limit and the taker is not done, run the inner loop on that level and drop the level once drained; it fails only with an invalid-argument or overfill error from a fill |
| Matching.SweepFifo | exchange/src/main/java/org/example/LimitOrderBook.java:168-194 | on a live side, the level-by-level sweep never fails and is exactly the FIFO walk over the flattened side |
| Matching.SweepTaker | exchange/src/main/java/org/example/LimitOrderBook.java:168-194 | on a live side, the taker the sweep hands back has lost exactly what it traded and never goes below nothing remaining |
| Matching.SweepTrades | exchange/src/main/java/org/example/LimitOrderBook.java:168-194 | on a live side, every trade of the sweep is the taker's, has a positive quantity, and is at a price within the taker's limit |
| Matching.SweepTail | exchange/src/main/java/org/example/LimitOrderBook.java:168-194 | the sweep removes best levels and shortens only the queue of the new best level |
| Matching.SweepKeepsLive | exchange/src/main/java/org/example/LimitOrderBook.java:185-193 | a fully filled maker is never put back, and a drained level is removed unless the sweep failed |
| Matching.SweepStops | exchange/src/main/java/org/example/LimitOrderBook.java:168-197 | on any side, a sweep that passes with the taker not done stopped where the taker no longer crosses, and the taker keeps its id, side, price and quantity |
| LimitBook.Place | exchange/src/main/java/org/example/LimitOrderBook.java:159-237 | one placement: a mid order is refused with a wrong-order-type error and no change; a limit order sweeps the other side, rests its remainder on its own side, and fails only with an invalid-argument or overfill error (the best-price lookups inside the loop never hit an empty side) |
| LimitBook.PlaceShape | exchange/src/main/java/org/example/LimitOrderBook.java:159-226 | whatever is placed, both sides stay sorted and fitting, and a book without a resting cross has none afterwards |
| LimitBook.PlaceLive | exchange/src/main/java/org/example/LimitOrderBook.java:159-226 | on live sides, a limit order with nothing negative remaining never fails, and the sides stay live and without empty levels |
| LimitBook.PlaceMatches | exchange/src/main/java/org/example/LimitOrderBook.java:159-236 | on live sides, the trades are the price-time FIFO walk over the other side; the volume traded leaves that side; what is left of the taker (filled plus left equals its remaining) rests at the back of its price's queue exactly when it is not zero; every trade is positive, the taker's, and within its limit; with something left it has stopped where the other side is empty or its best price no longer crosses the limit |
| LimitBook.PlacePriceImprovement | exchange/src/main/java/org/example/LimitOrderBook.java:168-236 | a taker that trades gets a vwap between the other side's best price and its own limit |
| LimitBook.PlaceWithoutCross | exchange/src/main/java/org/example/LimitOrderBook.java:168-229 | a taker that does not reach the other side's best price trades nothing, rests whole, and leaves the other side unchanged |
| LimitBook.FifoScenario | exchange/src/main/java/org/example/LimitOrderBook.java:168-194 | a buy for 12 at 100 against asks of 10 then 5 at 100 trades 10 with the first and 2 with the second, leaving the second at the head with 3 |
| LimitBook.NegativeTakerDropsMaker | exchange/src/main/java/org/example/LimitOrderBook.java:174-188 | as written, a taker with negative remaining takes the only maker off its queue and fails, leaving an empty level and the maker gone |
| LimitBook.SeedFrom | exchange/src/main/java/org/example/LimitOrderBook.java:54-65 | bulk construction: place the seed orders in turn, refusing the book at the first error or the first seed that trades; no seeds leave the book as it was, and the only errors are a placement's or the crossing-seed error |
| LimitBook.SeedSound | exchange/src/main/java/org/example/LimitOrderBook.java:54-65 | seeding a sound book with orders having nothing negative remaining fails only because a seed order traded, and otherwise leaves a sorted, uncrossed, live book without empty levels |
| LimitBook.CrossingSeedScenario | exchange/src/main/java/org/example/LimitOrderBook.java:54-65 | seeding a bid at 101 and then an ask at 100 is refused as crossing |
| LimitBook.SweepSide | exchange/src/main/java/org/example/LimitOrderBook.java:168-222 | the nested loops that poll, fill and requeue compute exactly the sweep of the taker over the given side, including its failure state |
| LimitBook.FillLevel | exchange/src/main/java/org/example/LimitOrderBook.java:174-189 | the inner loop that polls, fills and requeues computes exactly the specified fill of one queue, and when it passes the taker is done or the queue is empty |
| LimitBook.Accumulate | exchange/src/main/java/org/example/LimitOrderBook.java:117-132 | the accumulation loops add exactly the side's notional and volume to the running totals |
| LimitBook.AccumulateQueue | exchange/src/main/java/org/example/LimitOrderBook.java:122-125 | the loop over one queue adds exactly its notional and its volume to the running totals |
| LimitBook.BookAverageWithin | exchange/src/main/java/org/example/LimitOrderBook.java:117-137 | on an uncrossed live book, every resting order is priced between the worst bid and the worst ask, and so is the book's volume-weighted price |
| LimitBook.BookVolumePositive | exchange/src/main/java/org/example/LimitOrderBook.java:134-136 | a sound book with an order on either side has positive volume, so the empty-book error cannot arise |
| LimitBook.LevelTotals | exchange/src/main/java/org/example/LimitOrderBook.java:101-115 | one entry per level in side order, each with its level's price and total remaining; the totals add up to the side's volume, and each is positive on a live side without empty levels |
| LimitBook.LimitOrderBook.constructor | exchange/src/main/java/org/example/LimitOrderBook.java:48-51 | the new book has two empty sides |
| LimitBook.LimitOrderBook.Copy | exchange/src/main/java/org/example/LimitOrderBook.java:69-73 | the copy has the same levels and queues, held independently |
| LimitBook.LimitOrderBook.FromOrders | exchange/src/main/java/org/example/LimitOrderBook.java:54-66 | fails exactly when seeding fails, with its error, and otherwise gives a fresh valid book holding what seeding left |
| LimitBook.LimitOrderBook.AddOrder | exchange/src/main/java/org/example/LimitOrderBook.java:75-79 | appends the order at the back of the queue at its price on its side, creating the level if absent; every other queue and the other side are unchanged |
| LimitBook.LimitOrderBook.BestBid | exchange/src/main/java/org/example/LimitOrderBook.java:81-84 | fails with an empty-side error exactly on an empty bid side; otherwise a bid level's price no lower than any other |
| LimitBook.LimitOrderBook.BestAsk | exchange/src/main/java/org/example/LimitOrderBook.java:86-89 | fails with an empty-side error exactly on an empty ask side; otherwise an ask level's price no higher than any other |
| LimitBook.LimitOrderBook.Mid | exchange/src/main/java/org/example/LimitOrderBook.java:91-93 | fails exactly when a side is empty; otherwise the mean of best bid and best ask, strictly between them on an uncrossed book |
| LimitBook.LimitOrderBook.OrdersAtPrice | exchange/src/main/java/org/example/LimitOrderBook.java:95-99 | the bid queue at the price if there is one, otherwise the ask queue, empty when neither side has the level; all its orders are at that price |
| LimitBook.LimitOrderBook.BidLevels | exchange/src/main/java/org/example/LimitOrderBook.java:101-105 | bid levels by strictly descending price with their total remaining, adding up to the bid volume |
| LimitBook.LimitOrderBook.AskLevels | exchange/src/main/java/org/example/LimitOrderBook.java:107-111 | ask levels by strictly ascending price with their total remaining, adding up to the ask volume |
| LimitBook.LimitOrderBook.VwapSide | exchange/src/main/java/org/example/LimitOrderBook.java:140-157 | fails with an empty-side error exactly when the side has no volume; otherwise notional over volume, which lies between the side's worst and best price on live orders; never fails on a non-empty live side without empty levels |
| LimitBook.LimitOrderBook.VwapBook | exchange/src/main/java/org/example/LimitOrderBook.java:117-138 | fails with an empty-side error exactly when the book has no volume; otherwise notional over volume of both sides, between the worst bid and the worst ask on an uncrossed live book |
| LimitBook.LimitOrderBook.PlaceOrder | exchange/src/main/java/org/example/LimitOrderBook.java:159-237 | the report and the new sides are exactly those of one placement; the book stays valid and gains no resting cross |
| LimitBook.LimitOrderBook.PlaceOrderAtomic | exchange/src/main/java/org/example/LimitOrderBook.java:159-237 | the same report as one placement; on success the same sides, on an error both sides as before the call |
| MidBook.Match | exchange/src/main/java/org/example/MidOrderBook.java:33-57 | the mid book's matching loop: poll the head maker, take the companion book's mid, fill at it and requeue a partly filled maker at the front; it fails only with the mid query's error or the taker's invalid-argument error |
| MidBook.PlaceMid | exchange/src/main/java/org/example/MidOrderBook.java:23-72 | one mid placement: a limit order is refused with a wrong-order-type error and no change; a mid order matches the opposite queue, joins the back of its own queue with what is left, and fails only with the mid query's error or an invalid-argument error |
| MidBook.MidFifoConserves | exchange/src/main/java/org/example/MidOrderBook.java:34-44 | the resting volume lost by the mid makers equals the quantity traded |
| MidBook.MatchFifo | exchange/src/main/java/org/example/MidOrderBook.java:34-44 | with a mid price available and live makers, the loop never fails and fills head first at that price; the taker loses exactly what it traded; it stops only when the taker is done or the queue is empty; every trade is positive and the taker's |
| MidBook.MatchTail | exchange/src/main/java/org/example/MidOrderBook.java:34-56 | whatever the mid query answers, the queue never grows, the taker keeps its side, and a pass with the taker not done empties the queue |
| MidBook.PlaceMidOneSided | exchange/src/main/java/org/example/MidOrderBook.java:17-21 | whatever is placed, at most one queue is non-empty afterwards if that held before |
| MidBook.PlaceMidMatches | exchange/src/main/java/org/example/MidOrderBook.java:24-71 | with a mid price and live queues, the placement never fails; it trades head first at the mid, the traded volume leaves the opposite queue, what is left of the taker joins the back of its own queue exactly when it is not zero, and a report with trades has the mid as vwap; with something left the opposite queue is empty |
| MidBook.MidScenario | exchange/src/main/java/org/example/MidOrderBook.java:33-44 | with a mid of 101, a mid buy for 5 against a mid sell for 10 trades 5 at 101 and leaves the sell at the head with 5 |
| MidBook.EmptyMidDropsMaker | exchange/src/main/java/org/example/MidOrderBook.java:34-38 | as written, when the mid query fails the placement fails with the opposite queue short of its head maker |
| MidBook.MatchQueue | exchange/src/main/java/org/example/MidOrderBook.java:33-57 | the loop that polls, asks the limit book for its mid, fills and requeues computes exactly the specified match, including its failure state |
| MidBook.MidOrderBook.constructor | exchange/src/main/java/org/example/MidOrderBook.java:11-15 | two empty queues and the given limit book |
| MidBook.MidOrderBook.AddOrder | exchange/src/main/java/org/example/MidOrderBook.java:17-21 | appends the order to the back of its own side's queue and leaves the other queue unchanged |
| MidBook.MidOrderBook.PlaceOrder | exchange/src/main/java/org/example/MidOrderBook.java:23-72 | the report and the new queues are exactly those of one placement at the limit book's mid, at most one queue stays non-empty, and the limit book is not changed |
| MidBook.MidOrderBook.PlaceOrderAtomic | exchange/src/main/java/org/example/MidOrderBook.java:23-72 | the same report as one placement; on success the same queues, on an error both queues as before the call |

## Left out

- Floating point: prices and sizes are exact reals. The `1e-9` tolerance of `isDone` becomes an exact zero test, and sums and divisions are exact.
- Orders.LimitOrder.IsDone, Orders.MidOrder.IsDone: test for an exact zero rather than `|remaining| < 1e-9`, because sizes are exact reals here and no rounding residue can arise.
- Order ids are unbounded integers rather than 64-bit longs; the core does no arithmetic on them.
- Null checks (`Objects.requireNonNull`) and exception messages: values cannot be null here, and an exception is only its error kind.
- `TreeMap`/`ArrayDeque` internals: a side is a sorted sequence of levels. A queue snapshot or copy is a sequence value, so it is independent of the book by construction.
- The `DEMO_BOOK` seed data, and the unit tests that use it.
- `OrderBook.java` and `Order.java` are not part of this model. They hold a superseded record form of `Order` and a duplicate of the book's non-matching half, and neither book uses them. `Trade`, `ExecutionReport` and `Direction` are plain datatypes for the Java types of the same names. The `Book` interface has no counterpart beyond each book's `PlaceOrder`.
- Concurrency: the core assumes a single sequential caller.
- The class invariant `Valid` (sorted, fitting sides) is a precondition of the limit book's methods. Every constructor establishes it and every method keeps it.
- `VwapBook` splits the accumulation loop into one `Accumulate` call per side, continuing the same totals.
- LimitBook.PlaceMatches: stated only for books of live orders and a taker with nothing negative remaining. Outside those cases the source fails mid-sweep (see Findings); `PlaceShape` still covers them.
- MidBook.PlaceMidMatches: stated only for live queues, a taker with nothing negative remaining and an available mid, for the same reason.
- MidBook.MatchQueue: the mid is asked of the limit book once per fill, as in the source. It is the same value throughout, because nothing changes the limit book during a placement.

## Findings

| source | as written | input that shows it | evidently intended | confidence | as-written member | corrected member |
|---|---|---|---|---|---|---|
| exchange/src/main/java/org/example/MidOrderBook.java:34-38 | the head maker is polled before `getMid()`, which throws when the limit book has an empty side, so the exception leaves the resting mid order gone | a mid buy for 5 against a resting mid sell for 10 while the limit book has no bids | a placement that fails leaves the queues as they were (a call completes or fails, with no partially completed state) | not executed; high | MidBook.EmptyMidDropsMaker | MidBook.MidOrderBook.PlaceOrderAtomic |
| exchange/src/main/java/org/example/LimitOrderBook.java:174-188 | the head maker is polled before the taker's `consume(fill)`, which throws when the fill is not positive, so the exception leaves the maker gone and its drained level in the book | a buy at 100 with quantity 5 and remaining -1, made with the canonical record constructor, against one sell of 10 at 100 (a maker with nothing remaining added via `addOrder` does the same) | a placement that fails leaves the book as it was | not executed; medium | LimitBook.NegativeTakerDropsMaker | LimitBook.LimitOrderBook.PlaceOrderAtomic |
