/** The book objects behind the exchange's values: an order book and its matching engine do to the objects what the
    venue does to values (engine/src/exchange.cpp:313-332, engine/src/order_book.cpp:505-539). */
module Listings {
  import opened Orders
  import opened PriceTime
  import opened Matching
  import opened Submission
  import opened Runs
  import opened PriceLevels
  import opened BookSides
  import opened OrderBooks
  import opened Venues

  /** The venue that a book object stands for. */
  ghost function VenueOf(b: OrderBook): Venue
    reads b
  {
    Venue(b.Queues(), b.orders.Keys)
  }

  /** An order object as it arrives. */
  function Arriving(order: Order): Incoming
    reads order
  {
    Incoming(order.kind, order.side, order.Value())
  }

  lemma {:induction false} InFlat(views: seq<Level>, i: nat, e: Entry)
    requires i < |views| && e in views[i].orders
    ensures e in Flat(views)
  {
    if i > 0 {
      InFlat(views[1..], i - 1, e);
    }
  }

  /** The ids in the queue of a side are those of the orders resting there. */
  lemma QueuedIds(side: Side, levels: seq<PriceLevel>, views: seq<Level>, resting: set<Order>, id: Id)
    requires Sided(side, levels, views, resting)
    ensures Holds(Flat(views), id) <==> exists o :: o in resting && o.id == id
  {
    if Holds(Flat(views), id) {
      var o := HeldBy(side, levels, views, resting, id);
    }
    if o :| o in resting && o.id == id {
      assert Queued(o, levels);
      var i :| 0 <= i < |levels| && o in levels[i].orders;
      assert Shows(side, levels[i], views[i]);
      OneNode(levels[i], id);
      var k :| 0 <= k < |levels[i].orders| && levels[i].orders[k] == o;
      InFlat(views, i, views[i].orders[k]);
    }
  }

  /** An id rests in the queues exactly if the index has a resting order under it. */
  lemma RestingIsIndexed(b: OrderBook, id: Id)
    requires b.Valid()
    ensures Resting(b.Queues(), id) <==> id in b.orders && b.orders[id] in b.bidding + b.asking
    ensures id in b.orders && !Resting(b.Queues(), id) ==> b.orders[id].Done()
  {
    QueuedIds(Buy, b.bidLevels, b.bids, b.bidding, id);
    QueuedIds(Sell, b.askLevels, b.asks, b.asking, id);
    hide Sided;
    RegisteredMeans(b.orders, b.bidding + b.asking);
  }

  /** A valid, uncrossed book object stands for an orderly venue. */
  lemma ObjectIsOrderly(b: OrderBook)
    requires b.Valid() && Uncrossed(b.Queues().bids, b.Queues().asks)
    ensures Orderly(VenueOf(b))
  {
    b.IsAtRest();
    forall e | e in b.Queues().bids || e in b.Queues().asks ensures e.id in b.orders {
      assert Resting(b.Queues(), e.id);
      RestingIsIndexed(b, e.id);
    }
  }

  /** What the engine makes of the objects is what the specification makes of the venue. */
  method Submit(engine: MatchingEngine, order: Order) returns (trades: seq<Trade>)
    requires engine.book.Valid() && Uncrossed(engine.book.Queues().bids, engine.book.Queues().asks)
    requires Acceptable(VenueOf(engine.book), Arriving(order))
    requires order.kind == Limit ==> order.Live()
    requires order.kind == Market ==> order.remaining == order.quantity
    requires order.kind != Limit && order.kind != Market ==>
      order !in engine.book.bidding + engine.book.asking && order !in engine.book.orders.Values
    modifies engine.book, engine.book.bidLevels, engine.book.askLevels, engine.book.bidding, engine.book.asking, order
    ensures engine.book.Valid() && Uncrossed(engine.book.Queues().bids, engine.book.Queues().asks)
    ensures Orderly(VenueOf(engine.book))
    ensures (VenueOf(engine.book), trades)
        == Processed(old(VenueOf(engine.book)), old(Arriving(order)), engine.book.instrument)
  {
    hide OrderBook.Valid, SubmitLimit, SubmitMarket, AtRest, Orderly, Flat;
    if order.kind == Limit {
      RestingIsIndexed(engine.book, order.id);
    }
    ghost var v, o := VenueOf(engine.book), Arriving(order);
    trades := engine.ProcessOrder(order);
    ObjectIsOrderly(engine.book);
    if o.kind == Limit {
      assert engine.book.orders.Keys == v.known + {order.id};
    }
    assert VenueOf(engine.book).book == Processed(v, o, engine.book.instrument).0.book;
  }

  /** Cancelling on the object is cancelling on the venue, and succeeds exactly if the order was resting. */
  method Withdraw(book: OrderBook, id: Id) returns (ok: bool)
    requires book.Valid() && Uncrossed(book.Queues().bids, book.Queues().asks)
    modifies book, book.bidLevels, book.askLevels
    ensures book.Valid() && Orderly(VenueOf(book))
    ensures VenueOf(book) == AfterCancel(old(VenueOf(book)), id)
    ensures ok <==> old(Resting(book.Queues(), id))
  {
    hide OrderBook.Valid, AtRest, Orderly, Flat;
    ghost var v := VenueOf(book);
    ObjectIsOrderly(book);
    RestingIsIndexed(book, id);
    CancelingKeeps(v, id);
    ok := book.RemoveOrder(id);
    CancelStep(v.book, id, book.instrument);
  }
}
