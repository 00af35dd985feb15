/** The order book and the matching engine (engine/src/order_book.cpp:103-551). */
module OrderBooks {
  import opened Orders
  import opened PriceTime
  import opened Matching
  import opened Submission
  import opened Parties
  import opened Runs
  import opened PriceLevels
  import opened LevelLoops
  import opened BookSides

  /** The id index holds every resting order under its id, and otherwise only filled ones. */
  ghost predicate Registered(orders: map<Id, Order>, resting: set<Order>)
    reads orders.Values
  {
    && (forall o | o in resting :: o.id in orders && orders[o.id] == o)
    && (forall id | id in orders :: orders[id].id == id && (orders[id] in resting || orders[id].Done()))
  }

  /** Adding an order keeps the index right exactly if no resting order has its id; otherwise that one is lost from the
      index while it still rests, as when an actor uses an id again. */
  lemma RegisteredWithIff(orders: map<Id, Order>, resting: set<Order>, order: Order)
    requires Registered(orders, resting) && order !in resting
    ensures Registered(orders[order.id := order], resting + {order}) <==> forall o | o in resting :: o.id != order.id
  {
    var now := orders[order.id := order];
    if forall o | o in resting :: o.id != order.id {
      forall id | id in now ensures now[id].id == id && (now[id] in resting + {order} || now[id].Done()) {
        assert id != order.id ==> id in orders && now[id] == orders[id];
      }
    } else {
      var o :| o in resting && o.id == order.id;
      assert now[o.id] != o;
    }
  }

  lemma RegisteredWithout(orders: map<Id, Order>, resting: set<Order>, id: Id)
    requires Registered(orders, resting) && id in orders
    ensures orders[id].id == id && Registered(orders - {id}, resting - {orders[id]})
  {
  }

  lemma GoneFromBoth(bidding: set<Order>, stillBidding: set<Order>, asking: set<Order>, stillAsking: set<Order>)
    requires Gone(bidding, stillBidding) && Gone(asking, stillAsking)
    ensures Gone(bidding + asking, stillBidding + stillAsking)
    ensures stillBidding <= bidding && stillAsking <= asking
  {
  }

  lemma GoneFromOne(first: set<Order>, now: set<Order>, others: set<Order>)
    requires Gone(first, now)
    ensures Gone(first + others, now + others)
  {
  }

  /** Whoever no longer rests has been filled. */
  lemma StillRegistered(orders: map<Id, Order>, before: set<Order>, after: set<Order>)
    requires forall o | o in before :: o.id in orders && orders[o.id] == o
    requires forall id | id in orders :: orders[id].id == id && (orders[id] in before || orders[id].Done())
    requires Gone(before, after)
    ensures Registered(orders, after)
  {
  }

  lemma RegisteredMeans(orders: map<Id, Order>, resting: set<Order>)
    requires Registered(orders, resting)
    ensures forall o | o in resting :: o.id in orders && orders[o.id] == o
    ensures forall id | id in orders :: orders[id].id == id && (orders[id] in resting || orders[id].Done())
  {
  }

  class OrderBook {
    const instrument: Id
    var bidLevels: seq<PriceLevel>
    var askLevels: seq<PriceLevel>
    var orders: map<Id, Order>
    /** What the two maps of levels look like, and the orders queued in them. */
    ghost var bids: seq<Level>
    ghost var asks: seq<Level>
    ghost var bidding: set<Order>
    ghost var asking: set<Order>

    ghost predicate Valid()
      reads this, bidLevels, askLevels, bidding, asking, orders.Values
    {
      && Sided(Buy, bidLevels, bids, bidding)
      && Sided(Sell, askLevels, asks, asking)
      && Registered(orders, bidding + asking)
    }

    function LevelsOf(side: Side): seq<PriceLevel>
      reads this
    {
      if side == Buy then bidLevels else askLevels
    }

    ghost function HalfOf(side: Side): Half
      reads this
    {
      if side == Buy then Half(bidLevels, bids, bidding) else Half(askLevels, asks, asking)
    }

    /** The book as two price-time queues. */
    ghost function Queues(): Book
      reads this
    {
      Book(Flat(bids), Flat(asks))
    }

    constructor (instrument: Id)
      ensures Valid() && Queues() == Book([], []) && orders == map[] && this.instrument == instrument
      ensures bidLevels == [] && askLevels == [] && bidding + asking == {}
    {
      this.instrument := instrument;
      bidLevels, askLevels, orders := [], [], map[];
      bids, asks, bidding, asking := [], [], {}, {};
    }

    /** Adds a live order; its id may be known only from an order that has been filled. */
    method AddOrder(order: Order)
      requires Valid() && order.Live() && (order.id in orders ==> orders[order.id].Done())
      requires Joins(Queues().Of(order.side), order.price)
      modifies this, bidLevels, askLevels
      ensures Valid() && orders == old(orders)[order.id := order]
      ensures Queues() == old(Queues()).With(order.side, Place(order.side, old(Queues()).Of(order.side), order.Value()))
      ensures if order.side == Buy then asks == old(asks) else bids == old(bids)
      ensures bidding + asking == old(bidding + asking) + {order}
      ensures (forall l | l in bidLevels :: l in old(bidLevels) || fresh(l))
           && forall l | l in askLevels :: l in old(askLevels) || fresh(l)
    {
      hide Sided, Place, Flat, Order.Live, Order.Done, Order.Value, Registered;
      NotResting(order);
      RegisteredWithIff(orders, bidding + asking, order);
      orders := orders[order.id := order];
      var levels := LevelsOf(order.side);
      ghost var shown;
      levels, shown := AddToSide(order.side, levels, order, HalfOf(order.side).views, HalfOf(order.side).resting,
                                 HalfOf(order.side.Opposite()));
      if order.side == Buy {
        bidLevels, bids, bidding := levels, shown, bidding + {order};
      } else {
        askLevels, asks, asking := levels, shown, asking + {order};
      }
      assert bidding + asking == old(bidding + asking) + {order};
    }

    /** Removes the order with this id from its level and from the index. The result says whether it was
        resting: a filled order is still known, and removing it only makes the book forget it. */
    method RemoveOrder(id: Id) returns (ok: bool)
      requires Valid()
      modifies this, bidLevels, askLevels
      ensures Valid() && orders == old(orders) - {id}
      ensures ok <==> id in old(orders) && old(orders)[id] in old(bidding + asking)
      ensures Queues() == Step(old(Queues()), Cancel(id), instrument).book
      ensures bidding + asking == if ok then old(bidding + asking) - {old(orders)[id]} else old(bidding + asking)
    {
      hide Sided, Without, Flat, Order.Live, Order.Done, Order.Value, Registered, Step;
      CancelStep(Queues(), id, instrument);
      if id !in orders {
        Untouched(id);
        assert orders - {id} == orders;
        return false;
      }
      var order := orders[id];
      Untouched(id);
      RegisteredWithout(orders, bidding + asking, id);
      var levels := LevelsOf(order.side);
      ghost var shown;
      levels, ok, shown := RemoveFromSide(order.side, levels, order, HalfOf(order.side).views,
                                          HalfOf(order.side).resting, HalfOf(order.side.Opposite()));
      if order.side == Buy {
        bidLevels, bids, bidding := levels, shown, bidding - {order};
      } else {
        askLevels, asks, asking := levels, shown, asking - {order};
      }
      assert bidding + asking == old(bidding + asking) - {order};
      orders := orders - {id};
    }

    /** A market order: eats the opposite side, level by level. */
    method ProcessMarketOrder(side: Side, quantity: real, actor: Id) returns (trades: seq<Trade>)
      requires Valid()
      modifies this, bidLevels, askLevels, bidding, asking
      ensures Valid() && orders == old(orders)
      ensures Settled(Queues(), trades) == SubmitMarket(old(Queues()), side, quantity, actor, instrument)
      ensures AllTakers(trades, side, actor, old(Queues().Of(side.Opposite())), instrument)
      ensures Gone(old(bidding + asking), bidding + asking)
    {
      hide Sided, Flat, Consume, MarketTrades, Order.Live, Order.Done, AllTakers, Registered, Gone;
      SweepParties(side, quantity, actor);
      SidesApart(bidLevels, bids, bidding, askLevels, asks, asking);
      var levels := LevelsOf(side.Opposite());
      ghost var eaten := HalfOf(side.Opposite());
      ghost var shown, still;
      ghost var before, known, others := bidding + asking, orders, HalfOf(side).resting;
      RegisteredMeans(known, before);
      levels, trades, shown, still := SweepSide(side, levels, quantity, actor, instrument,
                                                eaten.views, eaten.resting, HalfOf(side));
      GoneFromOne(eaten.resting, still, others);
      assert before == eaten.resting + others;
      forall id | id in known && known[id] !in before ensures known[id].Done() {
        assert old(known[id].Done());
      }
      StillRegistered(known, before, still + others);
      if side == Buy {
        askLevels, asks, asking := levels, shown, still;
      } else {
        bidLevels, bids, bidding := levels, shown, still;
      }
      assert bidding + asking == still + others;
      assert Registered(known, still + others);
    }

    /** Matches the resting orders while the best levels overlap. */
    method MatchOrders() returns (trades: seq<Trade>)
      requires Valid()
      modifies this, bidLevels, askLevels, bidding, asking
      ensures Valid() && orders == old(orders)
      ensures Matched(bids, asks, trades) == MatchLoop(old(bids), old(asks), instrument)
      ensures forall t | t in trades :: Justified(t, old(Flat(bids)), old(Flat(asks)), instrument)
      ensures Gone(old(bidding + asking), bidding + asking)
    {
      hide Sided, MatchLoop, MatchQueues, Registered, Justified;
      trades := [];
      Ladders();
      MatchLoopJustified(bids, asks, instrument);
      ghost var whole := MatchLoop(bids, asks, instrument);
      MatchStart(bids, asks, instrument);
      BestLevels();
      while |bidLevels| > 0 && |askLevels| > 0 && bidLevels[0].price >= askLevels[0].price
        invariant Valid() && orders == old(orders)
        invariant StillMatching(whole, bids, asks, trades, instrument)
        invariant Gone(old(bidding + asking), bidding + asking) && bidding <= old(bidding) && asking <= old(asking)
        invariant (forall l | l in bidLevels :: l in old(bidLevels)) && forall l | l in askLevels :: l in old(askLevels)
        decreases Size(bids) + Size(asks)
      {
        BestLevels();
        MatchStep(whole, bids, asks, trades, instrument);
        assert bidLevels[0] in bidLevels && askLevels[0] in askLevels;
        trades := MatchBest(trades);
      }
      BestLevels();
      MatchEnd(whole, bids, asks, trades, instrument);
    }

    /** One round of the matching loop. */
    method MatchBest(trades0: seq<Trade>) returns (trades: seq<Trade>)
      requires Valid() && bidLevels != [] && askLevels != [] && |bids| == |bidLevels| && |asks| == |askLevels|
      modifies this, bidLevels[0], askLevels[0], bidding, asking
      ensures Valid() && orders == old(orders)
      ensures var m := MatchQueues(old(bids)[0].orders, old(asks)[0].orders, instrument, old(asks)[0].price);
        bids == Trim(old(bids), m.bids) && asks == Trim(old(asks), m.asks) && trades == trades0 + m.trades
      ensures Gone(old(bidding + asking), bidding + asking) && bidding <= old(bidding) && asking <= old(asking)
      ensures (forall l | l in bidLevels :: l in old(bidLevels)) && forall l | l in askLevels :: l in old(askLevels)
    {
      hide Sided, MatchQueues, Trim, Order.Live, Order.Done, Registered, Gone;
      ghost var before, known := bidding + asking, orders;
      RegisteredMeans(known, before);
      ghost var m := MatchQueues(bids[0].orders, asks[0].orders, instrument, asks[0].price);
      ghost var b, a := Trim(bids, m.bids), Trim(asks, m.asks);
      var bl, al; ghost var sb, sa;
      bl, al, trades, sb, sa := MatchFronts(bidLevels, askLevels, instrument, trades0, bids, asks, bidding, asking);
      GoneFromBoth(bidding, sb, asking, sa);
      forall id | id in known && known[id] !in before ensures known[id].Done() {
        assert old(known[id].Done());
      }
      StillRegistered(known, before, sb + sa);
      bidLevels, askLevels, bids, asks, bidding, asking := bl, al, b, a, sb, sa;
      assert Registered(known, sb + sa);
      assert Sided(Buy, bl, b, sb) && Sided(Sell, al, a, sa);
    }

    /** The best prices are those at the heads of the two queues. */
    method BestBid() returns (price: Option<real>)
      requires Valid()
      ensures price == if Queues().bids == [] then None else Some(Queues().bids[0].price)
    {
      BestLevels();
      Heads();
      price := if |bidLevels| == 0 then None else Some(bidLevels[0].price);
    }

    method BestAsk() returns (price: Option<real>)
      requires Valid()
      ensures price == if Queues().asks == [] then None else Some(Queues().asks[0].price)
    {
      BestLevels();
      Heads();
      price := if |askLevels| == 0 then None else Some(askLevels[0].price);
    }

    /** At rest the spread is positive whenever there is one. */
    method Spread() returns (spread: Option<real>)
      requires Valid()
      ensures spread.Some? <==> Queues().bids != [] && Queues().asks != []
      ensures spread.Some? ==> spread.value == Queues().asks[0].price - Queues().bids[0].price
      ensures spread.Some? ==> (spread.value > 0.0 <==> Uncrossed(Queues().bids, Queues().asks))
    {
      var b := BestBid();
      var a := BestAsk();
      if b.None? || a.None? {
        return None;
      }
      spread := Some(a.value - b.value);
    }

    /** Market depth: the best levels with their volumes, each the sum of what remains of its orders. */
    method Depth(side: Side, depth: nat) returns (levels: seq<(real, real)>)
      requires Valid()
      ensures var v := if side == Buy then bids else asks;
        && |levels| == (if depth < |v| then depth else |v|)
        && forall i | 0 <= i < |levels| :: levels[i] == (v[i].price, Volume(v[i].orders))
    {
      hide PriceLevel.Valid, Volume, Registered;
      var all := if side == Buy then bidLevels else askLevels;
      ghost var v := if side == Buy then bids else asks;
      levels := [];
      var i := 0;
      while i < |all| && |levels| < depth
        invariant 0 <= i <= |all| && |levels| == i <= depth
        invariant forall j | 0 <= j < i :: levels[j] == (v[j].price, Volume(v[j].orders))
      {
        assert Shows(side, all[i], v[i]);
        ShownVolume(all[i]);
        levels := levels + [(all[i].price, all[i].totalVolume)];
        i := i + 1;
      }
    }

    lemma Heads()
      requires Valid()
      ensures bids != [] <==> Flat(bids) != []
      ensures asks != [] <==> Flat(asks) != []
      ensures bids != [] ==> Flat(bids)[0].price == bids[0].price
      ensures asks != [] ==> Flat(asks)[0].price == asks[0].price
    {
      SidedLadder(Buy, bidLevels, bids, bidding);
      SidedLadder(Sell, askLevels, asks, asking);
      FlatSorted(Buy, bids);
      FlatSorted(Sell, asks);
    }

    lemma Ladders()
      requires Valid()
      ensures Ladder(Buy, bids) && Ladder(Sell, asks)
    {
      SidedLadder(Buy, bidLevels, bids, bidding);
      SidedLadder(Sell, askLevels, asks, asking);
    }

    /** Each trade of a market order is the taker's, with an order that rests opposite. */
    lemma SweepParties(side: Side, quantity: real, actor: Id)
      requires Valid()
      ensures AllTakers(SubmitMarket(Queues(), side, quantity, actor, instrument).trades, side, actor,
                        Queues().Of(side.Opposite()), instrument)
    {
      Ladders();
      FlatSorted(Buy, bids);
      FlatSorted(Sell, asks);
      MarketOrderParties(Queues(), side, quantity, actor, instrument);
    }

    /** Each trade of a limit order is its own, with an order that rests opposite. */
    lemma LimitParties(side: Side, e: Entry)
      requires Valid()
      ensures AllOwn(SubmitLimit(Queues(), side, e, instrument).trades, side, e.id, e.actor,
                     Queues().Of(side.Opposite()), instrument)
    {
      Ladders();
      FlatSorted(Buy, bids);
      FlatSorted(Sell, asks);
      LimitOrderParties(Queues(), side, e, instrument);
    }

    /** A valid book that does not cross is a book at rest, in the sense of the specification machine. */
    lemma IsAtRest()
      requires Valid() && Uncrossed(Queues().bids, Queues().asks)
      ensures AtRest(Queues())
    {
      SideQueue(Buy, bidLevels, bids, bidding, orders);
      SideQueue(Sell, askLevels, asks, asking, orders);
      AllLive(Buy, bidLevels, bids, bidding);
      AllLive(Sell, askLevels, asks, asking);
      forall e | e in Flat(bids) ensures !Holds(Flat(asks), e.id) {
        assert Holds(Flat(bids), e.id);
        var o := HeldBy(Buy, bidLevels, bids, bidding, e.id);
        if Holds(Flat(asks), e.id) {
          var p := HeldBy(Sell, askLevels, asks, asking, e.id);
        }
      }
    }

    lemma BestLevels()
      requires Valid()
      ensures |bids| == |bidLevels| && |asks| == |askLevels|
      ensures bidLevels != [] ==> bids[0].price == bidLevels[0].price && bids[0].orders != []
      ensures askLevels != [] ==> asks[0].price == askLevels[0].price && asks[0].orders != []
    {
      BestLevel(Buy, bidLevels, bids, bidding);
      BestLevel(Sell, askLevels, asks, asking);
    }

    /** Cancelling an id that no order of a side has leaves the queue of that side alone. */
    lemma Untouched(id: Id)
      requires Valid()
      ensures (id !in orders || orders[id].side == Sell) ==> Without(Flat(bids), id) == Flat(bids)
      ensures (id !in orders || orders[id].side == Buy) ==> Without(Flat(asks), id) == Flat(asks)
      ensures forall o | o in bidding + asking && id in orders && o.id == id :: o == orders[id]
      ensures id in orders && orders[id] in bidding ==> orders[id].side == Buy
      ensures id in orders && orders[id] in asking ==> orders[id].side == Sell
    {
      AllLive(Buy, bidLevels, bids, bidding);
      AllLive(Sell, askLevels, asks, asking);
      if id !in orders || orders[id].side == Sell {
        NotInQueue(Buy, bidLevels, bids, bidding, id);
      }
      if id !in orders || orders[id].side == Buy {
        NotInQueue(Sell, askLevels, asks, asking, id);
      }
    }

    lemma NotResting(order: Order)
      requires Valid() && (order.id in orders ==> orders[order.id].Done())
      ensures forall o | o in bidding + asking :: o.id != order.id && o.Live()
    {
      AllLive(Buy, bidLevels, bids, bidding);
      AllLive(Sell, askLevels, asks, asking);
    }
  }

  lemma ShownVolume(l: PriceLevel)
    requires l.Valid()
    ensures l.totalVolume == Volume(l.queue)
  {
  }

  lemma CancelStep(b: Book, id: Id, instrument: Id)
    ensures Step(b, Cancel(id), instrument).book == Book(Without(b.bids, id), Without(b.asks, id))
  {
  }

  /** The matching so far has made `trades` and goes on with these ladders. */
  ghost predicate StillMatching(whole: Matched<Level>, bids: seq<Level>, asks: seq<Level>, trades: seq<Trade>,
          instrument: Id)
  {
    var r := MatchLoop(bids, asks, instrument);
    whole == Matched(r.bids, r.asks, trades + r.trades)
  }

  lemma MatchStart(bids: seq<Level>, asks: seq<Level>, instrument: Id)
    ensures StillMatching(MatchLoop(bids, asks, instrument), bids, asks, [], instrument)
  {
  }

  lemma MatchStep(whole: Matched<Level>, bids: seq<Level>, asks: seq<Level>, trades: seq<Trade>, instrument: Id)
    requires StillMatching(whole, bids, asks, trades, instrument)
    requires bids != [] && asks != [] && asks[0].price <= bids[0].price
    ensures var m := MatchQueues(bids[0].orders, asks[0].orders, instrument, asks[0].price);
      && StillMatching(whole, Trim(bids, m.bids), Trim(asks, m.asks), trades + m.trades, instrument)
      && (bids[0].orders != [] && asks[0].orders != [] ==>
            Size(Trim(bids, m.bids)) + Size(Trim(asks, m.asks)) < Size(bids) + Size(asks))
  {
    var m := MatchQueues(bids[0].orders, asks[0].orders, instrument, asks[0].price);
    Associates(trades, m.trades, MatchLoop(Trim(bids, m.bids), Trim(asks, m.asks), instrument).trades);
  }

  lemma MatchEnd(whole: Matched<Level>, bids: seq<Level>, asks: seq<Level>, trades: seq<Trade>, instrument: Id)
    requires StillMatching(whole, bids, asks, trades, instrument)
    requires bids == [] || asks == [] || bids[0].price < asks[0].price
    ensures whole == Matched(bids, asks, trades)
  {
  }

  /** An id under which nothing rests on a side is not in its queue. */
  lemma NotInQueue(side: Side, levels: seq<PriceLevel>, views: seq<Level>, resting: set<Order>, id: Id)
    requires Sided(side, levels, views, resting) && forall o | o in resting :: o.id != id
    ensures Without(Flat(views), id) == Flat(views)
  {
    forall i | 0 <= i < |views| ensures !Holds(views[i].orders, id) {
      assert Shows(side, levels[i], views[i]);
      forall e | e in views[i].orders ensures e.id != id {
        var o := EntryOrder(side, levels[i], views[i], e);
        assert o in resting;
      }
    }
    NoneHold(views, id);
    WithoutAbsent(Flat(views), id);
  }

  /** An id in the queue of a side is that of an order resting there. */
  lemma HeldBy(side: Side, levels: seq<PriceLevel>, views: seq<Level>, resting: set<Order>, id: Id) returns (o: Order)
    requires Sided(side, levels, views, resting) && Holds(Flat(views), id)
    ensures o in resting && o.id == id
  {
    if forall x | x in resting :: x.id != id {
      NotInQueue(side, levels, views, resting, id);
      WithoutLacks(Flat(views), id);
      assert false;
    }
    o :| o in resting && o.id == id;
  }

  lemma {:induction false} WithoutLacks(q: seq<Entry>, id: Id)
    ensures !Holds(Without(q, id), id)
  {
    if q != [] {
      WithoutLacks(q[1..], id);
    }
  }

  lemma {:induction false} DistinctByIndex(q: seq<Entry>)
    requires forall i, j | 0 <= i < |q| && 0 <= j < |q| && q[i].id == q[j].id :: i == j
    ensures Distinct(q)
  {
    if q != [] {
      forall i, j | 0 <= i < |q[1..]| && 0 <= j < |q[1..]| && q[1..][i].id == q[1..][j].id ensures i == j {
        assert q[i + 1].id == q[j + 1].id;
      }
      DistinctByIndex(q[1..]);
      forall e | e in q[1..] ensures e.id != q[0].id {
        var k :| 0 <= k < |q[1..]| && q[1..][k] == e;
        assert q[k + 1] == e;
      }
    }
  }

  lemma {:induction false} DistinctByLevel(views: seq<Level>)
    requires forall i | 0 <= i < |views| :: Distinct(views[i].orders)
    requires forall i, j, e | 0 <= i < j < |views| && e in views[i].orders :: !Holds(views[j].orders, e.id)
    ensures Distinct(Flat(views))
  {
    if views != [] {
      DistinctByLevel(views[1..]);
      forall e | e in views[0].orders ensures !Holds(Flat(views[1..]), e.id) {
        forall i | 0 <= i < |views[1..]| ensures !Holds(views[1..][i].orders, e.id) {
          assert views[1..][i] == views[i + 1];
        }
        NoneHold(views[1..], e.id);
      }
      DistinctConcat(views[0].orders, Flat(views[1..]));
    }
  }

  /** The queue of a side is sorted, live and free of duplicate ids. */
  lemma SideQueue(side: Side, levels: seq<PriceLevel>, views: seq<Level>, resting: set<Order>, orders: map<Id, Order>)
    requires Sided(side, levels, views, resting) && forall o | o in resting :: o.id in orders && orders[o.id] == o
    ensures Queue(side, Flat(views))
  {
    SidedLadder(side, levels, views, resting);
    FlatSorted(side, views);
    forall i | 0 <= i < |views| ensures Distinct(views[i].orders) {
      assert Shows(side, levels[i], views[i]);
      OneNode(levels[i], Id(""));
      forall j, k | 0 <= j < |views[i].orders| && 0 <= k < |views[i].orders| &&
          views[i].orders[j].id == views[i].orders[k].id
        ensures j == k
      {
        OneNode(levels[i], views[i].orders[j].id);
      }
      DistinctByIndex(views[i].orders);
    }
    forall i, j, e | 0 <= i < j < |views| && e in views[i].orders ensures !Holds(views[j].orders, e.id) {
      assert Shows(side, levels[i], views[i]) && Shows(side, levels[j], views[j]);
      var a := EntryOrder(side, levels[i], views[i], e);
      assert a in resting && Rank(side, levels[i].price) < Rank(side, levels[j].price);
      forall d | d in views[j].orders ensures d.id != e.id {
        var b := EntryOrder(side, levels[j], views[j], d);
        assert b in resting;
      }
    }
    DistinctByLevel(views);
  }

  lemma BestLevel(side: Side, levels: seq<PriceLevel>, views: seq<Level>, resting: set<Order>)
    requires Sided(side, levels, views, resting)
    ensures |views| == |levels|
    ensures levels != [] ==>
        views[0].price == levels[0].price && views[0].orders != [] && views[0].orders == levels[0].queue
  {
  }

  /** Processes incoming orders against a book. */
  class MatchingEngine {
    const book: OrderBook

    constructor (book: OrderBook)
      ensures this.book == book
    {
      this.book := book;
    }

    /** A limit order: added to its level, and then the book is matched. */
    method SubmitLimitOrder(order: Order) returns (trades: seq<Trade>)
      requires book.Valid() && order.Live() && (order.id in book.orders ==> book.orders[order.id].Done())
      requires Joins(book.Queues().Of(order.side), order.price)
      modifies book, book.bidLevels, book.askLevels, book.bidding, book.asking, order
      ensures book.Valid() && book.orders == old(book.orders)[order.id := order]
      ensures Uncrossed(book.Queues().bids, book.Queues().asks)
      ensures old(Uncrossed(book.Queues().bids, book.Queues().asks)) ==>
        Settled(book.Queues(), trades)
            == SubmitLimit(old(book.Queues()), order.side, old(order.Value()), book.instrument)
      ensures old(Uncrossed(book.Queues().bids, book.Queues().asks)) ==>
        AllOwn(trades, order.side, order.id, order.actor, old(book.Queues().Of(order.side.Opposite())), book.instrument)
    {
      hide OrderBook.Valid, Flat, Place, Ladder, MatchLoop, SubmitLimit, AllOwn, Justified;
      book.LimitParties(order.side, order.Value());
      ghost var bids, asks, e := book.bids, book.asks, order.Value();
      book.Ladders();
      book.AddOrder(order);
      book.Ladders();
      ghost var bids', asks' := book.bids, book.asks;
      assert forall o: Order | o in book.bidding :: o in book.bidding + book.asking;
      assert forall o: Order | o in book.asking :: o in book.bidding + book.asking;
      assert forall o: Order | o in book.bidding + book.asking ::
          o in old(book.bidding) || o in old(book.asking) || o == order;
      assert forall i | 0 <= i < |book.bidLevels| ::
          book.bidLevels[i] in old(book.bidLevels) || fresh(book.bidLevels[i]);
      assert forall i | 0 <= i < |book.askLevels| ::
          book.askLevels[i] in old(book.askLevels) || fresh(book.askLevels[i]);
      trades := book.MatchOrders();
      MatchLoopKeeps(bids', asks', book.instrument);
      if Uncrossed(Flat(bids), Flat(asks)) {
        LimitOrderIsPriceTime(bids, asks, order.side, e, if order.side == Buy then bids' else asks', book.instrument);
      }
    }

    /** Market orders sweep, limit orders are added and matched, and other types are rejected. On an
        uncrossed book each is a step of the price-time specification, and after any limit order, or any
        order at all if it was uncrossed before, the book does not cross. */
    method ProcessOrder(order: Order) returns (trades: seq<Trade>)
      requires book.Valid()
      requires order.kind == Limit ==> order.Live() && (order.id in book.orders ==> book.orders[order.id].Done())
      requires order.kind == Limit ==> Joins(book.Queues().Of(order.side), order.price)
      requires order.kind != Limit && order.kind != Market ==>
          order !in book.bidding + book.asking && order !in book.orders.Values
      modifies book, book.bidLevels, book.askLevels, book.bidding, book.asking, order
      ensures book.Valid()
      ensures old(Uncrossed(book.Queues().bids, book.Queues().asks)) || order.kind == Limit
              ==> Uncrossed(book.Queues().bids, book.Queues().asks)
      ensures order.kind == Market ==>
        && Settled(book.Queues(), trades)
           == SubmitMarket(old(book.Queues()), order.side, order.quantity, order.actor, book.instrument)
        && book.orders == old(book.orders)
        && AllTakers(trades, order.side, order.actor, old(book.Queues().Of(order.side.Opposite())), book.instrument)
      ensures order.kind == Limit && old(Uncrossed(book.Queues().bids, book.Queues().asks)) ==>
        && Settled(book.Queues(), trades)
           == SubmitLimit(old(book.Queues()), order.side, old(order.Value()), book.instrument)
        && AllOwn(trades, order.side, order.id, order.actor,
                  old(book.Queues().Of(order.side.Opposite())), book.instrument)
      ensures order.kind == Limit ==> book.orders == old(book.orders)[order.id := order]
      ensures order.kind != Market && order.kind != Limit ==>
        trades == [] && book.Queues() == old(book.Queues()) && book.orders == old(book.orders) &&
            order.status == Rejected
    {
      hide AllOwn, AllTakers, SubmitLimit, SubmitMarket, AtRest, Sided, Registered, Flat;
      match order.kind
      case Market =>
        if Uncrossed(book.Queues().bids, book.Queues().asks) {
          book.IsAtRest();
          StepKeepsRest(book.Queues(), Sweep(order.side, order.quantity, order.actor), book.instrument);
        }
        trades := book.ProcessMarketOrder(order.side, order.quantity, order.actor);
      case Limit =>
        trades := SubmitLimitOrder(order);
      case _ =>
        order.status := Rejected;
        trades := [];
    }
  }
}
