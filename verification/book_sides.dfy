/** One side of a book as a price-sorted list of level objects (the std::map fields of OrderBook), and the
    operations on it: finding or creating a level, removing an order, sweeping. */
module BookSides {
  import opened Orders
  import opened PriceTime
  import opened Matching
  import opened Submission
  import opened PriceLevels
  import opened LevelLoops

  ghost predicate Shows(side: Side, l: PriceLevel, v: Level)
    reads l, l.orders
  {
    l.Valid() && l.side == side && l.orders != [] && v == l.View()
  }

  ghost predicate Queued(o: Order, levels: seq<PriceLevel>)
    reads levels
  {
    exists i :: 0 <= i < |levels| && o in levels[i].orders
  }

  /** The levels are valid, not empty, and in map order; `views` is what they look like, and `resting` holds
      the orders queued in them. */
  ghost predicate Sided(side: Side, levels: seq<PriceLevel>, views: seq<Level>, resting: set<Order>)
    reads levels, resting
  {
    && |views| == |levels|
    && (forall i, o | 0 <= i < |levels| && o in levels[i].orders :: o in resting)
    && (forall o | o in resting :: Queued(o, levels))
    && (forall i | 0 <= i < |levels| :: Shows(side, levels[i], views[i]))
    && forall i, j | 0 <= i < j < |levels| :: Rank(side, levels[i].price) < Rank(side, levels[j].price)
  }

  /** The other side of a book, while one side is being changed. */
  datatype Half = Half(levels: seq<PriceLevel>, views: seq<Level>, resting: set<Order>)

  ghost predicate Beside(side: Side, other: Half)
    reads other.levels, other.resting
  {
    Sided(side.Opposite(), other.levels, other.views, other.resting)
  }

  lemma OrdersFit(l: PriceLevel, o: Order)
    requires l.Valid() && o in l.orders
    ensures o.Live() && o.price == l.price && o.side == l.side && o.id in l.orderMap && l.orderMap[o.id] == o
  {
  }

  /** The order behind an entry of a level. */
  lemma EntryOrder(side: Side, l: PriceLevel, v: Level, e: Entry) returns (o: Order)
    requires Shows(side, l, v) && e in v.orders
    ensures o in l.orders && e == o.Value() && o.price == l.price && o.side == side && o.id in l.orderMap
  {
    var k :| 0 <= k < |v.orders| && v.orders[k] == e;
    o := l.orders[k];
    assert l.Fits(l.orders[k], l.queue[k]);
  }

  lemma AllLive(side: Side, levels: seq<PriceLevel>, views: seq<Level>, resting: set<Order>)
    requires Sided(side, levels, views, resting)
    ensures forall o | o in resting :: o.Live() && o.side == side
    ensures forall l | l in levels :: l.side == side
  {
  }

  /** A level of one side, and its orders, are none of the other's. */
  lemma NotBeside(side: Side, level: PriceLevel, other: Half)
    requires Beside(side, other) && level.Valid() && level.side == side
    ensures level !in other.levels && forall o | o in level.orders :: o !in other.resting
  {
  }

  lemma IdIsFree(l: PriceLevel, id: Id)
    requires l.Valid() && forall o | o in l.orders :: o.id != id
    ensures id !in l.orderMap
  {
  }

  /** Prices tell the levels, and the orders in them, apart. */
  lemma Separate(side: Side, levels: seq<PriceLevel>, views: seq<Level>, resting: set<Order>, i: nat, j: nat)
    requires Sided(side, levels, views, resting) && i < |levels| && j < |levels| && i != j
    ensures levels[i] != levels[j] && levels[i].price != levels[j].price
    ensures forall o | o in levels[i].orders :: o !in levels[j].orders
  {
  }

  lemma {:induction false} LadderByIndex(side: Side, views: seq<Level>)
    requires forall i | 0 <= i < |views| :: LevelOk(views[i])
    requires forall i, j | 0 <= i < j < |views| :: Rank(side, views[i].price) < Rank(side, views[j].price)
    ensures Ladder(side, views)
  {
    if views != [] {
      LadderByIndex(side, views[1..]);
      forall l | l in views[1..] ensures Rank(side, views[0].price) < Rank(side, l.price) {
        var k :| 0 <= k < |views[1..]| && views[1..][k] == l;
        assert views[k + 1] == l;
      }
    }
  }

  lemma SidedLadder(side: Side, levels: seq<PriceLevel>, views: seq<Level>, resting: set<Order>)
    requires Sided(side, levels, views, resting)
    ensures Ladder(side, views)
  {
    forall i | 0 <= i < |views| ensures LevelOk(views[i]) && views[i].price == levels[i].price {
      assert Shows(side, levels[i], views[i]);
      forall e | e in views[i].orders ensures e.price == views[i].price && e.remaining > 0.0 {
        var k :| 0 <= k < |views[i].orders| && views[i].orders[k] == e;
        assert levels[i].Fits(levels[i].orders[k], levels[i].queue[k]);
      }
    }
    LadderByIndex(side, views);
  }

  // ---- Adding ----

  /** The ladder with an order put at its price: last in its level, or in a new level of its own. */
  function Inserted(views: seq<Level>, k: nat, e: Entry): seq<Level>
    requires k <= |views|
  {
    if k < |views| && views[k].price == e.price then views[k := Level(e.price, views[k].orders + [e])]
    else Spliced(views, k, Level(e.price, [e]))
  }

  lemma InsertedTail(views: seq<Level>, k: nat, e: Entry)
    requires 0 < k <= |views|
    ensures Inserted(views, k, e) == [views[0]] + Inserted(views[1..], k - 1, e)
  {
  }

  lemma FlatFirst(l: Level, levels: seq<Level>)
    ensures Flat([l] + levels) == l.orders + Flat(levels)
  {
  }

  /** Creating or extending the level of an order is placing it in the price-time queue. */
  lemma {:induction false} InsertedIsPlaced(side: Side, views: seq<Level>, k: nat, e: Entry)
    requires Ladder(side, views) && k <= |views|
    requires forall i | 0 <= i < k :: Rank(side, views[i].price) < Rank(side, e.price)
    requires k < |views| ==> Rank(side, e.price) <= Rank(side, views[k].price)
    ensures Flat(Inserted(views, k, e)) == Place(side, Flat(views), e)
  {
    if k > 0 {
      hide Inserted;
      InsertedIsPlaced(side, views[1..], k - 1, e);
      InsertedTail(views, k, e);
      FlatFirst(views[0], Inserted(views[1..], k - 1, e));
      PlaceBehind(side, views[0].orders, Flat(views[1..]), e);
    } else {
      InsertedFirst(side, views, e);
    }
  }

  lemma InsertedFirst(side: Side, views: seq<Level>, e: Entry)
    requires Ladder(side, views) && (views != [] ==> Rank(side, e.price) <= Rank(side, views[0].price))
    ensures Flat(Inserted(views, 0, e)) == Place(side, Flat(views), e)
  {
    if views != [] && views[0].price == e.price {
      JoinsFirst(side, views, e);
    } else {
      FlatSorted(side, views);
      FlatFirst(Level(e.price, [e]), views);
      assert Inserted(views, 0, e) == [Level(e.price, [e])] + views;
    }
  }

  lemma JoinsFirst(side: Side, views: seq<Level>, e: Entry)
    requires views != [] && Ladder(side, views) && views[0].price == e.price
    ensures Flat(Inserted(views, 0, e)) == Place(side, Flat(views), e)
  {
    var q, rest := views[0].orders, views[1..];
    FlatSorted(side, rest);
    assert rest != [] ==> rest[0] in rest;
    assert Place(side, Flat(rest), e) == [e] + Flat(rest);
    PlaceBehind(side, q, Flat(rest), e);
    assert Inserted(views, 0, e) == [Level(e.price, q + [e])] + rest;
    FlatFirst(Level(e.price, q + [e]), rest);
    Associates(q, [e], Flat(rest));
  }

  /** The map insertion of OrderBook::add_order: the level at the order's price, created if absent. The code takes
      a level at price zero for a new one even if it was there, which `Joins` excludes. */
  method AddToSide(side: Side, levels: seq<PriceLevel>, order: Order,
                   ghost views: seq<Level>, ghost resting: set<Order>, ghost other: Half)
    returns (result: seq<PriceLevel>, ghost shown: seq<Level>)
    requires Beside(side, other)
    requires Sided(side, levels, views, resting) && order.Live() && order.side == side
    requires forall o | o in resting :: o.id != order.id
    requires Joins(Flat(views), order.price)
    modifies levels
    ensures Beside(side, other)
    ensures Sided(side, result, shown, resting + {order}) && Flat(shown) == Place(side, Flat(views), order.Value())
    ensures forall l | l in result :: l in levels || fresh(l)
  {
    hide PriceLevel.Valid, Inserted, Beside;
    var k := 0;
    while k < |levels| && Rank(side, levels[k].price) < Rank(side, order.price)
      invariant 0 <= k <= |levels|
      invariant forall i | 0 <= i < k :: Rank(side, levels[i].price) < Rank(side, order.price)
    {
      k := k + 1;
    }
    SidedLadder(side, levels, views, resting);
    forall i | 0 <= i < |levels| ensures views[i].price == levels[i].price {
      assert Shows(side, levels[i], views[i]);
    }
    InsertedIsPlaced(side, views, k, order.Value());
    shown := Inserted(views, k, order.Value());
    if k < |levels| && levels[k].price == order.price {
      result := levels;
      ExtendLevel(side, levels, k, order, views, resting, other);
    } else {
      result := CreateLevel(side, levels, k, order, views, resting, other);
    }
  }

  method ExtendLevel(side: Side, levels: seq<PriceLevel>, k: nat, order: Order,
                     ghost views: seq<Level>, ghost resting: set<Order>, ghost other: Half)
    requires Beside(side, other)
    requires Sided(side, levels, views, resting) && order.Live() && order.side == side
    requires forall o | o in resting :: o.id != order.id
    requires k < |levels| && levels[k].price == order.price
    modifies levels[k]
    ensures Beside(side, other)
    ensures Sided(side, levels, Inserted(views, k, order.Value()), resting + {order})
  {
    hide PriceLevel.Valid, Beside;
    assert Shows(side, levels[k], views[k]);
    IdIsFree(levels[k], order.id);
    forall i | 0 <= i < |levels| && i != k ensures levels[i] != levels[k] {
      Separate(side, levels, views, resting, i, k);
    }
    NotBeside(side, levels[k], other);
    levels[k].AddOrder(order);
  }

  method LevelFor(side: Side, order: Order) returns (level: PriceLevel)
    requires order.Live() && order.side == side
    ensures fresh(level) && level.price == order.price && level.orders == [order]
    ensures Shows(side, level, Level(order.price, [order.Value()]))
  {
    level := new PriceLevel(order.price, side);
    IdIsFree(level, order.id);
    level.AddOrder(order);
  }

  method CreateLevel(side: Side, levels: seq<PriceLevel>, k: nat, order: Order,
                     ghost views: seq<Level>, ghost resting: set<Order>, ghost other: Half)
    returns (result: seq<PriceLevel>)
    requires Beside(side, other)
    requires Sided(side, levels, views, resting) && order.Live() && order.side == side
    requires forall o | o in resting :: o.id != order.id
    requires k <= |levels| && (forall i | 0 <= i < k :: Rank(side, levels[i].price) < Rank(side, order.price))
    requires k < |levels| ==> Rank(side, order.price) < Rank(side, levels[k].price)
    ensures Beside(side, other)
    ensures Sided(side, result, Inserted(views, k, order.Value()), resting + {order})
    ensures forall l | l in result :: l in levels || fresh(l)
  {
    hide PriceLevel.Valid, Spliced, Beside;
    var level := LevelFor(side, order);
    result := Spliced(levels, k, level);
    assert k < |levels| ==> Shows(side, levels[k], views[k]);
    SplicedSided(side, levels, views, resting, k, level, order);
  }

  function Spliced<T>(s: seq<T>, k: nat, x: T): (r: seq<T>)
    requires k <= |s|
    ensures |r| == |s| + 1 && r[k] == x
    ensures forall i | 0 <= i < k :: r[i] == s[i]
    ensures forall i | k < i < |r| :: r[i] == s[i - 1]
  {
    s[..k] + [x] + s[k..]
  }

  lemma SplicedSided(side: Side, levels: seq<PriceLevel>, views: seq<Level>, resting: set<Order>,
                     k: nat, level: PriceLevel, order: Order)
    requires Sided(side, levels, views, resting) && k <= |levels| && level.orders == [order]
    requires Shows(side, level, level.View())
    requires forall i | 0 <= i < k :: Rank(side, levels[i].price) < Rank(side, level.price)
    requires k < |levels| ==> Rank(side, level.price) < Rank(side, levels[k].price)
    ensures Sided(side, Spliced(levels, k, level), Spliced(views, k, level.View()), resting + {order})
  {
    hide PriceLevel.Valid, Spliced;
    var result, shown := Spliced(levels, k, level), Spliced(views, k, level.View());
    SplicedRanks(side, levels, k, level);
    forall i | 0 <= i < |result| ensures Shows(side, result[i], shown[i]) {
      var j := if i < k then i else i - 1;
      if i != k {
        assert Shows(side, levels[j], views[j]);
      }
    }
    forall o | o in resting + {order} ensures Queued(o, result) {
      if o == order {
        assert o in result[k].orders;
      } else {
        assert Queued(o, levels);
        var j :| 0 <= j < |levels| && o in levels[j].orders;
        assert result[if j < k then j else j + 1] == levels[j];
      }
    }
  }

  lemma SplicedRanks(side: Side, levels: seq<PriceLevel>, k: nat, level: PriceLevel)
    requires forall i, j | 0 <= i < j < |levels| :: Rank(side, levels[i].price) < Rank(side, levels[j].price)
    requires k <= |levels| && forall i | 0 <= i < k :: Rank(side, levels[i].price) < Rank(side, level.price)
    requires k < |levels| ==> Rank(side, level.price) < Rank(side, levels[k].price)
    ensures var r := Spliced(levels, k, level);
      forall i, j | 0 <= i < j < |r| :: Rank(side, r[i].price) < Rank(side, r[j].price)
  {
  }

  // ---- Removing ----

  function Cut<T>(s: seq<T>, k: nat): (r: seq<T>)
    requires k < |s|
    ensures |r| == |s| - 1
    ensures forall i | 0 <= i < k :: r[i] == s[i]
    ensures forall i | k <= i < |r| :: r[i] == s[i + 1]
  {
    s[..k] + s[k + 1..]
  }

  /** The ladder whose level `k` now queues `q`; an empty level is erased. */
  function Requeued(views: seq<Level>, k: nat, q: seq<Entry>): seq<Level>
    requires k < |views|
  {
    if q == [] then Cut(views, k) else views[k := Level(views[k].price, q)]
  }

  lemma RequeuedTail(views: seq<Level>, k: nat, q: seq<Entry>)
    requires 0 < k < |views|
    ensures Requeued(views, k, q) == [views[0]] + Requeued(views[1..], k - 1, q)
  {
  }

  lemma {:induction false} WithoutAt(q: seq<Entry>, at: nat, id: Id)
    requires at < |q| && q[at].id == id && forall j | 0 <= j < |q| && j != at :: q[j].id != id
    ensures Without(q, id) == q[..at] + q[at + 1..]
  {
    if at > 0 {
      WithoutAt(q[1..], at - 1, id);
      assert q[..at] == [q[0]] + q[1..][..at - 1];
    } else {
      WithoutAbsent(q[1..], id);
    }
  }

  /** Taking an order out of the one level that has it takes it out of the price-time queue. */
  lemma {:induction false} RequeuedIsWithout(views: seq<Level>, k: nat, id: Id)
    requires k < |views| && forall i | 0 <= i < |views| && i != k :: !Holds(views[i].orders, id)
    ensures Flat(Requeued(views, k, Without(views[k].orders, id))) == Without(Flat(views), id)
  {
    hide Requeued;
    var q, rest := Without(views[k].orders, id), views[1..];
    WithoutConcat(views[0].orders, Flat(rest), id);
    if k > 0 {
      RequeuedIsWithout(rest, k - 1, id);
      RequeuedTail(views, k, q);
      FlatFirst(views[0], Requeued(rest, k - 1, q));
      WithoutAbsent(views[0].orders, id);
    } else {
      NoneHold(rest, id);
      WithoutAbsent(Flat(rest), id);
      RequeuedFirst(views, q);
    }
  }

  lemma RequeuedFirst(views: seq<Level>, q: seq<Entry>)
    requires views != []
    ensures Flat(Requeued(views, 0, q)) == q + Flat(views[1..])
    ensures Requeued(views, 0, q) == Trim(views, q)
  {
    if q == [] {
      assert Requeued(views, 0, q) == views[1..];
      assert q + Flat(views[1..]) == Flat(views[1..]);
    } else {
      assert Requeued(views, 0, q) == [Level(views[0].price, q)] + views[1..];
      FlatFirst(Level(views[0].price, q), views[1..]);
    }
  }

  lemma {:induction false} NoneHold(views: seq<Level>, id: Id)
    requires forall i | 0 <= i < |views| :: !Holds(views[i].orders, id)
    ensures !Holds(Flat(views), id)
  {
    if views != [] {
      NoneHold(views[1..], id);
      assert !Holds(views[0].orders, id);
    }
  }

  /** The map lookup, removal and erasure of OrderBook::remove_order on the order's side. */
  method RemoveFromSide(side: Side, levels: seq<PriceLevel>, order: Order,
                        ghost views: seq<Level>, ghost resting: set<Order>, ghost other: Half)
    returns (result: seq<PriceLevel>, ok: bool, ghost shown: seq<Level>)
    requires Beside(side, other)
    requires Sided(side, levels, views, resting)
    requires forall o | o in resting && o.id == order.id :: o == order
    modifies levels
    ensures Beside(side, other)
    ensures Sided(side, result, shown, resting - {order}) && Flat(shown) == Without(Flat(views), order.id)
    ensures ok <==> order in resting
    ensures forall l | l in result :: l in levels
  {
    hide PriceLevel.Valid, Requeued, Cut;
    var k := 0;
    while k < |levels| && levels[k].price != order.price
      invariant 0 <= k <= |levels|
      invariant forall i | 0 <= i < k :: levels[i].price != order.price
    {
      k := k + 1;
    }
    OthersLack(side, levels, views, resting, order);
    if k < |levels| {
      result, ok, shown := RemoveAt(side, levels, k, order, views, resting, other);
    } else {
      assert order !in resting by {
        if order in resting {
          assert Queued(order, levels);
          var i :| 0 <= i < |levels| && order in levels[i].orders;
          assert Shows(side, levels[i], views[i]);
          OrdersFit(levels[i], order);
        }
      }
      NoneHold(views, order.id);
      WithoutAbsent(Flat(views), order.id);
      assert resting - {order} == resting;
      return levels, false, views;
    }
  }

  lemma OthersLack(side: Side, levels: seq<PriceLevel>, views: seq<Level>, resting: set<Order>, order: Order)
    requires Sided(side, levels, views, resting)
    requires forall o | o in resting && o.id == order.id :: o == order
    ensures forall i | 0 <= i < |levels| && levels[i].price != order.price :: !Holds(views[i].orders, order.id)
  {
  }

  /** Only the level at an order's price can hold it. */
  lemma Elsewhere(side: Side, levels: seq<PriceLevel>, views: seq<Level>, resting: set<Order>, k: nat, order: Order)
    requires Sided(side, levels, views, resting) && k < |levels| && levels[k].price == order.price
    requires forall i | 0 <= i < |levels| && levels[i].price != order.price :: !Holds(views[i].orders, order.id)
    ensures forall i | 0 <= i < |levels| && i != k ::
      levels[i] != levels[k] && !Holds(views[i].orders, order.id) && order !in levels[i].orders
  {
  }

  method RemoveAt(side: Side, levels: seq<PriceLevel>, k: nat, order: Order,
                  ghost views: seq<Level>, ghost resting: set<Order>, ghost other: Half)
    returns (result: seq<PriceLevel>, ok: bool, ghost shown: seq<Level>)
    requires Beside(side, other)
    requires Sided(side, levels, views, resting) && k < |levels| && levels[k].price == order.price
    requires forall o | o in resting && o.id == order.id :: o == order
    requires forall i | 0 <= i < |levels| && levels[i].price != order.price :: !Holds(views[i].orders, order.id)
    modifies levels[k]
    ensures Beside(side, other)
    ensures Sided(side, result, shown, resting - {order}) && Flat(shown) == Without(Flat(views), order.id)
    ensures ok <==> order in resting
    ensures forall l | l in result :: l in levels
  {
    hide PriceLevel.Valid, Requeued, Cut, Without, Holds, Flat, Place, Order.Live, Order.Done, Order.Value;
    assert Shows(side, levels[k], views[k]);
    Elsewhere(side, levels, views, resting, k, order);
    RequeuedIsWithout(views, k, order.id);
    InLevel(side, levels, views, resting, k, order);
    NotBeside(side, levels[k], other);
    ShownNotEmpty(side, levels[k], views[k]);
    ok := TakeOut(levels[k], order);
    shown := Requeued(views, k, levels[k].queue);
    if !ok {
      RequeuedSame(views, k);
      assert resting - {order} == resting;
      result := levels;
    } else {
      result := EraseIfEmpty(side, levels, k, views, resting, order);
    }
  }

  /** Takes an order out of a level by its id. */
  method TakeOut(level: PriceLevel, order: Order) returns (ok: bool)
    requires level.Valid() && forall o | o in level.orders && o.id == order.id :: o == order
    modifies level
    ensures level.Valid() && level.queue == Without(old(level.queue), order.id)
    ensures ok <==> order in old(level.orders)
    ensures !ok ==> level.orders == old(level.orders) && level.queue == old(level.queue)
    ensures forall o :: o in level.orders <==> o in old(level.orders) && (!ok || o != order)
  {
    hide PriceLevel.Valid, Without, Holds;
    OneNode(level, order.id);
    Indexes(level, order);
    if order.id !in level.orderMap {
      LacksId(level, order.id);
    }
    ghost var q, os := level.queue, level.orders;
    ghost var at;
    ok, at := level.RemoveOrder(order.id);
    if ok {
      WithoutAt(q, at, order.id);
      AllBut(os, at);
      assert os[at] == order;
    } else {
      WithoutAbsent(q, order.id);
    }
  }

  lemma ShownNotEmpty(side: Side, l: PriceLevel, v: Level)
    requires Shows(side, l, v)
    ensures v.orders != []
  {
  }

  lemma Indexes(l: PriceLevel, order: Order)
    requires l.Valid() && forall o | o in l.orders && o.id == order.id :: o == order
    ensures order.id in l.orderMap <==> order in l.orders
  {
  }

  lemma AllBut(os: seq<Order>, at: nat)
    requires at < |os| && forall i, j | 0 <= i < j < |os| :: os[i] != os[j]
    ensures forall o :: o in os[..at] + os[at + 1..] <==> o in os && o != os[at]
  {
  }

  lemma RequeuedSame(views: seq<Level>, k: nat)
    requires k < |views| && views[k].orders != []
    ensures Requeued(views, k, views[k].orders) == views
  {
  }

  /** Within a level an id has one place. */
  lemma OneNode(l: PriceLevel, id: Id)
    requires l.Valid()
    ensures |l.queue| == |l.orders|
    ensures forall i, j | 0 <= i < |l.queue| && 0 <= j < |l.queue| ::
        l.queue[i].id == id && l.queue[j].id == id ==> i == j
    ensures forall i, j | 0 <= i < j < |l.orders| :: l.orders[i] != l.orders[j]
    ensures forall i | 0 <= i < |l.orders| :: l.queue[i].id == l.orders[i].id
    ensures id in l.orderMap ==> forall o | o in l.orders && o.id == id :: o == l.orderMap[id]
  {
  }

  lemma LacksId(l: PriceLevel, id: Id)
    requires l.Valid() && id !in l.orderMap
    ensures !Holds(l.queue, id)
  {
  }

  /** `order` has left level `k`, whose view is no longer right, and nothing else has changed. */
  ghost predicate Leaving(side: Side, levels: seq<PriceLevel>, k: nat, views: seq<Level>, resting: set<Order>,
          order: Order)
    requires |views| == |levels| && k < |levels|
    reads levels, resting
  {
    && order in resting
    && (forall i, o | 0 <= i < |levels| && o in levels[i].orders :: o in resting && o != order)
    && (forall i, j | 0 <= i < j < |levels| :: Rank(side, levels[i].price) < Rank(side, levels[j].price))
    && (forall i | 0 <= i < |levels| && i != k :: Shows(side, levels[i], views[i]))
    && levels[k].Valid() && levels[k].side == side && views[k].price == levels[k].price
    && (forall o | o in resting && o != order :: Queued(o, levels))
  }

  lemma Emptied(side: Side, levels: seq<PriceLevel>, k: nat, views: seq<Level>, resting: set<Order>, order: Order)
    requires |views| == |levels| && k < |levels| && Leaving(side, levels, k, views, resting, order)
    requires levels[k].orders == []
    ensures Sided(side, Cut(levels, k), Cut(views, k), resting - {order})
  {
    hide PriceLevel.Valid, Cut;
    var result := Cut(levels, k);
    forall o | o in resting - {order} ensures Queued(o, result) {
      assert Queued(o, levels);
      var i :| 0 <= i < |levels| && o in levels[i].orders;
      assert i != k;
      assert result[if i < k then i else i - 1] == levels[i];
    }
  }

  lemma Thinned(side: Side, levels: seq<PriceLevel>, k: nat, views: seq<Level>, resting: set<Order>, order: Order)
    requires |views| == |levels| && k < |levels| && Leaving(side, levels, k, views, resting, order)
    requires levels[k].orders != []
    ensures Sided(side, levels, views[k := levels[k].View()], resting - {order})
  {
  }

  /** Erases level `k` if it has become empty, after `order` has left it. */
  method EraseIfEmpty(side: Side, levels: seq<PriceLevel>, k: nat,
                      ghost views: seq<Level>, ghost resting: set<Order>, ghost order: Order)
    returns (result: seq<PriceLevel>)
    requires |views| == |levels| && k < |levels| && Leaving(side, levels, k, views, resting, order)
    ensures Sided(side, result, Requeued(views, k, levels[k].queue), resting - {order})
    ensures forall l | l in result :: l in levels
  {
    OneNode(levels[k], order.id);
    if |levels[k].orders| == 0 {
      Emptied(side, levels, k, views, resting, order);
      hide Sided, Leaving;
      result := Cut(levels, k);
    } else {
      Thinned(side, levels, k, views, resting, order);
      hide Sided, Leaving;
      result := levels;
    }
  }

  lemma OneLevel(side: Side, levels: seq<PriceLevel>, i: nat, k: nat)
    requires forall i, j | 0 <= i < j < |levels| :: Rank(side, levels[i].price) < Rank(side, levels[j].price)
    requires i < |levels| && k < |levels| && levels[i].price == levels[k].price
    ensures i == k
  {
  }

  /** An order rests exactly if the level at its price indexes it. */
  lemma InLevel(side: Side, levels: seq<PriceLevel>, views: seq<Level>, resting: set<Order>, k: nat, order: Order)
    requires Sided(side, levels, views, resting) && k < |levels| && levels[k].price == order.price
    requires forall o | o in resting && o.id == order.id :: o == order
    ensures order in resting <==> order.id in levels[k].orderMap
    ensures order in resting <==> order in levels[k].orders
  {
    assert Shows(side, levels[k], views[k]);
    if order in resting {
      assert Queued(order, levels);
      var i :| 0 <= i < |levels| && order in levels[i].orders;
      assert Shows(side, levels[i], views[i]);
      OrdersFit(levels[i], order);
      OneLevel(side, levels, i, k);
    }
  }

  // ---- The best level ----

  ghost function OrderSet(os: seq<Order>): set<Order> {
    set o | o in os
  }

  /** The best level apart from the rest of its side. */
  lemma SplitFront(side: Side, levels: seq<PriceLevel>, views: seq<Level>, resting: set<Order>)
    requires Sided(side, levels, views, resting) && levels != []
    ensures |views| == |levels| && levels[0].Valid() && levels[0].side == side && levels[0].View() == views[0]
    ensures Sided(side, levels[1..], views[1..], resting - OrderSet(levels[0].orders))
    ensures forall o | o in levels[0].orders :: o in resting && o.Live()
    ensures levels[0] !in levels[1..]
    ensures forall l | l in levels[1..] :: Rank(side, levels[0].price) < Rank(side, l.price)
  {
    hide PriceLevel.Valid;
    assert Shows(side, levels[0], views[0]);
    forall o | o in levels[0].orders ensures o.Live() {
      OrdersFit(levels[0], o);
    }
    forall i | 0 <= i < |levels[1..]|
      ensures Shows(side, levels[1..][i], views[1..][i]) &&
          forall o | o in levels[1..][i].orders :: o !in levels[0].orders
    {
      Separate(side, levels, views, resting, i + 1, 0);
      assert Shows(side, levels[i + 1], views[i + 1]);
    }
    forall o | o in resting - OrderSet(levels[0].orders) ensures Queued(o, levels[1..]) {
      assert Queued(o, levels);
      var i :| 0 <= i < |levels| && o in levels[i].orders;
      assert levels[1..][i - 1] == levels[i];
    }
  }

  /** A valid level, unless it has become empty, put back in front of its side. */
  method PutBack(side: Side, level: PriceLevel, tail: seq<PriceLevel>, ghost views: seq<Level>,
          ghost resting: set<Order>)
    returns (levels: seq<PriceLevel>)
    requires level.Valid() && level.side == side && Sided(side, tail, views, resting)
    requires forall l | l in tail :: Rank(side, level.price) < Rank(side, l.price)
    ensures var v: seq<Level> := if level.queue == [] then views else [level.View()] + views;
      Sided(side, levels, v, resting + OrderSet(level.orders))
    ensures levels == if level.orders == [] then tail else [level] + tail
    ensures level.orders == [] <==> level.queue == []
  {
    hide PriceLevel.Valid;
    OneNode(level, Id(""));
    if |level.orders| == 0 {
      assert resting + OrderSet(level.orders) == resting;
      levels := tail;
    } else {
      levels := [level] + tail;
      ghost var v := [level.View()] + views;
      forall i | 0 <= i < |levels| ensures Shows(side, levels[i], v[i]) {
        assert i > 0 ==> Shows(side, tail[i - 1], views[i - 1]);
      }
      forall o | o in resting + OrderSet(level.orders) ensures Queued(o, levels) {
        if o in level.orders {
          assert o in levels[0].orders;
        } else {
          assert Queued(o, tail);
          var i :| 0 <= i < |tail| && o in tail[i].orders;
          assert levels[i + 1] == tail[i];
        }
      }
      forall i, j | 0 <= i < j < |levels| ensures Rank(side, levels[i].price) < Rank(side, levels[j].price) {
        assert levels[j] == tail[j - 1] && (i > 0 ==> levels[i] == tail[i - 1]);
      }
    }
  }

  // ---- Sweeping a side ----

  lemma EatLevel(whole: Outcome, side: Side, fills: seq<Fill>, q: seq<Entry>, behind: seq<Entry>, want: real,
                 more: seq<Fill>, rest: seq<Entry>, left: real)
    requires Eaten(whole, side, fills, q + behind, want) && Positive(q) && want > 0.0
    requires Consume(side, None, q, want) == Outcome(more, rest, left)
    ensures Eaten(whole, side, fills + more, rest + behind, left)
    ensures rest != [] ==> left <= 0.0
  {
    ConsumeTotals(side, None, q, want);
    ConsumeConcat(side, None, q, behind, want);
    if rest == [] {
      assert rest + behind == behind;
      Associates(fills, more, Consume(side, None, behind, left).fills);
    } else {
      assert Consume(side, None, rest + behind, left) == Outcome([], rest + behind, left);
      assert (fills + more) + [] == fills + more;
    }
  }

  lemma QueuePositive(side: Side, levels: seq<PriceLevel>, views: seq<Level>, resting: set<Order>)
    requires Sided(side, levels, views, resting) && levels != []
    ensures Positive(levels[0].queue) && Flat(views) == levels[0].queue + Flat(views[1..])
  {
  }

  /** The orders that have gone from a side are finished. */
  ghost predicate Gone(first: set<Order>, now: set<Order>)
    reads first
  {
    now <= first && forall o | o in first - now :: o.Done()
  }

  /** The outer loop of a market order, on the side it eats. */
  method SweepSide(side: Side, levels: seq<PriceLevel>, want: real, actor: Id, instrument: Id,
                   ghost views: seq<Level>, ghost resting: set<Order>, ghost other: Half)
    returns (rest: seq<PriceLevel>, trades: seq<Trade>, ghost shown: seq<Level>, ghost still: set<Order>)
    requires Sided(side.Opposite(), levels, views, resting) && Beside(side.Opposite(), other)
    modifies levels, resting
    ensures Beside(side.Opposite(), other)
    ensures Sided(side.Opposite(), rest, shown, still) && Gone(resting, still)
    ensures var o := Consume(side.Opposite(), None, Flat(views), want);
      Flat(shown) == o.rest && trades == MarketTrades(side, actor, o.fills, instrument, 0)
    ensures forall l | l in rest :: l in levels
  {
    hide PriceLevel.Valid, MarketTrades, Eaten, Consume, Flat, Sided, Shows, Beside;
    var opp := side.Opposite();
    ghost var whole := Consume(opp, None, Flat(views), want);
    var remaining := want;
    ghost var fills := [];
    rest, trades, shown, still := levels, [], views, resting;
    EatStart(opp, Flat(views), want, side, actor, instrument);
    while remaining > 0.0 && rest != []
      invariant Sided(opp, rest, shown, still) && Gone(resting, still) && Beside(opp, other)
      invariant Eaten(whole, opp, fills, Flat(shown), remaining)
      invariant trades == MarketTrades(side, actor, fills, instrument, 0)
      invariant forall l | l in rest :: l in levels
      decreases |rest| + (if remaining > 0.0 then 1 else 0)
    {
      SplitFront(opp, rest, shown, still);
      QueuePositive(opp, rest, shown, still);
      var level := rest[0];
      ghost var q, os, tail, others := level.queue, level.orders, shown[1..], still - OrderSet(level.orders);
      ghost var before, more := remaining, [];
      assert level in rest && forall o | o in level.orders :: o in resting;
      NotBeside(opp, level, other);
      remaining, trades, more := SweepLevel(level, side, actor, instrument, remaining, trades, fills);
      EatLevel(whole, opp, fills, q, Flat(tail), before, more, level.queue, remaining);
      fills := fills + more;
      rest := PutBack(opp, level, rest[1..], tail, others);
      shown := if level.queue == [] then tail else [level.View()] + tail;
      still := others + OrderSet(level.orders);
      FlatFront(level, tail);
    }
    SameLength(opp, rest, shown, still);
    EatEnd(whole, opp, fills, Flat(shown), remaining, shown);
  }

  lemma SameLength(side: Side, levels: seq<PriceLevel>, views: seq<Level>, resting: set<Order>)
    requires Sided(side, levels, views, resting)
    ensures |views| == |levels|
  {
  }

  lemma FlatFront(level: PriceLevel, tail: seq<Level>)
    ensures Flat(if level.queue == [] then tail else [level.View()] + tail) == level.queue + Flat(tail)
  {
  }

  lemma EatStart(opp: Side, q: seq<Entry>, want: real, side: Side, actor: Id, instrument: Id)
    ensures Eaten(Consume(opp, None, q, want), opp, [], q, want)
    ensures MarketTrades(side, actor, [], instrument, 0) == []
  {
  }

  lemma EatEnd(whole: Outcome, opp: Side, fills: seq<Fill>, q: seq<Entry>, left: real, shown: seq<Level>)
    requires Eaten(whole, opp, fills, q, left) && (left <= 0.0 || shown == []) && q == Flat(shown)
    ensures whole == Outcome(fills, q, left)
  {
  }

  // ---- Matching the two best levels ----

  lemma GoneFromFront(resting: set<Order>, first: seq<Order>, now: seq<Order>)
    requires Shrunk(first, now) && forall o | o in first :: o in resting
    ensures Gone(resting, resting - OrderSet(first) + OrderSet(now))
  {
  }

  /** One pass of the outer matching loop: the best levels against each other, then erased if empty. */
  method MatchFronts(bidLevels: seq<PriceLevel>, askLevels: seq<PriceLevel>, instrument: Id, trades0: seq<Trade>,
                     ghost bids: seq<Level>, ghost asks: seq<Level>,
                     ghost bidding: set<Order>, ghost asking: set<Order>)
    returns (bidRest: seq<PriceLevel>, askRest: seq<PriceLevel>, trades: seq<Trade>,
             ghost stillBidding: set<Order>, ghost stillAsking: set<Order>)
    requires Sided(Buy, bidLevels, bids, bidding) && Sided(Sell, askLevels, asks, asking)
    requires bidLevels != [] && askLevels != []
    modifies bidLevels[0], askLevels[0], bidding, asking
    ensures var m := MatchQueues(bids[0].orders, asks[0].orders, instrument, asks[0].price);
      && Sided(Buy, bidRest, Trim(bids, m.bids), stillBidding)
      && Sided(Sell, askRest, Trim(asks, m.asks), stillAsking)
      && trades == trades0 + m.trades
    ensures Gone(bidding, stillBidding) && Gone(asking, stillAsking)
    ensures (forall l | l in bidRest :: l in bidLevels) && forall l | l in askRest :: l in askLevels
  {
    hide PriceLevel.Valid, MatchQueues, Sided, Shrunk, Gone;
    SplitFront(Buy, bidLevels, bids, bidding);
    SplitFront(Sell, askLevels, asks, asking);
    var bid, ask := bidLevels[0], askLevels[0];
    ghost var bidOrders, askOrders := bid.orders, ask.orders;
    ghost var bidders, askers := bidding - OrderSet(bid.orders), asking - OrderSet(ask.orders);
    SidesApart(bidLevels, bids, bidding, askLevels, asks, asking);
    assert bid in bidLevels && ask in askLevels;
    assert forall l | l in bidLevels[1..] :: l in bidLevels && l != bid && l != ask;
    assert forall l | l in askLevels[1..] :: l in askLevels && l != bid && l != ask;
    assert OrderSet(bid.orders) + OrderSet(ask.orders) !! bidders + askers;
    trades := MatchLevels(bid, ask, instrument, trades0);
    GoneFromFront(bidding, bidOrders, bid.orders);
    GoneFromFront(asking, askOrders, ask.orders);
    bidRest := PutBack(Buy, bid, bidLevels[1..], bids[1..], bidders);
    askRest := PutBack(Sell, ask, askLevels[1..], asks[1..], askers);
    stillBidding, stillAsking := bidders + OrderSet(bid.orders), askers + OrderSet(ask.orders);
  }

  /** The two sides share neither orders nor levels. */
  lemma SidesApart(bidLevels: seq<PriceLevel>, bids: seq<Level>, bidding: set<Order>,
                   askLevels: seq<PriceLevel>, asks: seq<Level>, asking: set<Order>)
    requires Sided(Buy, bidLevels, bids, bidding) && Sided(Sell, askLevels, asks, asking)
    ensures bidding !! asking
    ensures (forall l | l in bidLevels :: l !in askLevels) && forall l | l in askLevels :: l !in bidLevels
  {
  }
}
