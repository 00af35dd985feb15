/** A price level: a list of orders, its id index and its total volume (engine/src/order_book.cpp:76-100). */
module PriceLevels {
  import opened Orders
  import opened PriceTime
  import opened Matching

  /** A queue after a fill of its i-th entry. */
  function Filling(q: seq<Entry>, i: nat, fill: real): seq<Entry>
    requires i < |q|
  {
    q[..i] + Left(q[i], fill) + q[i + 1..]
  }

  lemma FillingCases(q: seq<Entry>, i: nat, fill: real)
    requires i < |q|
    ensures Filling(q, i, fill) ==
      if q[i].remaining <= fill then q[..i] + q[i + 1..] else q[i := q[i].(remaining := q[i].remaining - fill)]
  {
  }

  lemma FillingVolume(q: seq<Entry>, i: nat, fill: real)
    requires i < |q| && fill <= q[i].remaining
    ensures Volume(Filling(q, i, fill)) == Volume(q) - fill
  {
    var l := Left(q[i], fill);
    assert q == q[..i] + ([q[i]] + q[i + 1..]);
    VolumeConcat(q[..i], [q[i]] + q[i + 1..]);
    assert ([q[i]] + q[i + 1..])[1..] == q[i + 1..];
    VolumeConcat(q[..i] + l, q[i + 1..]);
    VolumeConcat(q[..i], l);
    VolumeLeft(q[i], fill);
  }

  lemma VolumeWith(q: seq<Entry>, e: Entry)
    ensures Volume(q + [e]) == Volume(q) + e.remaining
  {
    VolumeConcat(q, [e]);
    assert Volume([e][1..]) == 0.0;
  }

  /** Of the orders in a list at first, those still there now and those finished; no others have come. */
  ghost predicate Shrunk(first: seq<Order>, now: seq<Order>)
    reads first
  {
    (forall o | o in now :: o in first) && forall o | o in first :: o in now || o.Done()
  }

  class PriceLevel {
    const price: real
    ghost const side: Side
    var orders: seq<Order>
    /** The order's node in the list, by id. */
    var orderMap: map<Id, Order>
    var totalVolume: real
    /** The queue that the list of orders stands for. */
    ghost var queue: seq<Entry>

    /** List and index hold the same orders, under distinct ids. */
    ghost predicate Indexed()
      reads this
    {
      && (forall i | 0 <= i < |orders| :: orders[i].id in orderMap && orderMap[orders[i].id] == orders[i])
      && (forall i, j | 0 <= i < j < |orders| :: orders[i] != orders[j])
      && (forall id | id in orderMap :: orderMap[id].id == id && orderMap[id] in orders)
    }

    /** The order is live, on this side and at this price, and the entry is its value. */
    ghost predicate Fits(o: Order, e: Entry)
      reads o
    {
      o.Live() && o.price == price && o.side == side && e == o.Value()
    }

    /** The list, its index, its queue and its volume agree. */
    ghost predicate Valid()
      reads this, orders
    {
      && Indexed()
      && |queue| == |orders| && (forall i | 0 <= i < |orders| :: Fits(orders[i], queue[i]))
      && totalVolume == Volume(queue)
    }

    ghost function View(): Level
      reads this
    {
      Level(price, queue)
    }

    constructor (price: real, ghost side: Side)
      ensures Valid() && orders == [] && this.price == price && this.side == side && queue == []
    {
      this.price, this.side := price, side;
      orders, orderMap, totalVolume, queue := [], map[], 0.0, [];
    }

    method AddOrder(order: Order)
      requires Valid() && order.Live() && order.price == price && order.side == side
      requires order.id !in orderMap
      modifies this
      ensures Valid() && orders == old(orders) + [order] && queue == old(queue) + [order.Value()]
    {
      hide Volume;
      ghost var was, q := orders, queue;
      VolumeWith(queue, order.Value());
      Append(order);
      totalVolume := totalVolume + order.remaining;
      queue := queue + [order.Value()];
      forall i | 0 <= i < |orders| ensures Fits(orders[i], queue[i]) {
        assert i < |was| ==> Fits(was[i], q[i]);
      }
    }

    /** Puts the order at the end of the list, with its node in the index. */
    method Append(order: Order)
      requires Indexed() && order.id !in orderMap
      modifies this`orders, this`orderMap
      ensures Indexed() && orders == old(orders) + [order] && orderMap == old(orderMap)[order.id := order]
    {
      hide Fits;
      assert order !in orders;
      ghost var was := orders;
      orders := orders + [order];
      orderMap := orderMap[order.id := order];
      assert orders[|was|] == order && forall o | o in was :: o in orders;
    }

    /** Erases the order at position `i` from the list and the index. */
    method Erase(i: nat)
      requires Indexed() && i < |orders| == |queue|
      requires forall j | 0 <= j < |orders| && j != i :: Fits(orders[j], queue[j])
      modifies this`orders, this`orderMap, this`queue
      ensures Indexed() && |queue| == |orders| && forall j | 0 <= j < |orders| :: Fits(orders[j], queue[j])
      ensures orders == old(orders)[..i] + old(orders)[i + 1..]
      ensures queue == old(queue)[..i] + old(queue)[i + 1..]
      ensures orderMap == old(orderMap) - {old(orders)[i].id}
    {
      hide Fits;
      ghost var was, q := orders, queue;
      var gone := orders[i];
      orders := orders[..i] + orders[i + 1..];
      orderMap := orderMap - {gone.id};
      queue := queue[..i] + queue[i + 1..];
      forall j | 0 <= j < |orders|
        ensures orders[j] == was[if j < i then j else j + 1] && queue[j] == q[if j < i then j else j + 1]
      {
      }
      forall id | id in orderMap ensures orderMap[id] in orders {
        var k :| 0 <= k < |was| && was[k] == orderMap[id];
        assert orders[if k < i then k else k - 1] == was[k];
      }
    }

    /** Takes the order at `i` out of the level, with the `amount` that the volume still counts for it. */
    method Drop(i: nat, amount: real)
      requires Indexed() && i < |orders| == |queue| && totalVolume == Volume(queue) && amount == queue[i].remaining
      requires forall j | 0 <= j < |orders| && j != i :: Fits(orders[j], queue[j])
      modifies this
      ensures Valid() && queue == old(queue)[..i] + old(queue)[i + 1..]
      ensures orders == old(orders)[..i] + old(orders)[i + 1..]
    {
      FillingVolume(queue, i, amount);
      FillingCases(queue, i, amount);
      totalVolume := totalVolume - amount;
      Erase(i);
    }

    /** Removes the order with this id, which stood at `at`; `ok` is false, and nothing changes, if the level
        has none. */
    method RemoveOrder(id: Id) returns (ok: bool, ghost at: nat)
      requires Valid()
      modifies this
      ensures Valid()
      ensures ok <==> id in old(orderMap)
      ensures !ok ==> orders == old(orders) && queue == old(queue)
      ensures ok ==> at < |old(orders)| && old(orders)[at].id == id
                     && orders == old(orders)[..at] + old(orders)[at + 1..]
                     && queue == old(queue)[..at] + old(queue)[at + 1..]
    {
      if id !in orderMap {
        return false, 0;
      }
      var node := orderMap[id];
      var i :| 0 <= i < |orders| && orders[i] == node;
      Drop(i, node.remaining);
      return true, i;
    }

    /** The volume and the queue after a fill that leaves something of the order at `i`. */
    method Reduce(i: nat, fill: real)
      requires Indexed() && i < |orders| == |queue| && totalVolume == Volume(queue) && fill < queue[i].remaining
      requires forall j | 0 <= j < |orders| && j != i :: Fits(orders[j], queue[j])
      requires Fits(orders[i], queue[i].(remaining := queue[i].remaining - fill))
      modifies this`totalVolume, this`queue
      ensures Valid() && queue == Filling(old(queue), i, fill)
    {
      hide Volume, Order.Live, Order.Done;
      FillingVolume(queue, i, fill);
      FillingCases(queue, i, fill);
      totalVolume := totalVolume - fill;
      queue := queue[i := orders[i].Value()];
    }

    /** A fill of the order at `i`, which leaves the level once it is filled; `next` is where the list
        iterator stands afterwards. This mutator is a repair: the code's loops erase filled orders through
        a const list, and leave the level's index and volume as they were. */
    method Fill(i: nat, fill: real) returns (next: nat)
      requires Valid() && i < |orders| && 0.0 < fill <= orders[i].remaining
      modifies this, orders[i]
      ensures Valid()
      ensures queue == Filling(old(queue), i, fill)
      ensures if fill == old(orders[i].remaining)
              then next == i && orders == old(orders)[..i] + old(orders)[i + 1..] && old(orders)[i].Done()
              else next == i + 1 && orders == old(orders)
      ensures Shrunk(old(orders), orders)
    {
      FillingCases(queue, i, fill);
      var order := orders[i];
      var ok := order.Execute(fill);
      if order.status == Filled {
        Drop(i, fill);
        next := i;
      } else {
        Reduce(i, fill);
        next := i + 1;
      }
    }
  }
}
