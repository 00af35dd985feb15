/** Price levels and the two-iterator matching loop (engine/src/order_book.cpp). */
module Matching {
  import opened Arithmetic
  import opened Orders
  import opened PriceTime

  // ---- Levels ----

  datatype Level = Level(price: real, orders: seq<Entry>)

  ghost predicate LevelOk(l: Level) {
    l.orders != [] && forall e | e in l.orders :: e.price == l.price && e.remaining > 0.0
  }

  /** The non-empty levels of one side in map order. */
  ghost predicate Ladder(side: Side, levels: seq<Level>) {
    levels != [] ==>
      && LevelOk(levels[0])
      && (forall l | l in levels[1..] :: Rank(side, levels[0].price) < Rank(side, l.price))
      && Ladder(side, levels[1..])
  }

  /** The price-time queue that a ladder stands for. */
  function Flat(levels: seq<Level>): seq<Entry> {
    if levels == [] then [] else levels[0].orders + Flat(levels[1..])
  }

  function Regroup(q: seq<Entry>): seq<Level> {
    if q == [] then []
    else
      var rest := Regroup(q[1..]);
      if rest != [] && rest[0].price == q[0].price then [Level(q[0].price, [q[0]] + rest[0].orders)] + rest[1..]
      else [Level(q[0].price, [q[0]])] + rest
  }

  lemma {:induction false} FlatSorted(side: Side, levels: seq<Level>)
    requires Ladder(side, levels)
    ensures Sorted(side, Flat(levels)) && Positive(Flat(levels))
    ensures forall e | e in Flat(levels) :: exists l :: l in levels && l.price == e.price
    ensures (levels == []) == (Flat(levels) == [])
    ensures levels != [] ==> Flat(levels)[0].price == levels[0].price
  {
    if levels != [] {
      FlatSorted(side, levels[1..]);
      SortedConcat(side, levels[0].price, levels[0].orders, Flat(levels[1..]));
    }
  }

  lemma {:induction false} SortedConcat(side: Side, price: real, a: seq<Entry>, b: seq<Entry>)
    requires Sorted(side, b)
    requires forall e | e in a :: e.price == price
    requires forall e | e in b :: Rank(side, price) <= Rank(side, e.price)
    ensures Sorted(side, a + b)
  {
    if a == [] {
      assert a + b == b;
    } else {
      assert (a + b)[1..] == a[1..] + b;
      SortedConcat(side, price, a[1..], b);
    }
  }

  /** A ladder and its queue say the same thing: grouping the queue by price gives the ladder back... */
  lemma {:induction false} RegroupFlat(side: Side, levels: seq<Level>)
    requires Ladder(side, levels)
    ensures Regroup(Flat(levels)) == levels
  {
    if levels != [] {
      RegroupFlat(side, levels[1..]);
      FlatSorted(side, levels[1..]);
      if levels[1..] != [] {
        assert levels[1] in levels[1..];
      }
      RegroupPrefix(levels[0].orders, levels[0].price, Flat(levels[1..]));
      assert levels == [levels[0]] + levels[1..];
    }
  }

  lemma {:induction false} RegroupPrefix(a: seq<Entry>, price: real, b: seq<Entry>)
    requires a != [] && forall e | e in a :: e.price == price
    requires Regroup(b) != [] ==> Regroup(b)[0].price != price
    ensures Regroup(a + b) == [Level(price, a)] + Regroup(b)
  {
    assert (a + b)[1..] == a[1..] + b;
    assert a == [a[0]] + a[1..];
    assert a[0] in a;
    if a[1..] == [] {
      assert a[1..] + b == b && a == [a[0]];
    } else {
      RegroupPrefix(a[1..], price, b);
      assert ([Level(price, a[1..])] + Regroup(b))[1..] == Regroup(b);
    }
  }

  /** ... and the queue of the grouped levels is the queue, the levels being a ladder if it is sorted. */
  lemma {:induction false} FlatRegroup(q: seq<Entry>)
    ensures Flat(Regroup(q)) == q
    ensures q != [] ==> Regroup(q) != [] && Regroup(q)[0].price == q[0].price
  {
    if q != [] {
      FlatRegroup(q[1..]);
      var rest := Regroup(q[1..]);
      assert q == [q[0]] + q[1..];
      if rest != [] && rest[0].price == q[0].price {
        assert Regroup(q)[1..] == rest[1..];
        assert ([q[0]] + rest[0].orders) + Flat(rest[1..]) == [q[0]] + (rest[0].orders + Flat(rest[1..]));
      } else {
        assert Regroup(q)[1..] == rest;
      }
    }
  }

  lemma {:induction false} RegroupLadder(side: Side, q: seq<Entry>)
    requires Sorted(side, q) && Positive(q)
    ensures Ladder(side, Regroup(q))
  {
    if q != [] {
      RegroupLadder(side, q[1..]);
      FlatRegroup(q[1..]);
      var rest := Regroup(q[1..]);
      assert q[0] in q;
      if rest != [] && rest[0].price == q[0].price {
        assert Regroup(q)[1..] == rest[1..];
      } else {
        assert Regroup(q)[1..] == rest;
        if rest != [] {
          assert q[1] in q[1..];
          forall l | l in rest ensures Rank(side, q[0].price) < Rank(side, l.price) {
            assert l == rest[0] || l in rest[1..];
          }
        }
      }
    }
  }

  // ---- Adding to a level, as the code does it ----

  /** The level at the order's price is looked up, or created with price zero; price zero then says that it is new,
      and it is replaced by an empty one before the order joins it. */
  function CodedAdd(side: Side, levels: seq<Level>, e: Entry): seq<Level> {
    if levels == [] || Rank(side, e.price) < Rank(side, levels[0].price) then [Level(e.price, [e])] + levels
    else if levels[0].price == e.price then
      [Level(e.price, (if e.price == 0.0 then [] else levels[0].orders) + [e])] + levels[1..]
    else [levels[0]] + CodedAdd(side, levels[1..], e)
  }

  /** This is placing the order in the queue exactly when its price is not zero or no level stands there; otherwise
      the orders that rest at price zero are lost from the book. */
  lemma {:induction false} CodedAddIsPlaceIff(side: Side, levels: seq<Level>, e: Entry)
    requires Ladder(side, levels)
    ensures Flat(CodedAdd(side, levels, e)) == Place(side, Flat(levels), e) <==> Joins(Flat(levels), e.price)
  {
    FlatSorted(side, levels);
    if levels == [] || Rank(side, e.price) < Rank(side, levels[0].price) {
      NoneAhead(side, Flat(levels), e.price);
      assert ([Level(e.price, [e])] + levels)[1..] == levels;
    } else {
      var q, rest := levels[0].orders, levels[1..];
      FlatSorted(side, rest);
      PlaceBehind(side, q, Flat(rest), e);
      if levels[0].price == e.price {
        JoiningFirst(side, levels, e);
      } else {
        CodedAddIsPlaceIff(side, rest, e);
        assert ([levels[0]] + CodedAdd(side, rest, e))[1..] == CodedAdd(side, rest, e);
        SameBehind(q, Flat(CodedAdd(side, rest, e)), Place(side, Flat(rest), e));
        assert forall x | x in q :: x.price != e.price;
      }
    }
  }

  lemma SameBehind<T>(q: seq<T>, a: seq<T>, b: seq<T>)
    ensures q + a == q + b <==> a == b
  {
    assert (q + a)[|q|..] == a && (q + b)[|q|..] == b;
  }

  lemma NoneAhead(side: Side, q: seq<Entry>, price: real)
    requires Sorted(side, q) && (q != [] ==> Rank(side, price) < Rank(side, q[0].price))
    ensures forall e | e in q :: e.price != price
  {
  }

  lemma JoiningFirst(side: Side, levels: seq<Level>, e: Entry)
    requires Ladder(side, levels) && levels != [] && levels[0].price == e.price
    ensures Flat(CodedAdd(side, levels, e)) == Place(side, Flat(levels), e) <==> e.price != 0.0
    ensures exists x :: x in Flat(levels) && x.price == e.price
  {
    hide Sorted;
    var q, f := levels[0].orders, Flat(levels[1..]);
    var kept: seq<Entry> := if e.price == 0.0 then [] else q;
    PlacedBehindLevel(side, levels, e);
    assert ([Level(e.price, kept + [e])] + levels[1..])[1..] == levels[1..];
    assert Flat(CodedAdd(side, levels, e)) == (kept + [e]) + f;
    assert q[0] in q && q[0] in Flat(levels);
    KeptIffSame(kept, q, e, f);
  }

  lemma KeptIffSame(kept: seq<Entry>, q: seq<Entry>, e: Entry, f: seq<Entry>)
    requires q != [] && (kept == q || kept == [])
    ensures (kept + [e]) + f == q + ([e] + f) <==> kept == q
  {
    assert q + ([e] + f) == (q + [e]) + f;
    assert |(kept + [e]) + f| == |kept| + 1 + |f|;
  }

  lemma PlacedBehindLevel(side: Side, levels: seq<Level>, e: Entry)
    requires Ladder(side, levels) && levels != [] && levels[0].price == e.price
    ensures Place(side, Flat(levels), e) == levels[0].orders + ([e] + Flat(levels[1..]))
  {
    var rest := levels[1..];
    FlatSorted(side, rest);
    assert rest != [] ==> rest[0] in rest;
    PlaceBehind(side, levels[0].orders, Flat(rest), e);
  }

  /** The smallest loss: a second bid at price zero replaces the first. */
  lemma {:induction false} ZeroPriceLoses(one: Entry, two: Entry)
    requires one.price == 0.0 && two.price == 0.0
    ensures Flat(CodedAdd(Buy, CodedAdd(Buy, [], one), two)) == [two]
    ensures Place(Buy, Place(Buy, [], one), two) == [one, two]
  {
    assert [one][1..] == [] && [Level(0.0, [two])][1..] == [];
    assert CodedAdd(Buy, [], one) == [Level(0.0, [one])] && [Level(0.0, [one])][1..] == [];
  }

  // ---- Crossed and uncrossed books ----

  /** The sides do not overlap: the best bid is below the best ask. */
  ghost predicate Uncrossed(bids: seq<Entry>, asks: seq<Entry>) {
    bids != [] && asks != [] ==> bids[0].price < asks[0].price
  }

  // ---- Matching one pair of levels, and a whole book ----

  function Deal(b: Entry, a: Entry, instrument: Id, price: real, quantity: real): Trade {
    Trade(b.id, a.id, instrument, price, quantity, b.actor, a.actor)
  }

  /** What is left of an order in its list after a fill: nothing once it is filled. */
  function Left(e: Entry, fill: real): seq<Entry> {
    if e.remaining - fill <= 0.0 then [] else [e.(remaining := e.remaining - fill)]
  }

  datatype Matched<T> = Matched(bids: seq<T>, asks: seq<T>, trades: seq<Trade>)

  /** The inner loop: both iterators move on after every trade, past an order that was only partly filled. */
  function MatchQueues(bq: seq<Entry>, aq: seq<Entry>, instrument: Id, price: real): (m: Matched<Entry>)
    ensures |m.bids| <= |bq| && |m.asks| <= |aq|
    ensures bq != [] && aq != [] ==> |m.bids| + |m.asks| < |bq| + |aq|
  {
    if bq == [] || aq == [] then Matched(bq, aq, [])
    else
      var fill := Min(bq[0].remaining, aq[0].remaining);
      var m := MatchQueues(bq[1..], aq[1..], instrument, price);
      Matched(Left(bq[0], fill) + m.bids, Left(aq[0], fill) + m.asks,
              [Deal(bq[0], aq[0], instrument, price, fill)] + m.trades)
  }

  function Size(levels: seq<Level>): nat {
    if levels == [] then 0 else 1 + |levels[0].orders| + Size(levels[1..])
  }

  /** A ladder whose first level now holds `orders`; an empty level is erased. */
  function Trim(levels: seq<Level>, orders: seq<Entry>): (r: seq<Level>)
    requires levels != []
    ensures Size(r) == if orders == [] then Size(levels[1..]) else 1 + |orders| + Size(levels[1..])
  {
    if orders == [] then levels[1..]
    else
      var r := [Level(levels[0].price, orders)] + levels[1..];
      assert r[1..] == levels[1..];
      r
  }

  /** The outer loop: while the best levels overlap, match them at the ask's price. */
  function MatchLoop(bids: seq<Level>, asks: seq<Level>, instrument: Id): Matched<Level>
    decreases Size(bids) + Size(asks)
  {
    if bids == [] || asks == [] || bids[0].price < asks[0].price then Matched(bids, asks, [])
    else
      var m := MatchQueues(bids[0].orders, asks[0].orders, instrument, asks[0].price);
      var r := MatchLoop(Trim(bids, m.bids), Trim(asks, m.asks), instrument);
      Matched(r.bids, r.asks, m.trades + r.trades)
  }

  // ---- What matching guarantees on any book, crossed or not ----

  function Traded(trades: seq<Trade>): real {
    if trades == [] then 0.0 else trades[0].quantity + Traded(trades[1..])
  }

  lemma {:induction false} TradedConcat(a: seq<Trade>, b: seq<Trade>)
    ensures Traded(a + b) == Traded(a) + Traded(b)
  {
    if a == [] {
      assert a + b == b;
    } else {
      assert (a + b)[1..] == a[1..] + b;
      TradedConcat(a[1..], b);
    }
  }

  /** The trade names the bid and its actor as the buyer, the ask and its actor as the seller, and takes no more than
      either has, at the ask's price, which the bid accepts. */
  ghost predicate Between(t: Trade, b: Entry, a: Entry, instrument: Id) {
    && t.buyOrderId == b.id && t.buyerId == b.actor
    && t.sellOrderId == a.id && t.sellerId == a.actor
    && t.instrument == instrument
    && t.price == a.price <= b.price
    && 0.0 < t.quantity <= Min(b.remaining, a.remaining)
  }

  /** A trade is justified by a resting bid and a resting ask. */
  ghost predicate Justified(t: Trade, bq: seq<Entry>, aq: seq<Entry>, instrument: Id) {
    exists b, a :: b in bq && a in aq && Between(t, b, a, instrument)
  }

  lemma {:induction false} MatchQueuesKeeps(bq: seq<Entry>, aq: seq<Entry>, instrument: Id, price: real)
    requires Positive(bq) && Positive(aq)
    ensures var m := MatchQueues(bq, aq, instrument, price);
      && Positive(m.bids) && (forall e | e in m.bids :: Comes(e, bq))
      && Positive(m.asks) && (forall e | e in m.asks :: Comes(e, aq))
  {
    if bq == [] || aq == [] {
      assert forall e | e in bq :: e == e.(remaining := e.remaining);
      assert forall e | e in aq :: e == e.(remaining := e.remaining);
    } else {
      var fill := Min(bq[0].remaining, aq[0].remaining);
      MatchQueuesKeeps(bq[1..], aq[1..], instrument, price);
      var n := MatchQueues(bq[1..], aq[1..], instrument, price);
      assert bq[0] in bq && aq[0] in aq;
      ComesTail(n.bids, bq);
      ComesTail(n.asks, aq);
      assert Comes(bq[0].(remaining := bq[0].remaining - fill), bq);
      assert Comes(aq[0].(remaining := aq[0].remaining - fill), aq);
    }
  }

  lemma {:induction false} MatchQueuesConserves(bq: seq<Entry>, aq: seq<Entry>, instrument: Id, price: real)
    requires Positive(bq) && Positive(aq)
    ensures var m := MatchQueues(bq, aq, instrument, price);
      && Volume(m.bids) == Volume(bq) - Traded(m.trades)
      && Volume(m.asks) == Volume(aq) - Traded(m.trades)
  {
    if bq != [] && aq != [] {
      var fill := Min(bq[0].remaining, aq[0].remaining);
      MatchQueuesConserves(bq[1..], aq[1..], instrument, price);
      var m, n := MatchQueues(bq, aq, instrument, price), MatchQueues(bq[1..], aq[1..], instrument, price);
      assert m.trades[1..] == n.trades;
      VolumeConcat(Left(bq[0], fill), n.bids);
      VolumeConcat(Left(aq[0], fill), n.asks);
      VolumeLeft(bq[0], fill);
      VolumeLeft(aq[0], fill);
    }
  }

  lemma {:induction false} MatchQueuesJustified(bq: seq<Entry>, aq: seq<Entry>, instrument: Id, price: real, bid: real)
    requires forall e | e in bq :: e.price == bid && e.remaining > 0.0
    requires forall e | e in aq :: e.price == price && e.remaining > 0.0
    requires price <= bid
    ensures forall t | t in MatchQueues(bq, aq, instrument, price).trades :: Justified(t, bq, aq, instrument)
  {
    if bq != [] && aq != [] {
      MatchQueuesJustified(bq[1..], aq[1..], instrument, price, bid);
      JustifiedTail(MatchQueues(bq[1..], aq[1..], instrument, price).trades, bq, aq, instrument);
      var fill := Min(bq[0].remaining, aq[0].remaining);
      assert bq[0] in bq && aq[0] in aq;
      assert Between(Deal(bq[0], aq[0], instrument, price, fill), bq[0], aq[0], instrument);
    }
  }

  lemma VolumeLeft(e: Entry, fill: real)
    requires fill <= e.remaining
    ensures Volume(Left(e, fill)) == e.remaining - fill
  {
  }

  lemma JustifiedTail(trades: seq<Trade>, bq: seq<Entry>, aq: seq<Entry>, instrument: Id)
    requires bq != [] && aq != [] && forall t | t in trades :: Justified(t, bq[1..], aq[1..], instrument)
    ensures forall t | t in trades :: Justified(t, bq, aq, instrument)
  {
  }

  lemma ComesTail(es: seq<Entry>, q: seq<Entry>)
    requires q != [] && forall e | e in es :: Comes(e, q[1..])
    ensures forall e | e in es :: Comes(e, q)
  {
  }

  lemma TrimKeeps(side: Side, levels: seq<Level>, orders: seq<Entry>)
    requires levels != [] && Ladder(side, levels)
    requires Positive(orders) && forall e | e in orders :: Comes(e, levels[0].orders)
    ensures Ladder(side, Trim(levels, orders))
    ensures Flat(Trim(levels, orders)) == orders + Flat(levels[1..])
    ensures forall e | e in Flat(Trim(levels, orders)) :: Comes(e, Flat(levels))
  {
    var q := Flat(levels[1..]);
    if orders == [] {
      assert orders + q == q;
    } else {
      assert Trim(levels, orders)[1..] == levels[1..];
    }
    FlatSorted(side, levels[1..]);
    forall e | e in orders + q ensures Comes(e, Flat(levels)) {
      if e in orders {
        var d :| d in levels[0].orders && e == d.(remaining := e.remaining) && e.remaining <= d.remaining;
        assert d in Flat(levels);
      } else {
        assert e in Flat(levels) && e == e.(remaining := e.remaining);
      }
    }
  }

  lemma JustifiedIn(trades: seq<Trade>, bq: seq<Entry>, aq: seq<Entry>, bq0: seq<Entry>, aq0: seq<Entry>,
                    instrument: Id)
    requires forall t | t in trades :: Justified(t, bq, aq, instrument)
    requires (forall e | e in bq :: Comes(e, bq0)) && forall e | e in aq :: Comes(e, aq0)
    ensures forall t | t in trades :: Justified(t, bq0, aq0, instrument)
  {
  }

  /** One pass of the outer loop: the two best levels against each other. */
  lemma PassKeeps(bids: seq<Level>, asks: seq<Level>, instrument: Id)
    requires Ladder(Buy, bids) && Ladder(Sell, asks) && bids != [] && asks != []
    requires asks[0].price <= bids[0].price
    ensures var m := MatchQueues(bids[0].orders, asks[0].orders, instrument, asks[0].price);
      && var b, a := Trim(bids, m.bids), Trim(asks, m.asks);
      && Ladder(Buy, b) && (forall e | e in Flat(b) :: Comes(e, Flat(bids)))
      && Ladder(Sell, a) && (forall e | e in Flat(a) :: Comes(e, Flat(asks)))
      && Volume(Flat(b)) == Volume(Flat(bids)) - Traded(m.trades)
      && Volume(Flat(a)) == Volume(Flat(asks)) - Traded(m.trades)
      && forall t | t in m.trades :: Justified(t, Flat(bids), Flat(asks), instrument)
  {
    var bq, aq, price := bids[0].orders, asks[0].orders, asks[0].price;
    MatchQueuesKeeps(bq, aq, instrument, price);
    MatchQueuesConserves(bq, aq, instrument, price);
    MatchQueuesJustified(bq, aq, instrument, price, bids[0].price);
    var m := MatchQueues(bq, aq, instrument, price);
    TrimKeeps(Buy, bids, m.bids);
    TrimKeeps(Sell, asks, m.asks);
    VolumeConcat(m.bids, Flat(bids[1..]));
    VolumeConcat(m.asks, Flat(asks[1..]));
    VolumeConcat(bq, Flat(bids[1..]));
    VolumeConcat(aq, Flat(asks[1..]));
    forall t | t in m.trades ensures Justified(t, Flat(bids), Flat(asks), instrument) {
      var b, a :| b in bq && a in aq && Between(t, b, a, instrument);
      assert b in Flat(bids) && a in Flat(asks);
    }
  }

  lemma {:induction false} MatchLoopKeeps(bids: seq<Level>, asks: seq<Level>, instrument: Id)
    requires Ladder(Buy, bids) && Ladder(Sell, asks)
    ensures var r := MatchLoop(bids, asks, instrument);
      Ladder(Buy, r.bids) && Ladder(Sell, r.asks) && Uncrossed(Flat(r.bids), Flat(r.asks))
    decreases Size(bids) + Size(asks)
  {
    if bids == [] || asks == [] || bids[0].price < asks[0].price {
      FlatSorted(Buy, bids);
      FlatSorted(Sell, asks);
    } else {
      PassKeeps(bids, asks, instrument);
      var m := MatchQueues(bids[0].orders, asks[0].orders, instrument, asks[0].price);
      MatchLoopKeeps(Trim(bids, m.bids), Trim(asks, m.asks), instrument);
    }
  }

  lemma {:induction false} MatchLoopConserves(bids: seq<Level>, asks: seq<Level>, instrument: Id)
    requires Ladder(Buy, bids) && Ladder(Sell, asks)
    ensures var r := MatchLoop(bids, asks, instrument);
      Volume(Flat(bids)) - Volume(Flat(r.bids)) == Traded(r.trades) == Volume(Flat(asks)) - Volume(Flat(r.asks))
    decreases Size(bids) + Size(asks)
  {
    if !(bids == [] || asks == [] || bids[0].price < asks[0].price) {
      PassKeeps(bids, asks, instrument);
      var m := MatchQueues(bids[0].orders, asks[0].orders, instrument, asks[0].price);
      var b, a := Trim(bids, m.bids), Trim(asks, m.asks);
      MatchLoopConserves(b, a, instrument);
      TradedConcat(m.trades, MatchLoop(b, a, instrument).trades);
    }
  }

  lemma {:induction false} MatchLoopJustified(bids: seq<Level>, asks: seq<Level>, instrument: Id)
    requires Ladder(Buy, bids) && Ladder(Sell, asks)
    ensures forall t | t in MatchLoop(bids, asks, instrument).trades :: Justified(t, Flat(bids), Flat(asks), instrument)
    decreases Size(bids) + Size(asks)
  {
    if !(bids == [] || asks == [] || bids[0].price < asks[0].price) {
      PassKeeps(bids, asks, instrument);
      var m := MatchQueues(bids[0].orders, asks[0].orders, instrument, asks[0].price);
      var b, a := Trim(bids, m.bids), Trim(asks, m.asks);
      MatchLoopJustified(b, a, instrument);
      JustifiedIn(MatchLoop(b, a, instrument).trades, Flat(b), Flat(a), Flat(bids), Flat(asks), instrument);
    }
  }

  /** On any book of live orders, however far crossed, matching ends with an uncrossed, well-formed book,
      takes the same quantity out of both sides, and makes only justified trades. */
  lemma MatchLoopSettles(bids: seq<Level>, asks: seq<Level>, instrument: Id)
    requires Ladder(Buy, bids) && Ladder(Sell, asks)
    ensures var r := MatchLoop(bids, asks, instrument);
      && Ladder(Buy, r.bids) && Ladder(Sell, r.asks) && Uncrossed(Flat(r.bids), Flat(r.asks))
      && Volume(Flat(bids)) - Volume(Flat(r.bids)) == Traded(r.trades) == Volume(Flat(asks)) - Volume(Flat(r.asks))
      && forall t | t in r.trades :: Justified(t, Flat(bids), Flat(asks), instrument)
  {
    MatchLoopKeeps(bids, asks, instrument);
    MatchLoopConserves(bids, asks, instrument);
    MatchLoopJustified(bids, asks, instrument);
  }

  // ---- Price-time matching of two crossed queues, and when the loop agrees with it ----

  /** The reference: the front bid always trades with the front ask. */
  function Greedy(bq: seq<Entry>, aq: seq<Entry>, instrument: Id): Matched<Entry>
    decreases |bq| + |aq|
  {
    if bq == [] || aq == [] || bq[0].price < aq[0].price then Matched(bq, aq, [])
    else
      var fill := Min(bq[0].remaining, aq[0].remaining);
      var r := Greedy(Left(bq[0], fill) + bq[1..], Left(aq[0], fill) + aq[1..], instrument);
      Matched(r.bids, r.asks, [Deal(bq[0], aq[0], instrument, aq[0].price, fill)] + r.trades)
  }

  /** Order for order the two levels ask for the same quantities, until one of them is down to its last order. */
  ghost predicate Aligned(bq: seq<Entry>, aq: seq<Entry>) {
    forall k | 0 <= k < |bq| - 1 && k < |aq| - 1 :: bq[k].remaining == aq[k].remaining
  }

  /** Every pair of best levels met along the way is aligned. */
  ghost predicate NeverOvertakes(bids: seq<Level>, asks: seq<Level>, instrument: Id)
    decreases Size(bids) + Size(asks)
  {
    bids == [] || asks == [] || bids[0].price < asks[0].price ||
    (var m := MatchQueues(bids[0].orders, asks[0].orders, instrument, asks[0].price);
     && Aligned(bids[0].orders, asks[0].orders)
     && NeverOvertakes(Trim(bids, m.bids), Trim(asks, m.asks), instrument))
  }

  ghost predicate AtPrices(bq: seq<Entry>, aq: seq<Entry>, bid: real, ask: real) {
    && ask <= bid
    && (forall e | e in bq :: e.price == bid && e.remaining > 0.0)
    && (forall e | e in aq :: e.price == ask && e.remaining > 0.0)
  }

  lemma AlignedTail(bq: seq<Entry>, aq: seq<Entry>)
    requires |bq| >= 2 && |aq| >= 2
    ensures Aligned(bq, aq) <==> bq[0].remaining == aq[0].remaining && Aligned(bq[1..], aq[1..])
  {
  }

  /** One greedy step, with the two fronts named. */
  lemma GreedyStep(bq: seq<Entry>, aq: seq<Entry>, b: seq<Entry>, a: seq<Entry>, instrument: Id)
    requires bq != [] && aq != [] && aq[0].price <= bq[0].price
    ensures var fill := Min(bq[0].remaining, aq[0].remaining);
      var g := Greedy((Left(bq[0], fill) + bq[1..]) + b, (Left(aq[0], fill) + aq[1..]) + a, instrument);
      Greedy(bq + b, aq + a, instrument)
        == Matched(g.bids, g.asks, [Deal(bq[0], aq[0], instrument, aq[0].price, fill)] + g.trades)
  {
    var fill := Min(bq[0].remaining, aq[0].remaining);
    assert (bq + b)[1..] == bq[1..] + b && (aq + a)[1..] == aq[1..] + a;
    assert Left(bq[0], fill) + (bq[1..] + b) == (Left(bq[0], fill) + bq[1..]) + b;
    assert Left(aq[0], fill) + (aq[1..] + a) == (Left(aq[0], fill) + aq[1..]) + a;
  }

  /** `m`, the result of a pass over the fronts `bq` and `aq` of two queues, is what greedy steps make of them. */
  ghost predicate PassIsGreedy(m: Matched<Entry>, bq: seq<Entry>, aq: seq<Entry>, b: seq<Entry>, a: seq<Entry>,
          instrument: Id)
  {
    var g := Greedy(m.bids + b, m.asks + a, instrument);
    Greedy(bq + b, aq + a, instrument) == Matched(g.bids, g.asks, m.trades + g.trades)
  }

  /** An aligned pass is a run of greedy steps. */
  lemma {:induction false} AlignedIsGreedy(bq: seq<Entry>, aq: seq<Entry>, b: seq<Entry>, a: seq<Entry>,
                                           instrument: Id, bid: real, ask: real)
    requires bq != [] && aq != [] && AtPrices(bq, aq, bid, ask) && Aligned(bq, aq)
    ensures PassIsGreedy(MatchQueues(bq, aq, instrument, ask), bq, aq, b, a, instrument)
  {
    assert bq[0] in bq && aq[0] in aq;
    if |bq| >= 2 && |aq| >= 2 {
      AlignedTail(bq, aq);
      AlignedIsGreedy(bq[1..], aq[1..], b, a, instrument, bid, ask);
      EqualFrontsQueues(bq, aq, instrument);
      EqualFronts(MatchQueues(bq[1..], aq[1..], instrument, ask), bq, aq, b, a, instrument);
    } else {
      LastPair(bq, aq, b, a, instrument);
    }
  }

  lemma EqualFronts(m: Matched<Entry>, bq: seq<Entry>, aq: seq<Entry>, b: seq<Entry>, a: seq<Entry>, instrument: Id)
    requires bq != [] && aq != [] && aq[0].price <= bq[0].price && bq[0].remaining == aq[0].remaining
    requires PassIsGreedy(m, bq[1..], aq[1..], b, a, instrument)
    ensures var t := Deal(bq[0], aq[0], instrument, aq[0].price, aq[0].remaining);
      PassIsGreedy(Matched(m.bids, m.asks, [t] + m.trades), bq, aq, b, a, instrument)
  {
    var t := [Deal(bq[0], aq[0], instrument, aq[0].price, aq[0].remaining)];
    var g := Greedy(m.bids + b, m.asks + a, instrument);
    EqualFrontsGreedy(bq, aq, b, a, instrument);
    assert t + (m.trades + g.trades) == (t + m.trades) + g.trades;
  }

  lemma EqualFrontsQueues(bq: seq<Entry>, aq: seq<Entry>, instrument: Id)
    requires bq != [] && aq != [] && bq[0].remaining == aq[0].remaining
    ensures var m := MatchQueues(bq[1..], aq[1..], instrument, aq[0].price);
      MatchQueues(bq, aq, instrument, aq[0].price)
        == Matched(m.bids, m.asks, [Deal(bq[0], aq[0], instrument, aq[0].price, aq[0].remaining)] + m.trades)
  {
  }

  lemma EqualFrontsGreedy(bq: seq<Entry>, aq: seq<Entry>, b: seq<Entry>, a: seq<Entry>, instrument: Id)
    requires bq != [] && aq != [] && aq[0].price <= bq[0].price && bq[0].remaining == aq[0].remaining
    ensures var g := Greedy(bq[1..] + b, aq[1..] + a, instrument);
      Greedy(bq + b, aq + a, instrument)
        == Matched(g.bids, g.asks, [Deal(bq[0], aq[0], instrument, aq[0].price, aq[0].remaining)] + g.trades)
  {
    GreedyStep(bq, aq, b, a, instrument);
    assert [] + bq[1..] == bq[1..] && [] + aq[1..] == aq[1..];
  }

  lemma LastPair(bq: seq<Entry>, aq: seq<Entry>, b: seq<Entry>, a: seq<Entry>, instrument: Id)
    requires bq != [] && aq != [] && (|bq| == 1 || |aq| == 1) && aq[0].price <= bq[0].price
    ensures PassIsGreedy(MatchQueues(bq, aq, instrument, aq[0].price), bq, aq, b, a, instrument)
  {
    GreedyStep(bq, aq, b, a, instrument);
    var fill := Min(bq[0].remaining, aq[0].remaining);
    var t := [Deal(bq[0], aq[0], instrument, aq[0].price, fill)];
    assert MatchQueues(bq[1..], aq[1..], instrument, aq[0].price) == Matched(bq[1..], aq[1..], []);
    assert t + [] == t;
  }

  lemma {:induction false} MisalignedDiffers(bq: seq<Entry>, aq: seq<Entry>, b: seq<Entry>, a: seq<Entry>,
                                             instrument: Id, bid: real, ask: real, more: seq<Trade>)
    requires AtPrices(bq, aq, bid, ask) && !Aligned(bq, aq) && Distinct(bq) && Distinct(aq)
    ensures MatchQueues(bq, aq, instrument, ask).trades + more != Greedy(bq + b, aq + a, instrument).trades
  {
    assert |bq| >= 2 && |aq| >= 2;
    AlignedTail(bq, aq);
    assert bq[0] in bq && aq[0] in aq && bq[1] in bq && aq[1] in aq;
    GreedyStep(bq, aq, b, a, instrument);
    var fill := Min(bq[0].remaining, aq[0].remaining);
    var m := MatchQueues(bq[1..], aq[1..], instrument, ask);
    var t := [Deal(bq[0], aq[0], instrument, ask, fill)];
    assert (t + m.trades) + more == t + (m.trades + more);
    var bl, al := Left(bq[0], fill) + bq[1..], Left(aq[0], fill) + aq[1..];
    var g := Greedy(bl + b, al + a, instrument);
    assert (t + (m.trades + more))[1..] == m.trades + more && (t + g.trades)[1..] == g.trades;
    if bq[0].remaining == aq[0].remaining {
      MisalignedDiffers(bq[1..], aq[1..], b, a, instrument, bid, ask, more);
      assert bl == bq[1..] && al == aq[1..];
    } else {
      assert bq[1] in bq[1..] && aq[1] in aq[1..];
      GreedyStep(bl, al, b, a, instrument);
      assert g.trades[0].buyOrderId == bl[0].id && g.trades[0].sellOrderId == al[0].id;
      assert m.trades[0].buyOrderId == bq[1].id && m.trades[0].sellOrderId == aq[1].id;
      assert (m.trades + more)[0] == m.trades[0];
    }
  }

  /** The ids along a queue stay distinct when some entries shrink or go. */
  lemma {:induction false} MatchQueuesDistinct(bq: seq<Entry>, aq: seq<Entry>, instrument: Id, price: real)
    requires Distinct(bq) && Distinct(aq)
    ensures var m := MatchQueues(bq, aq, instrument, price);
      && Distinct(m.bids) && (forall e | e in m.bids :: Holds(bq, e.id))
      && Distinct(m.asks) && (forall e | e in m.asks :: Holds(aq, e.id))
  {
    if bq == [] || aq == [] {
      assert forall e | e in bq :: e.id == e.id;
    } else {
      MatchQueuesDistinct(bq[1..], aq[1..], instrument, price);
      var n := MatchQueues(bq[1..], aq[1..], instrument, price);
      var fill := Min(bq[0].remaining, aq[0].remaining);
      DistinctLeft(bq, fill, n.bids);
      DistinctLeft(aq, fill, n.asks);
    }
  }

  lemma DistinctLeft(q: seq<Entry>, fill: real, tail: seq<Entry>)
    requires q != [] && Distinct(q) && Distinct(tail) && forall e | e in tail :: Holds(q[1..], e.id)
    ensures Distinct(Left(q[0], fill) + tail)
    ensures forall e | e in Left(q[0], fill) + tail :: Holds(q, e.id)
  {
    var r := Left(q[0], fill) + tail;
    forall e | e in tail ensures Holds(q, e.id) && e.id != q[0].id {
      var d :| d in q[1..] && d.id == e.id;
      assert d in q;
    }
    assert q[0] in q;
    if Left(q[0], fill) == [] {
      assert r == tail;
    } else {
      assert r[1..] == tail;
    }
  }

  lemma {:induction false} DistinctConcat(a: seq<Entry>, b: seq<Entry>)
    ensures Distinct(a + b) <==> Distinct(a) && Distinct(b) && forall e | e in a :: !Holds(b, e.id)
  {
    if a == [] {
      assert a + b == b;
    } else {
      assert (a + b)[1..] == a[1..] + b;
      DistinctConcat(a[1..], b);
      assert Holds(a[1..] + b, a[0].id) <==> Holds(a[1..], a[0].id) || Holds(b, a[0].id) by {
        if e :| e in a[1..] && e.id == a[0].id { assert e in a[1..] + b; }
        if e :| e in b && e.id == a[0].id { assert e in a[1..] + b; }
      }
      assert a[0] in a && forall e :: e in a <==> e == a[0] || e in a[1..];
    }
  }

  lemma TrimDistinct(levels: seq<Level>, orders: seq<Entry>)
    requires levels != [] && Distinct(Flat(levels)) && Distinct(orders)
    requires forall e | e in orders :: Holds(levels[0].orders, e.id)
    requires Flat(Trim(levels, orders)) == orders + Flat(levels[1..])
    ensures Distinct(Flat(Trim(levels, orders)))
  {
    var q := Flat(levels[1..]);
    DistinctConcat(levels[0].orders, q);
    DistinctConcat(orders, q);
  }

  /** `match_orders` is price-time matching exactly on the books where it never overtakes: there it makes
      the same trades and leaves the same queues, and on every other book it makes different trades. */
  lemma {:induction false} MatchLoopIsGreedyIff(bids: seq<Level>, asks: seq<Level>, instrument: Id)
    requires Ladder(Buy, bids) && Ladder(Sell, asks) && Distinct(Flat(bids)) && Distinct(Flat(asks))
    ensures var r, g := MatchLoop(bids, asks, instrument), Greedy(Flat(bids), Flat(asks), instrument);
      && (NeverOvertakes(bids, asks, instrument) <==> r.trades == g.trades)
      && (NeverOvertakes(bids, asks, instrument) ==> Flat(r.bids) == g.bids && Flat(r.asks) == g.asks)
    decreases Size(bids) + Size(asks)
  {
    FlatSorted(Buy, bids);
    FlatSorted(Sell, asks);
    if !(bids == [] || asks == [] || bids[0].price < asks[0].price) {
      var bq, aq, bid, ask := bids[0].orders, asks[0].orders, bids[0].price, asks[0].price;
      var rb, ra := Flat(bids[1..]), Flat(asks[1..]);
      var m := MatchQueues(bq, aq, instrument, ask);
      var b, a := Trim(bids, m.bids), Trim(asks, m.asks);
      var n := MatchLoop(b, a, instrument);
      DistinctConcat(bq, rb);
      DistinctConcat(aq, ra);
      if Aligned(bq, aq) {
        MatchQueuesKeeps(bq, aq, instrument, ask);
        TrimKeeps(Buy, bids, m.bids);
        TrimKeeps(Sell, asks, m.asks);
        MatchQueuesDistinct(bq, aq, instrument, ask);
        TrimDistinct(bids, m.bids);
        TrimDistinct(asks, m.asks);
        MatchLoopIsGreedyIff(b, a, instrument);
        AlignedIsGreedy(bq, aq, rb, ra, instrument, bid, ask);
        var g := Greedy(m.bids + rb, m.asks + ra, instrument);
        SameBehind(m.trades, n.trades, g.trades);
      } else {
        MisalignedDiffers(bq, aq, rb, ra, instrument, bid, ask, n.trades);
      }
    }
  }

  /** For one bid level and one ask level the condition is read off the two lists before the call. */
  lemma OneLevelEach(b: Level, a: Level, instrument: Id)
    requires LevelOk(b) && LevelOk(a) && a.price <= b.price
    ensures NeverOvertakes([b], [a], instrument) <==> Aligned(b.orders, a.orders)
  {
    var m := MatchQueues(b.orders, a.orders, instrument, a.price);
    if Aligned(b.orders, a.orders) {
      AlignedLeavesOneSide(b.orders, a.orders, instrument, b.price, a.price);
      NoLevelsLeft(m.bids, m.asks, b.price, a.price, instrument);
    }
  }

  /** After an aligned pass one side has at most one order left at its best price. */
  lemma {:induction false} AlignedLeavesOneSide(bq: seq<Entry>, aq: seq<Entry>, instrument: Id, bid: real, ask: real)
    requires AtPrices(bq, aq, bid, ask) && Aligned(bq, aq)
    ensures var m := MatchQueues(bq, aq, instrument, ask); |m.bids| <= 1 || |m.asks| <= 1
  {
    if |bq| >= 2 && |aq| >= 2 {
      AlignedTail(bq, aq);
      AlignedLeavesOneSide(bq[1..], aq[1..], instrument, bid, ask);
      assert bq[0] in bq && aq[0] in aq;
    }
  }

  lemma {:induction false} NoLevelsLeft(bq: seq<Entry>, aq: seq<Entry>, bid: real, ask: real, instrument: Id)
    requires |bq| <= 1 || |aq| <= 1
    ensures var b: seq<Level> := if bq == [] then [] else [Level(bid, bq)];
      var a: seq<Level> := if aq == [] then [] else [Level(ask, aq)];
      NeverOvertakes(b, a, instrument)
    decreases |bq| + |aq|
  {
    if bq != [] && aq != [] && ask <= bid {
      var m := MatchQueues(bq, aq, instrument, ask);
      NoLevelsLeft(m.bids, m.asks, bid, ask, instrument);
    }
  }

  /** The defect in the smallest book that shows it: bids of 10 and 5 against asks of 3 and 4 at one price.
      The loop gives the second ask to the second bid, although 7 of the first bid are still unfilled. */
  lemma Overtaken(instrument: Id)
    ensures var b := Level(1.0, [Entry(Id("b1"), Id(""), 1.0, 10.0), Entry(Id("b2"), Id(""), 1.0, 5.0)]);
      var a := Level(1.0, [Entry(Id("a1"), Id(""), 1.0, 3.0), Entry(Id("a2"), Id(""), 1.0, 4.0)]);
      && Ladder(Buy, [b]) && Ladder(Sell, [a])
      && (var loop := MatchLoop([b], [a], instrument).trades; |loop| > 1 && loop[1].buyOrderId == Id("b2"))
      && (var best := Greedy(b.orders, a.orders, instrument).trades; |best| > 1 && best[1].buyOrderId == Id("b1"))
  {
    var b1, b2 := Entry(Id("b1"), Id(""), 1.0, 10.0), Entry(Id("b2"), Id(""), 1.0, 5.0);
    var a1, a2 := Entry(Id("a1"), Id(""), 1.0, 3.0), Entry(Id("a2"), Id(""), 1.0, 4.0);
    var m := MatchQueues([b1, b2], [a1, a2], instrument, 1.0);
    assert [b1, b2][1..] == [b2] && [a1, a2][1..] == [a2];
    assert MatchQueues([b2], [a2], instrument, 1.0).trades[0].buyOrderId == Id("b2");
    assert m.trades[1].buyOrderId == Id("b2");
    assert MatchLoop([Level(1.0, [b1, b2])], [Level(1.0, [a1, a2])], instrument).trades[1] == m.trades[1];
    var l := [b1.(remaining := 7.0)] + [b2];
    assert Left(b1, 3.0) + [b1, b2][1..] == l && Left(a1, 3.0) + [a1, a2][1..] == [a2];
    assert Greedy(l, [a2], instrument).trades[0].buyOrderId == Id("b1");
  }
}
