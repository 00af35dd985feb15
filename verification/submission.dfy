/** Submitting orders: the code's add-then-match refines the price-time specification machine,
    and what holds over every run of that machine. */
module Submission {
  import opened Arithmetic
  import opened Orders
  import opened PriceTime
  import opened Matching

  // ---- The specification machine ----

  /** A book as two price-time queues. */
  datatype Book = Book(bids: seq<Entry>, asks: seq<Entry>) {
    function Of(side: Side): seq<Entry> { if side == Buy then bids else asks }

    function With(side: Side, q: seq<Entry>): Book { if side == Buy then this.(bids := q) else this.(asks := q) }
  }

  datatype Settled = Settled(book: Book, trades: seq<Trade>)

  datatype Op =
    | Submit(side: Side, order: Entry)
    | Sweep(side: Side, quantity: real, actor: Id)
    | Cancel(id: Id)

  /** The trades of a limit order against the resting orders it eats. The price is the ask's, so a
      resting price for a buy and the incoming one for a sell. */
  function LimitTrades(side: Side, taker: Entry, fills: seq<Fill>, instrument: Id): seq<Trade> {
    if fills == [] then []
    else
      var f := fills[0];
      [if side == Buy then Deal(taker, f.maker, instrument, f.maker.price, f.quantity)
       else Deal(f.maker, taker, instrument, taker.price, f.quantity)]
      + LimitTrades(side, taker, fills[1..], instrument)
  }

  function Decimal(n: nat): string {
    (if n < 10 then "" else Decimal(n / 10)) + ["0123456789"[n % 10]]
  }

  /** The id made up for the taker's side of the k-th trade of a market order. */
  function MarketId(k: nat): Id {
    Id("market_" + Decimal(k))
  }

  function MarketTrade(side: Side, actor: Id, f: Fill, instrument: Id, k: nat): Trade {
    var taker := Entry(MarketId(k), actor, f.maker.price, f.quantity);
    if side == Buy then Deal(taker, f.maker, instrument, f.maker.price, f.quantity)
    else Deal(f.maker, taker, instrument, f.maker.price, f.quantity)
  }

  function MarketTrades(side: Side, actor: Id, fills: seq<Fill>, instrument: Id, k: nat): seq<Trade> {
    if fills == [] then []
    else [MarketTrade(side, actor, fills[0], instrument, k)] + MarketTrades(side, actor, fills[1..], instrument, k + 1)
  }

  /** A limit order eats the opposite queue up to its limit; what is left of it rests last at its price. */
  function SubmitLimit(b: Book, side: Side, e: Entry, instrument: Id): Settled {
    var o := Consume(side.Opposite(), Some(e.price), b.Of(side.Opposite()), e.remaining);
    var own := if o.left > 0.0 then Place(side, b.Of(side), e.(remaining := o.left)) else b.Of(side);
    Settled(b.With(side.Opposite(), o.rest).With(side, own), LimitTrades(side, e, o.fills, instrument))
  }

  /** A market order eats the opposite queue; what is left of it is dropped. */
  function SubmitMarket(b: Book, side: Side, quantity: real, actor: Id, instrument: Id): Settled {
    var o := Consume(side.Opposite(), None, b.Of(side.Opposite()), quantity);
    Settled(b.With(side.Opposite(), o.rest), MarketTrades(side, actor, o.fills, instrument, 0))
  }

  function Step(b: Book, op: Op, instrument: Id): Settled {
    match op
    case Submit(side, e) => SubmitLimit(b, side, e, instrument)
    case Sweep(side, quantity, actor) => SubmitMarket(b, side, quantity, actor, instrument)
    case Cancel(id) => Settled(Book(Without(b.bids, id), Without(b.asks, id)), [])
  }

  // ---- The code refines the machine ----

  /** The key fact: added to an uncrossed book, an order that crosses stands alone in a level of its own
      at the top of its side. */
  lemma CrossingIsAlone(side: Side, levels: seq<Level>, added: seq<Level>, e: Entry)
    requires Ladder(side, levels) && Ladder(side, added) && Flat(added) == Place(side, Flat(levels), e)
    requires levels == [] || Rank(side, e.price) < Rank(side, levels[0].price)
    ensures added == [Level(e.price, [e])] + levels
  {
    FlatSorted(side, levels);
    RegroupFlat(side, levels);
    RegroupFlat(side, added);
    assert ([e] + Flat(levels))[1..] == Flat(levels);
  }

  lemma {:induction false} LimitTradesIgnoreRemaining(side: Side, o: Entry, remaining: real, fills: seq<Fill>,
          instrument: Id)
    ensures LimitTrades(side, o.(remaining := remaining), fills, instrument) == LimitTrades(side, o, fills, instrument)
  {
    if fills != [] {
      LimitTradesIgnoreRemaining(side, o, remaining, fills[1..], instrument);
    }
  }

  lemma FrontComes(q: seq<Entry>, fill: real)
    requires q != [] && Positive(q) && 0.0 < fill <= q[0].remaining
    ensures var m := Left(q[0], fill) + q[1..]; Positive(m) && forall e | e in m :: Comes(e, q)
  {
  }

  /** The opposite ladder after a pass that takes `fill` of its front order. */
  lemma LonePass(side: Side, levels: seq<Level>, fill: real)
    requires levels != [] && Ladder(side, levels) && 0.0 < fill <= levels[0].orders[0].remaining
    ensures var q := levels[0].orders;
      var rest := Trim(levels, Left(q[0], fill) + q[1..]);
      && Ladder(side, rest) && Flat(rest) == Left(q[0], fill) + Flat(levels)[1..]
      && (rest != [] ==> Rank(side, levels[0].price) <= Rank(side, rest[0].price))
      && (fill == q[0].remaining ==> Size(rest) < Size(levels))
  {
    var q, f := levels[0].orders, Flat(levels[1..]);
    var m := Left(q[0], fill) + q[1..];
    FrontComes(q, fill);
    TrimKeeps(side, levels, m);
    assert Flat(levels)[1..] == q[1..] + f;
    assert m + f == Left(q[0], fill) + (q[1..] + f);
    if m == [] && levels[1..] != [] {
      assert levels[1] in levels[1..];
    }
  }

  /** Eating starts with the front order, and goes on with what the fill leaves of queue and order. */
  lemma ConsumeFront(side: Side, limit: Option<real>, q: seq<Entry>, want: real)
    requires q != [] && Positive(q) && want > 0.0 && Within(side, limit, q[0].price)
    ensures var fill := Min(want, q[0].remaining);
      var c := Consume(side, limit, Left(q[0], fill) + q[1..], want - fill);
      Consume(side, limit, q, want) == Outcome([Fill(q[0], fill)] + c.fills, c.rest, c.left)
  {
    assert q[0] in q;
    if q[0].remaining <= want {
      assert Left(q[0], q[0].remaining) + q[1..] == q[1..];
    } else {
      assert [Fill(q[0], want)] + [] == [Fill(q[0], want)];
    }
  }

  /** A lone bid against the asks: the loop makes it eat the ask queue from the front. */
  lemma {:induction false} LoneBid(o: Entry, bids: seq<Level>, asks: seq<Level>, instrument: Id)
    requires o.remaining > 0.0 && Ladder(Sell, asks)
    requires bids != [] && asks != [] ==> bids[0].price < asks[0].price
    ensures var c := Consume(Sell, Some(o.price), Flat(asks), o.remaining);
      var r := MatchLoop([Level(o.price, [o])] + bids, asks, instrument);
      && r.trades == LimitTrades(Buy, o, c.fills, instrument)
      && Flat(r.asks) == c.rest
      && r.bids == if c.left > 0.0 then [Level(o.price, [o.(remaining := c.left)])] + bids else bids
    decreases Size(asks)
  {
    FlatSorted(Sell, asks);
    if asks != [] && asks[0].price <= o.price {
      var a := asks[0].orders[0];
      assert a in asks[0].orders && Flat(asks)[0] == a;
      var fill := Min(o.remaining, a.remaining);
      LonePass(Sell, asks, fill);
      ConsumeFront(Sell, Some(o.price), Flat(asks), o.remaining);
      LoneBidPass(o, bids, asks, instrument);
      var p, rest := o.(remaining := o.remaining - fill), Trim(asks, Left(a, fill) + asks[0].orders[1..]);
      var c := Consume(Sell, Some(o.price), Flat(rest), p.remaining);
      LimitTradesIgnoreRemaining(Buy, o, p.remaining, c.fills, instrument);
      LimitTradesFront(Buy, o, Fill(a, fill), c.fills, instrument);
      if p.remaining > 0.0 {
        LoneBid(p, bids, rest, instrument);
      } else {
        assert MatchLoop(bids, rest, instrument) == Matched(bids, rest, []);
      }
    }
  }

  lemma LimitTradesFront(side: Side, o: Entry, f: Fill, fills: seq<Fill>, instrument: Id)
    ensures LimitTrades(side, o, [f] + fills, instrument)
      == LimitTrades(side, o, [f], instrument) + LimitTrades(side, o, fills, instrument)
  {
  }

  lemma LoneBidPass(o: Entry, bids: seq<Level>, asks: seq<Level>, instrument: Id)
    requires o.remaining > 0.0 && asks != [] && LevelOk(asks[0]) && asks[0].price <= o.price
    ensures var a := asks[0].orders[0];
      var fill := Min(o.remaining, a.remaining);
      var p := o.(remaining := o.remaining - fill);
      var r := MatchLoop(if p.remaining > 0.0 then [Level(o.price, [p])] + bids else bids,
                         Trim(asks, Left(a, fill) + asks[0].orders[1..]), instrument);
      MatchLoop([Level(o.price, [o])] + bids, asks, instrument)
        == Matched(r.bids, r.asks, LimitTrades(Buy, o, [Fill(a, fill)], instrument) + r.trades)
  {
    var own, aq, a := [Level(o.price, [o])] + bids, asks[0].orders, asks[0].orders[0];
    assert a in aq && own[1..] == bids && [o][1..] == [];
    var fill := Min(o.remaining, a.remaining);
    var t := Deal(o, a, instrument, a.price, fill);
    assert [Fill(a, fill)][1..] == [] && LimitTrades(Buy, o, [Fill(a, fill)], instrument) == [t] + [];
    assert Left(o, fill) + [] == Left(o, fill);
    assert MatchQueues([o], aq, instrument, a.price) == Matched(Left(o, fill), Left(a, fill) + aq[1..], [t] + []);
  }

  /** A lone ask against the bids. */
  lemma {:induction false} LoneAsk(o: Entry, bids: seq<Level>, asks: seq<Level>, instrument: Id)
    requires o.remaining > 0.0 && Ladder(Buy, bids)
    requires bids != [] && asks != [] ==> bids[0].price < asks[0].price
    ensures var c := Consume(Buy, Some(o.price), Flat(bids), o.remaining);
      var r := MatchLoop(bids, [Level(o.price, [o])] + asks, instrument);
      && r.trades == LimitTrades(Sell, o, c.fills, instrument)
      && Flat(r.bids) == c.rest
      && r.asks == if c.left > 0.0 then [Level(o.price, [o.(remaining := c.left)])] + asks else asks
    decreases Size(bids)
  {
    FlatSorted(Buy, bids);
    if bids != [] && o.price <= bids[0].price {
      var b := bids[0].orders[0];
      assert b in bids[0].orders && Flat(bids)[0] == b;
      var fill := Min(o.remaining, b.remaining);
      LonePass(Buy, bids, fill);
      ConsumeFront(Buy, Some(o.price), Flat(bids), o.remaining);
      LoneAskPass(o, bids, asks, instrument);
      var p, rest := o.(remaining := o.remaining - fill), Trim(bids, Left(b, fill) + bids[0].orders[1..]);
      var c := Consume(Buy, Some(o.price), Flat(rest), p.remaining);
      LimitTradesIgnoreRemaining(Sell, o, p.remaining, c.fills, instrument);
      LimitTradesFront(Sell, o, Fill(b, fill), c.fills, instrument);
      if p.remaining > 0.0 {
        LoneAsk(p, rest, asks, instrument);
      } else {
        assert MatchLoop(rest, asks, instrument) == Matched(rest, asks, []);
      }
    }
  }

  lemma LoneAskPass(o: Entry, bids: seq<Level>, asks: seq<Level>, instrument: Id)
    requires o.remaining > 0.0 && bids != [] && LevelOk(bids[0]) && o.price <= bids[0].price
    ensures var b := bids[0].orders[0];
      var fill := Min(o.remaining, b.remaining);
      var p := o.(remaining := o.remaining - fill);
      var r := MatchLoop(Trim(bids, Left(b, fill) + bids[0].orders[1..]),
                         if p.remaining > 0.0 then [Level(o.price, [p])] + asks else asks, instrument);
      MatchLoop(bids, [Level(o.price, [o])] + asks, instrument)
        == Matched(r.bids, r.asks, LimitTrades(Sell, o, [Fill(b, fill)], instrument) + r.trades)
  {
    var own, bq, b := [Level(o.price, [o])] + asks, bids[0].orders, bids[0].orders[0];
    assert b in bq && own[1..] == asks && [o][1..] == [];
    var fill := Min(o.remaining, b.remaining);
    var t := Deal(b, o, instrument, o.price, fill);
    assert [Fill(b, fill)][1..] == [] && LimitTrades(Sell, o, [Fill(b, fill)], instrument) == [t] + [];
    assert Left(o, fill) + [] == Left(o, fill);
    assert MatchQueues(bq, [o], instrument, o.price) == Matched(Left(b, fill) + bq[1..], Left(o, fill), [t] + []);
  }

  function Queues(m: Matched<Level>): Settled {
    Settled(Book(Flat(m.bids), Flat(m.asks)), m.trades)
  }

  /** A lone level at the top of a ladder, as a queue: what is placed first. */
  lemma TopIsPlaced(side: Side, levels: seq<Level>, e: Entry)
    requires Ladder(side, levels) && (levels == [] || Rank(side, e.price) < Rank(side, levels[0].price))
    ensures Flat([Level(e.price, [e])] + levels) == Place(side, Flat(levels), e)
  {
  }

  lemma CrossingBid(bids: seq<Level>, asks: seq<Level>, e: Entry, added: seq<Level>, instrument: Id)
    requires Ladder(Buy, bids) && Ladder(Sell, asks) && e.remaining > 0.0
    requires Ladder(Buy, added) && Flat(added) == Place(Buy, Flat(bids), e)
    requires asks != [] && asks[0].price <= e.price && (bids == [] || bids[0].price < asks[0].price)
    ensures Queues(MatchLoop(added, asks, instrument)) == SubmitLimit(Book(Flat(bids), Flat(asks)), Buy, e, instrument)
  {
    CrossingIsAlone(Buy, bids, added, e);
    LoneBid(e, bids, asks, instrument);
    TopIsPlaced(Buy, bids, e.(remaining := Consume(Sell, Some(e.price), Flat(asks), e.remaining).left));
  }

  lemma CrossingAsk(bids: seq<Level>, asks: seq<Level>, e: Entry, added: seq<Level>, instrument: Id)
    requires Ladder(Buy, bids) && Ladder(Sell, asks) && e.remaining > 0.0
    requires Ladder(Sell, added) && Flat(added) == Place(Sell, Flat(asks), e)
    requires bids != [] && e.price <= bids[0].price && (asks == [] || bids[0].price < asks[0].price)
    ensures Queues(MatchLoop(bids, added, instrument)) == SubmitLimit(Book(Flat(bids), Flat(asks)), Sell, e, instrument)
  {
    CrossingIsAlone(Sell, asks, added, e);
    LoneAsk(e, bids, asks, instrument);
    TopIsPlaced(Sell, asks, e.(remaining := Consume(Buy, Some(e.price), Flat(bids), e.remaining).left));
  }

  /** An order that does not cross just rests. */
  lemma PassiveOrder(bids: seq<Level>, asks: seq<Level>, side: Side, e: Entry, added: seq<Level>, instrument: Id)
    requires Ladder(Buy, bids) && Ladder(Sell, asks) && e.remaining > 0.0
    requires bids == [] || asks == [] || bids[0].price < asks[0].price
    requires Ladder(side, added) && Flat(added) == Place(side, Flat(if side == Buy then bids else asks), e)
    requires if side == Buy then asks == [] || e.price < asks[0].price else bids == [] || bids[0].price < e.price
    ensures Queues(if side == Buy then MatchLoop(added, asks, instrument) else MatchLoop(bids, added, instrument))
         == SubmitLimit(Book(Flat(bids), Flat(asks)), side, e, instrument)
  {
    FlatSorted(Buy, bids);
    FlatSorted(Sell, asks);
    FlatSorted(side, added);
    if side == Buy {
      assert Consume(Sell, Some(e.price), Flat(asks), e.remaining) == Outcome([], Flat(asks), e.remaining);
      assert MatchLoop(added, asks, instrument) == Matched(added, asks, []);
    } else {
      assert Consume(Buy, Some(e.price), Flat(bids), e.remaining) == Outcome([], Flat(bids), e.remaining);
      assert MatchLoop(bids, added, instrument) == Matched(bids, added, []);
    }
  }

  /** Main theorem. On an uncrossed book, adding a limit order to its level and running the two-iterator
      loop is exactly the specification's step: same trades in the same order, same two queues. */
  lemma LimitOrderIsPriceTime(bids: seq<Level>, asks: seq<Level>, side: Side, e: Entry, added: seq<Level>,
          instrument: Id)
    requires Ladder(Buy, bids) && Ladder(Sell, asks) && Uncrossed(Flat(bids), Flat(asks)) && e.remaining > 0.0
    requires Ladder(side, added)
    requires Flat(added) == Place(side, Flat(if side == Buy then bids else asks), e)
    ensures Queues(if side == Buy then MatchLoop(added, asks, instrument) else MatchLoop(bids, added, instrument))
         == SubmitLimit(Book(Flat(bids), Flat(asks)), side, e, instrument)
  {
    FlatSorted(Buy, bids);
    FlatSorted(Sell, asks);
    if side == Buy && asks != [] && asks[0].price <= e.price {
      CrossingBid(bids, asks, e, added, instrument);
    } else if side == Sell && bids != [] && e.price <= bids[0].price {
      CrossingAsk(bids, asks, e, added, instrument);
    } else {
      PassiveOrder(bids, asks, side, e, added, instrument);
    }
  }
}
