/** The loops inside one price level, or one pair of levels, on order objects
    (engine/src/order_book.cpp:209-245, 331-361). */
module LevelLoops {
  import opened Arithmetic
  import opened Orders
  import opened PriceTime
  import opened Matching
  import opened Submission
  import opened PriceLevels

  lemma {:induction false} MarketTradesAppend(side: Side, actor: Id, fills: seq<Fill>, f: Fill, instrument: Id, k: nat)
    ensures MarketTrades(side, actor, fills + [f], instrument, k)
         == MarketTrades(side, actor, fills, instrument, k) + [MarketTrade(side, actor, f, instrument, k + |fills|)]
    ensures |MarketTrades(side, actor, fills, instrument, k)| == |fills|
  {
    if fills == [] {
      assert fills + [f] == [f] && [f][1..] == [];
    } else {
      assert (fills + [f])[1..] == fills[1..] + [f];
      MarketTradesAppend(side, actor, fills[1..], f, instrument, k + 1);
    }
  }

  lemma AnotherTrade(side: Side, actor: Id, before: seq<Fill>, fills: seq<Fill>, f: Fill, instrument: Id)
    ensures var t := MarketTrades(side, actor, before + fills, instrument, 0);
      MarketTrades(side, actor, before + (fills + [f]), instrument, 0)
          == t + [MarketTrade(side, actor, f, instrument, |t|)]
  {
    MarketTradesAppend(side, actor, before + fills, f, instrument, 0);
    assert (before + fills) + [f] == before + (fills + [f]);
  }

  /** So far `fills` have been taken, and eating goes on with the queue `q` and `remaining` wanted. */
  ghost predicate Eaten(whole: Outcome, side: Side, fills: seq<Fill>, q: seq<Entry>, remaining: real) {
    var c := Consume(side, None, q, remaining);
    whole == Outcome(fills + c.fills, c.rest, c.left)
  }

  lemma EatFront(whole: Outcome, side: Side, fills: seq<Fill>, q: seq<Entry>, remaining: real)
    requires Eaten(whole, side, fills, q, remaining) && q != [] && Positive(q) && remaining > 0.0
    ensures var fill := Min(remaining, q[0].remaining);
      Eaten(whole, side, fills + [Fill(q[0], fill)], Filling(q, 0, fill), remaining - fill)
  {
    var fill := Min(remaining, q[0].remaining);
    ConsumeFront(side, None, q, remaining);
    assert Filling(q, 0, fill) == Left(q[0], fill) + q[1..];
    var c := Consume(side, None, Filling(q, 0, fill), remaining - fill);
    assert fills + ([Fill(q[0], fill)] + c.fills) == (fills + [Fill(q[0], fill)]) + c.fills;
  }

  /** The sweep of a level as it stands: `fills` taken and recorded in `trades`, and the rest still to do. */
  ghost predicate Swept(whole: Outcome, side: Side, actor: Id, instrument: Id, before: seq<Fill>, fills: seq<Fill>,
                        trades: seq<Trade>, q: seq<Entry>, remaining: real) {
    Eaten(whole, side.Opposite(), fills, q, remaining) &&
        trades == MarketTrades(side, actor, before + fills, instrument, 0)
  }

  lemma SweptMore(whole: Outcome, side: Side, actor: Id, instrument: Id, before: seq<Fill>, fills: seq<Fill>,
                  trades: seq<Trade>, q: seq<Entry>, remaining: real)
    requires Swept(whole, side, actor, instrument, before, fills, trades, q, remaining)
    requires q != [] && Positive(q) && remaining > 0.0
    ensures var f := Fill(q[0], Min(remaining, q[0].remaining));
      Swept(whole, side, actor, instrument, before, fills + [f],
            trades + [MarketTrade(side, actor, f, instrument, |trades|)],
            Filling(q, 0, f.quantity), remaining - f.quantity)
  {
    AnotherTrade(side, actor, before, fills, Fill(q[0], Min(remaining, q[0].remaining)), instrument);
    EatFront(whole, side.Opposite(), fills, q, remaining);
  }

  lemma SweptStart(side: Side, actor: Id, instrument: Id, before: seq<Fill>, q: seq<Entry>, want: real)
    ensures Swept(Consume(side.Opposite(), None, q, want), side, actor, instrument, before, [],
                  MarketTrades(side, actor, before, instrument, 0), q, want)
  {
    var c := Consume(side.Opposite(), None, q, want);
    assert before + [] == before && [] + c.fills == c.fills;
  }

  lemma SweptEnd(whole: Outcome, side: Side, actor: Id, instrument: Id, before: seq<Fill>, fills: seq<Fill>,
                 trades: seq<Trade>, q: seq<Entry>, remaining: real)
    requires Swept(whole, side, actor, instrument, before, fills, trades, q, remaining) && (q == [] || remaining <= 0.0)
    ensures whole == Outcome(fills, q, remaining) && trades == MarketTrades(side, actor, before + fills, instrument, 0)
  {
  }

  /** A market order against one level: it eats the level's queue. */
  method SweepLevel(level: PriceLevel, side: Side, actor: Id, instrument: Id, want: real,
                    trades0: seq<Trade>, ghost before: seq<Fill>)
    returns (remaining: real, trades: seq<Trade>, ghost fills: seq<Fill>)
    requires level.Valid() && level.side == side.Opposite()
    requires trades0 == MarketTrades(side, actor, before, instrument, 0)
    modifies level, level.orders
    ensures level.Valid()
    ensures Consume(level.side, None, old(level.queue), want) == Outcome(fills, level.queue, remaining)
    ensures trades == MarketTrades(side, actor, before + fills, instrument, 0)
    ensures Shrunk(old(level.orders), level.orders)
  {
    hide PriceLevel.Indexed, Swept, Filling, MarketTrades, MarketTrade;
    remaining, trades, fills := want, trades0, [];
    ghost var whole := Consume(level.side, None, level.queue, want);
    SweptStart(side, actor, instrument, before, level.queue, want);
    var i := 0;
    while i < |level.orders| && remaining > 0.0
      invariant level.Valid() && 0 <= i <= |level.orders| && (i == 0 || remaining == 0.0)
      invariant Swept(whole, side, actor, instrument, before, fills, trades, level.queue, remaining)
      invariant Shrunk(old(level.orders), level.orders)
      decreases |level.orders| - i
    {
      var order := level.orders[i];
      var fill := Min(remaining, order.remaining);
      SweptMore(whole, side, actor, instrument, before, fills, trades, level.queue, remaining);
      trades := trades + [MarketTrade(side, actor, Fill(order.Value(), fill), instrument, |trades|)];
      fills := fills + [Fill(order.Value(), fill)];
      assert order in level.orders;
      i := level.Fill(i, fill);
      remaining := remaining - fill;
    }
    SweptEnd(whole, side, actor, instrument, before, fills, trades, level.queue, remaining);
  }

  // ---- Two levels against each other ----

  function Past(e: Entry, fill: real): nat {
    |Left(e, fill)|
  }

  /** The pass over `whole` has so far made `trades` and left `bq[..i]` and `aq[..j]` behind the iterators. */
  ghost predicate Passing(whole: Matched<Entry>, trades: seq<Trade>, bq: seq<Entry>, i: nat, aq: seq<Entry>, j: nat,
                          instrument: Id, price: real)
    requires i <= |bq| && j <= |aq|
  {
    var m := MatchQueues(bq[i..], aq[j..], instrument, price);
    whole == Matched(bq[..i] + m.bids, aq[..j] + m.asks, trades + m.trades)
  }

  lemma FillingAround(q: seq<Entry>, i: nat, fill: real)
    requires i < |q|
    ensures var n := i + Past(q[i], fill);
      n <= |Filling(q, i, fill)| && Filling(q, i, fill)[..n] == q[..i] + Left(q[i], fill)
      && Filling(q, i, fill)[n..] == q[i..][1..]
  {
  }

  lemma PassStep(whole: Matched<Entry>, trades: seq<Trade>, bq: seq<Entry>, i: nat, aq: seq<Entry>, j: nat,
                 instrument: Id, price: real)
    requires i < |bq| && j < |aq| && Passing(whole, trades, bq, i, aq, j, instrument, price)
    ensures var fill := Min(bq[i].remaining, aq[j].remaining);
      var b, a := Filling(bq, i, fill), Filling(aq, j, fill);
      var k, l := i + Past(bq[i], fill), j + Past(aq[j], fill);
      k <= |b| && l <= |a|
      && Passing(whole, trades + [Deal(bq[i], aq[j], instrument, price, fill)], b, k, a, l, instrument, price)
  {
    var fill := Min(bq[i].remaining, aq[j].remaining);
    FillingAround(bq, i, fill);
    FillingAround(aq, j, fill);
    var t := [Deal(bq[i], aq[j], instrument, price, fill)];
    var m := MatchQueues(bq[i..][1..], aq[j..][1..], instrument, price);
    assert MatchQueues(bq[i..], aq[j..], instrument, price)
      == Matched(Left(bq[i], fill) + m.bids, Left(aq[j], fill) + m.asks, t + m.trades);
    Associates(bq[..i], Left(bq[i], fill), m.bids);
    Associates(aq[..j], Left(aq[j], fill), m.asks);
    Associates(trades, t, m.trades);
  }

  lemma Associates<T>(a: seq<T>, b: seq<T>, c: seq<T>)
    ensures a + (b + c) == (a + b) + c
  {
  }

  /** The front orders under the two iterators trade; each iterator moves on. */
  method MatchPair(bid: PriceLevel, i: nat, ask: PriceLevel, j: nat, instrument: Id)
    returns (k: nat, l: nat, trade: Trade)
    requires bid.Valid() && ask.Valid() && bid.side == Buy && ask.side == Sell && i < |bid.orders| && j < |ask.orders|
    modifies bid, ask, bid.orders[i], ask.orders[j]
    ensures bid.Valid() && ask.Valid()
    ensures var b, a := old(bid.queue)[i], old(ask.queue)[j];
      var fill := Min(b.remaining, a.remaining);
      && bid.queue == Filling(old(bid.queue), i, fill) && k == i + Past(b, fill)
      && ask.queue == Filling(old(ask.queue), j, fill) && l == j + Past(a, fill)
      && trade == Deal(b, a, instrument, ask.price, fill)
    ensures Shrunk(old(bid.orders), bid.orders) && Shrunk(old(ask.orders), ask.orders)
    ensures |bid.orders| - k + |ask.orders| - l < old(|bid.orders|) - i + old(|ask.orders|) - j
    ensures k <= |bid.orders| && l <= |ask.orders|
  {
    hide PriceLevel.Indexed;
    var bidOrder, askOrder := bid.orders[i], ask.orders[j];
    var fill := Min(bidOrder.remaining, askOrder.remaining);
    trade := Deal(bidOrder.Value(), askOrder.Value(), instrument, ask.price, fill);
    k := bid.Fill(i, fill);
    l := ask.Fill(j, fill);
  }

  /** The inner loop of the matching: both iterators move on after every trade. */
  method MatchLevels(bid: PriceLevel, ask: PriceLevel, instrument: Id, trades0: seq<Trade>) returns (trades: seq<Trade>)
    requires bid.Valid() && ask.Valid() && bid.side == Buy && ask.side == Sell
    modifies bid, ask, bid.orders, ask.orders
    ensures bid.Valid() && ask.Valid()
    ensures var m := MatchQueues(old(bid.queue), old(ask.queue), instrument, ask.price);
      bid.queue == m.bids && ask.queue == m.asks && trades == trades0 + m.trades
    ensures Shrunk(old(bid.orders), bid.orders) && Shrunk(old(ask.orders), ask.orders)
  {
    hide PriceLevel.Indexed, PriceLevel.Fits, Passing, MatchQueues, Filling, Volume;
    ghost var whole := MatchQueues(bid.queue, ask.queue, instrument, ask.price);
    ghost var mine := [];
    trades := trades0;
    var i, j := 0, 0;
    PassStart(bid.queue, ask.queue, instrument, ask.price);
    while i < |bid.orders| && j < |ask.orders|
      invariant bid.Valid() && ask.Valid() && 0 <= i <= |bid.orders| && 0 <= j <= |ask.orders|
      invariant Passing(whole, mine, bid.queue, i, ask.queue, j, instrument, ask.price)
      invariant trades == trades0 + mine
      invariant Shrunk(old(bid.orders), bid.orders) && Shrunk(old(ask.orders), ask.orders)
      decreases |bid.orders| - i + |ask.orders| - j
    {
      PassStep(whole, mine, bid.queue, i, ask.queue, j, instrument, ask.price);
      var trade;
      assert bid.orders[i] in bid.orders && ask.orders[j] in ask.orders;
      LiveInLevel(bid, i);
      LiveInLevel(ask, j);
      i, j, trade := MatchPair(bid, i, ask, j, instrument);
      Associates(trades0, mine, [trade]);
      trades := trades + [trade];
      mine := mine + [trade];
    }
    PassEnd(whole, mine, bid.queue, i, ask.queue, j, instrument, ask.price);
  }

  lemma LiveInLevel(l: PriceLevel, i: nat)
    requires l.Valid() && i < |l.orders|
    ensures l.orders[i].Live() && !l.orders[i].Done()
  {
  }

  lemma PassStart(bq: seq<Entry>, aq: seq<Entry>, instrument: Id, price: real)
    ensures Passing(MatchQueues(bq, aq, instrument, price), [], bq, 0, aq, 0, instrument, price)
  {
  }

  lemma PassEnd(whole: Matched<Entry>, trades: seq<Trade>, bq: seq<Entry>, i: nat, aq: seq<Entry>, j: nat,
                instrument: Id, price: real)
    requires i <= |bq| && j <= |aq| && (i == |bq| || j == |aq|)
    requires Passing(whole, trades, bq, i, aq, j, instrument, price)
    ensures whole == Matched(bq, aq, trades)
  {
  }
}
