/** Who the parties of a trade are, written out field by field (engine/src/order_book.cpp:222-237, 474-490). */
module Parties {
  import opened Orders
  import opened PriceTime
  import opened Matching
  import opened Submission

  /** A trade of an order that comes in, under its id and for its actor, with a resting order, the maker. */
  ghost predicate TakenBy(t: Trade, side: Side, id: Id, actor: Id, maker: Entry, instrument: Id) {
    && t.instrument == instrument
    && if side == Buy then
         && t.buyOrderId == id && t.buyerId == actor
         && t.sellOrderId == maker.id && t.sellerId == maker.actor
       else
         && t.sellOrderId == id && t.sellerId == actor
         && t.buyOrderId == maker.id && t.buyerId == maker.actor
  }

  /** Each trade of a limit order is one fill, for the order's own actor, at the seller's limit. */
  lemma {:induction false} LimitTradesSay(side: Side, e: Entry, fills: seq<Fill>, instrument: Id)
    ensures var trades := LimitTrades(side, e, fills, instrument);
      && |trades| == |fills|
      && forall i | 0 <= i < |fills| ::
           && TakenBy(trades[i], side, e.id, e.actor, fills[i].maker, instrument)
           && trades[i].quantity == fills[i].quantity
           && trades[i].price == if side == Buy then fills[i].maker.price else e.price
  {
    if fills != [] {
      LimitTradesSay(side, e, fills[1..], instrument);
      var rest := LimitTrades(side, e, fills[1..], instrument);
      assert LimitTrades(side, e, fills, instrument)[1..] == rest;
      forall i | 0 < i < |fills| ensures LimitTrades(side, e, fills, instrument)[i] == rest[i - 1] {
      }
    }
  }

  /** Each trade of a market order is one fill, for the taker, under an id that counts the trades, at the maker's
      price. */
  lemma {:induction false} MarketTradesSay(side: Side, actor: Id, fills: seq<Fill>, instrument: Id, k: nat)
    ensures var trades := MarketTrades(side, actor, fills, instrument, k);
      && |trades| == |fills|
      && forall i | 0 <= i < |fills| ::
           && TakenBy(trades[i], side, MarketId(k + i), actor, fills[i].maker, instrument)
           && trades[i].quantity == fills[i].quantity && trades[i].price == fills[i].maker.price
  {
    hide MarketId;
    if fills != [] {
      MarketTradesSay(side, actor, fills[1..], instrument, k + 1);
      var rest := MarketTrades(side, actor, fills[1..], instrument, k + 1);
      assert MarketTrades(side, actor, fills, instrument, k)[1..] == rest;
      forall i | 0 < i < |fills| ensures MarketTrades(side, actor, fills, instrument, k)[i] == rest[i - 1] {
      }
    }
  }

  /** Some order of the queue is the other party, and gives no more than it has. */
  ghost predicate WithMaker(t: Trade, side: Side, id: Id, actor: Id, q: seq<Entry>, instrument: Id) {
    exists maker :: maker in q && TakenBy(t, side, id, actor, maker, instrument) && 0.0 < t.quantity <= maker.remaining
  }

  /** The k-th trade, counted from zero, is the taker's under the k-th made-up id. */
  ghost predicate AllTakers(trades: seq<Trade>, side: Side, actor: Id, q: seq<Entry>, instrument: Id) {
    forall i | 0 <= i < |trades| :: WithMaker(trades[i], side, MarketId(i), actor, q, instrument)
  }

  ghost predicate AllOwn(trades: seq<Trade>, side: Side, id: Id, actor: Id, q: seq<Entry>, instrument: Id) {
    forall t | t in trades :: WithMaker(t, side, id, actor, q, instrument)
  }

  /** Fills that are parts of orders of this queue. */
  ghost predicate From(fills: seq<Fill>, q: seq<Entry>) {
    forall f | f in fills :: f.maker in q && 0.0 < f.quantity <= f.maker.remaining
  }

  lemma OwnTrades(side: Side, e: Entry, fills: seq<Fill>, q: seq<Entry>, instrument: Id)
    requires From(fills, q)
    ensures AllOwn(LimitTrades(side, e, fills, instrument), side, e.id, e.actor, q, instrument)
  {
    LimitTradesSay(side, e, fills, instrument);
    hide TakenBy, LimitTrades;
    var trades := LimitTrades(side, e, fills, instrument);
    forall t | t in trades ensures WithMaker(t, side, e.id, e.actor, q, instrument) {
      var i :| 0 <= i < |fills| && t == trades[i];
      assert fills[i] in fills;
    }
  }

  lemma TakersTrades(side: Side, actor: Id, fills: seq<Fill>, q: seq<Entry>, instrument: Id)
    requires From(fills, q)
    ensures AllTakers(MarketTrades(side, actor, fills, instrument, 0), side, actor, q, instrument)
  {
    MarketTradesSay(side, actor, fills, instrument, 0);
    hide TakenBy, MarketTrades, MarketId;
    var trades := MarketTrades(side, actor, fills, instrument, 0);
    forall i | 0 <= i < |trades| ensures WithMaker(trades[i], side, MarketId(i), actor, q, instrument) {
      assert fills[i] in fills;
    }
  }

  /** All trades of a limit order are its own, with orders that rest opposite. */
  lemma LimitOrderParties(b: Book, side: Side, e: Entry, instrument: Id)
    requires Positive(b.Of(side.Opposite()))
    ensures AllOwn(SubmitLimit(b, side, e, instrument).trades, side, e.id, e.actor, b.Of(side.Opposite()), instrument)
  {
    hide Consume, LimitTrades, AllOwn;
    var q := b.Of(side.Opposite());
    FillsAreWithin(side.Opposite(), Some(e.price), q, e.remaining);
    OwnTrades(side, e, Consume(side.Opposite(), Some(e.price), q, e.remaining).fills, q, instrument);
  }

  /** All trades of a market order are the taker's, with orders that rest opposite. */
  lemma MarketOrderParties(b: Book, side: Side, quantity: real, actor: Id, instrument: Id)
    requires Positive(b.Of(side.Opposite()))
    ensures AllTakers(SubmitMarket(b, side, quantity, actor, instrument).trades, side, actor,
                      b.Of(side.Opposite()), instrument)
  {
    hide Consume, MarketTrades, AllTakers;
    var q := b.Of(side.Opposite());
    FillsAreWithin(side.Opposite(), None, q, quantity);
    TakersTrades(side, actor, Consume(side.Opposite(), None, q, quantity).fills, q, instrument);
  }

  // ---- The made-up ids ----

  lemma {:induction false} DecimalsDiffer(i: nat, j: nat)
    requires Decimal(i) == Decimal(j)
    ensures i == j
  {
    var x, y := Decimal(i), Decimal(j);
    assert x[|x| - 1] == "0123456789"[i % 10] && y[|y| - 1] == "0123456789"[j % 10];
    assert i % 10 == j % 10;
    if i >= 10 && j >= 10 {
      assert x[..|x| - 1] == Decimal(i / 10) && y[..|y| - 1] == Decimal(j / 10);
      DecimalsDiffer(i / 10, j / 10);
    } else {
      DecimalLength(i);
      DecimalLength(j);
    }
  }

  lemma DecimalLength(n: nat)
    ensures |Decimal(n)| > 0 && (|Decimal(n)| == 1 <==> n < 10)
  {
    if n >= 10 {
      assert |Decimal(n / 10)| > 0;
    }
  }

  /** The ids made up for the takers are numbered from zero, and no two are the same. */
  lemma MarketIdsDiffer(i: nat, j: nat)
    ensures MarketId(0) == Id("market_0") && MarketId(12) == Id("market_12")
    ensures i != j ==> MarketId(i) != MarketId(j)
  {
    assert Decimal(0) == "0";
    assert Decimal(12) == Decimal(1) + "2" == "12";
    if MarketId(i) == MarketId(j) {
      var x, y := MarketId(i).text, MarketId(j).text;
      assert x[7..] == Decimal(i) && y[7..] == Decimal(j);
      DecimalsDiffer(i, j);
    }
  }
}
