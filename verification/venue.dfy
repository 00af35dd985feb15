/** One book of the exchange with the ids its index knows, as a value of the specification machine, which the
    objects of OrderBooks refine: seeding, processing, cancelling (engine/src/exchange.cpp). */
module Venues {
  import opened Orders
  import opened PriceTime
  import opened Matching
  import opened Submission
  import opened Runs

  /** A book with the ids its index knows. */
  datatype Venue = Venue(book: Book, known: set<Id>)

  /** At rest, and every resting order is known. */
  ghost predicate Orderly(v: Venue) {
    AtRest(v.book) && forall e | e in v.book.bids || e in v.book.asks :: e.id in v.known
  }

  // ---- Seeding ----

  function SeedId(side: Side, instrument: Id, i: nat): Id {
    Id((if side == Buy then "init_bid_" else "init_ask_") + instrument.text + "_" + Decimal(i))
  }

  const PROVIDER := Id("liquidity_provider")

  function Seed(side: Side, instrument: Id, price: real, i: nat): Entry {
    Entry(SeedId(side, instrument, i), PROVIDER,
          if side == Buy then price * 0.99 - i as real * 0.01 * price else price * 1.01 + i as real * 0.01 * price,
          100.0 * (5 - i) as real)
  }

  lemma SeedIdsDiffer(a: Side, b: Side, instrument: Id, i: nat, j: nat)
    requires i < 5 && j < 5 && (a != b || i != j)
    ensures SeedId(a, instrument, i) != SeedId(b, instrument, j)
  {
    var x, y := SeedId(a, instrument, i).text, SeedId(b, instrument, j).text;
    assert x[|x| - 1] == "0123456789"[i] && y[|y| - 1] == "0123456789"[j];
    assert x[5] == if a == Buy then 'b' else 'a';
    assert y[5] == if b == Buy then 'b' else 'a';
  }

  /** The first `n` seeds of each side, as they are added. */
  function Seeded(instrument: Id, price: real, n: nat): Book {
    if n == 0 then Book([], [])
    else
      var b := Seeded(instrument, price, n - 1);
      Book(Place(Buy, b.bids, Seed(Buy, instrument, price, n - 1)),
          Place(Sell, b.asks, Seed(Sell, instrument, price, n - 1)))
  }

  function SeedIds(instrument: Id, n: nat): set<Id> {
    if n == 0 then {}
    else SeedIds(instrument, n - 1) + {SeedId(Buy, instrument, n - 1), SeedId(Sell, instrument, n - 1)}
  }

  function SeedTrade(instrument: Id, price: real): Trade {
    Trade(Id("init_trade_buy"), Id("init_trade_sell"), instrument, price, 100.0, PROVIDER, PROVIDER)
  }

  ghost predicate FromSeeds(side: Side, q: seq<Entry>, instrument: Id, price: real, n: nat) {
    forall e | e in q :: exists i: nat :: i < n && e == Seed(side, instrument, price, i)
  }

  /** Seeding a book around a positive price leaves it at rest: no seed crosses, and no id occurs twice. */
  lemma {:induction false} SeedingRests(instrument: Id, price: real, n: nat)
    requires price > 0.0 && n <= 5
    ensures var b := Seeded(instrument, price, n);
      && AtRest(b) && FromSeeds(Buy, b.bids, instrument, price, n) && FromSeeds(Sell, b.asks, instrument, price, n)
  {
    if n > 0 {
      SeedingRests(instrument, price, n - 1);
      var b := Seeded(instrument, price, n - 1);
      SeedSide(Buy, b.bids, instrument, price, n - 1);
      SeedSide(Sell, b.asks, instrument, price, n - 1);
      SeedsApart(Seeded(instrument, price, n), instrument, price, n);
    }
  }

  lemma SeedSide(side: Side, q: seq<Entry>, instrument: Id, price: real, n: nat)
    requires n < 5 && Queue(side, q) && FromSeeds(side, q, instrument, price, n)
    ensures var r := Place(side, q, Seed(side, instrument, price, n));
      Queue(side, r) && FromSeeds(side, r, instrument, price, n + 1)
  {
    var s := Seed(side, instrument, price, n);
    forall e | e in q ensures e.id != s.id {
      var i: nat :| i < n && e == Seed(side, instrument, price, i);
      SeedIdsDiffer(side, side, instrument, i, n);
    }
    PlaceKeeps(side, q, s);
    forall e | e in Place(side, q, s) ensures exists i: nat :: i < n + 1 && e == Seed(side, instrument, price, i) {
      if e != s {
        var i: nat :| i < n && e == Seed(side, instrument, price, i);
      }
    }
  }

  lemma SeedPrices(instrument: Id, price: real, i: nat)
    requires price > 0.0
    ensures Seed(Buy, instrument, price, i).price < price < Seed(Sell, instrument, price, i).price
  {
    assert i as real * 0.01 * price >= 0.0;
  }

  lemma SeedsApart(b: Book, instrument: Id, price: real, n: nat)
    requires price > 0.0 && n <= 5
    requires FromSeeds(Buy, b.bids, instrument, price, n) && FromSeeds(Sell, b.asks, instrument, price, n)
    ensures Uncrossed(b.bids, b.asks) && forall e | e in b.bids :: !Holds(b.asks, e.id)
  {
    hide Seed;
    forall e | e in b.bids ensures e.price < price {
      var i: nat :| i < n && e == Seed(Buy, instrument, price, i);
      SeedPrices(instrument, price, i);
    }
    forall e | e in b.asks ensures e.price > price {
      var i: nat :| i < n && e == Seed(Sell, instrument, price, i);
      SeedPrices(instrument, price, i);
    }
    if b.bids != [] && b.asks != [] {
      assert b.bids[0] in b.bids && b.asks[0] in b.asks;
    }
    forall e, d | e in b.bids && d in b.asks ensures e.id != d.id {
      var i: nat :| i < n && e == Seed(Buy, instrument, price, i);
      var j: nat :| j < n && d == Seed(Sell, instrument, price, j);
      SeedIdsDiffer(Buy, Sell, instrument, i, j);
      SeedHasId(Buy, instrument, price, i);
      SeedHasId(Sell, instrument, price, j);
    }
  }

  lemma SeedHasId(side: Side, instrument: Id, price: real, i: nat)
    ensures Seed(side, instrument, price, i).id == SeedId(side, instrument, i)
  {
  }

  ghost predicate AreSeeds(side: Side, q: seq<Entry>, instrument: Id, price: real, n: nat) {
    |q| == n && forall i | 0 <= i < n :: q[i] == Seed(side, instrument, price, i)
  }

  /** Each seed goes behind those before it. */
  lemma {:induction false} SeedsInOrder(instrument: Id, price: real, n: nat)
    requires price > 0.0
    ensures AreSeeds(Buy, Seeded(instrument, price, n).bids, instrument, price, n)
    ensures AreSeeds(Sell, Seeded(instrument, price, n).asks, instrument, price, n)
  {
    if n > 0 {
      SeedsInOrder(instrument, price, n - 1);
      var b := Seeded(instrument, price, n - 1);
      hide AreSeeds, Seed;
      OneMoreSeed(Buy, b.bids, instrument, price, n - 1);
      OneMoreSeed(Sell, b.asks, instrument, price, n - 1);
    }
  }

  lemma OneMoreSeed(side: Side, q: seq<Entry>, instrument: Id, price: real, n: nat)
    requires price > 0.0 && AreSeeds(side, q, instrument, price, n)
    ensures AreSeeds(side, Place(side, q, Seed(side, instrument, price, n)), instrument, price, n + 1)
  {
    hide Seed, Place;
    var last := Seed(side, instrument, price, n);
    forall x | x in q ensures Rank(side, x.price) <= Rank(side, last.price) {
      var i :| 0 <= i < n && q[i] == x;
      SeedsGoOut(side, instrument, price, i, n);
    }
    PlaceBehind(side, q, [], last);
    PlaceAlone(side, last);
    assert q + [] == q;
  }

  lemma PlaceAlone(side: Side, e: Entry)
    ensures Place(side, [], e) == [e]
  {
  }

  lemma SeedsGoOut(side: Side, instrument: Id, price: real, i: nat, n: nat)
    requires price > 0.0 && i <= n
    ensures Rank(side, Seed(side, instrument, price, i).price) <= Rank(side, Seed(side, instrument, price, n).price)
  {
    SeedPriced(side, instrument, price, i);
    SeedPriced(side, instrument, price, n);
    hide Seed, Out;
    FurtherOut(i as real, n as real, price);
  }

  function Out(i: real, price: real): real {
    i * 0.01 * price
  }

  lemma SeedPriced(side: Side, instrument: Id, price: real, i: nat)
    ensures Seed(side, instrument, price, i).price
         == if side == Buy then price * 0.99 - Out(i as real, price) else price * 1.01 + Out(i as real, price)
  {
  }

  lemma FurtherOut(i: real, n: real, price: real)
    requires i <= n && price > 0.0
    ensures Out(i, price) <= Out(n, price)
  {
  }

  /** The index of a seeded book knows the ids of the orders that rest, and no others. */
  lemma {:induction false} SeedIdsRest(instrument: Id, price: real, n: nat, id: Id)
    ensures id in SeedIds(instrument, n) <==> Resting(Seeded(instrument, price, n), id)
  {
    hide Seed, SeedId, Place, Holds;
    if n == 0 {
      HoldsNothing(id);
    } else {
      SeedIdsRest(instrument, price, n - 1, id);
      var b := Seeded(instrument, price, n - 1);
      var bid, ask := Seed(Buy, instrument, price, n - 1), Seed(Sell, instrument, price, n - 1);
      SeedHasId(Buy, instrument, price, n - 1);
      SeedHasId(Sell, instrument, price, n - 1);
      HoldsPlaced(Buy, b.bids, bid, id);
      HoldsPlaced(Sell, b.asks, ask, id);
      assert Seeded(instrument, price, n) == Book(Place(Buy, b.bids, bid), Place(Sell, b.asks, ask));
      assert id in SeedIds(instrument, n) <==> id in SeedIds(instrument, n - 1) || id == bid.id || id == ask.id;
      hide Seeded, SeedIds;
    }
  }

  lemma HoldsNothing(id: Id)
    ensures !Holds([], id)
  {
  }

  lemma HoldsPlaced(side: Side, q: seq<Entry>, e: Entry, id: Id)
    ensures Holds(Place(side, q, e), id) <==> Holds(q, id) || e.id == id
  {
    PlaceKeepsIds(side, q, e);
  }

  /** A seeded book quotes 0.99 and 1.01 of the price, in five steps of a hundredth of it on each side, with 500 down to
      100 units, 1500 in all; the recorded trade is at the price. */
  lemma SeedsQuote(instrument: Id, price: real)
    requires price > 0.0
    ensures var b := Seeded(instrument, price, 5);
      && |b.bids| == 5 == |b.asks| && Volume(b.bids) == 1500.0 == Volume(b.asks)
      && b.bids[0].price == 0.99 * price && b.asks[0].price == 1.01 * price
      && (forall i | 0 <= i < 4 ::
            && b.bids[i].price - b.bids[i + 1].price == 0.01 * price
            && b.asks[i + 1].price - b.asks[i].price == 0.01 * price)
      && (forall i | 0 <= i < 5 :: b.bids[i].remaining == 100.0 * (5 - i) as real == b.asks[i].remaining)
      && forall e | e in b.bids || e in b.asks :: e.actor == Id("liquidity_provider")
    ensures var t := SeedTrade(instrument, price);
      t.price == price && t.quantity == 100.0 && t.instrument == instrument && t.buyerId == t.sellerId == PROVIDER
  {
    SeedsInOrder(instrument, price, 5);
    var b := Seeded(instrument, price, 5);
    hide Seeded;
    VolumeOfFive(b.bids);
    VolumeOfFive(b.asks);
  }

  lemma VolumeOfFive(q: seq<Entry>)
    requires |q| == 5
    ensures Volume(q) == q[0].remaining + q[1].remaining + q[2].remaining + q[3].remaining + q[4].remaining
  {
    assert q[1..][1..] == q[2..] && q[2..][1..] == q[3..] && q[3..][1..] == q[4..] && q[4..][1..] == [];
    assert Volume(q[4..]) == q[4].remaining;
    assert Volume(q[3..]) == q[3].remaining + Volume(q[4..]);
    assert Volume(q[2..]) == q[2].remaining + Volume(q[3..]);
    assert Volume(q[1..]) == q[1].remaining + Volume(q[2..]);
  }

  // ---- Steps of a venue ----

  /** An order as it arrives at the exchange. */
  datatype Incoming = Incoming(kind: OrderType, side: Side, order: Entry)

  predicate Supported(kind: OrderType) { kind == Limit || kind == Market }

  /** What the book asks of an order that arrives. */
  ghost predicate Acceptable(v: Venue, o: Incoming) {
    o.kind == Limit ==> Admissible(v.book, Submit(o.side, o.order))
  }

  /** What processing an order makes of the venue. */
  function Processed(v: Venue, o: Incoming, instrument: Id): (Venue, seq<Trade>) {
    match o.kind
    case Limit =>
      var s := SubmitLimit(v.book, o.side, o.order, instrument);
      (Venue(s.book, v.known + {o.order.id}), s.trades)
    case Market =>
      var s := SubmitMarket(v.book, o.side, o.order.remaining, o.order.actor, instrument);
      (Venue(s.book, v.known), s.trades)
    case _ => (v, [])
  }

  function AfterCancel(v: Venue, id: Id): Venue {
    Venue(Book(Without(v.book.bids, id), Without(v.book.asks, id)), v.known - {id})
  }

  lemma {:induction false} ConsumeIds(side: Side, limit: Option<real>, q: seq<Entry>, want: real, known: set<Id>)
    requires forall e | e in q :: e.id in known
    ensures forall e | e in Consume(side, limit, q, want).rest :: e.id in known
    ensures forall f | f in Consume(side, limit, q, want).fills :: f.maker.id in known
  {
    if q != [] && want > 0.0 && Within(side, limit, q[0].price) {
      assert q[0] in q;
      if q[0].remaining <= want {
        ConsumeIds(side, limit, q[1..], want - q[0].remaining, known);
      }
    }
  }

  lemma {:induction false} LimitTradesKnown(side: Side, e: Entry, fills: seq<Fill>, instrument: Id, known: set<Id>)
    requires e.id in known && forall f | f in fills :: f.maker.id in known
    ensures forall t | t in LimitTrades(side, e, fills, instrument) ::
      t.buyOrderId in known && t.sellOrderId in known && t.instrument == instrument
  {
    if fills != [] {
      assert fills[0] in fills;
      LimitTradesKnown(side, e, fills[1..], instrument, known);
    }
  }

  /** Processing keeps a venue orderly, its trades are sound, and both orders of a limit order's trades are
      known, so that both parties can be told. */
  lemma ProcessingKeeps(v: Venue, o: Incoming, instrument: Id)
    requires Orderly(v) && Acceptable(v, o)
    ensures var (w, trades) := Processed(v, o, instrument);
      && Orderly(w) && (forall t | t in trades :: t.quantity > 0.0)
      && (o.kind == Limit ==> forall t | t in trades :: t.buyOrderId in w.known && t.sellOrderId in w.known)
  {
    var opp := o.side.Opposite();
    if o.kind == Limit {
      StepKeepsRest(v.book, Submit(o.side, o.order), instrument);
      StepTradesPositive(v.book, Submit(o.side, o.order), instrument);
      var known := v.known + {o.order.id};
      var c := Consume(opp, Some(o.order.price), v.book.Of(opp), o.order.remaining);
      ConsumeIds(opp, Some(o.order.price), v.book.Of(opp), o.order.remaining, known);
      LimitTradesKnown(o.side, o.order, c.fills, instrument, known);
      if c.left > 0.0 {
        PlaceKeepsIds(o.side, v.book.Of(o.side), o.order.(remaining := c.left));
      }
    } else if o.kind == Market {
      StepKeepsRest(v.book, Sweep(o.side, o.order.remaining, o.order.actor), instrument);
      StepTradesPositive(v.book, Sweep(o.side, o.order.remaining, o.order.actor), instrument);
      ConsumeIds(opp, None, v.book.Of(opp), o.order.remaining, v.known);
    }
  }

  lemma CancelingKeeps(v: Venue, id: Id)
    requires Orderly(v)
    ensures Orderly(AfterCancel(v, id))
  {
    CancelKeepsQueues(v.book, id);
    WithoutKeeps(Buy, v.book.bids, id);
    WithoutKeeps(Sell, v.book.asks, id);
  }

  /** Removes every order a book knows. */
  method CancelAll(v: Venue) returns (venue: Venue)
    requires Orderly(v)
    ensures venue == Venue(Book([], []), {})
  {
    hide Orderly, Without;
    venue := v;
    while venue.known != {}
      invariant Orderly(venue)
      decreases venue.known
    {
      var id :| id in venue.known;
      CancelingKeeps(venue, id);
      venue := AfterCancel(venue, id);
    }
    NothingKnown(venue);
  }

  lemma EmptyOrderly()
    ensures Orderly(Venue(Book([], []), {}))
  {
  }

  predicate IsResting(b: Book, id: Id)
    ensures IsResting(b, id) <==> Resting(b, id)
  {
    (exists e :: e in b.bids && e.id == id) || (exists e :: e in b.asks && e.id == id)
  }

  lemma UnknownNotResting(v: Venue, id: Id)
    requires Orderly(v) && id !in v.known
    ensures !Resting(v.book, id)
  {
  }

  lemma NothingKnown(v: Venue)
    requires Orderly(v) && v.known == {}
    ensures v.book == Book([], [])
  {
  }
}
