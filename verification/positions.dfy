/** What an order does to the position of each member: of its own actor, of those whose orders it meets, and of all
    others (engine/src/exchange.cpp:313-320, 537-565). */
module Positions {
  import opened Orders
  import opened PriceTime
  import opened Submission
  import opened Runs
  import opened Accounts
  import opened Delivery
  import opened MarketDelivery
  import opened Venues
  import opened Floors

  /** What an order has taken from the orders of one actor. */
  function TakenFrom(fills: seq<Fill>, actor: Id): real {
    if fills == [] then 0.0
    else (if fills[0].maker.actor == actor then fills[0].quantity else 0.0) + TakenFrom(fills[1..], actor)
  }

  lemma {:induction false} NothingOwn(fills: seq<Fill>, actor: Id)
    requires !OwnOrder(fills, actor)
    ensures TakenFrom(fills, actor) == 0.0
  {
    if fills != [] {
      assert fills[0] in fills;
      forall f | f in fills[1..] ensures f.maker.actor != actor {
        assert f in fills;
      }
      NothingOwn(fills[1..], actor);
    }
  }

  /** The net quantity that the trades of a limit order bring to an account: for one that meets itself, its own fills
      count as bought. */
  lemma {:induction false} LimitTradesNet(side: Side, e: Entry, fills: seq<Fill>, instrument: Id, id: Id, held: Id)
    ensures var net, own := NetTraded(id, LimitTrades(side, e, fills, instrument), held), TakenFrom(fills, id);
      && (held != instrument ==> net == 0.0)
      && (held == instrument && side == Buy ==> net == if id == e.actor then Taken(fills) else -own)
      && (held == instrument && side == Sell ==> net == if id == e.actor then own - (Taken(fills) - own) else own)
  {
    if fills != [] {
      LimitTradesNet(side, e, fills[1..], instrument, id, held);
      assert LimitTrades(side, e, fills, instrument)[1..] == LimitTrades(side, e, fills[1..], instrument);
    }
  }

  /** A limit order of a member that buys moves its position by twice what it takes, one that sells by as much the
      other way, and those whose orders it meets by twice what it takes from them, the other way; nothing else moves.
      Only what a sale takes from its own actor counts as bought. */
  lemma LimitArrivalPositions(f: Floor, instrument: Id, o: Incoming, id: Id, held: Id)
    requires OrderlyFloor(f) && MembersRest(f) && instrument in f.books && o.kind == Limit
    requires Acceptable(f.books[instrument], o) && o.order.actor in f.accounts && id in f.accounts
    ensures Permitted(f, Arrive(instrument, o)) && id in Act(f, Arrive(instrument, o)).accounts
    ensures var v, opp, actor := f.books[instrument], o.side.Opposite(), o.order.actor;
      var fills := Consume(opp, Some(o.order.price), v.book.Of(opp), o.order.remaining).fills;
      var after := Act(f, Arrive(instrument, o)).accounts;
      var moved := after[id].In(held).quantity - f.accounts[id].In(held).quantity;
      && (held != instrument ==> moved == 0.0)
      && (held == instrument && id == actor && o.side == Buy ==> moved == 2.0 * Taken(fills))
      && (held == instrument && id == actor && o.side == Sell && !OwnOrder(fills, actor) ==>
            moved == -2.0 * Taken(fills))
      && (held == instrument && id == actor && o.side == Sell ==>
            moved == 2.0 * TakenFrom(fills, actor) - 2.0 * (Taken(fills) - TakenFrom(fills, actor)))
      && (held == instrument && id != actor && o.side == Buy ==> moved == -2.0 * TakenFrom(fills, id))
      && (held == instrument && id != actor && o.side == Sell ==> moved == 2.0 * TakenFrom(fills, id))
  {
    var a, opp := Arrive(instrument, o), o.side.Opposite();
    var fills := Consume(opp, Some(o.order.price), f.books[instrument].book.Of(opp), o.order.remaining).fills;
    assert Made(f, a) == LimitTrades(o.side, o.order, fills, instrument);
    hide Act, Made, KnownThen, OrderlyFloor, Acceptable, MembersRest, OwnOrder, NetTraded, Taken, TakenFrom;
    LimitArrivalDoubles(f, a, id, held);
    LimitTradesNet(o.side, o.order, fills, instrument, id, held);
    if !OwnOrder(fills, o.order.actor) {
      NothingOwn(fills, o.order.actor);
    }
  }

  /** Book and accounts agree about a limit order: what it takes is gone from the side it meets, the rest of it rests,
      its id becomes known, and no other book changes. */
  lemma LimitArrivalSettles(f: Floor, instrument: Id, o: Incoming)
    requires OrderlyFloor(f) && instrument in f.books && o.kind == Limit && Acceptable(f.books[instrument], o)
    ensures Permitted(f, Arrive(instrument, o)) && instrument in Act(f, Arrive(instrument, o)).books
    ensures var v, opp := f.books[instrument], o.side.Opposite();
      var taken := Taken(Consume(opp, Some(o.order.price), v.book.Of(opp), o.order.remaining).fills);
      var books := Act(f, Arrive(instrument, o)).books;
      var w := books[instrument];
      && Volume(w.book.Of(opp)) == Volume(v.book.Of(opp)) - taken
      && In(w.book.Of(o.side), o.order.id) == o.order.remaining - taken
      && Volume(w.book.Of(o.side)) == Volume(v.book.Of(o.side)) + (o.order.remaining - taken)
      && w.known == v.known + {o.order.id}
      && forall i | i in f.books && i != instrument :: i in books && books[i] == f.books[i]
  {
    var v, side, opp, e := f.books[instrument], o.side, o.side.Opposite(), o.order;
    var c := Consume(opp, Some(e.price), v.book.Of(opp), e.remaining);
    ConsumeTotals(opp, Some(e.price), v.book.Of(opp), e.remaining);
    InAbsent(v.book.Of(side), e.id);
    if c.left > 0.0 {
      var rest := e.(remaining := c.left);
      InPlace(side, v.book.Of(side), rest, e.id);
      PlaceKeeps(side, v.book.Of(side), rest);
    }
  }

  // ---- Market orders ----

  /** A market order takes what it takes from the side it meets; nothing else changes in any book. */
  lemma MarketArrivalSettles(f: Floor, instrument: Id, o: Incoming)
    requires OrderlyFloor(f) && instrument in f.books && o.kind == Market && o.order.remaining >= 0.0
    ensures Permitted(f, Arrive(instrument, o)) && instrument in Act(f, Arrive(instrument, o)).books
    ensures var v, opp := f.books[instrument], o.side.Opposite();
      var taken := Taken(Consume(opp, None, v.book.Of(opp), o.order.remaining).fills);
      var books := Act(f, Arrive(instrument, o)).books;
      var w := books[instrument];
      && Volume(w.book.Of(opp)) == Volume(v.book.Of(opp)) - taken
      && w.book.Of(o.side) == v.book.Of(o.side) && w.known == v.known
      && forall i | i in f.books && i != instrument :: i in books && books[i] == f.books[i]
  {
    var v, opp := f.books[instrument], o.side.Opposite();
    ConsumeTotals(opp, None, v.book.Of(opp), o.order.remaining);
  }

  /** What others give to fills whose made-up id is known. */
  function OthersListed(actor: Id, fills: seq<Fill>, known: set<Id>, k: nat): real {
    if fills == [] then 0.0
    else (if fills[0].maker.actor != actor && MarketId(k) in known then fills[0].quantity else 0.0)
         + OthersListed(actor, fills[1..], known, k + 1)
  }

  lemma {:induction false} NoneListed(actor: Id, fills: seq<Fill>, known: set<Id>, k: nat)
    requires forall n: nat :: MarketId(n) !in known
    ensures OthersListed(actor, fills, known, k) == 0.0 && OwnListed(actor, fills, known, k, Size) == 0.0
  {
    if fills != [] {
      NoneListed(actor, fills[1..], known, k + 1);
    }
  }

  /** The net quantity booked to an account for the trades of a market order. */
  lemma {:induction false} MarketTradesNet(side: Side, actor: Id, fills: seq<Fill>, instrument: Id, known: set<Id>,
                                           k: nat, id: Id, held: Id)
    requires forall f | f in fills :: f.maker.id in known
    ensures var net, own := NetBooked(id, known, MarketTrades(side, actor, fills, instrument, k), held),
                            TakenFrom(fills, id);
      && (held != instrument ==> net == 0.0)
      && (held == instrument && id != actor ==> net == if side == Buy then -own else own)
      && (held == instrument && id == actor && side == Buy ==>
            net == OwnListed(actor, fills, known, k, Size) + OthersListed(actor, fills, known, k))
      && (held == instrument && id == actor && side == Sell ==> net == own - OthersListed(actor, fills, known, k))
  {
    hide MarketId;
    if fills != [] {
      assert fills[0] in fills;
      MarketTradesNet(side, actor, fills[1..], instrument, known, k + 1, id, held);
      assert MarketTrades(side, actor, fills, instrument, k)[1..]
          == MarketTrades(side, actor, fills[1..], instrument, k + 1);
    }
  }

  /** A market order moves the positions of those whose orders it meets by twice what it takes from them; its own actor
      is booked only for made-up ids that happen to be known and, in a sale, for its own orders. With no such id known,
      a buy leaves its actor's position where it was. */
  lemma MarketArrivalPositions(f: Floor, instrument: Id, o: Incoming, id: Id, held: Id)
    requires OrderlyFloor(f) && instrument in f.books && o.kind == Market && id in f.accounts
    ensures Permitted(f, Arrive(instrument, o)) && id in Act(f, Arrive(instrument, o)).accounts
    ensures var v, opp, actor := f.books[instrument], o.side.Opposite(), o.order.actor;
      var fills := Consume(opp, None, v.book.Of(opp), o.order.remaining).fills;
      var after := Act(f, Arrive(instrument, o)).accounts;
      var moved := after[id].In(held).quantity - f.accounts[id].In(held).quantity;
      var own, others := OwnListed(actor, fills, v.known, 0, Size), OthersListed(actor, fills, v.known, 0);
      && (held != instrument ==> moved == 0.0)
      && (held == instrument && id != actor && o.side == Buy ==> moved == -2.0 * TakenFrom(fills, id))
      && (held == instrument && id != actor && o.side == Sell ==> moved == 2.0 * TakenFrom(fills, id))
      && (held == instrument && id == actor && o.side == Buy ==> moved == 2.0 * (own + others))
      && (held == instrument && id == actor && o.side == Sell ==>
            moved == 2.0 * (TakenFrom(fills, actor) - others))
      && ((forall n: nat :: MarketId(n) !in v.known) ==> own == 0.0 && others == 0.0)
  {
    var v, a, opp := f.books[instrument], Arrive(instrument, o), o.side.Opposite();
    var fills := Consume(opp, None, v.book.Of(opp), o.order.remaining).fills;
    ConsumeIds(opp, None, v.book.Of(opp), o.order.remaining, v.known);
    assert Made(f, a) == MarketTrades(o.side, o.order.actor, fills, instrument, 0) && KnownThen(f, a) == v.known;
    hide Act, Made, KnownThen, OrderlyFloor, NetBooked, TakenFrom, OwnListed, OthersListed, MarketId;
    ActMoves(f, a, id, held);
    MarketTradesNet(o.side, o.order.actor, fills, instrument, v.known, 0, id, held);
    if forall n: nat :: MarketId(n) !in v.known {
      NoneListed(o.order.actor, fills, v.known, 0);
    }
  }
}
