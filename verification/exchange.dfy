/** The exchange object: sessions, and trades booked to the members (engine/src/exchange.cpp). Its methods are
    actions on the floor of Floors. */
module Exchanges {
  import opened Orders
  import opened PriceTime
  import opened Submission
  import opened Runs
  import opened Accounts
  import opened Delivery
  import opened Venues
  import opened Floors

  // ---- One account ----

  /** What a list of deliveries makes of one account. */
  function DeliveredAll(id: Id, l: Ledger, known: set<Id>, trades: seq<Trade>): Ledger
    requires Sound(trades)
    decreases |trades|
  {
    if trades == [] then l else DeliveredAll(id, Delivered(id, l, known, trades[0]), known, trades[1..])
  }

  lemma {:induction false} DeliveredAllAppend(id: Id, l: Ledger, known: set<Id>, trades: seq<Trade>, t: Trade)
    requires Sound(trades) && t.quantity >= 0.0
    ensures Sound(trades + [t])
    ensures DeliveredAll(id, l, known, trades + [t]) == Delivered(id, DeliveredAll(id, l, known, trades), known, t)
    decreases |trades|
  {
    if trades == [] {
      assert trades + [t] == [t];
      assert DeliveredAll(id, Delivered(id, l, known, t), known, [t][1..]) == Delivered(id, l, known, t);
    } else {
      assert (trades + [t])[1..] == trades[1..] + [t];
      DeliveredAllAppend(id, Delivered(id, l, known, trades[0]), known, trades[1..], t);
    }
  }

  /** The last trade of each instrument, after some more. */
  function Latest(last: map<Id, Trade>, trades: seq<Trade>): map<Id, Trade> {
    if trades == [] then last
    else Latest(last, trades[..|trades| - 1])[trades[|trades| - 1].instrument := trades[|trades| - 1]]
  }

  lemma {:induction false} LatestConcat(last: map<Id, Trade>, a: seq<Trade>, b: seq<Trade>)
    ensures Latest(last, a + b) == Latest(Latest(last, a), b)
  {
    if b == [] {
      assert a + b == a;
    } else {
      assert (a + b)[..|a + b| - 1] == a + b[..|b| - 1];
      LatestConcat(last, a, b[..|b| - 1]);
    }
  }

  /** An instrument's last trade is the last of the trades in it, if there are any, and what it was otherwise. */
  lemma {:induction false} LatestIsLast(last: map<Id, Trade>, trades: seq<Trade>, k: nat)
    requires k < |trades| && forall j | k < j < |trades| :: trades[j].instrument != trades[k].instrument
    ensures trades[k].instrument in Latest(last, trades) && Latest(last, trades)[trades[k].instrument] == trades[k]
    decreases |trades|
  {
    if k < |trades| - 1 {
      LatestIsLast(last, trades[..|trades| - 1], k);
    }
  }

  lemma {:induction false} LatestStays(last: map<Id, Trade>, trades: seq<Trade>, instrument: Id)
    requires forall t | t in trades :: t.instrument != instrument
    ensures instrument in Latest(last, trades) <==> instrument in last
    ensures instrument in last ==> Latest(last, trades)[instrument] == last[instrument]
  {
    if trades != [] {
      LatestStays(last, trades[..|trades| - 1], instrument);
    }
  }

  /** The deliveries to single accounts are the delivery to all of them. */
  lemma {:induction false} DeliveredOneByOne(accounts: map<Id, Ledger>, known: set<Id>, trades: seq<Trade>)
    requires Sound(trades)
    ensures DeliverAll(accounts, known, trades).Keys == accounts.Keys
    ensures forall id | id in accounts ::
        DeliverAll(accounts, known, trades)[id] == DeliveredAll(id, accounts[id], known, trades)
    decreases |trades|
  {
    if trades != [] {
      DeliveredOneByOne(Deliver(accounts, known, trades[0]), known, trades[1..]);
    }
  }

  lemma {:induction false} DeliveredAllConcat(id: Id, l: Ledger, known: set<Id>, a: seq<Trade>, b: seq<Trade>)
    requires Sound(a) && Sound(b)
    ensures Sound(a + b)
    ensures DeliveredAll(id, l, known, a + b) == DeliveredAll(id, DeliveredAll(id, l, known, a), known, b)
    decreases |a|
  {
    if a == [] {
      assert a + b == b;
    } else {
      assert (a + b)[1..] == a[1..] + b;
      DeliveredAllConcat(id, Delivered(id, l, known, a[0]), known, a[1..], b);
    }
  }

  lemma SameAccounts(a: map<Id, Ledger>, b: map<Id, Ledger>)
    requires a.Keys == b.Keys && forall id | id in a :: a[id] == b[id]
    ensures a == b
  {
  }

  lemma UnknownStays(v: Venue, id: Id)
    requires Orderly(v) && id !in v.known
    ensures AfterCancel(v, id) == v
  {
    WithoutAbsent(v.book.bids, id);
    WithoutAbsent(v.book.asks, id);
  }

  // ---- The exchange object ----

  class Exchange {
    const id: Id
    const actors: seq<Actor>
    var books: map<Id, Venue>
    var isTradingOpen: bool
    var lastTrades: map<Id, Trade>

    constructor (id: Id, actors: seq<Actor>)
      requires forall i, j | 0 <= i < j < |actors| :: actors[i].id != actors[j].id
      ensures Valid() && books == map[] && !isTradingOpen && this.actors == actors
    {
      this.id, this.actors := id, actors;
      books, isTradingOpen, lastTrades := map[], false, map[];
    }

    /** Every book is at rest, and accounts have distinct names. */
    ghost predicate Valid()
      reads this
    {
      && (forall instrument | instrument in books :: Orderly(books[instrument]))
      && (forall i, j | 0 <= i < j < |actors| :: actors[i].id != actors[j].id)
    }

    /** The accounts of the members, by name. */
    ghost function Accounts(): (accounts: map<Id, Ledger>)
      requires Valid()
      reads this, actors
      ensures forall i | 0 <= i < |actors| :: actors[i].id in accounts && accounts[actors[i].id] == actors[i].Books()
      ensures forall id | id in accounts :: exists i :: 0 <= i < |actors| && actors[i].id == id
    {
      map i | 0 <= i < |actors| :: actors[i].id := actors[i].Books()
    }

    ghost function OnFloor(): Floor
      requires Valid()
      reads this, actors
    {
      Floor(books, Accounts())
    }

    /** Lists an instrument; with a positive initial price its book is seeded on both sides. */
    method AddInstrument(instrument: Id, initialPrice: real)
      requires Valid()
      modifies this
      ensures Valid() && isTradingOpen == old(isTradingOpen)
      ensures books.Keys == old(books).Keys + {instrument}
      ensures books[instrument] == if initialPrice > 0.0
        then Venue(Seeded(instrument, initialPrice, 5), SeedIds(instrument, 5)) else Venue(Book([], []), {})
      ensures lastTrades == if initialPrice > 0.0
        then old(lastTrades)[instrument := SeedTrade(instrument, initialPrice)] else old(lastTrades)
      ensures forall i | i in old(books) && i != instrument :: books[i] == old(books)[i]
    {
      var venue := Venue(Book([], []), {});
      assert Orderly(venue);
      if initialPrice > 0.0 {
        var i := 0;
        while i < 5
          invariant 0 <= i <= 5 && venue == Venue(Seeded(instrument, initialPrice, i), SeedIds(instrument, i))
          invariant unchanged(this)
          invariant Orderly(venue)
        {
          var bid, ask := Seed(Buy, instrument, initialPrice, i), Seed(Sell, instrument, initialPrice, i);
          SeedingRests(instrument, initialPrice, i + 1);
          PlaceKeepsIds(Buy, venue.book.bids, bid);
          PlaceKeepsIds(Sell, venue.book.asks, ask);
          venue := Venue(Book(Place(Buy, venue.book.bids, bid), Place(Sell, venue.book.asks, ask)),
                         venue.known + {bid.id, ask.id});
          i := i + 1;
        }
        lastTrades := lastTrades[instrument := SeedTrade(instrument, initialPrice)];
      }
      books := books[instrument := venue];
    }

    /** Books a trade to the accounts of its parties. */
    method ProcessTrade(trade: Trade, known: set<Id>)
      requires Valid() && trade.quantity >= 0.0
      modifies this`lastTrades, actors
      ensures Valid() && lastTrades == old(lastTrades)[trade.instrument := trade]
      ensures forall i | 0 <= i < |actors| ::
          actors[i].Books() == Delivered(actors[i].id, old(actors[i].Books()), known, trade)
    {
      hide Booked, Stake;
      lastTrades := lastTrades[trade.instrument := trade];
      var i := 0;
      while i < |actors|
        invariant 0 <= i <= |actors| && Valid() && lastTrades == old(lastTrades)[trade.instrument := trade]
        invariant forall j | 0 <= j < i ::
            actors[j].Books() == Delivered(actors[j].id, old(actors[j].Books()), known, trade)
        invariant forall j | i <= j < |actors| :: actors[j].Books() == old(actors[j].Books())
      {
        var actor := actors[i];
        if actor.id == trade.buyerId || actor.id == trade.sellerId {
          var orderId := if actor.id == trade.buyerId then trade.buyOrderId else trade.sellOrderId;
          if orderId in known {
            actor.UpdatePosition(trade);
          }
        }
        i := i + 1;
      }
    }

    method ProcessTrades(trades: seq<Trade>, known: set<Id>)
      requires Valid() && Sound(trades)
      modifies this`lastTrades, actors
      ensures Valid() && lastTrades == Latest(old(lastTrades), trades)
      ensures forall i | 0 <= i < |actors| ::
          actors[i].Books() == DeliveredAll(actors[i].id, old(actors[i].Books()), known, trades)
    {
      hide Delivered;
      var k := 0;
      while k < |trades|
        invariant 0 <= k <= |trades| && Valid() && Sound(trades[..k])
        invariant lastTrades == Latest(old(lastTrades), trades[..k])
        invariant forall i | 0 <= i < |actors| ::
          actors[i].Books() == DeliveredAll(actors[i].id, old(actors[i].Books()), known, trades[..k])
      {
        assert trades[k] in trades && trades[..k + 1] == trades[..k] + [trades[k]];
        forall i | 0 <= i < |actors|
          ensures DeliveredAll(actors[i].id, old(actors[i].Books()), known, trades[..k + 1])
               == Delivered(actors[i].id, DeliveredAll(actors[i].id, old(actors[i].Books()), known, trades[..k]),
                            known, trades[k])
        {
          DeliveredAllAppend(actors[i].id, old(actors[i].Books()), known, trades[..k], trades[k]);
        }
        assert trades[..k + 1][..k] == trades[..k];
        ProcessTrade(trades[k], known);
        k := k + 1;
      }
      assert trades[..k] == trades;
    }

    /** An order arrives. While trading is closed, or for an unknown instrument, it is rejected with a notice
        of zero quantity; otherwise the book processes it and every trade is delivered twice, once by the
        matching engine's callback and once by the loop over its result. */
    method ProcessOrderSubmission(instrument: Id, o: Incoming, actorId: Id) returns (accepted: bool, trades: seq<Trade>)
      requires Valid()
      requires isTradingOpen && instrument in books ==> Acceptable(books[instrument], o)
      modifies this, actors
      ensures Valid() && isTradingOpen == old(isTradingOpen)
      ensures accepted <==> isTradingOpen && instrument in old(books) && Supported(o.kind)
      ensures var action := if isTradingOpen && instrument in old(books) then Arrive(instrument, o)
                            else Notice(actorId, Rejection(o, instrument, actorId));
        && old(OrderlyFloor(OnFloor())) && old(Permitted(OnFloor(), action))
        && OnFloor() == Act(old(OnFloor()), action)
        && trades == Made(old(OnFloor()), action) && lastTrades == Latest(old(lastTrades), trades + trades)
    {
      hide AtRest, SubmitLimit, SubmitMarket, Booked, Acceptable, Orderly;
      ghost var floor := OnFloor();
      if !isTradingOpen || instrument !in books {
        Notify(actorId, Rejection(o, instrument, actorId));
        return false, [];
      }
      var venue := books[instrument];
      MadeIsSound(floor, Arrive(instrument, o));
      ProcessingKeeps(venue, o, instrument);
      var result := Processed(venue, o, instrument);
      trades := result.1;
      books := books[instrument := result.0];
      accepted := Supported(o.kind);
      ProcessTrades(trades, result.0.known);
      ProcessTrades(trades, result.0.known);
      LatestConcat(old(lastTrades), trades, trades);
      forall i | 0 <= i < |actors|
        ensures actors[i].Books() == DeliveredAll(actors[i].id, old(actors[i].Books()), result.0.known, trades + trades)
      {
        DeliveredAllConcat(actors[i].id, old(actors[i].Books()), result.0.known, trades, trades);
      }
      DeliveredOneByOne(floor.accounts, result.0.known, trades + trades);
      SameAccounts(Accounts(), DeliverAll(floor.accounts, result.0.known, trades + trades));
    }

    /** A notice, as a trade of zero quantity, to the first account with the given name. */
    method Notify(actorId: Id, notice: Trade)
      requires Valid() && notice.quantity == 0.0
      modifies actors
      ensures Valid() && Accounts() == NotifyAll(old(Accounts()), actorId, notice)
    {
      hide Booked, Stake, Orderly;
      var i := 0;
      while i < |actors| && actors[i].id != actorId
        invariant 0 <= i <= |actors|
        invariant forall j | 0 <= j < i :: actors[j].id != actorId
      {
        i := i + 1;
      }
      if i < |actors| {
        actors[i].UpdatePosition(notice);
      }
      assert forall j | 0 <= j < |actors| ::
        actors[j].Books() == Notified(actors[j].id, old(actors[j].Books()), actorId, notice);
      SameAccounts(Accounts(), NotifyAll(old(Accounts()), actorId, notice));
    }

    /** A cancellation is tried on one book after the other, until one has the order resting; the books
        tried before forget the id. */
    method ProcessOrderCancellation(orderId: Id, actorId: Id) returns (found: bool, ghost tried: set<Id>, ghost at: Id)
      requires Valid()
      modifies this`books, actors
      ensures Valid()
      ensures found <==> exists instrument :: instrument in old(books) && Resting(old(books)[instrument].book, orderId)
      ensures found ==> at in tried && at in old(books) && Resting(old(books)[at].book, orderId)
      ensures found ==> forall i | i in old(books) && i in tried && i != at :: !Resting(old(books)[i].book, orderId)
      ensures old(OrderlyFloor(OnFloor()))
      ensures books == Withdrawn(old(books), tried, orderId)
      ensures Accounts() ==
          if found then NotifyAll(old(Accounts()), actorId, Cancellation(orderId, at, actorId))
          else old(Accounts())
      ensures var withdrawn := Act(old(OnFloor()), Withdraw(tried, orderId));
        && OrderlyFloor(withdrawn)
        && OnFloor() == if found then Act(withdrawn, Notice(actorId, Cancellation(orderId, at, actorId))) else withdrawn
    {
      hide AtRest, Booked, Orderly, Resting, Withdrawn, NotifyAll, Accounts;
      ghost var floor := OnFloor();
      var instrument;
      found, instrument, tried := WithdrawOrder(orderId);
      at := instrument;
      SameAccounts(Accounts(), floor.accounts);
      ActKeeps(floor, Withdraw(tried, orderId));
      if found {
        Notify(actorId, Cancellation(orderId, instrument, actorId));
      }
    }

    /** The loop over the books: the first that has the order resting ends it. */
    method WithdrawOrder(orderId: Id) returns (found: bool, instrument: Id, ghost tried: set<Id>)
      requires Valid()
      modifies this`books
      ensures Valid() && books == Withdrawn(old(books), tried, orderId)
      ensures found <==> exists i :: i in old(books) && Resting(old(books)[i].book, orderId)
      ensures found ==> instrument in tried && instrument in old(books) && Resting(old(books)[instrument].book, orderId)
      ensures found ==> forall i | i in old(books) && i in tried && i != instrument ::
          !Resting(old(books)[i].book, orderId)
    {
      hide AtRest, Orderly, Resting;
      instrument, tried := orderId, {};
      var rest := books.Keys;
      while rest != {}
        invariant rest <= books.Keys == old(books).Keys && tried == books.Keys - rest && Valid()
        invariant books == Withdrawn(old(books), tried, orderId)
        invariant forall i | i in tried :: !Resting(old(books)[i].book, orderId)
        decreases rest
      {
        instrument :| instrument in rest;
        var venue := books[instrument];
        rest, tried := rest - {instrument}, tried + {instrument};
        if orderId in venue.known {
          CancelingKeeps(venue, orderId);
          books := books[instrument := AfterCancel(venue, orderId)];
          if IsResting(venue.book, orderId) {
            return true, instrument, tried;
          }
        } else {
          UnknownNotResting(venue, orderId);
          UnknownStays(venue, orderId);
        }
      }
      found := false;
    }

    method OpenTradingSession()
      requires Valid()
      modifies this`isTradingOpen
      ensures Valid() && isTradingOpen && books == old(books)
    {
      isTradingOpen := true;
    }

    /** Closing cancels every order that any book knows, so all books end up empty. */
    method CloseTradingSession()
      requires Valid()
      modifies this`isTradingOpen, this`books
      ensures Valid() && !isTradingOpen && books.Keys == old(books).Keys
      ensures forall instrument | instrument in books :: books[instrument] == Venue(Book([], []), {})
    {
      hide Orderly;
      EmptyOrderly();
      isTradingOpen := false;
      var rest := books.Keys;
      while rest != {}
        invariant rest <= books.Keys == old(books).Keys && Valid() && !isTradingOpen
        invariant forall instrument | instrument in books - rest :: books[instrument] == Venue(Book([], []), {})
        decreases rest
      {
        var instrument :| instrument in rest;
        var venue := CancelAll(books[instrument]);
        books := books[instrument := venue];
        rest := rest - {instrument};
      }
    }
  }
}
