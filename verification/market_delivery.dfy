/** Delivering the trades of market orders: the taker goes by a made-up id, which the book does not know
    (engine/src/exchange.cpp:544-564, engine/src/order_book.cpp:222-237). */
module MarketDelivery {
  import opened Orders
  import opened PriceTime
  import opened Submission
  import opened Accounts
  import opened Delivery

  /** The fills are of orders of members that the book knows. */
  ghost predicate KnownMakers(members: set<Id>, known: set<Id>, fills: seq<Fill>) {
    forall f | f in fills :: f.quantity > 0.0 && f.maker.actor in members && f.maker.id in known
  }

  /** The id made up for the taker of each fill is one the book knows. */
  predicate TakerKnown(fills: seq<Fill>, known: set<Id>, k: nat) {
    forall n: nat | k <= n < k + |fills| :: MarketId(n) in known
  }

  predicate OwnOrder(fills: seq<Fill>, actor: Id) {
    exists f :: f in fills && f.maker.actor == actor
  }

  /** What the delivery of one fill adds to all accounts together. The resting side is always booked, except the
      seller of a trade with itself; the taker is booked if its made-up id happens to be known. */
  function Added(side: Side, own: bool, listed: bool, x: real): real {
    if side == Buy then if own == listed then (if own then x else -x) else 0.0
    else if own || !listed then x else 0.0
  }

  function AddedByAll(side: Side, actor: Id, fills: seq<Fill>, known: set<Id>, k: nat, moves: Fill -> real): real {
    if fills == [] then 0.0
    else Added(side, fills[0].maker.actor == actor, MarketId(k) in known, moves(fills[0]))
         + AddedByAll(side, actor, fills[1..], known, k + 1, moves)
  }

  function Size(f: Fill): real { f.quantity }

  function Price(f: Fill): real { f.quantity * f.maker.price }

  lemma {:induction false} MarketUnbalanced(members: set<Id>, known: set<Id>, side: Side, actor: Id, fills: seq<Fill>,
                                            instrument: Id, k: nat)
    requires actor in members && KnownMakers(members, known, fills)
    ensures var t := MarketTrades(side, actor, fills, instrument, k);
      && Sound(t)
      && Unbalanced(members, known, t, Units(instrument)) == AddedByAll(side, actor, fills, known, k, Size)
      && Unbalanced(members, known, t, Paid) == AddedByAll(side, actor, fills, known, k, Price)
  {
    hide Legs, Added, Units, Paid, Size, Price, MarketTrade;
    if fills != [] {
      assert fills[0] in fills;
      OneMarketTrade(members, known, side, actor, fills[0], instrument, k);
      MarketUnbalanced(members, known, side, actor, fills[1..], instrument, k + 1);
      var t := MarketTrades(side, actor, fills, instrument, k);
      assert t[1..] == MarketTrades(side, actor, fills[1..], instrument, k + 1);
    }
  }

  lemma OneMarketTrade(members: set<Id>, known: set<Id>, side: Side, actor: Id, f: Fill, instrument: Id, k: nat)
    requires actor in members && f.maker.actor in members && f.maker.id in known
    ensures
      var t, own, listed := MarketTrade(side, actor, f, instrument, k), f.maker.actor == actor, MarketId(k) in known;
      && t.quantity == f.quantity
      && Legs(members, known, t, Units(instrument)(t)) == Added(side, own, listed, Size(f))
      && Legs(members, known, t, Paid(t)) == Added(side, own, listed, Price(f))
  {
  }

  /**
    * Without own orders among the fills, what is added is what goes under unknown ids, and nothing exactly
    * if all are known.
    */
  lemma {:induction false} AddedForOthers(side: Side, actor: Id, fills: seq<Fill>, known: set<Id>, k: nat,
          moves: Fill -> real)
    requires !OwnOrder(fills, actor) && forall f | f in fills :: moves(f) > 0.0
    ensures var x := AddedByAll(side, actor, fills, known, k, moves);
      && (if side == Buy then x <= 0.0 else x >= 0.0)
      && (x == 0.0 <==> TakerKnown(fills, known, k))
  {
    if fills != [] {
      assert fills[0] in fills;
      forall f | f in fills[1..] ensures f.maker.actor != actor {
        assert f in fills;
      }
      AddedForOthers(side, actor, fills[1..], known, k + 1, moves);
      TakerKnownTail(fills, known, k);
    }
  }

  lemma TakerKnownTail(fills: seq<Fill>, known: set<Id>, k: nat)
    requires fills != []
    ensures TakerKnown(fills, known, k) <==> MarketId(k) in known && TakerKnown(fills[1..], known, k + 1)
  {
  }

  /** A sale adds nothing exactly if all ids are known and no own order is among the fills. */
  lemma {:induction false} AddedBySale(actor: Id, fills: seq<Fill>, known: set<Id>, k: nat, moves: Fill -> real)
    requires forall f | f in fills :: moves(f) > 0.0
    ensures var x := AddedByAll(Sell, actor, fills, known, k, moves);
      x >= 0.0 && (x == 0.0 <==> TakerKnown(fills, known, k) && !OwnOrder(fills, actor))
  {
    if fills != [] {
      assert fills[0] in fills;
      AddedBySale(actor, fills[1..], known, k + 1, moves);
      TakerKnownTail(fills, known, k);
      assert OwnOrder(fills, actor) <==> fills[0].maker.actor == actor || OwnOrder(fills[1..], actor) by {
        if f :| f in fills[1..] && f.maker.actor == actor { assert f in fills; }
      }
    }
  }

  lemma {:induction false} NobodyKnown(side: Side, actor: Id, fills: seq<Fill>, known: set<Id>, k: nat)
    requires !OwnOrder(fills, actor) && forall n: nat :: MarketId(n) !in known
    ensures AddedByAll(side, actor, fills, known, k, Size) == if side == Buy then -Taken(fills) else Taken(fills)
  {
    if fills != [] {
      assert fills[0] in fills;
      forall f | f in fills[1..] ensures f.maker.actor != actor {
        assert f in fills;
      }
      NobodyKnown(side, actor, fills[1..], known, k + 1);
    }
  }

  /** What own orders among the fills give under known ids, and what others give under unknown ones. */
  function OwnListed(actor: Id, fills: seq<Fill>, known: set<Id>, k: nat, moves: Fill -> real): real {
    if fills == [] then 0.0
    else (if fills[0].maker.actor == actor && MarketId(k) in known then moves(fills[0]) else 0.0)
         + OwnListed(actor, fills[1..], known, k + 1, moves)
  }

  function OthersUnlisted(actor: Id, fills: seq<Fill>, known: set<Id>, k: nat, moves: Fill -> real): real {
    if fills == [] then 0.0
    else (if fills[0].maker.actor != actor && MarketId(k) !in known then moves(fills[0]) else 0.0)
         + OthersUnlisted(actor, fills[1..], known, k + 1, moves)
  }

  lemma {:induction false} AddedByBuy(actor: Id, fills: seq<Fill>, known: set<Id>, k: nat, moves: Fill -> real)
    ensures AddedByAll(Buy, actor, fills, known, k, moves)
         == OwnListed(actor, fills, known, k, moves) - OthersUnlisted(actor, fills, known, k, moves)
  {
    if fills != [] {
      AddedByBuy(actor, fills[1..], known, k + 1, moves);
    }
  }

  /** The deliveries of a sale balance if all its made-up ids are known and it meets no own order; those of a buy, if
      what is booked twice for own orders makes up for what is not booked for others. */
  predicate Balances(side: Side, actor: Id, fills: seq<Fill>, known: set<Id>, k: nat, moves: Fill -> real) {
    if side == Sell then TakerKnown(fills, known, k) && !OwnOrder(fills, actor)
    else OwnListed(actor, fills, known, k, moves) == OthersUnlisted(actor, fills, known, k, moves)
  }

  lemma NothingAddedIff(side: Side, actor: Id, fills: seq<Fill>, known: set<Id>, k: nat, moves: Fill -> real)
    requires side == Sell ==> forall f | f in fills :: moves(f) > 0.0
    ensures AddedByAll(side, actor, fills, known, k, moves) == 0.0 <==> Balances(side, actor, fills, known, k, moves)
  {
    if side == Sell {
      AddedBySale(actor, fills, known, k, moves);
    } else {
      AddedByBuy(actor, fills, known, k, moves);
    }
  }

  /** What the trades of a market order add up to is nothing exactly if they balance. */
  lemma AddedByMarket(members: set<Id>, known: set<Id>, side: Side, actor: Id, fills: seq<Fill>)
    requires KnownMakers(members, known, fills)
    ensures AddedByAll(side, actor, fills, known, 0, Size) == 0.0 <==> Balances(side, actor, fills, known, 0, Size)
    ensures side == Buy || (forall f | f in fills :: f.maker.price > 0.0) ==>
      (AddedByAll(side, actor, fills, known, 0, Price) == 0.0 <==> Balances(side, actor, fills, known, 0, Price))
    ensures !OwnOrder(fills, actor) ==> (Balances(side, actor, fills, known, 0, Size) <==> TakerKnown(fills, known, 0))
    ensures !OwnOrder(fills, actor) ==> (forall n: nat :: MarketId(n) !in known) ==>
      AddedByAll(side, actor, fills, known, 0, Size) == if side == Buy then -Taken(fills) else Taken(fills)
  {
    hide OwnOrder, TakerKnown, AddedByAll, Balances;
    NothingAddedIff(side, actor, fills, known, 0, Size);
    if side == Buy || forall f | f in fills :: f.maker.price > 0.0 {
      forall f | f in fills && side == Sell ensures Price(f) > 0.0 {
        PositivePrice(f);
      }
      NothingAddedIff(side, actor, fills, known, 0, Price);
    }
    if !OwnOrder(fills, actor) {
      AddedForOthers(side, actor, fills, known, 0, Size);
      if forall n: nat :: MarketId(n) !in known {
        NobodyKnown(side, actor, fills, known, 0);
      }
    }
  }

  /** Delivering a market order of a member, filled by orders of members, moves the totals by exactly what the
      missing legs leave over; so they are conserved if and only if the deliveries balance, which, as long as the
      member does not meet its own orders, is if and only if every id made up for the taker happens to be known. With
      no such id known, a buy loses, and a sale creates, all that was traded. */
  lemma MarketConservation(accounts: map<Id, Ledger>, known: set<Id>, side: Side, actor: Id, fills: seq<Fill>,
                           instrument: Id)
    requires actor in accounts && KnownMakers(accounts.Keys, known, fills)
    ensures var t := MarketTrades(side, actor, fills, instrument, 0);
      Sound(t) && var a := DeliverAll(accounts, known, t);
      var gained, paid := Quantity(a, instrument) - Quantity(accounts, instrument), Capital(accounts) - Capital(a);
      && gained == AddedByAll(side, actor, fills, known, 0, Size)
      && paid == AddedByAll(side, actor, fills, known, 0, Price)
      && (gained == 0.0 <==> Balances(side, actor, fills, known, 0, Size))
      && (side == Buy || (forall f | f in fills :: f.maker.price > 0.0) ==>
            (paid == 0.0 <==> Balances(side, actor, fills, known, 0, Price)))
      && (!OwnOrder(fills, actor) ==> (gained == 0.0 <==> TakerKnown(fills, known, 0)))
      && (!OwnOrder(fills, actor) ==> (forall n: nat :: MarketId(n) !in known) ==>
            gained == if side == Buy then -Taken(fills) else Taken(fills))
  {
    hide Capital, Quantity, DeliverAll, OwnOrder, TakerKnown, AddedByAll, Balances;
    MarketUnbalanced(accounts.Keys, known, side, actor, fills, instrument, 0);
    TotalsMove(accounts, known, MarketTrades(side, actor, fills, instrument, 0), instrument);
    AddedByMarket(accounts.Keys, known, side, actor, fills);
  }

  lemma PositivePrice(f: Fill)
    requires f.quantity > 0.0 && f.maker.price > 0.0
    ensures Price(f) > 0.0
  {
  }

  /** The smallest breach: a market buy of one unit, after which one unit is missing. */
  lemma MarketBuyLoses(instrument: Id)
    ensures var maker := Entry(Id("a"), Id("seller"), 1.0, 1.0);
      var accounts := map[Id("buyer") := Ledger(0.0, map[]), Id("seller") := Ledger(0.0, map[])];
      var t := MarketTrades(Buy, Id("buyer"), [Fill(maker, 1.0)], instrument, 0);
      && Sound(t)
      && Quantity(DeliverAll(accounts, {maker.id}, t), instrument) == Quantity(accounts, instrument) - 1.0
  {
    var maker := Entry(Id("a"), Id("seller"), 1.0, 1.0);
    var accounts := map[Id("buyer") := Ledger(0.0, map[]), Id("seller") := Ledger(0.0, map[])];
    var fills := [Fill(maker, 1.0)];
    assert maker.actor != Id("buyer") by {
      assert "seller"[0] != "buyer"[0];
    }
    assert forall n: nat :: MarketId(n) != maker.id by {
      forall n: nat ensures MarketId(n) != maker.id {
        assert |MarketId(n).text| > 1;
      }
    }
    assert Taken(fills) == 1.0 + Taken(fills[1..]);
    MarketConservation(accounts, {maker.id}, Buy, Id("buyer"), fills, instrument);
  }
}
