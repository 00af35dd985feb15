/** Delivering trades to the accounts (engine/src/exchange.cpp:318-320, 537-565): who is booked, and when
    money and instruments are conserved. */
module Delivery {
  import opened Orders
  import opened Accounts

  /** A party is booked if it has an account and its order is known to the book; an account that is both
      buyer and seller is booked as the buyer only. */
  predicate BuyerBooked(members: set<Id>, known: set<Id>, t: Trade) {
    t.buyerId in members && t.buyOrderId in known
  }

  predicate SellerBooked(members: set<Id>, known: set<Id>, t: Trade) {
    t.sellerId in members && t.sellerId != t.buyerId && t.sellOrderId in known
  }

  /** What the delivery of a trade makes of one account. */
  function Delivered(id: Id, l: Ledger, known: set<Id>, t: Trade): Ledger
    requires t.quantity >= 0.0
  {
    if id != t.buyerId && id != t.sellerId then l
    else if (if id == t.buyerId then t.buyOrderId else t.sellOrderId) in known then Booked(l, Buys(id, t), t)
    else l
  }

  function Deliver(accounts: map<Id, Ledger>, known: set<Id>, t: Trade): map<Id, Ledger>
    requires t.quantity >= 0.0
  {
    map id | id in accounts :: Delivered(id, accounts[id], known, t)
  }

  function DeliverAll(accounts: map<Id, Ledger>, known: set<Id>, trades: seq<Trade>): map<Id, Ledger>
    requires Sound(trades)
    decreases |trades|
  {
    if trades == [] then accounts else DeliverAll(Deliver(accounts, known, trades[0]), known, trades[1..])
  }

  // ---- Totals over all accounts ----

  ghost function CapitalOf(id: Id, l: Ledger): real { l.capital }

  ghost function QuantityOf(instrument: Id): (Id, Ledger) -> real {
    (id: Id, l: Ledger) => l.In(instrument).quantity
  }

  ghost function Capital(accounts: map<Id, Ledger>): real { Total(accounts, CapitalOf) }

  ghost function Quantity(accounts: map<Id, Ledger>, instrument: Id): real { Total(accounts, QuantityOf(instrument)) }

  /** What a trade moves: quantity of an instrument, or money. */
  function Units(instrument: Id): Trade -> real {
    (t: Trade) => if t.instrument == instrument then t.quantity else 0.0
  }

  function Paid(t: Trade): real { t.quantity * t.price }

  /** What a delivery adds to all accounts together: only a trade of which one leg is booked adds anything. */
  function Legs(members: set<Id>, known: set<Id>, t: Trade, x: real): real {
    var b, s := BuyerBooked(members, known, t), SellerBooked(members, known, t);
    if b == s then 0.0 else if b then x else -x
  }

  function Unbalanced(members: set<Id>, known: set<Id>, trades: seq<Trade>, moves: Trade -> real): real {
    if trades == [] then 0.0
    else Legs(members, known, trades[0], moves(trades[0])) + Unbalanced(members, known, trades[1..], moves)
  }

  lemma DeliverTouchesTwo(accounts: map<Id, Ledger>, known: set<Id>, t: Trade)
    requires t.quantity >= 0.0
    ensures var a := if BuyerBooked(accounts.Keys, known, t)
                     then accounts[t.buyerId := Booked(accounts[t.buyerId], true, t)] else accounts;
      Deliver(accounts, known, t) ==
        if SellerBooked(accounts.Keys, known, t) then a[t.sellerId := Booked(a[t.sellerId], false, t)] else a
  {
    hide Booked;
  }

  lemma BookingMoves(accounts: map<Id, Ledger>, id: Id, buys: bool, t: Trade, instrument: Id)
    requires id in accounts && t.quantity >= 0.0
    ensures var a := accounts[id := Booked(accounts[id], buys, t)];
      && Capital(a) == Capital(accounts) - (if buys then Paid(t) else -Paid(t))
      && Quantity(a, instrument) == Quantity(accounts, instrument)
           + if buys then Units(instrument)(t) else -Units(instrument)(t)
  {
    OneBookingMoves(accounts[id], buys, t, instrument);
    hide Booked, Nets, Paid, Units;
    TotalUpdate(accounts, id, Booked(accounts[id], buys, t), CapitalOf);
    TotalUpdate(accounts, id, Booked(accounts[id], buys, t), QuantityOf(instrument));
  }

  lemma OneBookingMoves(l: Ledger, buys: bool, t: Trade, instrument: Id)
    requires t.quantity >= 0.0
    ensures Booked(l, buys, t).capital == l.capital - if buys then Paid(t) else -Paid(t)
    ensures Booked(l, buys, t).In(instrument).quantity
         == l.In(instrument).quantity + if buys then Units(instrument)(t) else -Units(instrument)(t)
  {
    var q := BookingNets(l, buys, t);
    NetsQuantity(l.In(t.instrument), SignedFor(buys, t), t.price, q);
    SignedPaid(buys, t);
    hide Booked, Nets, Paid;
  }

  lemma SignedPaid(buys: bool, t: Trade)
    ensures SignedFor(buys, t) * t.price == if buys then Paid(t) else -Paid(t)
  {
  }

  /** A delivery moves the totals by exactly the booked legs of the trade. */
  lemma DeliveryMoves(accounts: map<Id, Ledger>, known: set<Id>, t: Trade, instrument: Id)
    requires t.quantity >= 0.0
    ensures var a := Deliver(accounts, known, t);
      && a.Keys == accounts.Keys
      && Capital(a) == Capital(accounts) - Legs(accounts.Keys, known, t, Paid(t))
      && Quantity(a, instrument) == Quantity(accounts, instrument) + Legs(accounts.Keys, known, t, Units(instrument)(t))
  {
    hide Booked, Deliver, Capital, Quantity, Paid, Units;
    DeliverTouchesTwo(accounts, known, t);
    if BuyerBooked(accounts.Keys, known, t) {
      BookingMoves(accounts, t.buyerId, true, t, instrument);
    }
    var a := if BuyerBooked(accounts.Keys, known, t)
             then accounts[t.buyerId := Booked(accounts[t.buyerId], true, t)] else accounts;
    if SellerBooked(accounts.Keys, known, t) {
      BookingMoves(a, t.sellerId, false, t, instrument);
    }
  }

  /** Any deliveries at all move the totals by exactly the legs that have no counterpart. */
  lemma {:induction false} TotalsMove(accounts: map<Id, Ledger>, known: set<Id>, trades: seq<Trade>, instrument: Id)
    requires Sound(trades)
    ensures var a := DeliverAll(accounts, known, trades);
      && a.Keys == accounts.Keys
      && Capital(a) == Capital(accounts) - Unbalanced(accounts.Keys, known, trades, Paid)
      && Quantity(a, instrument)
          == Quantity(accounts, instrument) + Unbalanced(accounts.Keys, known, trades, Units(instrument))
    decreases |trades|
  {
    hide Capital, Quantity, Paid, Units, Deliver, Legs;
    if trades != [] {
      DeliveryMoves(accounts, known, trades[0], instrument);
      TotalsMove(Deliver(accounts, known, trades[0]), known, trades[1..], instrument);
    }
  }

  lemma {:induction false} UnbalancedConcat(members: set<Id>, known: set<Id>, a: seq<Trade>, b: seq<Trade>,
          moves: Trade -> real)
    ensures Unbalanced(members, known, a + b, moves)
        == Unbalanced(members, known, a, moves) + Unbalanced(members, known, b, moves)
  {
    if a == [] {
      assert a + b == b;
    } else {
      assert (a + b)[1..] == a[1..] + b;
      UnbalancedConcat(members, known, a[1..], b, moves);
    }
  }

  // ---- Conservation among members ----

  /** Both parties have accounts and both orders are known, as for a trade between limit orders of members. */
  predicate Internal(members: set<Id>, known: set<Id>, t: Trade) {
    t.buyerId in members && t.sellerId in members && t.buyOrderId in known && t.sellOrderId in known
  }

  /** What parties have traded with themselves. */
  function SelfTraded(trades: seq<Trade>, moves: Trade -> real): real {
    if trades == [] then 0.0
    else (if trades[0].buyerId == trades[0].sellerId then moves(trades[0]) else 0.0) + SelfTraded(trades[1..], moves)
  }

  lemma {:induction false} InternalUnbalanced(members: set<Id>, known: set<Id>, trades: seq<Trade>,
          moves: Trade -> real)
    requires forall t | t in trades :: Internal(members, known, t)
    ensures Unbalanced(members, known, trades, moves) == SelfTraded(trades, moves)
  {
    if trades != [] {
      assert Internal(members, known, trades[0]);
      InternalUnbalanced(members, known, trades[1..], moves);
    }
  }

  lemma {:induction false} SelfTradedZero(trades: seq<Trade>, moves: Trade -> real)
    requires forall t | t in trades :: moves(t) >= 0.0
    ensures SelfTraded(trades, moves) >= 0.0
    ensures SelfTraded(trades, moves) == 0.0 <==> forall t | t in trades && t.buyerId == t.sellerId :: moves(t) == 0.0
  {
    if trades != [] {
      SelfTradedZero(trades[1..], moves);
      assert forall t :: t in trades <==> t == trades[0] || t in trades[1..];
    }
  }

  lemma {:induction false} SelfTradedConcat(a: seq<Trade>, b: seq<Trade>, moves: Trade -> real)
    ensures SelfTraded(a + b, moves) == SelfTraded(a, moves) + SelfTraded(b, moves)
  {
    if a == [] {
      assert a + b == b;
    } else {
      assert (a + b)[1..] == a[1..] + b;
      SelfTradedConcat(a[1..], b, moves);
    }
  }

  ghost predicate NoSelfTrade(trades: seq<Trade>) {
    forall t | t in trades :: t.buyerId != t.sellerId
  }

  ghost predicate NoSelfTradeIn(trades: seq<Trade>, instrument: Id) {
    forall t | t in trades && t.instrument == instrument :: t.buyerId != t.sellerId
  }

  /** Nothing of an instrument, and no money, has been traded with itself exactly if nobody has dealt with himself. */
  lemma NothingSelfTraded(trades: seq<Trade>, instrument: Id)
    requires forall t | t in trades :: t.quantity > 0.0
    ensures SelfTraded(trades, Units(instrument)) == 0.0 <==> NoSelfTradeIn(trades, instrument)
    ensures NoSelfTrade(trades) ==> SelfTraded(trades, Paid) == 0.0
    ensures (forall t | t in trades :: t.price > 0.0) ==> (SelfTraded(trades, Paid) == 0.0 <==> NoSelfTrade(trades))
  {
    SelfTradedZero(trades, Units(instrument));
    if NoSelfTrade(trades) {
      NoneSelfTraded(trades, Paid);
    }
    if forall t | t in trades :: t.price > 0.0 {
      forall t | t in trades ensures Paid(t) > 0.0 {
        PositivePayment(t);
      }
      SelfTradedZero(trades, Paid);
    }
  }

  lemma PositivePayment(t: Trade)
    requires t.quantity > 0.0 && t.price > 0.0
    ensures Paid(t) > 0.0
  {
  }

  lemma {:induction false} NoneSelfTraded(trades: seq<Trade>, moves: Trade -> real)
    requires NoSelfTrade(trades)
    ensures SelfTraded(trades, moves) == 0.0
  {
    if trades != [] {
      NoneSelfTraded(trades[1..], moves);
    }
  }

  /** Conservation: trades between limit orders of members keep the total quantity of an instrument exactly when
      nobody trades it with himself; at positive prices they keep the total capital exactly when nobody trades
      with himself at all. */
  lemma Conservation(accounts: map<Id, Ledger>, known: set<Id>, trades: seq<Trade>, instrument: Id)
    requires forall t | t in trades :: t.quantity > 0.0 && Internal(accounts.Keys, known, t)
    ensures var a := DeliverAll(accounts, known, trades);
      && (Quantity(a, instrument) == Quantity(accounts, instrument) <==> NoSelfTradeIn(trades, instrument))
      && (NoSelfTrade(trades) ==> Capital(a) == Capital(accounts))
      && ((forall t | t in trades :: t.price > 0.0) ==> (Capital(a) == Capital(accounts) <==> NoSelfTrade(trades)))
  {
    hide Capital, Quantity, Paid, Units, DeliverAll, NoSelfTrade, NoSelfTradeIn;
    TotalsMove(accounts, known, trades, instrument);
    InternalUnbalanced(accounts.Keys, known, trades, Units(instrument));
    InternalUnbalanced(accounts.Keys, known, trades, Paid);
    NothingSelfTraded(trades, instrument);
  }

  /** The smallest breach: an account that sells to itself is booked as the buyer alone. */
  lemma SelfTradeCreates(id: Id, order: Id, counter: Id, instrument: Id)
    ensures var t := Trade(order, counter, instrument, 1.0, 1.0, id, id);
      Deliver(map[id := Ledger(0.0, map[])], {order, counter}, t)[id].In(instrument).quantity == 1.0
  {
  }

  // ---- Every trade is delivered twice ----

  /** The net quantity of an instrument that an account has traded under orders the book knows. */
  function NetBooked(id: Id, known: set<Id>, trades: seq<Trade>, instrument: Id): real {
    if trades == [] then 0.0
    else BookedIn(id, known, trades[0], instrument) + NetBooked(id, known, trades[1..], instrument)
  }

  function BookedIn(id: Id, known: set<Id>, t: Trade, instrument: Id): real {
    if t.instrument != instrument then 0.0
    else if id == t.buyerId then if t.buyOrderId in known then t.quantity else 0.0
    else if id == t.sellerId && t.sellOrderId in known then -t.quantity
    else 0.0
  }

  /** The net quantity of an instrument that an account has traded. */
  function NetTraded(id: Id, trades: seq<Trade>, instrument: Id): real {
    if trades == [] then 0.0
    else
      (if trades[0].instrument == instrument && (id == trades[0].buyerId || id == trades[0].sellerId)
       then SignedFor(Buys(id, trades[0]), trades[0]) else 0.0)
      + NetTraded(id, trades[1..], instrument)
  }

  lemma {:induction false} AllBooked(id: Id, known: set<Id>, trades: seq<Trade>, instrument: Id)
    requires forall t | t in trades :: t.buyOrderId in known && t.sellOrderId in known
    ensures NetBooked(id, known, trades, instrument) == NetTraded(id, trades, instrument)
  {
    if trades != [] {
      AllBooked(id, known, trades[1..], instrument);
    }
  }

  lemma {:induction false} NetTradedConcat(id: Id, a: seq<Trade>, b: seq<Trade>, instrument: Id)
    ensures NetTraded(id, a + b, instrument) == NetTraded(id, a, instrument) + NetTraded(id, b, instrument)
  {
    if a == [] {
      assert a + b == b;
    } else {
      assert (a + b)[1..] == a[1..] + b;
      NetTradedConcat(id, a[1..], b, instrument);
    }
  }

  lemma {:induction false} NetBookedConcat(id: Id, known: set<Id>, a: seq<Trade>, b: seq<Trade>, instrument: Id)
    ensures NetBooked(id, known, a + b, instrument)
        == NetBooked(id, known, a, instrument) + NetBooked(id, known, b, instrument)
  {
    if a == [] {
      assert a + b == b;
    } else {
      assert (a + b)[1..] == a[1..] + b;
      NetBookedConcat(id, known, a[1..], b, instrument);
    }
  }

  lemma {:induction false} PositionFollows(accounts: map<Id, Ledger>, known: set<Id>, trades: seq<Trade>, id: Id,
          instrument: Id)
    requires Sound(trades) && id in accounts
    ensures var a := DeliverAll(accounts, known, trades);
      id in a && a[id].In(instrument).quantity
          == accounts[id].In(instrument).quantity + NetBooked(id, known, trades, instrument)
    decreases |trades|
  {
    hide Booked, Nets;
    if trades != [] {
      PositionMoves(accounts[id], id, known, trades[0], instrument);
      PositionFollows(Deliver(accounts, known, trades[0]), known, trades[1..], id, instrument);
    }
  }

  lemma PositionMoves(l: Ledger, id: Id, known: set<Id>, t: Trade, instrument: Id)
    requires t.quantity >= 0.0
    ensures Delivered(id, l, known, t).In(instrument).quantity
        == l.In(instrument).quantity + BookedIn(id, known, t, instrument)
  {
    if id == t.buyerId || id == t.sellerId {
      var q := BookingNets(l, Buys(id, t), t);
      NetsQuantity(l.In(t.instrument), SignedFor(Buys(id, t), t), t.price, q);
    }
  }

  /** The exchange delivers each trade of an order in a callback and then once more, so positions move by twice
      what has been traded under known orders, and by twice what has been traded if all orders are known. */
  lemma PositionsDouble(accounts: map<Id, Ledger>, known: set<Id>, trades: seq<Trade>, id: Id, instrument: Id)
    requires Sound(trades) && id in accounts
    ensures Sound(trades + trades)
    ensures var a := DeliverAll(accounts, known, trades + trades);
      && id in a
      && a[id].In(instrument).quantity
          == accounts[id].In(instrument).quantity + 2.0 * NetBooked(id, known, trades, instrument)
    ensures (forall t | t in trades :: t.buyOrderId in known && t.sellOrderId in known) ==>
      NetBooked(id, known, trades, instrument) == NetTraded(id, trades, instrument)
  {
    NetBookedConcat(id, known, trades, trades, instrument);
    PositionFollows(accounts, known, trades + trades, id, instrument);
    if forall t | t in trades :: t.buyOrderId in known && t.sellOrderId in known {
      AllBooked(id, known, trades, instrument);
    }
  }

  /** A notice of zero quantity, as sent for rejected and cancelled orders, moves nothing. */
  lemma NoticeIsHarmless(id: Id, l: Ledger, t: Trade, instrument: Id)
    requires t.quantity == 0.0
    ensures var n := Booked(l, Buys(id, t), t);
      && n.capital == l.capital
      && n.In(instrument).quantity == l.In(instrument).quantity
      && n.In(instrument).realized == l.In(instrument).realized
      && Cost(n.In(instrument)) == Cost(l.In(instrument))
  {
    var q := BookingNets(l, Buys(id, t), t);
    hide Booked;
    var p := l.In(t.instrument);
    assert SignedFor(Buys(id, t), t) == 0.0 && Closing(p.quantity, 0.0) == 0.0;
  }
}
