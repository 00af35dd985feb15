/** The trading floor: the books and the accounts of all members together, and what any run of submissions,
    cancellations and notices does to the totals (engine/src/exchange.cpp). */
module Floors {
  import opened Orders
  import opened PriceTime
  import opened Submission
  import opened Accounts
  import opened Delivery
  import opened MarketDelivery
  import opened Venues

  datatype Floor = Floor(books: map<Id, Venue>, accounts: map<Id, Ledger>)

  /** An order arrives at a book; a cancellation is tried on some books; a notice of zero quantity is sent, for a
      rejected or cancelled order, to one account. */
  datatype Action =
    | Arrive(instrument: Id, o: Incoming)
    | Withdraw(tried: set<Id>, orderId: Id)
    | Notice(actorId: Id, notice: Trade)

  ghost predicate OrderlyFloor(f: Floor) {
    forall i | i in f.books :: Orderly(f.books[i])
  }

  ghost predicate Permitted(f: Floor, a: Action) {
    match a
    case Arrive(i, o) => i in f.books && Acceptable(f.books[i], o)
    case Withdraw(tried, orderId) => true
    case Notice(actorId, notice) => notice.quantity == 0.0
  }

  /** What a notice of zero quantity makes of an account. */
  function Notified(id: Id, l: Ledger, actorId: Id, notice: Trade): Ledger
    requires notice.quantity >= 0.0
  {
    if id == actorId then Booked(l, Buys(actorId, notice), notice) else l
  }

  /** The notices sent for an order that is rejected, and for one that is cancelled. */
  function Rejection(o: Incoming, instrument: Id, actorId: Id): Trade {
    Trade(if o.side == Buy then o.order.id else Id(""), if o.side == Sell then o.order.id else Id(""),
          instrument, o.order.price, 0.0,
          if o.side == Buy then actorId else Id(""), if o.side == Sell then actorId else Id(""))
  }

  function Cancellation(orderId: Id, instrument: Id, actorId: Id): Trade {
    Trade(orderId, Id(""), instrument, 0.0, 0.0, actorId, Id(""))
  }

  /** A rejection names the order and its actor on the order's own side, a cancellation always on the buying side, and
      nobody on the other; neither is of any quantity. */
  lemma NoticesName(o: Incoming, instrument: Id, actorId: Id, orderId: Id)
    ensures var r := Rejection(o, instrument, actorId);
      && r.quantity == 0.0 && r.instrument == instrument && r.price == o.order.price
      && (o.side == Buy ==>
            r.buyOrderId == o.order.id && r.buyerId == actorId && r.sellerId == r.sellOrderId == Id(""))
      && (o.side == Sell ==>
            r.sellOrderId == o.order.id && r.sellerId == actorId && r.buyerId == r.buyOrderId == Id(""))
    ensures var c := Cancellation(orderId, instrument, actorId);
      && c.quantity == 0.0 == c.price && c.instrument == instrument
      && c.buyOrderId == orderId && c.buyerId == actorId && c.sellerId == c.sellOrderId == Id("")
  {
  }

  // ---- One action ----

  function Withdrawn(books: map<Id, Venue>, tried: set<Id>, orderId: Id): map<Id, Venue> {
    map i | i in books :: if i in tried then AfterCancel(books[i], orderId) else books[i]
  }

  function NotifyAll(accounts: map<Id, Ledger>, actorId: Id, notice: Trade): map<Id, Ledger>
    requires notice.quantity >= 0.0
  {
    map id | id in accounts :: Notified(id, accounts[id], actorId, notice)
  }

  /** The trades an action makes. */
  function Made(f: Floor, a: Action): seq<Trade> {
    if a.Arrive? && a.instrument in f.books then Processed(f.books[a.instrument], a.o, a.instrument).1 else []
  }

  /** The ids the book of an arriving order knows when its trades are delivered. */
  function KnownThen(f: Floor, a: Action): set<Id> {
    if a.Arrive? && a.instrument in f.books then Processed(f.books[a.instrument], a.o, a.instrument).0.known else {}
  }

  lemma MadeIsSound(f: Floor, a: Action)
    requires OrderlyFloor(f) && Permitted(f, a)
    ensures forall t | t in Made(f, a) :: t.quantity > 0.0
    ensures Sound(Made(f, a)) && Sound(Made(f, a) + Made(f, a))
  {
    if a.Arrive? {
      ProcessingKeeps(f.books[a.instrument], a.o, a.instrument);
    }
  }

  /** The floor after an action. Each trade is delivered twice. */
  ghost function Act(f: Floor, a: Action): Floor
    requires OrderlyFloor(f) && Permitted(f, a)
  {
    MadeIsSound(f, a);
    match a
    case Arrive(i, o) =>
      Floor(f.books[i := Processed(f.books[i], o, i).0],
          DeliverAll(f.accounts, KnownThen(f, a), Made(f, a) + Made(f, a)))
    case Withdraw(tried, orderId) => f.(books := Withdrawn(f.books, tried, orderId))
    case Notice(actorId, notice) => f.(accounts := NotifyAll(f.accounts, actorId, notice))
  }

  lemma ActKeeps(f: Floor, a: Action)
    requires OrderlyFloor(f) && Permitted(f, a)
    ensures OrderlyFloor(Act(f, a)) && Act(f, a).books.Keys == f.books.Keys &&
        Act(f, a).accounts.Keys == f.accounts.Keys
  {
    hide Orderly, Acceptable;
    match a
    case Arrive(i, o) =>
      MadeIsSound(f, a);
      ProcessingKeeps(f.books[i], o, i);
      TotalsMove(f.accounts, KnownThen(f, a), Made(f, a) + Made(f, a), i);
    case Withdraw(tried, orderId) =>
      forall i | i in f.books ensures Orderly(AfterCancel(f.books[i], orderId)) {
        CancelingKeeps(f.books[i], orderId);
      }
    case Notice(_, _) =>
  }

  lemma {:induction false} TotalSame<T>(m: map<Id, T>, n: map<Id, T>, f: (Id, T) -> real)
    requires m.Keys == n.Keys && forall k | k in m :: f(k, m[k]) == f(k, n[k])
    ensures Total(m, f) == Total(n, f)
    decreases |m|
  {
    if m == map[] {
      assert n == map[];
    } else {
      var k :| k in m;
      TotalPick(m, k, f);
      TotalPick(n, k, f);
      assert (m - {k}).Keys == (n - {k}).Keys;
      TotalSame(m - {k}, n - {k}, f);
    }
  }

  lemma NoticesMoveNothing(accounts: map<Id, Ledger>, actorId: Id, notice: Trade, instrument: Id)
    requires notice.quantity == 0.0
    ensures var a := NotifyAll(accounts, actorId, notice);
      && a.Keys == accounts.Keys
      && Capital(a) == Capital(accounts) && Quantity(a, instrument) == Quantity(accounts, instrument)
      && (forall id | id in accounts && id != actorId :: a[id] == accounts[id])
      && forall id | id in accounts :: a[id].In(instrument).quantity == accounts[id].In(instrument).quantity
  {
    hide Booked;
    var a := NotifyAll(accounts, actorId, notice);
    forall id | id in accounts
      ensures a[id].capital == accounts[id].capital &&
          a[id].In(instrument).quantity == accounts[id].In(instrument).quantity
    {
      NoticeIsHarmless(actorId, accounts[id], notice, instrument);
    }
    TotalSame(a, accounts, CapitalOf);
    TotalSame(a, accounts, QuantityOf(instrument));
  }

  /** An action moves the totals by twice the legs of its trades that have no counterpart, and a position by twice
      what it has traded under known orders. */
  lemma ActMoves(f: Floor, a: Action, id: Id, instrument: Id)
    requires OrderlyFloor(f) && Permitted(f, a)
    ensures var g, m, known := Act(f, a), Made(f, a), KnownThen(f, a);
      && Capital(g.accounts) == Capital(f.accounts) - 2.0 * Unbalanced(f.accounts.Keys, known, m, Paid)
      && Quantity(g.accounts, instrument)
         == Quantity(f.accounts, instrument) + 2.0 * Unbalanced(f.accounts.Keys, known, m, Units(instrument))
      && (id in f.accounts ==>
            && id in g.accounts
            && g.accounts[id].In(instrument).quantity
               == f.accounts[id].In(instrument).quantity + 2.0 * NetBooked(id, known, m, instrument))
  {
    hide Capital, Quantity, Paid, Units, Orderly, Acceptable, Processed, DeliverAll;
    match a
    case Arrive(i, o) =>
      MadeIsSound(f, a);
      var m, known := Made(f, a), KnownThen(f, a);
      TotalsMove(f.accounts, known, m + m, instrument);
      UnbalancedConcat(f.accounts.Keys, known, m, m, Paid);
      UnbalancedConcat(f.accounts.Keys, known, m, m, Units(instrument));
      if id in f.accounts {
        PositionsDouble(f.accounts, known, m, id, instrument);
      }
    case Withdraw(_, _) =>
    case Notice(actorId, notice) =>
      NoticesMoveNothing(f.accounts, actorId, notice, instrument);
  }

  // ---- Only members trade ----

  /** Every resting order is that of a member; the provider of the seeds counts as one. */
  ghost predicate MembersRest(f: Floor) {
    forall i, e | i in f.books && (e in f.books[i].book.bids || e in f.books[i].book.asks) :: e.actor in f.accounts
  }

  predicate ByMember(f: Floor, a: Action) {
    a.Arrive? ==> a.o.order.actor in f.accounts
  }

  lemma {:induction false} ConsumeActors(side: Side, limit: Option<real>, q: seq<Entry>, want: real, members: set<Id>)
    requires forall e | e in q :: e.actor in members
    ensures forall e | e in Consume(side, limit, q, want).rest :: e.actor in members
    ensures forall f | f in Consume(side, limit, q, want).fills :: f.maker.actor in members
  {
    if q != [] && want > 0.0 && Within(side, limit, q[0].price) {
      assert q[0] in q;
      if q[0].remaining <= want {
        ConsumeActors(side, limit, q[1..], want - q[0].remaining, members);
      }
    }
  }

  lemma {:induction false} LimitTradesOf(side: Side, e: Entry, fills: seq<Fill>, instrument: Id, members: set<Id>)
    requires e.actor in members && forall f | f in fills :: f.maker.actor in members
    ensures forall t | t in LimitTrades(side, e, fills, instrument) :: t.buyerId in members && t.sellerId in members
  {
    if fills != [] {
      assert fills[0] in fills;
      LimitTradesOf(side, e, fills[1..], instrument, members);
    }
  }

  lemma ArrivalKeepsMembers(v: Venue, o: Incoming, instrument: Id, members: set<Id>)
    requires o.order.actor in members && forall e | e in v.book.bids || e in v.book.asks :: e.actor in members
    ensures var (w, t) := Processed(v, o, instrument);
      && (forall e | e in w.book.bids || e in w.book.asks :: e.actor in members)
      && (o.kind == Limit ==> forall x | x in t :: x.buyerId in members && x.sellerId in members)
  {
    var opp := o.side.Opposite();
    if o.kind == Limit {
      var c := Consume(opp, Some(o.order.price), v.book.Of(opp), o.order.remaining);
      ConsumeActors(opp, Some(o.order.price), v.book.Of(opp), o.order.remaining, members);
      LimitTradesOf(o.side, o.order, c.fills, instrument, members);
      PlaceKeepsIds(o.side, v.book.Of(o.side), o.order.(remaining := c.left));
    } else if o.kind == Market {
      ConsumeActors(opp, None, v.book.Of(opp), o.order.remaining, members);
    }
  }

  lemma ActKeepsMembers(f: Floor, a: Action)
    requires OrderlyFloor(f) && Permitted(f, a) && MembersRest(f) && ByMember(f, a)
    ensures MembersRest(Act(f, a))
  {
    hide Orderly, Acceptable, Processed, DeliverAll;
    ActKeeps(f, a);
    match a
    case Arrive(i, o) =>
      ArrivalKeepsMembers(f.books[i], o, i, f.accounts.Keys);
    case Withdraw(tried, orderId) =>
      forall i, e | i in f.books &&
          (e in Without(f.books[i].book.bids, orderId) || e in Without(f.books[i].book.asks, orderId))
        ensures e.actor in f.accounts
      {
        WithoutIsPart(f.books[i].book.bids, orderId);
        WithoutIsPart(f.books[i].book.asks, orderId);
      }
    case Notice(_, _) =>
  }

  lemma {:induction false} WithoutIsPart(q: seq<Entry>, id: Id)
    ensures forall e | e in Without(q, id) :: e in q
  {
    if q != [] {
      WithoutIsPart(q[1..], id);
    }
  }

  /** The trades of anything but a market order are between members, under orders the book knows. */
  lemma LimitTradesAreInternal(f: Floor, a: Action)
    requires OrderlyFloor(f) && Permitted(f, a) && MembersRest(f) && ByMember(f, a)
    requires a.Arrive? ==> a.o.kind != Market
    ensures forall t | t in Made(f, a) :: Internal(f.accounts.Keys, KnownThen(f, a), t)
  {
    hide Orderly, Acceptable;
    if a.Arrive? && a.o.kind == Limit {
      ProcessingKeeps(f.books[a.instrument], a.o, a.instrument);
      ArrivalKeepsMembers(f.books[a.instrument], a.o, a.instrument, f.accounts.Keys);
      hide Processed;
    }
  }

  /** A limit order moves every member's position by twice what the member has traded. */
  lemma LimitArrivalDoubles(f: Floor, a: Action, id: Id, instrument: Id)
    requires OrderlyFloor(f) && Permitted(f, a) && MembersRest(f) && ByMember(f, a)
    requires (a.Arrive? ==> a.o.kind != Market) && id in f.accounts
    ensures id in Act(f, a).accounts
    ensures Act(f, a).accounts[id].In(instrument).quantity
         == f.accounts[id].In(instrument).quantity + 2.0 * NetTraded(id, Made(f, a), instrument)
  {
    hide Act, Made, KnownThen, OrderlyFloor, Permitted, MembersRest;
    ActMoves(f, a, id, instrument);
    LimitTradesAreInternal(f, a);
    AllBooked(id, KnownThen(f, a), Made(f, a), instrument);
  }

  /** A market order of a member moves the totals by twice what its missing legs leave over; they are conserved
      exactly when its deliveries balance. */
  lemma MarketArrivalMoves(f: Floor, instrument: Id, o: Incoming)
    requires OrderlyFloor(f) && MembersRest(f) && instrument in f.books && o.kind == Market
    requires o.order.actor in f.accounts
    ensures Permitted(f, Arrive(instrument, o))
    ensures var v, side, actor := f.books[instrument], o.side, o.order.actor;
      var fills := Consume(side.Opposite(), None, v.book.Of(side.Opposite()), o.order.remaining).fills;
      var after := Act(f, Arrive(instrument, o)).accounts;
      var gained, paid := Quantity(after, instrument) - Quantity(f.accounts, instrument),
          Capital(f.accounts) - Capital(after);
      && gained == 2.0 * AddedByAll(side, actor, fills, v.known, 0, Size)
      && paid == 2.0 * AddedByAll(side, actor, fills, v.known, 0, Price)
      && (gained == 0.0 <==> Balances(side, actor, fills, v.known, 0, Size))
      && (side == Buy || (forall f | f in fills :: f.maker.price > 0.0) ==>
            (paid == 0.0 <==> Balances(side, actor, fills, v.known, 0, Price)))
      && (!OwnOrder(fills, actor) ==> (gained == 0.0 <==> TakerKnown(fills, v.known, 0)))
  {
    hide Capital, Quantity, AddedByAll, Unbalanced, OwnOrder, TakerKnown, Balances;
    var v, a, opp := f.books[instrument], Arrive(instrument, o), o.side.Opposite();
    var fills := Consume(opp, None, v.book.Of(opp), o.order.remaining).fills;
    ActMoves(f, a, o.order.actor, instrument);
    ConsumeActors(opp, None, v.book.Of(opp), o.order.remaining, f.accounts.Keys);
    ConsumeIds(opp, None, v.book.Of(opp), o.order.remaining, v.known);
    FillsAreWithin(opp, None, v.book.Of(opp), o.order.remaining);
    MarketUnbalanced(f.accounts.Keys, v.known, o.side, o.order.actor, fills, instrument, 0);
    AddedByMarket(f.accounts.Keys, v.known, o.side, o.order.actor, fills);
  }

  // ---- Runs ----

  ghost predicate PermittedAll(f: Floor, acts: seq<Action>)
    requires OrderlyFloor(f)
    decreases |acts|
  {
    acts == [] || (Permitted(f, acts[0]) && (ActKeeps(f, acts[0]); PermittedAll(Act(f, acts[0]), acts[1..])))
  }

  ghost function ActAll(f: Floor, acts: seq<Action>): Floor
    requires OrderlyFloor(f) && PermittedAll(f, acts)
    decreases |acts|
  {
    if acts == [] then f
    else
      ActKeeps(f, acts[0]);
      ActAll(Act(f, acts[0]), acts[1..])
  }

  /** All trades of a run. */
  ghost function AllMade(f: Floor, acts: seq<Action>): seq<Trade>
    requires OrderlyFloor(f) && PermittedAll(f, acts)
    decreases |acts|
  {
    if acts == [] then []
    else
      ActKeeps(f, acts[0]);
      Made(f, acts[0]) + AllMade(Act(f, acts[0]), acts[1..])
  }

  /** What the legs of a run without a counterpart come to, each judged by the ids its book knew at the time. */
  ghost function AllUnbalanced(f: Floor, acts: seq<Action>, moves: Trade -> real): real
    requires OrderlyFloor(f) && PermittedAll(f, acts)
    decreases |acts|
  {
    if acts == [] then 0.0
    else
      ActKeeps(f, acts[0]);
      Unbalanced(f.accounts.Keys, KnownThen(f, acts[0]), Made(f, acts[0]), moves)
      + AllUnbalanced(Act(f, acts[0]), acts[1..], moves)
  }

  /** What an account has traded in a run under orders known at the time. */
  ghost function AllNetBooked(f: Floor, acts: seq<Action>, id: Id, instrument: Id): real
    requires OrderlyFloor(f) && PermittedAll(f, acts)
    decreases |acts|
  {
    if acts == [] then 0.0
    else
      ActKeeps(f, acts[0]);
      NetBooked(id, KnownThen(f, acts[0]), Made(f, acts[0]), instrument)
      + AllNetBooked(Act(f, acts[0]), acts[1..], id, instrument)
  }

  /** Over any run at all, market orders included, while what the books know comes and goes, the totals move by twice
      the legs that had no counterpart, and every position by twice what it traded under known orders. */
  lemma {:induction false} RunMoves(f: Floor, acts: seq<Action>, id: Id, instrument: Id)
    requires OrderlyFloor(f) && PermittedAll(f, acts)
    ensures var g := ActAll(f, acts);
      && Capital(g.accounts) == Capital(f.accounts) - 2.0 * AllUnbalanced(f, acts, Paid)
      && Quantity(g.accounts, instrument)
         == Quantity(f.accounts, instrument) + 2.0 * AllUnbalanced(f, acts, Units(instrument))
      && (id in f.accounts ==>
            && id in g.accounts
            && g.accounts[id].In(instrument).quantity
               == f.accounts[id].In(instrument).quantity + 2.0 * AllNetBooked(f, acts, id, instrument))
      && forall t | t in AllMade(f, acts) :: t.quantity > 0.0
    decreases |acts|
  {
    hide Act, Made, KnownThen, OrderlyFloor, Permitted, Capital, Quantity, Paid, Units, Unbalanced, NetBooked;
    if acts != [] {
      ActKeeps(f, acts[0]);
      RunMoves(Act(f, acts[0]), acts[1..], id, instrument);
      ActMoves(f, acts[0], id, instrument);
      MadeIsSound(f, acts[0]);
    }
  }

  /** Limit orders of members, cancellations and notices. */
  ghost predicate LimitRun(f: Floor, acts: seq<Action>) {
    forall a | a in acts :: ByMember(f, a) && (a.Arrive? ==> a.o.kind != Market)
  }

  /** In a run of limit orders and cancellations of members the only such legs are those of trades of members with
      themselves, and every trade is under known orders. */
  lemma {:induction false} LimitRunLegs(f: Floor, acts: seq<Action>, id: Id, instrument: Id, moves: Trade -> real)
    requires OrderlyFloor(f) && PermittedAll(f, acts) && MembersRest(f) && LimitRun(f, acts)
    ensures AllUnbalanced(f, acts, moves) == SelfTraded(AllMade(f, acts), moves)
    ensures AllNetBooked(f, acts, id, instrument) == NetTraded(id, AllMade(f, acts), instrument)
    decreases |acts|
  {
    hide Act, Made, KnownThen, OrderlyFloor, Permitted, MembersRest;
    if acts != [] {
      var a := acts[0];
      assert a in acts;
      ActKeeps(f, a);
      ActKeepsMembers(f, a);
      var g, made := Act(f, a), Made(f, a);
      assert LimitRun(g, acts[1..]);
      LimitRunLegs(g, acts[1..], id, instrument, moves);
      LimitTradesAreInternal(f, a);
      InternalUnbalanced(f.accounts.Keys, KnownThen(f, a), made, moves);
      AllBooked(id, KnownThen(f, a), made, instrument);
      SelfTradedConcat(made, AllMade(g, acts[1..]), moves);
      NetTradedConcat(id, made, AllMade(g, acts[1..]), instrument);
    }
  }

  /** Main theorem of the floor: over any run an instrument's total quantity, and capital, are conserved exactly when
      its legs without a counterpart cancel out; over a run of limit orders and cancellations, exactly when no member
      has traded the instrument with itself, and, at positive prices, none has at all. */
  lemma RunConserves(f: Floor, acts: seq<Action>, instrument: Id)
    requires OrderlyFloor(f) && PermittedAll(f, acts)
    ensures var g, made := ActAll(f, acts), AllMade(f, acts);
      var sameQuantity := Quantity(g.accounts, instrument) == Quantity(f.accounts, instrument);
      var sameCapital := Capital(g.accounts) == Capital(f.accounts);
      && (sameQuantity <==> AllUnbalanced(f, acts, Units(instrument)) == 0.0)
      && (sameCapital <==> AllUnbalanced(f, acts, Paid) == 0.0)
      && (MembersRest(f) && LimitRun(f, acts) ==>
            && (sameQuantity <==> NoSelfTradeIn(made, instrument))
            && (NoSelfTrade(made) ==> sameCapital)
            && ((forall t | t in made :: t.price > 0.0) ==> (sameCapital <==> NoSelfTrade(made))))
  {
    hide OrderlyFloor, PermittedAll, MembersRest, LimitRun, ActAll, AllMade, AllUnbalanced, Capital, Quantity;
    hide Paid, Units, NoSelfTrade, NoSelfTradeIn;
    RunMoves(f, acts, instrument, instrument);
    if MembersRest(f) && LimitRun(f, acts) {
      LimitRunLegs(f, acts, instrument, instrument, Units(instrument));
      LimitRunLegs(f, acts, instrument, instrument, Paid);
      NothingSelfTraded(AllMade(f, acts), instrument);
    }
  }

  /** Over a run of limit orders and cancellations every member's position moves by twice what the member has
      traded. */
  lemma LimitRunDoubles(f: Floor, acts: seq<Action>, id: Id, instrument: Id)
    requires OrderlyFloor(f) && PermittedAll(f, acts) && MembersRest(f) && LimitRun(f, acts) && id in f.accounts
    ensures id in ActAll(f, acts).accounts
    ensures ActAll(f, acts).accounts[id].In(instrument).quantity
         == f.accounts[id].In(instrument).quantity + 2.0 * NetTraded(id, AllMade(f, acts), instrument)
  {
    hide OrderlyFloor, PermittedAll, MembersRest, LimitRun, ActAll, AllMade, AllNetBooked;
    RunMoves(f, acts, id, instrument);
    LimitRunLegs(f, acts, id, instrument, Paid);
  }
}
