/** What every step of the specification machine keeps, and what holds over whole runs. */
module Runs {
  import opened Orders
  import opened PriceTime
  import opened Matching
  import opened Submission

  ghost predicate Resting(b: Book, id: Id) {
    Holds(b.bids, id) || Holds(b.asks, id)
  }

  /** A book at rest: two price-time queues that do not cross, every id in one place only. */
  ghost predicate AtRest(b: Book) {
    && Queue(Buy, b.bids) && Queue(Sell, b.asks) && Uncrossed(b.bids, b.asks)
    && forall e | e in b.bids :: !Holds(b.asks, e.id)
  }

  /** An order may be submitted if it asks for something, its id is not that of a resting order, and it does not
      replace what rests at price zero. */
  ghost predicate Admissible(b: Book, op: Op) {
    op.Submit? ==> op.order.remaining > 0.0 && !Resting(b, op.order.id) && Joins(b.Of(op.side), op.order.price)
  }

  lemma HeadIsBest(side: Side, q: seq<Entry>, e: Entry)
    requires Sorted(side, q) && e in q
    ensures Rank(side, q[0].price) <= Rank(side, e.price)
  {
  }

  /** A queue whose entries all come from another one has no better head. */
  lemma HeadNotBetter(side: Side, q: seq<Entry>, r: seq<Entry>)
    requires Sorted(side, q) && r != [] && (r[0] in q || Comes(r[0], q))
    ensures q != [] && Rank(side, q[0].price) <= Rank(side, r[0].price)
  {
  }

  lemma RestHolds(side: Side, limit: Option<real>, q: seq<Entry>, want: real, id: Id)
    requires Queue(side, q) && Holds(Consume(side, limit, q, want).rest, id)
    ensures Holds(q, id)
  {
    ConsumeKeeps(side, limit, q, want);
    var e :| e in Consume(side, limit, q, want).rest && e.id == id;
    var d :| d in q && e == d.(remaining := e.remaining) && e.remaining <= d.remaining;
    assert d.id == id;
  }

  /** Every entry of an opposite queue that has been eaten is still foreign to the own side. */
  lemma RestDisjoint(side: Side, limit: Option<real>, q: seq<Entry>, want: real, own: seq<Entry>)
    requires Queue(side, q) && forall e | e in own :: !Holds(q, e.id)
    ensures forall e | e in own :: !Holds(Consume(side, limit, q, want).rest, e.id)
    ensures forall e | e in Consume(side, limit, q, want).rest :: !Holds(own, e.id)
  {
    var r := Consume(side, limit, q, want).rest;
    forall e | e in own ensures !Holds(r, e.id) {
      if Holds(r, e.id) {
        RestHolds(side, limit, q, want, e.id);
      }
    }
    forall e | e in r ensures !Holds(own, e.id) {
      if d :| d in own && d.id == e.id {
        assert Holds(r, d.id);
      }
    }
  }

  lemma DisjointBothWays(a: seq<Entry>, b: seq<Entry>)
    requires forall e | e in a :: !Holds(b, e.id)
    ensures forall e | e in b :: !Holds(a, e.id)
  {
  }

  /** `own` holds the bids (asks) and `opp` the asks (bids); neither reaches the other. */
  ghost predicate Apart(side: Side, own: seq<Entry>, opp: seq<Entry>) {
    own != [] && opp != [] ==> Rank(side.Opposite(), own[0].price) < Rank(side.Opposite(), opp[0].price)
  }

  lemma SubmitKeepsQueues(side: Side, own: seq<Entry>, opp: seq<Entry>, e: Entry)
    requires Queue(side, own) && Queue(side.Opposite(), opp) && Apart(side, own, opp)
    requires (forall x | x in own :: !Holds(opp, x.id)) && e.remaining > 0.0 && !Holds(own, e.id) && !Holds(opp, e.id)
    ensures var o := Consume(side.Opposite(), Some(e.price), opp, e.remaining);
      var own' := if o.left > 0.0 then Place(side, own, e.(remaining := o.left)) else own;
      && Queue(side, own') && Queue(side.Opposite(), o.rest) && Apart(side, own', o.rest)
      && forall x | x in own' :: !Holds(o.rest, x.id)
  {
    var opposite := side.Opposite();
    var o := Consume(opposite, Some(e.price), opp, e.remaining);
    ConsumeKeeps(opposite, Some(e.price), opp, e.remaining);
    ConsumeTotals(opposite, Some(e.price), opp, e.remaining);
    RestDisjoint(opposite, Some(e.price), opp, e.remaining, own);
    if o.rest != [] {
      assert o.rest[0] in o.rest;
      HeadNotBetter(opposite, opp, o.rest);
    }
    if o.left > 0.0 {
      var f := e.(remaining := o.left);
      PlaceKeeps(side, own, f);
      if Holds(o.rest, f.id) {
        RestHolds(opposite, Some(e.price), opp, e.remaining, f.id);
      }
      var p := Place(side, own, f);
      assert p[0] == f || (own != [] && p[0] == own[0]);
    }
  }

  lemma SweepKeepsQueues(side: Side, own: seq<Entry>, opp: seq<Entry>, want: real)
    requires Queue(side.Opposite(), opp) && Apart(side, own, opp)
    requires forall x | x in own :: !Holds(opp, x.id)
    ensures var r := Consume(side.Opposite(), None, opp, want).rest;
      Queue(side.Opposite(), r) && Apart(side, own, r) && forall x | x in own :: !Holds(r, x.id)
  {
    var r := Consume(side.Opposite(), None, opp, want).rest;
    ConsumeKeeps(side.Opposite(), None, opp, want);
    RestDisjoint(side.Opposite(), None, opp, want, own);
    if r != [] {
      assert r[0] in r;
      HeadNotBetter(side.Opposite(), opp, r);
    }
  }

  lemma CancelKeepsQueues(b: Book, id: Id)
    requires AtRest(b)
    ensures AtRest(Book(Without(b.bids, id), Without(b.asks, id)))
  {
    var c := Book(Without(b.bids, id), Without(b.asks, id));
    WithoutKeeps(Buy, b.bids, id);
    WithoutKeeps(Sell, b.asks, id);
    if c.bids != [] && c.asks != [] {
      assert c.bids[0] in c.bids && c.asks[0] in c.asks;
      HeadNotBetter(Buy, b.bids, c.bids);
      HeadNotBetter(Sell, b.asks, c.asks);
    }
    forall e | e in c.bids ensures !Holds(c.asks, e.id) {
      assert e in b.bids;
      forall d | d in c.asks ensures d.id != e.id {
        assert d in b.asks;
      }
    }
  }

  /** Submissions, sweeps and cancellations all lead from a book at rest to a book at rest. */
  lemma StepKeepsRest(b: Book, op: Op, instrument: Id)
    requires AtRest(b) && Admissible(b, op)
    ensures AtRest(Step(b, op, instrument).book)
  {
    var c := Step(b, op, instrument).book;
    match op
    case Submit(side, e) =>
      if side == Buy {
        SubmitKeepsQueues(Buy, b.bids, b.asks, e);
      } else {
        DisjointBothWays(b.bids, b.asks);
        SubmitKeepsQueues(Sell, b.asks, b.bids, e);
        DisjointBothWays(c.asks, c.bids);
      }
    case Sweep(side, quantity, actor) =>
      if side == Buy {
        SweepKeepsQueues(Buy, b.bids, b.asks, quantity);
      } else {
        DisjointBothWays(b.bids, b.asks);
        SweepKeepsQueues(Sell, b.asks, b.bids, quantity);
        DisjointBothWays(c.asks, c.bids);
      }
    case Cancel(id) =>
      CancelKeepsQueues(b, id);
  }

  // ---- Runs ----

  function Run(b: Book, ops: seq<Op>, instrument: Id): Settled
    decreases |ops|
  {
    if ops == [] then Settled(b, [])
    else
      var s := Step(b, ops[0], instrument);
      var r := Run(s.book, ops[1..], instrument);
      Settled(r.book, s.trades + r.trades)
  }

  ghost predicate AdmissibleRun(b: Book, ops: seq<Op>, instrument: Id)
    decreases |ops|
  {
    ops != [] ==> Admissible(b, ops[0]) && AdmissibleRun(Step(b, ops[0], instrument).book, ops[1..], instrument)
  }

  /** Safety over whole runs: from rest, whatever is submitted, swept and cancelled in whatever order, the
      book never ends up crossed, unsorted or with an id in two places. */
  lemma {:induction false} RunKeepsRest(b: Book, ops: seq<Op>, instrument: Id)
    requires AtRest(b) && AdmissibleRun(b, ops, instrument)
    ensures AtRest(Run(b, ops, instrument).book)
    decreases |ops|
  {
    if ops != [] {
      StepKeepsRest(b, ops[0], instrument);
      RunKeepsRest(Step(b, ops[0], instrument).book, ops[1..], instrument);
    }
  }

  // ---- The life of an order ----

  /** What is resting under an id, and what has been traded under it. */
  function In(q: seq<Entry>, id: Id): real {
    if q == [] then 0.0 else (if q[0].id == id then q[0].remaining else 0.0) + In(q[1..], id)
  }

  function FilledOf(fills: seq<Fill>, id: Id): real {
    if fills == [] then 0.0
    else (if fills[0].maker.id == id then fills[0].quantity else 0.0) + FilledOf(fills[1..], id)
  }

  function TradedAs(side: Side, trades: seq<Trade>, id: Id): real {
    if trades == [] then 0.0
    else
      (if (if side == Buy then trades[0].buyOrderId else trades[0].sellOrderId) == id then trades[0].quantity else 0.0)
      + TradedAs(side, trades[1..], id)
  }

  lemma {:induction false} TradedAsConcat(side: Side, a: seq<Trade>, b: seq<Trade>, id: Id)
    ensures TradedAs(side, a + b, id) == TradedAs(side, a, id) + TradedAs(side, b, id)
  {
    if a == [] {
      assert a + b == b;
    } else {
      assert (a + b)[1..] == a[1..] + b;
      TradedAsConcat(side, a[1..], b, id);
    }
  }

  lemma {:induction false} InAbsent(q: seq<Entry>, id: Id)
    requires !Holds(q, id)
    ensures In(q, id) == 0.0
  {
    if q != [] {
      assert q[0] in q;
      InAbsent(q[1..], id);
    }
  }

  lemma {:induction false} InPlace(side: Side, q: seq<Entry>, e: Entry, id: Id)
    ensures In(Place(side, q, e), id) == In(q, id) + if e.id == id then e.remaining else 0.0
  {
    var p := Place(side, q, e);
    if q == [] || Rank(side, e.price) < Rank(side, q[0].price) {
      assert p[1..] == q;
    } else {
      InPlace(side, q[1..], e, id);
      assert p[1..] == Place(side, q[1..], e);
    }
  }

  lemma {:induction false} InWithout(q: seq<Entry>, gone: Id, id: Id)
    requires id != gone
    ensures In(Without(q, gone), id) == In(q, id)
  {
    if q != [] {
      InWithout(q[1..], gone, id);
      if q[0].id != gone {
        assert Without(q, gone)[1..] == Without(q[1..], gone);
      }
    }
  }

  lemma {:induction false} InConsume(side: Side, limit: Option<real>, q: seq<Entry>, want: real, id: Id)
    ensures var o := Consume(side, limit, q, want); In(o.rest, id) == In(q, id) - FilledOf(o.fills, id)
  {
    var o := Consume(side, limit, q, want);
    if q == [] || want <= 0.0 || !Within(side, limit, q[0].price) {
    } else if q[0].remaining <= want {
      InConsume(side, limit, q[1..], want - q[0].remaining, id);
      assert o.fills[1..] == Consume(side, limit, q[1..], want - q[0].remaining).fills;
    } else {
      assert o.rest[1..] == q[1..] && o.fills[1..] == [];
    }
  }

  lemma {:induction false} LimitTradesCount(side: Side, e: Entry, fills: seq<Fill>, instrument: Id, id: Id)
    ensures var t := LimitTrades(side, e, fills, instrument);
      && TradedAs(side.Opposite(), t, id) == FilledOf(fills, id)
      && TradedAs(side, t, id) == if id == e.id then Taken(fills) else 0.0
  {
    if fills != [] {
      LimitTradesCount(side, e, fills[1..], instrument, id);
      assert LimitTrades(side, e, fills, instrument)[1..] == LimitTrades(side, e, fills[1..], instrument);
    }
  }

  /** What the trades of a market order carry under an id that was made up for its taker. */
  function TakenAs(fills: seq<Fill>, k: nat, id: Id): real {
    if fills == [] then 0.0 else (if MarketId(k) == id then fills[0].quantity else 0.0) + TakenAs(fills[1..], k + 1, id)
  }

  lemma {:induction false} MarketTradesCount(side: Side, actor: Id, fills: seq<Fill>, instrument: Id, k: nat, id: Id)
    ensures var t := MarketTrades(side, actor, fills, instrument, k);
      && TradedAs(side.Opposite(), t, id) == FilledOf(fills, id)
      && TradedAs(side, t, id) == TakenAs(fills, k, id)
  {
    if fills != [] {
      MarketTradesCount(side, actor, fills[1..], instrument, k + 1, id);
      var t := MarketTrades(side, actor, fills, instrument, k);
      assert t[1..] == MarketTrades(side, actor, fills[1..], instrument, k + 1);
    }
  }

  /** What a step trades under this id on this side although it is a taker's made-up one, not the order's. */
  function MadeUp(b: Book, op: Op, side: Side, id: Id): real {
    if op.Sweep? && op.side == side then
      TakenAs(Consume(side.Opposite(), None, b.Of(side.Opposite()), op.quantity).fills, 0, id)
    else 0.0
  }

  lemma {:induction false} NothingMadeUp(fills: seq<Fill>, k: nat, id: Id)
    requires forall n: nat :: id != MarketId(n)
    ensures TakenAs(fills, k, id) == 0.0
  {
    if fills != [] {
      NothingMadeUp(fills[1..], k + 1, id);
    }
  }

  /** No step but its own submission or cancellation changes an order, other than by trades that name it. */
  lemma StepAccounts(b: Book, op: Op, instrument: Id, side: Side, id: Id)
    requires (op.Submit? ==> op.order.id != id) && op != Cancel(id)
    ensures var s := Step(b, op, instrument);
      In(s.book.Of(side), id) == In(b.Of(side), id) - (TradedAs(side, s.trades, id) - MadeUp(b, op, side, id))
    ensures (forall n: nat :: id != MarketId(n)) ==> MadeUp(b, op, side, id) == 0.0
  {
    match op
    case Submit(own, e) =>
      var o := Consume(own.Opposite(), Some(e.price), b.Of(own.Opposite()), e.remaining);
      InConsume(own.Opposite(), Some(e.price), b.Of(own.Opposite()), e.remaining, id);
      LimitTradesCount(own, e, o.fills, instrument, id);
      InPlace(own, b.Of(own), e.(remaining := o.left), id);
    case Sweep(own, quantity, actor) =>
      var o := Consume(own.Opposite(), None, b.Of(own.Opposite()), quantity);
      InConsume(own.Opposite(), None, b.Of(own.Opposite()), quantity, id);
      MarketTradesCount(own, actor, o.fills, instrument, 0, id);
      if forall n: nat :: id != MarketId(n) {
        NothingMadeUp(o.fills, 0, id);
      }
    case Cancel(gone) =>
      InWithout(b.Of(side), gone, id);
  }

  function AllMadeUp(b: Book, ops: seq<Op>, instrument: Id, side: Side, id: Id): real
    decreases |ops|
  {
    if ops == [] then 0.0
    else MadeUp(b, ops[0], side, id) + AllMadeUp(Step(b, ops[0], instrument).book, ops[1..], instrument, side, id)
  }

  ghost predicate LeavesAlone(ops: seq<Op>, id: Id) {
    forall op | op in ops :: op != Cancel(id) && (op.Submit? ==> op.order.id != id)
  }

  lemma {:induction false} RunAccounts(b: Book, ops: seq<Op>, instrument: Id, side: Side, id: Id)
    requires LeavesAlone(ops, id)
    ensures var r := Run(b, ops, instrument);
      In(r.book.Of(side), id)
        == In(b.Of(side), id) - (TradedAs(side, r.trades, id) - AllMadeUp(b, ops, instrument, side, id))
    ensures (forall n: nat :: id != MarketId(n)) ==> AllMadeUp(b, ops, instrument, side, id) == 0.0
    decreases |ops|
  {
    hide Step, MadeUp;
    if ops != [] {
      assert ops[0] in ops;
      StepAccounts(b, ops[0], instrument, side, id);
      var s := Step(b, ops[0], instrument);
      RunAccounts(s.book, ops[1..], instrument, side, id);
      TradedAsConcat(side, s.trades, Run(s.book, ops[1..], instrument).trades, id);
    }
  }

  /** From its submission on, through any run that neither cancels it nor uses its id again, what has been executed of a
      limit order is the sum of the trades that name it, and what is left still rests. Trades that carry its id because
      it was also made up for the taker of a market order do not count; no other id than `market_k` has any. */
  lemma OrderLife(b: Book, side: Side, e: Entry, ops: seq<Op>, instrument: Id)
    requires LeavesAlone(ops, e.id)
    requires AtRest(b) && AdmissibleRun(b, [Submit(side, e)] + ops, instrument)
    ensures var r := Run(b, [Submit(side, e)] + ops, instrument);
      var madeUp := AllMadeUp(b, [Submit(side, e)] + ops, instrument, side, e.id);
      && e.remaining == In(r.book.Of(side), e.id) + (TradedAs(side, r.trades, e.id) - madeUp)
      && 0.0 <= In(r.book.Of(side), e.id) <= e.remaining
      && ((forall n: nat :: e.id != MarketId(n)) ==> madeUp == 0.0)
  {
    var all := [Submit(side, e)] + ops;
    assert all[1..] == ops && all[0] == Submit(side, e);
    var s := Step(b, Submit(side, e), instrument);
    OrderStarts(b, side, e, instrument);
    StepKeepsRest(b, Submit(side, e), instrument);
    hide Step;
    RunAccounts(s.book, ops, instrument, side, e.id);
    var r := Run(s.book, ops, instrument);
    TradedAsConcat(side, s.trades, r.trades, e.id);
    RunKeepsRest(s.book, ops, instrument);
    InNonNegative(r.book.Of(side), e.id);
    RunNeverGrows(s.book, ops, instrument, side, e.id);
  }

  lemma OrderStarts(b: Book, side: Side, e: Entry, instrument: Id)
    requires AtRest(b) && Admissible(b, Submit(side, e))
    ensures var s := Step(b, Submit(side, e), instrument);
      && e.remaining == In(s.book.Of(side), e.id) + TradedAs(side, s.trades, e.id)
      && In(s.book.Of(side), e.id) <= e.remaining
  {
    var opp := side.Opposite();
    var o := Consume(opp, Some(e.price), b.Of(opp), e.remaining);
    ConsumeTotals(opp, Some(e.price), b.Of(opp), e.remaining);
    FillsAreWithin(opp, Some(e.price), b.Of(opp), e.remaining);
    TakenIsPositive(o.fills);
    LimitTradesCount(side, e, o.fills, instrument, e.id);
    InPlace(side, b.Of(side), e.(remaining := o.left), e.id);
    InAbsent(b.Of(side), e.id);
  }

  lemma {:induction false} TakenIsPositive(fills: seq<Fill>)
    requires forall f | f in fills :: f.quantity > 0.0
    ensures Taken(fills) >= 0.0
  {
    if fills != [] {
      TakenIsPositive(fills[1..]);
    }
  }

  lemma {:induction false} FilledOfNonNegative(fills: seq<Fill>, id: Id)
    requires forall f | f in fills :: f.quantity > 0.0
    ensures FilledOf(fills, id) >= 0.0
  {
    if fills != [] {
      FilledOfNonNegative(fills[1..], id);
    }
  }

  lemma EatingNeverGrows(side: Side, limit: Option<real>, q: seq<Entry>, want: real, id: Id)
    requires Positive(q)
    ensures In(Consume(side, limit, q, want).rest, id) <= In(q, id)
  {
    InConsume(side, limit, q, want, id);
    FillsAreWithin(side, limit, q, want);
    FilledOfNonNegative(Consume(side, limit, q, want).fills, id);
  }

  lemma StepNeverGrows(b: Book, op: Op, instrument: Id, side: Side, id: Id)
    requires AtRest(b) && (op.Submit? ==> op.order.id != id) && op != Cancel(id)
    ensures In(Step(b, op, instrument).book.Of(side), id) <= In(b.Of(side), id)
  {
    match op
    case Submit(own, e) =>
      EatingNeverGrows(own.Opposite(), Some(e.price), b.Of(own.Opposite()), e.remaining, id);
      var o := Consume(own.Opposite(), Some(e.price), b.Of(own.Opposite()), e.remaining);
      InPlace(own, b.Of(own), e.(remaining := o.left), id);
    case Sweep(own, quantity, actor) =>
      EatingNeverGrows(own.Opposite(), None, b.Of(own.Opposite()), quantity, id);
    case Cancel(gone) =>
      InWithout(b.Of(side), gone, id);
  }

  lemma {:induction false} RunConcat(b: Book, earlier: seq<Op>, later: seq<Op>, instrument: Id)
    ensures var r := Run(b, earlier, instrument);
      && Run(b, earlier + later, instrument).book == Run(r.book, later, instrument).book
      && (AdmissibleRun(b, earlier + later, instrument)
          <==> AdmissibleRun(b, earlier, instrument) && AdmissibleRun(r.book, later, instrument))
    decreases |earlier|
  {
    if earlier == [] {
      assert earlier + later == later;
    } else {
      assert (earlier + later)[1..] == earlier[1..] + later;
      RunConcat(Step(b, earlier[0], instrument).book, earlier[1..], later, instrument);
    }
  }

  /** Between any two points of a run, what remains of an order never grows, unless its id is submitted again. */
  lemma RemainderNeverGrows(b: Book, earlier: seq<Op>, later: seq<Op>, instrument: Id, side: Side, id: Id)
    requires AtRest(b) && AdmissibleRun(b, earlier + later, instrument) && LeavesAlone(later, id)
    ensures In(Run(b, earlier + later, instrument).book.Of(side), id)
         <= In(Run(b, earlier, instrument).book.Of(side), id)
  {
    RunConcat(b, earlier, later, instrument);
    RunKeepsRest(b, earlier, instrument);
    RunNeverGrows(Run(b, earlier, instrument).book, later, instrument, side, id);
  }

  lemma {:induction false} RunNeverGrows(b: Book, ops: seq<Op>, instrument: Id, side: Side, id: Id)
    requires AtRest(b) && AdmissibleRun(b, ops, instrument) && LeavesAlone(ops, id)
    ensures In(Run(b, ops, instrument).book.Of(side), id) <= In(b.Of(side), id)
    decreases |ops|
  {
    if ops != [] {
      assert ops[0] in ops;
      StepNeverGrows(b, ops[0], instrument, side, id);
      StepKeepsRest(b, ops[0], instrument);
      RunNeverGrows(Step(b, ops[0], instrument).book, ops[1..], instrument, side, id);
    }
  }

  lemma {:induction false} InNonNegative(q: seq<Entry>, id: Id)
    requires Positive(q)
    ensures In(q, id) >= 0.0
  {
    if q != [] {
      assert q[0] in q;
      InNonNegative(q[1..], id);
    }
  }

  lemma {:induction false} LimitTradesPositive(side: Side, e: Entry, fills: seq<Fill>, instrument: Id)
    requires forall f | f in fills :: f.quantity > 0.0
    ensures forall t | t in LimitTrades(side, e, fills, instrument) :: t.quantity > 0.0
  {
    if fills != [] {
      LimitTradesPositive(side, e, fills[1..], instrument);
    }
  }

  lemma {:induction false} MarketTradesPositive(side: Side, actor: Id, fills: seq<Fill>, instrument: Id, k: nat)
    requires forall f | f in fills :: f.quantity > 0.0
    ensures forall t | t in MarketTrades(side, actor, fills, instrument, k) :: t.quantity > 0.0
  {
    if fills != [] {
      MarketTradesPositive(side, actor, fills[1..], instrument, k + 1);
    }
  }

  lemma StepTradesPositive(b: Book, op: Op, instrument: Id)
    requires AtRest(b)
    ensures forall t | t in Step(b, op, instrument).trades :: t.quantity > 0.0
  {
    match op
    case Submit(side, e) =>
      FillsAreWithin(side.Opposite(), Some(e.price), b.Of(side.Opposite()), e.remaining);
      LimitTradesPositive(side, e, Consume(side.Opposite(), Some(e.price), b.Of(side.Opposite()), e.remaining).fills,
          instrument);
    case Sweep(side, quantity, actor) =>
      FillsAreWithin(side.Opposite(), None, b.Of(side.Opposite()), quantity);
      MarketTradesPositive(side, actor, Consume(side.Opposite(), None, b.Of(side.Opposite()), quantity).fills,
          instrument, 0);
    case Cancel(_) =>
  }

  /** No trade of any run is empty or negative; so what is left of an order never grows. */
  lemma {:induction false} RunTradesPositive(b: Book, ops: seq<Op>, instrument: Id)
    requires AtRest(b) && AdmissibleRun(b, ops, instrument)
    ensures forall t | t in Run(b, ops, instrument).trades :: t.quantity > 0.0
    decreases |ops|
  {
    if ops != [] {
      StepTradesPositive(b, ops[0], instrument);
      StepKeepsRest(b, ops[0], instrument);
      RunTradesPositive(Step(b, ops[0], instrument).book, ops[1..], instrument);
    }
  }
}
