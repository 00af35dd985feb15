/** Positions and profit of the market participants (engine/src/actor.cpp:88-181, 237-249). */
module Accounts {
  import opened Arithmetic
  import opened Orders

  datatype Position = Position(quantity: real, avgPrice: real, realized: real)

  datatype Ledger = Ledger(capital: real, positions: map<Id, Position>) {
    /** The position in an instrument; looking up an unknown one starts it at zero. */
    function In(instrument: Id): Position {
      if instrument in positions then positions[instrument] else Position(0.0, 0.0, 0.0)
    }
  }

  // ---- Sums over maps ----

  ghost function Total<T>(m: map<Id, T>, f: (Id, T) -> real): real {
    if m == map[] then 0.0
    else
      var k :| k in m;
      f(k, m[k]) + Total(m - {k}, f)
  }

  /** The sum does not depend on the order in which the entries are visited. */
  lemma {:induction false} TotalPick<T>(m: map<Id, T>, k: Id, f: (Id, T) -> real)
    requires k in m
    ensures Total(m, f) == f(k, m[k]) + Total(m - {k}, f)
    decreases |m|
  {
    var j :| j in m && Total(m, f) == f(j, m[j]) + Total(m - {j}, f);
    if j != k {
      TotalPick(m - {j}, k, f);
      TotalPick(m - {k}, j, f);
      assert m - {j} - {k} == m - {k} - {j};
    }
  }

  lemma TotalUpdate<T>(m: map<Id, T>, k: Id, x: T, f: (Id, T) -> real)
    ensures Total(m[k := x], f) == Total(m, f) + f(k, x) - if k in m then f(k, m[k]) else 0.0
  {
    var n := m[k := x];
    TotalPick(n, k, f);
    if k in m {
      TotalPick(m, k, f);
      assert n - {k} == m - {k};
    } else {
      assert n - {k} == m;
    }
  }

  /** Sums add up entry by entry. */
  lemma {:induction false} TotalAdds<T>(m: map<Id, T>, f: (Id, T) -> real, g: (Id, T) -> real, h: (Id, T) -> real)
    requires forall k | k in m :: f(k, m[k]) == g(k, m[k]) + h(k, m[k])
    ensures Total(m, f) == Total(m, g) + Total(m, h)
    decreases |m|
  {
    if m != map[] {
      var k :| k in m;
      TotalPick(m, k, f);
      TotalPick(m, k, g);
      TotalPick(m, k, h);
      TotalAdds(m - {k}, f, g, h);
    }
  }

  // ---- Booking a trade ----

  /** The case analysis of update_position for a buy... */
  function Bought(p: Position, quantity: real, price: real): Position
    requires quantity >= 0.0
  {
    var held := p.quantity + quantity;
    if p.quantity > 0.0 then
      Position(held, (p.quantity * p.avgPrice + quantity * price) / held, p.realized)
    else if held > 0.0 then
      var short := Min(quantity, -p.quantity);
      Position(held, if quantity - short > 0.0 then price else 0.0, p.realized + short * (p.avgPrice - price))
    else
      Position(held, p.avgPrice, p.realized + quantity * (p.avgPrice - price))
  }

  /** ... and for a sale. */
  function Sold(p: Position, quantity: real, price: real): Position
    requires quantity >= 0.0
  {
    var held := p.quantity - quantity;
    if p.quantity > 0.0 then
      if held < 0.0 then
        var long := Min(quantity, p.quantity);
        Position(held, if quantity - long > 0.0 then price else 0.0, p.realized + long * (price - p.avgPrice))
      else
        Position(held, p.avgPrice, p.realized + quantity * (price - p.avgPrice))
    else if p.quantity < 0.0 then
      Position(held, (p.quantity * p.avgPrice - quantity * price) / held, p.realized)
    else
      Position(held, price, p.realized)
  }

  function Booked(l: Ledger, buys: bool, t: Trade): Ledger
    requires t.quantity >= 0.0
  {
    var p := l.In(t.instrument);
    if buys then Ledger(l.capital - t.quantity * t.price, l.positions[t.instrument := Bought(p, t.quantity, t.price)])
    else Ledger(l.capital + t.quantity * t.price, l.positions[t.instrument := Sold(p, t.quantity, t.price)])
  }

  // ---- What booking means: netting ----

  /** The part of a signed trade `d` that offsets the position held. */
  function Closing(held: real, d: real): real {
    if held > 0.0 && d < 0.0 then (if d < -held then -held else d)
    else if held < 0.0 && d > 0.0 then (if d > -held then -held else d)
    else 0.0
  }

  function Cost(p: Position): real { p.quantity * p.avgPrice }

  /** Netting: the closing part realizes its gain against the average price, and the cost of what is then
      held is the old cost of what was not closed plus the opening part at the trade's price. */
  ghost predicate Nets(p: Position, d: real, price: real, q: Position) {
    var c := Closing(p.quantity, d);
    && q.quantity == p.quantity + d
    && q.realized == p.realized - c * (price - p.avgPrice)
    && Cost(q) == (p.quantity + c) * p.avgPrice + (d - c) * price
  }

  lemma Quotient(x: real, y: real)
    requires y != 0.0
    ensures y * (x / y) == x
  {
  }

  /** All cases of a buy come down to netting... */
  lemma BuyingNets(p: Position, quantity: real, price: real)
    requires quantity >= 0.0
    ensures Nets(p, quantity, price, Bought(p, quantity, price))
  {
    var held := p.quantity + quantity;
    if p.quantity > 0.0 {
      Quotient(p.quantity * p.avgPrice + quantity * price, held);
    }
  }

  /** ... and so do all cases of a sale. */
  lemma SellingNets(p: Position, quantity: real, price: real)
    requires quantity >= 0.0
    ensures Nets(p, -quantity, price, Sold(p, quantity, price))
  {
    var held := p.quantity - quantity;
    if p.quantity < 0.0 {
      Quotient(p.quantity * p.avgPrice - quantity * price, held);
    }
  }

  /** Netting moves money between cost and realized profit and never makes any. */
  lemma NettingBalances(p: Position, d: real, price: real, q: Position)
    requires Nets(p, d, price, q)
    ensures Cost(q) - q.realized == Cost(p) - p.realized + d * price
  {
    var c := Closing(p.quantity, d);
    assert c * (price - p.avgPrice) == c * price - c * p.avgPrice;
    assert (p.quantity + c) * p.avgPrice == p.quantity * p.avgPrice + c * p.avgPrice;
    assert (d - c) * price == d * price - c * price;
  }

  // ---- Profit and loss over a history of trades ----

  ghost function CostOf(k: Id, p: Position): real { Cost(p) }
  ghost function RealizedOf(k: Id, p: Position): real { p.realized }

  /** Capital, plus the cost of what is held, less what has been realized. */
  ghost function Stake(l: Ledger): real {
    l.capital + Total(l.positions, CostOf) - Total(l.positions, RealizedOf)
  }

  /** Whether the account trades as the buyer; a seller, or anyone else, sells. */
  function Buys(id: Id, t: Trade): bool { t.buyerId == id }

  /** The signed quantity of a trade for an account. */
  function SignedFor(buys: bool, t: Trade): real { if buys then t.quantity else -t.quantity }

  /** What one booking does: it pays for the signed quantity and nets the position. */
  lemma BookingNets(l: Ledger, buys: bool, t: Trade) returns (q: Position)
    requires t.quantity >= 0.0
    ensures Booked(l, buys, t) == Ledger(l.capital - SignedFor(buys, t) * t.price, l.positions[t.instrument := q])
    ensures Nets(l.In(t.instrument), SignedFor(buys, t), t.price, q)
  {
    hide Nets, Bought, Sold;
    var p := l.In(t.instrument);
    if buys {
      q := Bought(p, t.quantity, t.price);
      BuyingNets(p, t.quantity, t.price);
    } else {
      q := Sold(p, t.quantity, t.price);
      SellingNets(p, t.quantity, t.price);
    }
  }

  lemma BookingKeepsStake(l: Ledger, buys: bool, t: Trade)
    requires t.quantity >= 0.0
    ensures Stake(Booked(l, buys, t)) == Stake(l)
  {
    hide Booked, Nets, Cost;
    var q := BookingNets(l, buys, t);
    NettingBalances(l.In(t.instrument), SignedFor(buys, t), t.price, q);
    TotalUpdate(l.positions, t.instrument, q, CostOf);
    TotalUpdate(l.positions, t.instrument, q, RealizedOf);
    ZeroPosition();
  }

  lemma NetsQuantity(p: Position, d: real, price: real, q: Position)
    requires Nets(p, d, price, q)
    ensures q.quantity == p.quantity + d
  {
  }

  lemma ZeroPosition()
    ensures Cost(Position(0.0, 0.0, 0.0)) == 0.0
  {
  }

  ghost predicate Sound(trades: seq<Trade>) {
    forall t | t in trades :: t.quantity >= 0.0
  }

  function BookedAll(id: Id, l: Ledger, trades: seq<Trade>): Ledger
    requires Sound(trades)
    decreases |trades|
  {
    if trades == [] then l else BookedAll(id, Booked(l, Buys(id, trades[0]), trades[0]), trades[1..])
  }

  lemma {:induction false} HistoryKeepsStake(id: Id, l: Ledger, trades: seq<Trade>)
    requires Sound(trades)
    ensures Stake(BookedAll(id, l, trades)) == Stake(l)
    decreases |trades|
  {
    if trades != [] {
      BookingKeepsStake(l, Buys(id, trades[0]), trades[0]);
      HistoryKeepsStake(id, Booked(l, Buys(id, trades[0]), trades[0]), trades[1..]);
    }
  }

  // ---- Valuation ----

  /** Unrealized profit of a position; none is held at quantity zero. */
  function Unrealized(p: Position, price: real): real {
    if p.quantity == 0.0 then 0.0 else p.quantity * (price - p.avgPrice)
  }

  ghost function ValueAt(prices: map<Id, real>): (Id, Position) -> real {
    (k: Id, p: Position) => if k in prices then p.quantity * prices[k] else 0.0
  }

  ghost function UnrealizedAt(prices: map<Id, real>): (Id, Position) -> real {
    (k: Id, p: Position) => if k in prices then Unrealized(p, prices[k]) else 0.0
  }

  ghost function UnpricedCost(prices: map<Id, real>): (Id, Position) -> real {
    (k: Id, p: Position) => if k in prices then 0.0 else Cost(p)
  }

  ghost function PortfolioValue(l: Ledger, prices: map<Id, real>): real {
    l.capital + Total(l.positions, ValueAt(prices))
  }

  lemma Marked(p: Position, price: real)
    ensures p.quantity * price == Cost(p) + Unrealized(p, price)
  {
    assert p.quantity * (price - p.avgPrice) == p.quantity * price - p.quantity * p.avgPrice;
  }

  /** Value is cost plus unrealized profit, except that positions without a price are worth nothing. */
  lemma ValueSplits(l: Ledger, prices: map<Id, real>)
    ensures Total(l.positions, ValueAt(prices))
         == Total(l.positions, CostOf)
            + Total(l.positions, UnrealizedAt(prices)) - Total(l.positions, UnpricedCost(prices))
  {
    var m := l.positions;
    var known := (k: Id, p: Position) => ValueAt(prices)(k, p) + UnpricedCost(prices)(k, p);
    TotalAdds(m, known, ValueAt(prices), UnpricedCost(prices));
    forall k | k in m ensures known(k, m[k]) == CostOf(k, m[k]) + UnrealizedAt(prices)(k, m[k]) {
      if k in prices {
        Marked(m[k], prices[k]);
      }
    }
    TotalAdds(m, known, CostOf, UnrealizedAt(prices));
  }

  /** Main theorem of the accounts: after any history of trades, through all long, short and crossing cases,
      the portfolio is worth the initial capital plus realized plus unrealized profit, less the cost of
      positions without a price; so exactly when those cost nothing, the profit figures explain the value. */
  lemma ProfitAndLoss(id: Id, initial: real, trades: seq<Trade>, prices: map<Id, real>)
    requires Sound(trades)
    ensures var l := BookedAll(id, Ledger(initial, map[]), trades);
      var explained := initial + Total(l.positions, RealizedOf) + Total(l.positions, UnrealizedAt(prices));
      var unpriced := Total(l.positions, UnpricedCost(prices));
      && PortfolioValue(l, prices) == explained - unpriced
      && (PortfolioValue(l, prices) == explained <==> unpriced == 0.0)
      && ((forall k | k in l.positions && k !in prices :: l.positions[k].quantity == 0.0) ==>
            PortfolioValue(l, prices) == explained)
  {
    hide BookedAll, CostOf;
    var l := BookedAll(id, Ledger(initial, map[]), trades);
    HistoryKeepsStake(id, Ledger(initial, map[]), trades);
    ValueSplits(l, prices);
    StakeOfNothing(initial);
    hide Total;
    if forall k | k in l.positions && k !in prices :: l.positions[k].quantity == 0.0 {
      TotalZero(l.positions, UnpricedCost(prices));
    }
  }

  lemma StakeOfNothing(initial: real)
    ensures Stake(Ledger(initial, map[])) == initial
  {
  }

  lemma {:induction false} TotalZero<T>(m: map<Id, T>, f: (Id, T) -> real)
    requires forall k | k in m :: f(k, m[k]) == 0.0
    ensures Total(m, f) == 0.0
    decreases |m|
  {
    if m != map[] {
      var k :| k in m;
      TotalPick(m, k, f);
      TotalZero(m - {k}, f);
    }
  }

  // ---- Against the trades themselves ----

  /** What the account's own side of a list of trades gains at marks: signed quantity times (mark - price). */
  ghost function Gain(id: Id, trades: seq<Trade>, marks: Id -> real): real {
    if trades == [] then 0.0
    else
      var t := trades[0];
      SignedFor(Buys(id, t), t) * (marks(t.instrument) - t.price) + Gain(id, trades[1..], marks)
  }

  ghost function WorthAt(marks: Id -> real): (Id, Position) -> real {
    (k: Id, p: Position) => p.quantity * marks(k)
  }

  /** Capital plus every position at its mark. */
  ghost function Worth(l: Ledger, marks: Id -> real): real {
    l.capital + Total(l.positions, WorthAt(marks))
  }

  lemma BookingGains(l: Ledger, id: Id, t: Trade, marks: Id -> real)
    requires t.quantity >= 0.0
    ensures Worth(Booked(l, Buys(id, t), t), marks) ==
            Worth(l, marks) + SignedFor(Buys(id, t), t) * (marks(t.instrument) - t.price)
  {
    hide Booked, Cost, Nets;
    var p, d, m := l.In(t.instrument), SignedFor(Buys(id, t), t), marks(t.instrument);
    var q := BookingNets(l, Buys(id, t), t);
    NetsQuantity(p, d, t.price, q);
    TotalUpdate(l.positions, t.instrument, q, WorthAt(marks));
    assert (p.quantity + d) * m == p.quantity * m + d * m;
    assert d * (m - t.price) == d * m - d * t.price;
  }

  lemma {:induction false} HistoryGains(id: Id, l: Ledger, trades: seq<Trade>, marks: Id -> real)
    requires Sound(trades)
    ensures Worth(BookedAll(id, l, trades), marks) == Worth(l, marks) + Gain(id, trades, marks)
    decreases |trades|
  {
    hide Booked, Worth;
    if trades != [] {
      BookingGains(l, id, trades[0], marks);
      HistoryGains(id, Booked(l, Buys(id, trades[0]), trades[0]), trades[1..], marks);
    }
  }

  ghost function UnrealizedAtMarks(marks: Id -> real): (Id, Position) -> real {
    (k: Id, p: Position) => Unrealized(p, marks(k))
  }

  /** Average-cost accounting invents no profit: realized plus unrealized is what the trades themselves have
      gained at the marks. */
  lemma ProfitIsGain(id: Id, initial: real, trades: seq<Trade>, marks: Id -> real)
    requires Sound(trades)
    ensures var l := BookedAll(id, Ledger(initial, map[]), trades);
      Total(l.positions, RealizedOf) + Total(l.positions, UnrealizedAtMarks(marks)) == Gain(id, trades, marks)
  {
    hide BookedAll, Cost, Unrealized;
    var l := BookedAll(id, Ledger(initial, map[]), trades);
    HistoryKeepsStake(id, Ledger(initial, map[]), trades);
    HistoryGains(id, Ledger(initial, map[]), trades, marks);
    forall k | k in l.positions
      ensures WorthAt(marks)(k, l.positions[k])
          == CostOf(k, l.positions[k]) + UnrealizedAtMarks(marks)(k, l.positions[k])
    {
      Marked(l.positions[k], marks(k));
    }
    TotalAdds(l.positions, WorthAt(marks), CostOf, UnrealizedAtMarks(marks));
  }

  // ---- The account object ----

  /** The buying branch of update_position. */
  method BuyInto(position: Position, quantity: real, price: real) returns (updated: Position)
    requires quantity >= 0.0
    ensures updated == Bought(position, quantity, price) && Nets(position, quantity, price, updated)
  {
    BuyingNets(position, quantity, price);
    hide Nets;
    var oldQuantity, oldAvgPrice := position.quantity, position.avgPrice;
    var newQuantity := oldQuantity + quantity;
    updated := position;
    if oldQuantity > 0.0 {
      updated := updated.(avgPrice := (oldQuantity * oldAvgPrice + quantity * price) / newQuantity);
    } else if newQuantity > 0.0 {
      var shortQuantity := Min(quantity, -oldQuantity);
      updated := updated.(realized := updated.realized + shortQuantity * (oldAvgPrice - price));
      var longQuantity := quantity - shortQuantity;
      updated := updated.(avgPrice := if longQuantity > 0.0 then price else 0.0);
    } else {
      updated := updated.(realized := updated.realized + quantity * (oldAvgPrice - price));
    }
    updated := updated.(quantity := newQuantity);
  }

  /** The selling branch of update_position. */
  method SellFrom(position: Position, quantity: real, price: real) returns (updated: Position)
    requires quantity >= 0.0
    ensures updated == Sold(position, quantity, price) && Nets(position, -quantity, price, updated)
  {
    SellingNets(position, quantity, price);
    hide Nets;
    var oldQuantity, oldAvgPrice := position.quantity, position.avgPrice;
    var newQuantity := oldQuantity - quantity;
    updated := position;
    if oldQuantity > 0.0 {
      if newQuantity < 0.0 {
        var longQuantity := Min(quantity, oldQuantity);
        updated := updated.(realized := updated.realized + longQuantity * (price - oldAvgPrice));
        var shortQuantity := quantity - longQuantity;
        updated := updated.(avgPrice := if shortQuantity > 0.0 then price else 0.0);
      } else {
        updated := updated.(realized := updated.realized + quantity * (price - oldAvgPrice));
      }
    } else if oldQuantity < 0.0 {
      updated := updated.(avgPrice := (oldQuantity * oldAvgPrice - quantity * price) / newQuantity);
    } else {
      updated := updated.(avgPrice := price);
    }
    updated := updated.(quantity := newQuantity);
  }

  class Actor {
    const id: Id
    var capital: real
    var positions: map<Id, Position>

    constructor (id: Id, initialCapital: real)
      ensures this.id == id && Books() == Ledger(initialCapital, map[])
    {
      this.id, capital, positions := id, initialCapital, map[];
    }

    function Books(): Ledger
      reads this
    {
      Ledger(capital, positions)
    }

    /** Updates the position and the capital for a trade in which this account is the buyer or the seller. */
    method UpdatePosition(trade: Trade)
      requires trade.quantity >= 0.0
      modifies this
      ensures Books() == Booked(old(Books()), Buys(id, trade), trade)
      ensures Stake(Books()) == old(Stake(Books()))
    {
      hide Bought, Sold, Stake;
      BookingKeepsStake(Books(), Buys(id, trade), trade);
      var isBuyer := trade.buyerId == id;
      var position := Books().In(trade.instrument);
      if isBuyer {
        position := BuyInto(position, trade.quantity, trade.price);
        capital := capital - trade.quantity * trade.price;
      } else {
        position := SellFrom(position, trade.quantity, trade.price);
        capital := capital + trade.quantity * trade.price;
      }
      positions := positions[trade.instrument := position];
    }

    /** The value of the portfolio: capital plus every position that has a price. */
    method Value(prices: map<Id, real>) returns (value: real)
      ensures value == PortfolioValue(Books(), prices)
    {
      hide Total, ValueAt;
      value := capital;
      var rest := positions;
      while rest != map[]
        invariant value + Total(rest, ValueAt(prices)) == PortfolioValue(Books(), prices)
        decreases |rest|
      {
        var k :| k in rest;
        TotalPick(rest, k, ValueAt(prices));
        ValueOfOne(prices, k, rest[k]);
        if k in prices {
          value := value + rest[k].quantity * prices[k];
        }
        rest := rest - {k};
      }
      TotalEmpty(ValueAt(prices));
    }
  }

  lemma ValueOfOne(prices: map<Id, real>, k: Id, p: Position)
    ensures ValueAt(prices)(k, p) == if k in prices then p.quantity * prices[k] else 0.0
  {
  }

  lemma TotalEmpty<T>(f: (Id, T) -> real)
    ensures Total(map[], f) == 0.0
  {
  }
}
