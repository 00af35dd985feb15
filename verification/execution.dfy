/** Laws of execution against a price-time queue: best price, order splitting, limit versus market. */
module Execution {
  import opened Arithmetic
  import opened Orders
  import opened PriceTime
  import opened Submission
  import opened Runs

  function Money(fills: seq<Fill>): real {
    if fills == [] then 0.0 else fills[0].quantity * fills[0].maker.price + Money(fills[1..])
  }

  // ---- Best execution ----

  /** Any way at all of taking quantities out of the resting orders. */
  ghost predicate Allocation(q: seq<Entry>, x: seq<real>) {
    |x| == |q| && (q != [] ==> 0.0 <= x[0] <= q[0].remaining && Allocation(q[1..], x[1..]))
  }

  function Sum(x: seq<real>): real {
    if x == [] then 0.0 else x[0] + Sum(x[1..])
  }

  function AllocationMoney(q: seq<Entry>, x: seq<real>): real
    requires |x| == |q|
  {
    if q == [] then 0.0 else x[0] * q[0].price + AllocationMoney(q[1..], x[1..])
  }

  /** `m` is at least (of bids, at most) `n`. */
  ghost predicate Dearer(side: Side, m: real, n: real) {
    if side == Sell then m >= n else m <= n
  }

  lemma Scaled(side: Side, x: real, p: real, price: real)
    requires x >= 0.0 && Rank(side, p) <= Rank(side, price)
    ensures Dearer(side, x * price, x * p)
  {
    assert x * (price - p) == x * price - x * p;
  }

  /** Taking at prices no better than `p` costs at least `p` a unit; of bids, yields at most `p` a unit. */
  lemma {:induction false} PricesBound(side: Side, q: seq<Entry>, x: seq<real>, p: real)
    requires Allocation(q, x) && forall e | e in q :: Rank(side, p) <= Rank(side, e.price)
    ensures Sum(x) >= 0.0
    ensures Dearer(side, AllocationMoney(q, x), Sum(x) * p)
  {
    if q != [] {
      assert q[0] in q;
      PricesBound(side, q[1..], x[1..], p);
      BoundStep(side, x[0], Sum(x[1..]), p, q[0].price, AllocationMoney(q[1..], x[1..]));
    }
  }

  lemma BoundStep(side: Side, x: real, others: real, p: real, price: real, paid: real)
    requires x >= 0.0 && Rank(side, p) <= Rank(side, price) && Dearer(side, paid, others * p)
    ensures Dearer(side, x * price + paid, (x + others) * p)
  {
    Scaled(side, x, p, price);
    assert (x + others) * p == x * p + others * p;
  }

  /** Arithmetic of the exchange argument when the front order is eaten whole: `gap` is what the allocation
      takes in all beyond what is wanted, `more` what it takes behind the front order. */
  lemma ExchangeWhole(side: Side, x: real, more: real, gap: real, r: real, price: real, p: real, paid: real,
          eaten: real)
    requires Rank(side, p) <= Rank(side, price) && 0.0 <= gap && more == gap - x + r
    requires Dearer(side, paid, eaten + more * price)
    ensures Dearer(side, x * price + paid, r * price + eaten + gap * p)
  {
    if side == Sell {
      WholeSell(x, more, gap, r, price, p, paid, eaten);
    } else {
      WholeBuy(x, more, gap, r, price, p, paid, eaten);
    }
  }

  lemma WholeSell(x: real, more: real, gap: real, r: real, price: real, p: real, paid: real, eaten: real)
    requires p <= price && 0.0 <= gap && more == gap - x + r && paid >= eaten + more * price
    ensures x * price + paid >= r * price + eaten + gap * p
  {
    Scaled(Sell, gap, p, price);
    Spread(more, gap, x, r, price);
  }

  lemma WholeBuy(x: real, more: real, gap: real, r: real, price: real, p: real, paid: real, eaten: real)
    requires price <= p && 0.0 <= gap && more == gap - x + r && paid <= eaten + more * price
    ensures x * price + paid <= r * price + eaten + gap * p
  {
    Scaled(Buy, gap, p, price);
    Spread(more, gap, x, r, price);
  }

  lemma Spread(more: real, gap: real, x: real, r: real, price: real)
    requires more == gap - x + r
    ensures more * price == gap * price - x * price + r * price
  {
  }

  /** ... and when it is eaten in part. */
  lemma ExchangePart(side: Side, total: real, want: real, price: real, p: real, paid: real)
    requires Rank(side, p) <= Rank(side, price) && want <= total && Dearer(side, paid, total * price)
    ensures Dearer(side, paid, want * price + (total - want) * p)
  {
    Scaled(side, total - want, p, price);
    assert total * price == want * price + (total - want) * price;
  }

  /** The allocation pays at least what eating the queue pays, plus `p` for every unit more. */
  ghost predicate Exchanged(side: Side, q: seq<Entry>, x: seq<real>, want: real, p: real)
    requires |x| == |q|
  {
    Dearer(side, AllocationMoney(q, x), Money(Consume(side, None, q, want).fills) + (Sum(x) - want) * p)
  }

  /** The exchange argument: an allocation of at least `want` pays at least what eating the queue pays,
      plus `p` for every unit more. */
  lemma {:induction false} Exchange(side: Side, q: seq<Entry>, x: seq<real>, want: real, p: real)
    requires Sorted(side, q) && Positive(q) && Allocation(q, x)
    requires forall e | e in q :: Rank(side, p) <= Rank(side, e.price)
    requires 0.0 <= want <= Sum(x)
    ensures Exchanged(side, q, x, want, p)
  {
    if q == [] || want == 0.0 {
      ExchangeNothing(side, q, x, want, p);
    } else {
      assert q[0] in q;
      if q[0].remaining <= want {
        Exchange(side, q[1..], x[1..], want - q[0].remaining, q[0].price);
        ExchangeStep(side, q, x, want, p);
      } else {
        ExchangeFront(side, q, x, want, p);
      }
    }
  }

  lemma ExchangeNothing(side: Side, q: seq<Entry>, x: seq<real>, want: real, p: real)
    requires Allocation(q, x) && forall e | e in q :: Rank(side, p) <= Rank(side, e.price)
    requires (q == [] && 0.0 <= want <= Sum(x)) || want == 0.0
    ensures Exchanged(side, q, x, want, p)
  {
    PricesBound(side, q, x, p);
    assert want == 0.0;
    assert Consume(side, None, q, want).fills == [];
  }

  lemma ExchangeStep(side: Side, q: seq<Entry>, x: seq<real>, want: real, p: real)
    requires q != [] && |x| == |q| && q[0].remaining <= want && 0.0 < want <= Sum(x)
    requires Rank(side, p) <= Rank(side, q[0].price)
    requires Exchanged(side, q[1..], x[1..], want - q[0].remaining, q[0].price)
    ensures Exchanged(side, q, x, want, p)
  {
    MoneyWhole(side, q, want);
    var eaten := q[0].remaining * q[0].price + Money(Consume(side, None, q[1..], want - q[0].remaining).fills);
    ExchangeBehind(side, q, x, want, p);
    ExchangedAt(side, q, x, want, p, eaten);
  }

  lemma ExchangeBehind(side: Side, q: seq<Entry>, x: seq<real>, want: real, p: real)
    requires q != [] && |x| == |q| && want <= Sum(x) && Rank(side, p) <= Rank(side, q[0].price)
    requires Exchanged(side, q[1..], x[1..], want - q[0].remaining, q[0].price)
    ensures var eaten := q[0].remaining * q[0].price + Money(Consume(side, None, q[1..], want - q[0].remaining).fills);
      Dearer(side, AllocationMoney(q, x), eaten + (Sum(x) - want) * p)
  {
    AllocationFront(q, x);
    ExchangeValues(side, AllocationMoney(q, x), AllocationMoney(q[1..], x[1..]),
                   Money(Consume(side, None, q[1..], want - q[0].remaining).fills),
                   x[0], Sum(x), Sum(x[1..]), want, q[0].remaining, q[0].price, p);
  }

  lemma ExchangeValues(side: Side, paid: real, paidBehind: real, eatenBehind: real,
                       x: real, total: real, behind: real, want: real, r: real, price: real, p: real)
    requires paid == x * price + paidBehind && total == x + behind
    requires want <= total && Rank(side, p) <= Rank(side, price)
    requires Dearer(side, paidBehind, eatenBehind + (behind - (want - r)) * price)
    ensures Dearer(side, paid, r * price + eatenBehind + (total - want) * p)
  {
    ExchangeWhole(side, x, behind - (want - r), total - want, r, price, p, paidBehind, eatenBehind);
  }

  lemma ExchangedAt(side: Side, q: seq<Entry>, x: seq<real>, want: real, p: real, eaten: real)
    requires |x| == |q| && Money(Consume(side, None, q, want).fills) == eaten
    requires Dearer(side, AllocationMoney(q, x), eaten + (Sum(x) - want) * p)
    ensures Exchanged(side, q, x, want, p)
  {
  }

  lemma MoneyWhole(side: Side, q: seq<Entry>, want: real)
    requires q != [] && q[0].remaining <= want && 0.0 < want
    ensures Money(Consume(side, None, q, want).fills)
      == q[0].remaining * q[0].price + Money(Consume(side, None, q[1..], want - q[0].remaining).fills)
  {
    FirstFill(Fill(q[0], q[0].remaining), Consume(side, None, q[1..], want - q[0].remaining).fills);
  }

  lemma AllocationFront(q: seq<Entry>, x: seq<real>)
    requires q != [] && |x| == |q|
    ensures AllocationMoney(q, x) == x[0] * q[0].price + AllocationMoney(q[1..], x[1..])
  {
  }

  lemma ExchangeFront(side: Side, q: seq<Entry>, x: seq<real>, want: real, p: real)
    requires q != [] && Sorted(side, q) && Positive(q) && Allocation(q, x)
    requires Rank(side, p) <= Rank(side, q[0].price) && 0.0 < want < q[0].remaining && want <= Sum(x)
    ensures Exchanged(side, q, x, want, p)
  {
    var price := q[0].price;
    forall e | e in q ensures Rank(side, price) <= Rank(side, e.price) {
      HeadIsBest(side, q, e);
    }
    PricesBound(side, q, x, price);
    MoneyPart(side, q, want);
    hide Sorted, Allocation, Money, AllocationMoney, Sum, Consume, Exchanged;
    ExchangePart(side, Sum(x), want, price, p, AllocationMoney(q, x));
    ExchangedAt(side, q, x, want, p, want * price);
  }

  lemma MoneyPart(side: Side, q: seq<Entry>, want: real)
    requires q != [] && 0.0 < want < q[0].remaining
    ensures Money(Consume(side, None, q, want).fills) == want * q[0].price
  {
    assert Consume(side, None, q, want).fills[1..] == [];
  }

  /** A market buy pays no more, and a market sell receives no less, than any other way of taking the same
      quantity from the resting orders. */
  lemma BestExecution(side: Side, q: seq<Entry>, want: real, x: seq<real>)
    requires Queue(side, q) && want >= 0.0 && Allocation(q, x)
    requires Sum(x) == Taken(Consume(side, None, q, want).fills)
    ensures var paid := Money(Consume(side, None, q, want).fills);
      if side == Sell then paid <= AllocationMoney(q, x) else paid >= AllocationMoney(q, x)
  {
    EatenIsEnough(side, q, want);
    AllocationTotal(q, x);
    ExchangeExact(side, q, x);
  }

  lemma {:induction false} AllocationTotal(q: seq<Entry>, x: seq<real>)
    requires Allocation(q, x)
    ensures Sum(x) >= 0.0
  {
    if q != [] {
      AllocationTotal(q[1..], x[1..]);
    }
  }

  lemma ExchangeExact(side: Side, q: seq<Entry>, x: seq<real>)
    requires Sorted(side, q) && Positive(q) && Allocation(q, x) && Sum(x) >= 0.0
    ensures Dearer(side, AllocationMoney(q, x), Money(Consume(side, None, q, Sum(x)).fills))
  {
    if q != [] {
      forall e | e in q ensures Rank(side, q[0].price) <= Rank(side, e.price) {
        HeadIsBest(side, q, e);
      }
      Exchange(side, q, x, Sum(x), q[0].price);
    }
  }

  /** Asking for more than is taken changes nothing about the fills. */
  lemma {:induction false} EatenIsEnough(side: Side, q: seq<Entry>, want: real)
    requires Positive(q) && want >= 0.0
    ensures var o := Consume(side, None, q, want); Consume(side, None, q, Taken(o.fills)).fills == o.fills
  {
    if q != [] && want > 0.0 {
      assert q[0] in q;
      if q[0].remaining <= want {
        var r := q[0].remaining;
        EatenIsEnough(side, q[1..], want - r);
        ConsumeTotals(side, None, q[1..], want - r);
        TakenNonNegative(side, q[1..], want - r);
        assert Consume(side, None, q, want).fills[1..] == Consume(side, None, q[1..], want - r).fills;
      } else {
        assert Consume(side, None, q, want).fills[1..] == [];
      }
    }
  }

  lemma {:induction false} TakenNonNegative(side: Side, q: seq<Entry>, want: real)
    requires Positive(q)
    ensures Taken(Consume(side, None, q, want).fills) >= 0.0
  {
    if q != [] && want > 0.0 {
      assert q[0] in q;
      if q[0].remaining <= want {
        TakenNonNegative(side, q[1..], want - q[0].remaining);
        assert Consume(side, None, q, want).fills[1..] == Consume(side, None, q[1..], want - q[0].remaining).fills;
      } else {
        assert Consume(side, None, q, want).fills[1..] == [];
      }
    }
  }

  /** A market order takes all it wants or all there is. */
  lemma SweepDepth(side: Side, q: seq<Entry>, want: real)
    requires Positive(q) && want >= 0.0
    ensures Taken(Consume(side, None, q, want).fills) == Min(want, Volume(q))
  {
    ConsumeTotals(side, None, q, want);
    VolumeNonNegative(Consume(side, None, q, want).rest, side, None, q, want);
  }

  lemma {:induction false} VolumeNonNegative(r: seq<Entry>, side: Side, limit: Option<real>, q: seq<Entry>, want: real)
    requires Positive(q) && r == Consume(side, limit, q, want).rest
    ensures Volume(r) >= 0.0
  {
    if q == [] || want <= 0.0 || !Within(side, limit, q[0].price) {
      VolumePositive(q);
    } else if q[0].remaining <= want {
      VolumeNonNegative(r, side, limit, q[1..], want - q[0].remaining);
    } else {
      assert r[1..] == q[1..];
      VolumePositive(q[1..]);
    }
  }

  lemma {:induction false} VolumePositive(q: seq<Entry>)
    requires Positive(q)
    ensures Volume(q) >= 0.0 && (q != [] ==> Volume(q) > 0.0)
  {
    if q != [] {
      assert q[0] in q;
      VolumePositive(q[1..]);
    }
  }

  // ---- Splitting ----

  /** The same orders give up the same quantities for the same money. */
  ghost predicate SameFills(a: seq<Fill>, b: seq<Fill>) {
    Taken(a) == Taken(b) && Money(a) == Money(b) && forall id: Id :: FilledOf(a, id) == FilledOf(b, id)
  }

  lemma FirstFill(f: Fill, fills: seq<Fill>)
    ensures Taken([f] + fills) == f.quantity + Taken(fills)
    ensures Money([f] + fills) == f.quantity * f.maker.price + Money(fills)
    ensures forall id: Id ::
        FilledOf([f] + fills, id) == FilledOf(fills, id) + if f.maker.id == id then f.quantity else 0.0
  {
    assert ([f] + fills)[1..] == fills;
  }

  lemma SameFront(f: Fill, a: seq<Fill>, b: seq<Fill>)
    requires SameFills(a, b)
    ensures SameFills([f] + a, [f] + b)
  {
    FirstFill(f, a);
    FirstFill(f, b);
  }

  /** Two fills of one order are one fill of the sum. */
  lemma SameMerged(e: Entry, x: real, y: real, d: Entry, rest: seq<Fill>)
    requires d.id == e.id && d.price == e.price
    ensures SameFills([Fill(e, x)] + ([Fill(d, y)] + rest), [Fill(e, x + y)] + rest)
  {
    FirstFill(Fill(d, y), rest);
    FirstFill(Fill(e, x), [Fill(d, y)] + rest);
    FirstFill(Fill(e, x + y), rest);
    assert x * e.price + y * e.price == (x + y) * e.price;
  }

  ghost predicate SplitAgrees(side: Side, limit: Option<real>, q: seq<Entry>, w1: real, w2: real) {
    var a := Consume(side, limit, q, w1);
    var b, c := Consume(side, limit, a.rest, w2), Consume(side, limit, q, w1 + w2);
    b.rest == c.rest && a.left + b.left == c.left && SameFills(a.fills + b.fills, c.fills)
  }

  /** Order splitting: two orders one after the other leave the same queue, take the same from every
      resting order and cost the same as one order for the sum. */
  lemma {:induction false} Splitting(side: Side, limit: Option<real>, q: seq<Entry>, w1: real, w2: real)
    requires Positive(q) && w1 >= 0.0 && w2 >= 0.0
    ensures SplitAgrees(side, limit, q, w1, w2)
  {
    if q == [] || !Within(side, limit, q[0].price) || w1 == 0.0 {
      SplitNothing(side, limit, q, w1, w2);
    } else if q[0].remaining <= w1 {
      assert q[0] in q;
      Splitting(side, limit, q[1..], w1 - q[0].remaining, w2);
      SplitBehind(side, limit, q, w1, w2);
    } else if q[0].remaining <= w1 + w2 {
      SplitWhole(side, limit, q, w1, w2);
    } else {
      SplitPart(side, limit, q, w1, w2);
    }
  }

  lemma SplitNothing(side: Side, limit: Option<real>, q: seq<Entry>, w1: real, w2: real)
    requires q == [] || !Within(side, limit, q[0].price) || w1 == 0.0
    requires w1 >= 0.0 && w2 >= 0.0
    ensures SplitAgrees(side, limit, q, w1, w2)
  {
    var a, b, c := Consume(side, limit, q, w1), Consume(side, limit, q, w2), Consume(side, limit, q, w1 + w2);
    assert a == Outcome([], q, w1);
    assert a.fills + b.fills == c.fills;
  }

  lemma SplitBehind(side: Side, limit: Option<real>, q: seq<Entry>, w1: real, w2: real)
    requires q != [] && w2 >= 0.0 && 0.0 < q[0].remaining <= w1 && Within(side, limit, q[0].price)
    requires SplitAgrees(side, limit, q[1..], w1 - q[0].remaining, w2)
    ensures SplitAgrees(side, limit, q, w1, w2)
  {
    var r, t := q[0].remaining, q[1..];
    var d := Consume(side, limit, t, w1 - r);
    var b, e := Consume(side, limit, d.rest, w2), Consume(side, limit, t, w1 - r + w2);
    assert w1 - r + w2 == w1 + w2 - r;
    assert ([Fill(q[0], r)] + d.fills) + b.fills == [Fill(q[0], r)] + (d.fills + b.fills);
    SameFront(Fill(q[0], r), d.fills + b.fills, e.fills);
  }

  /** The first part stops inside the front order, the second finishes it... */
  lemma SplitWhole(side: Side, limit: Option<real>, q: seq<Entry>, w1: real, w2: real)
    requires q != [] && 0.0 < w1 < q[0].remaining <= w1 + w2 && Within(side, limit, q[0].price)
    ensures SplitAgrees(side, limit, q, w1, w2)
  {
    var r, t := q[0].remaining, q[1..];
    var p := q[0].(remaining := r - w1);
    assert ([p] + t)[1..] == t;
    assert w2 - (r - w1) == w1 + w2 - r;
    var d := Consume(side, limit, t, w1 + w2 - r);
    assert Consume(side, limit, [p] + t, w2) == Outcome([Fill(p, r - w1)] + d.fills, d.rest, d.left);
    SameMerged(q[0], w1, r - w1, p, d.fills);
  }

  /** ... or stops inside it too. */
  lemma SplitPart(side: Side, limit: Option<real>, q: seq<Entry>, w1: real, w2: real)
    requires q != [] && 0.0 < w1 && 0.0 <= w2 && w1 + w2 < q[0].remaining && Within(side, limit, q[0].price)
    ensures SplitAgrees(side, limit, q, w1, w2)
  {
    var r, t := q[0].remaining, q[1..];
    var p := q[0].(remaining := r - w1);
    assert ([p] + t)[1..] == t;
    var b := Consume(side, limit, [p] + t, w2);
    hide Money, Taken, FilledOf;
    if w2 > 0.0 {
      hide SameFills;
      assert b == Outcome([Fill(p, w2)], [p.(remaining := r - w1 - w2)] + t, 0.0);
      SameMerged(q[0], w1, w2, p, []);
      assert [Fill(p, w2)] + [] == [Fill(p, w2)] && [Fill(q[0], w1 + w2)] + [] == [Fill(q[0], w1 + w2)];
    } else {
      assert [Fill(q[0], w1)] + [] == [Fill(q[0], w1)];
    }
  }

  // ---- Limit orders and market orders ----

  /** What rests at acceptable prices before the first unacceptable one. */
  function DepthWithin(side: Side, limit: real, q: seq<Entry>): real {
    if q == [] || !Within(side, Some(limit), q[0].price) then 0.0
    else q[0].remaining + DepthWithin(side, limit, q[1..])
  }

  ghost predicate AllWithin(side: Side, limit: real, q: seq<Entry>) {
    forall e | e in q :: Within(side, Some(limit), e.price)
  }

  /** A limit order does exactly what a market order of the same size does when the depth within its limit
      covers it or its limit reaches every resting order; in every other case it does something else. */
  lemma {:induction false} LimitIsMarketIff(side: Side, limit: real, q: seq<Entry>, want: real)
    requires Sorted(side, q) && Positive(q) && want >= 0.0
    ensures Consume(side, Some(limit), q, want) == Consume(side, None, q, want)
       <==> want <= DepthWithin(side, limit, q) || AllWithin(side, limit, q)
  {
    if q != [] {
      assert q[0] in q;
      if Within(side, Some(limit), q[0].price) {
        assert forall e :: e in q <==> e == q[0] || e in q[1..];
        DepthNonNegative(side, limit, q[1..]);
        if 0.0 < want && q[0].remaining <= want {
          LimitIsMarketIff(side, limit, q[1..], want - q[0].remaining);
          var l := Consume(side, Some(limit), q[1..], want - q[0].remaining);
          var m := Consume(side, None, q[1..], want - q[0].remaining);
          var f := [Fill(q[0], q[0].remaining)];
          assert f + l.fills == f + m.fills ==> l.fills == m.fills by {
            assert (f + l.fills)[1..] == l.fills && (f + m.fills)[1..] == m.fills;
          }
        }
      }
    }
  }

  lemma {:induction false} DepthNonNegative(side: Side, limit: real, q: seq<Entry>)
    requires Positive(q)
    ensures DepthWithin(side, limit, q) >= 0.0
  {
    if q != [] {
      assert q[0] in q;
      DepthNonNegative(side, limit, q[1..]);
    }
  }

  /** Trade by trade, a limit order and a market order with the same fills meet the same resting order for
      the same quantity; a limit buy also pays the same price, a limit sell only its own. */
  ghost predicate Corresponds(side: Side, e: Entry, t: seq<Trade>, m: seq<Trade>) {
    |t| == |m| && (t != [] ==>
      && t[0].quantity == m[0].quantity
      && (if side == Buy then t[0].sellOrderId == m[0].sellOrderId && t[0].price == m[0].price
          else t[0].buyOrderId == m[0].buyOrderId && t[0].price == e.price <= m[0].price)
      && Corresponds(side, e, t[1..], m[1..]))
  }

  lemma {:induction false} TradesCorrespond(side: Side, e: Entry, fills: seq<Fill>, actor: Id, instrument: Id, k: nat)
    requires forall f | f in fills :: Within(side.Opposite(), Some(e.price), f.maker.price)
    ensures Corresponds(side, e, LimitTrades(side, e, fills, instrument),
        MarketTrades(side, actor, fills, instrument, k))
  {
    if fills != [] {
      assert fills[0] in fills;
      TradesCorrespond(side, e, fills[1..], actor, instrument, k + 1);
      assert LimitTrades(side, e, fills, instrument)[1..] == LimitTrades(side, e, fills[1..], instrument);
      assert MarketTrades(side, actor, fills, instrument, k)[1..]
          == MarketTrades(side, actor, fills[1..], instrument, k + 1);
    }
  }

  /** With enough depth within its limit, a limit order through the matching loop and a market order through
      the sweep leave the same book and make corresponding trades. */
  lemma LimitActsAsMarket(b: Book, side: Side, e: Entry, instrument: Id)
    requires AtRest(b) && 0.0 < e.remaining <= DepthWithin(side.Opposite(), e.price, b.Of(side.Opposite()))
    ensures var l := SubmitLimit(b, side, e, instrument);
      var m := SubmitMarket(b, side, e.remaining, e.actor, instrument);
      l.book == m.book && Corresponds(side, e, l.trades, m.trades)
  {
    var opp := side.Opposite();
    var q := b.Of(opp);
    LimitIsMarketIff(opp, e.price, q, e.remaining);
    var o := Consume(opp, Some(e.price), q, e.remaining);
    EnoughDepth(opp, e.price, q, e.remaining);
    FillsAreWithin(opp, Some(e.price), q, e.remaining);
    TradesCorrespond(side, e, o.fills, e.actor, instrument, 0);
  }

  lemma {:induction false} EnoughDepth(side: Side, limit: real, q: seq<Entry>, want: real)
    requires Positive(q) && 0.0 <= want <= DepthWithin(side, limit, q)
    ensures Consume(side, Some(limit), q, want).left == 0.0
  {
    if q != [] && want > 0.0 && q[0].remaining <= want {
      EnoughDepth(side, limit, q[1..], want - q[0].remaining);
    }
  }
}
