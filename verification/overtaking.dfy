/** Which crossed books the matching loop serves in price-time order, read off the two queues before the call,
    and why no book that the engine reaches is any other (engine/src/order_book.cpp). */
module Overtaking {
  import opened Arithmetic
  import opened Orders
  import opened PriceTime
  import opened Matching
  import opened Submission
  import opened Runs

  // ---- The condition ----

  /** The quantity ahead of position `i`. */
  function Ahead(q: seq<Entry>, i: nat): real
    requires i <= |q|
  {
    Volume(q[..i])
  }

  /** The two orders trade with each other by price-time priority: their prices cross, and their stretches of
      the quantities counted from the two fronts overlap. */
  predicate Meet(bq: seq<Entry>, aq: seq<Entry>, i: nat, j: nat)
    requires i < |bq| && j < |aq|
  {
    && aq[j].price <= bq[i].price
    && Max(Ahead(bq, i), Ahead(aq, j)) < Min(Ahead(bq, i + 1), Ahead(aq, j + 1))
  }

  predicate LastAtPrice(q: seq<Entry>, i: nat)
    requires i < |q|
  {
    i + 1 == |q| || q[i + 1].price != q[i].price
  }

  /** Their trade leaves one of the two unfilled, and the loop goes on past it, since both have a successor at
      their price. */
  predicate Passed(bq: seq<Entry>, aq: seq<Entry>, i: nat, j: nat)
    requires i < |bq| && j < |aq|
  {
    && Meet(bq, aq, i, j) && Ahead(bq, i + 1) != Ahead(aq, j + 1)
    && !LastAtPrice(bq, i) && !LastAtPrice(aq, j)
  }

  predicate NonePassed(bq: seq<Entry>, aq: seq<Entry>) {
    forall i, j | 0 <= i < |bq| && 0 <= j < |aq| :: !Passed(bq, aq, i, j)
  }

  // ---- The condition along price-time matching ----

  /** A queue after a fill of its front order. */
  function After(q: seq<Entry>, fill: real): seq<Entry>
    requires q != []
  {
    Left(q[0], fill) + q[1..]
  }

  predicate FrontPassed(bq: seq<Entry>, aq: seq<Entry>)
    requires bq != [] && aq != []
  {
    bq[0].remaining != aq[0].remaining && !LastAtPrice(bq, 0) && !LastAtPrice(aq, 0)
  }

  /** No front order is passed, all the way. */
  predicate StepsClean(bq: seq<Entry>, aq: seq<Entry>)
    decreases |bq| + |aq|
  {
    bq == [] || aq == [] || bq[0].price < aq[0].price ||
    (var fill := Min(bq[0].remaining, aq[0].remaining);
     !FrontPassed(bq, aq) && StepsClean(After(bq, fill), After(aq, fill)))
  }

  /** How many orders a fill of the front removes. */
  function Removed(q: seq<Entry>, fill: real): nat
    requires q != []
  {
    if q[0].remaining <= fill then 1 else 0
  }

  lemma {:induction false} AheadGrows(q: seq<Entry>, i: nat, j: nat)
    requires i <= j <= |q| && Positive(q)
    ensures 0.0 <= Ahead(q, i) <= Ahead(q, j)
    ensures i < j ==> Ahead(q, i) < Ahead(q, j)
  {
    if j > 0 {
      assert q[..j] == q[..j - 1] + [q[j - 1]];
      VolumeConcat(q[..j - 1], [q[j - 1]]);
      VolumeOfOne(q[j - 1]);
      assert q[j - 1] in q;
      AheadGrows(q, if i < j then i else i - 1, j - 1);
    }
  }

  lemma VolumeOfOne(e: Entry)
    ensures Volume([e]) == e.remaining
  {
    assert Volume([e][1..]) == 0.0;
  }

  /** Positions after a fill of the front are positions before it, with the fill taken off what is ahead. */
  lemma AfterShifts(q: seq<Entry>, fill: real, k: nat)
    requires q != [] && Positive(q) && 0.0 < fill <= q[0].remaining && k <= |After(q, fill)|
    ensures var d, r := Removed(q, fill), After(q, fill);
      && |r| == |q| - d
      && Ahead(r, k) == (if k + d == 0 then 0.0 else Ahead(q, k + d) - fill)
      && (k < |r| ==> r[k].price == q[k + d].price && LastAtPrice(r, k) == LastAtPrice(q, k + d))
  {
    var d, r := Removed(q, fill), After(q, fill);
    if d == 1 {
      assert r == q[1..];
      assert q[..k + 1][1..] == r[..k];
    } else {
      assert r == [q[0].(remaining := q[0].remaining - fill)] + q[1..];
      if k > 0 {
        assert r[..k][1..] == q[..k][1..];
      }
    }
  }

  ghost predicate Crossing(bq: seq<Entry>, aq: seq<Entry>) {
    bq != [] && aq != [] && aq[0].price <= bq[0].price && Positive(bq) && Positive(aq)
  }

  /** A later pair is passed after the front trade exactly if it was before. */
  lemma PassedShifts(bq: seq<Entry>, aq: seq<Entry>, i: nat, j: nat)
    requires Crossing(bq, aq)
    requires var fill := Min(bq[0].remaining, aq[0].remaining);
      i < |After(bq, fill)| && j < |After(aq, fill)|
    ensures var fill := Min(bq[0].remaining, aq[0].remaining);
      var d, e := Removed(bq, fill), Removed(aq, fill);
      && i + d < |bq| && j + e < |aq|
      && (Passed(After(bq, fill), After(aq, fill), i, j) <==> Passed(bq, aq, i + d, j + e))
  {
    hide Ahead, LastAtPrice, After;
    assert bq[0] in bq && aq[0] in aq;
    var fill := Min(bq[0].remaining, aq[0].remaining);
    var d, e := Removed(bq, fill), Removed(aq, fill);
    AfterShifts(bq, fill, i);
    AfterShifts(bq, fill, i + 1);
    AfterShifts(aq, fill, j);
    AfterShifts(aq, fill, j + 1);
    BehindFront(bq, i + d);
    BehindFront(aq, j + e);
    SameOverlap(Ahead(bq, i + d), Ahead(aq, j + e), Ahead(bq, i + d + 1), Ahead(aq, j + e + 1),
                Ahead(After(bq, fill), i), Ahead(After(aq, fill), j), fill);
  }

  /** Moving both stretches by a fill keeps their overlap; one that starts at the front starts there again. */
  lemma SameOverlap(b: real, a: real, b1: real, a1: real, b': real, a': real, fill: real)
    requires fill > 0.0
    requires b' == b - fill || (b == 0.0 == b' && a >= fill && a' == a - fill)
    requires a' == a - fill || (a == 0.0 == a' && b >= fill && b' == b - fill)
    ensures Max(b', a') < Min(b1 - fill, a1 - fill) <==> Max(b, a) < Min(b1, a1)
  {
  }

  lemma BehindFront(q: seq<Entry>, i: nat)
    requires q != [] && Positive(q) && i <= |q|
    ensures if i == 0 then Ahead(q, i) == 0.0 else Ahead(q, i) >= q[0].remaining
  {
    AheadOfFront(q);
    if i > 0 {
      AheadGrows(q, 1, i);
    }
  }

  lemma AheadOfFront(q: seq<Entry>)
    requires q != []
    ensures Ahead(q, 0) == 0.0 && Ahead(q, 1) == q[0].remaining
  {
    assert q[..1] == [q[0]];
    VolumeOfOne(q[0]);
  }

  /** A pair of which only one is at the front does not meet if that one is filled by the front trade. */
  lemma FrontMeetsFront(bq: seq<Entry>, aq: seq<Entry>, i: nat, j: nat)
    requires Crossing(bq, aq) && i < |bq| && j < |aq|
    requires var fill := Min(bq[0].remaining, aq[0].remaining); i < Removed(bq, fill) || j < Removed(aq, fill)
    ensures Passed(bq, aq, i, j) <==> i == 0 && j == 0 && FrontPassed(bq, aq)
  {
    assert bq[0] in bq && aq[0] in aq;
    AheadOfFront(bq);
    AheadOfFront(aq);
    if i > 0 {
      AheadGrows(bq, 1, i);
    }
    if j > 0 {
      AheadGrows(aq, 1, j);
    }
    hide Ahead, LastAtPrice;
  }

  /** One step: no pair is passed exactly if the fronts are not and no pair is passed afterwards. */
  lemma NonePassedStep(bq: seq<Entry>, aq: seq<Entry>)
    requires Crossing(bq, aq)
    ensures var fill := Min(bq[0].remaining, aq[0].remaining);
      NonePassed(bq, aq) <==> !FrontPassed(bq, aq) && NonePassed(After(bq, fill), After(aq, fill))
  {
    hide Passed, FrontPassed, After;
    var fill := Min(bq[0].remaining, aq[0].remaining);
    var d, e := Removed(bq, fill), Removed(aq, fill);
    var br, ar := After(bq, fill), After(aq, fill);
    StepLengths(bq, aq);
    if NonePassed(bq, aq) {
      FrontMeetsFront(bq, aq, 0, 0);
      assert !Passed(bq, aq, 0, 0);
      forall i, j | 0 <= i < |br| && 0 <= j < |ar| ensures !Passed(br, ar, i, j) {
        PassedShifts(bq, aq, i, j);
        assert !Passed(bq, aq, i + d, j + e);
      }
    }
    if !FrontPassed(bq, aq) && NonePassed(br, ar) {
      forall i, j | 0 <= i < |bq| && 0 <= j < |aq| ensures !Passed(bq, aq, i, j) {
        if i < d || j < e {
          FrontMeetsFront(bq, aq, i, j);
        } else {
          PassedShifts(bq, aq, i - d, j - e);
          assert !Passed(br, ar, i - d, j - e);
        }
      }
    }
  }

  lemma StepLengths(bq: seq<Entry>, aq: seq<Entry>)
    requires Crossing(bq, aq)
    ensures var fill := Min(bq[0].remaining, aq[0].remaining);
      && |After(bq, fill)| == |bq| - Removed(bq, fill) && |After(aq, fill)| == |aq| - Removed(aq, fill)
      && Removed(bq, fill) + Removed(aq, fill) > 0
  {
  }

  lemma AfterKeeps(side: Side, q: seq<Entry>, fill: real)
    requires q != [] && Sorted(side, q) && Positive(q) && 0.0 < fill <= q[0].remaining
    ensures Sorted(side, After(q, fill)) && Positive(After(q, fill))
  {
    assert q[0] in q;
    if q[0].remaining > fill {
      assert After(q, fill)[1..] == q[1..];
    } else {
      assert After(q, fill) == q[1..];
    }
  }

  lemma NoCrossingNoPassing(bq: seq<Entry>, aq: seq<Entry>)
    requires Sorted(Buy, bq) && Sorted(Sell, aq)
    requires bq == [] || aq == [] || bq[0].price < aq[0].price
    ensures NonePassed(bq, aq)
  {
    forall i, j | 0 <= i < |bq| && 0 <= j < |aq| ensures !Passed(bq, aq, i, j) {
      HeadIsBest(Buy, bq, bq[i]);
      HeadIsBest(Sell, aq, aq[j]);
    }
  }

  lemma {:induction false} StepsCleanIff(bq: seq<Entry>, aq: seq<Entry>)
    requires Sorted(Buy, bq) && Positive(bq) && Sorted(Sell, aq) && Positive(aq)
    ensures StepsClean(bq, aq) <==> NonePassed(bq, aq)
    decreases |bq| + |aq|
  {
    if bq == [] || aq == [] || bq[0].price < aq[0].price {
      NoCrossingNoPassing(bq, aq);
    } else {
      assert bq[0] in bq && aq[0] in aq;
      var fill := Min(bq[0].remaining, aq[0].remaining);
      AfterKeeps(Buy, bq, fill);
      AfterKeeps(Sell, aq, fill);
      StepLengths(bq, aq);
      NonePassedStep(bq, aq);
      StepsCleanIff(After(bq, fill), After(aq, fill));
    }
  }

  // ---- The loop's own run meets the condition ----

  lemma StepsCleanStep(bq: seq<Entry>, aq: seq<Entry>, b: seq<Entry>, a: seq<Entry>)
    requires bq != [] && aq != [] && aq[0].price <= bq[0].price
    ensures var fill := Min(bq[0].remaining, aq[0].remaining);
      StepsClean(bq + b, aq + a) <==>
        !FrontPassed(bq + b, aq + a) && StepsClean(After(bq, fill) + b, After(aq, fill) + a)
  {
    var fill := Min(bq[0].remaining, aq[0].remaining);
    assert (bq + b)[1..] == bq[1..] + b && (aq + a)[1..] == aq[1..] + a;
    assert After(bq + b, fill) == After(bq, fill) + b && After(aq + a, fill) == After(aq, fill) + a;
  }

  /** The fronts `bq` and `aq` are what the two queues hold at their best prices. */
  ghost predicate Fronts(bq: seq<Entry>, aq: seq<Entry>, b: seq<Entry>, a: seq<Entry>, bid: real, ask: real) {
    && bq != [] && aq != [] && AtPrices(bq, aq, bid, ask)
    && (b != [] ==> b[0].price != bid) && (a != [] ==> a[0].price != ask)
  }

  lemma FrontsTail(bq: seq<Entry>, aq: seq<Entry>, b: seq<Entry>, a: seq<Entry>, bid: real, ask: real)
    requires Fronts(bq, aq, b, a, bid, ask)
    ensures bq != [] && aq != [] && aq[0].price == ask <= bid == bq[0].price && bq[0].remaining > 0.0 &&
        aq[0].remaining > 0.0
    ensures LastAtPrice(bq + b, 0) <==> |bq| == 1
    ensures LastAtPrice(aq + a, 0) <==> |aq| == 1
    ensures |bq| > 1 && |aq| > 1 ==> Fronts(bq[1..], aq[1..], b, a, bid, ask)
  {
    assert bq[0] in bq && aq[0] in aq;
    assert |bq| > 1 ==> bq[1] in bq;
    assert |aq| > 1 ==> aq[1] in aq;
  }

  /** The pass over an aligned pair of levels goes step by step, and clean. */
  lemma {:induction false} AlignedIsClean(bq: seq<Entry>, aq: seq<Entry>, b: seq<Entry>, a: seq<Entry>,
                                          instrument: Id, bid: real, ask: real)
    requires Fronts(bq, aq, b, a, bid, ask) && Aligned(bq, aq)
    ensures var m := MatchQueues(bq, aq, instrument, ask);
      StepsClean(bq + b, aq + a) <==> StepsClean(m.bids + b, m.asks + a)
  {
    hide StepsClean, Fronts;
    FrontsTail(bq, aq, b, a, bid, ask);
    StepsCleanStep(bq, aq, b, a);
    if |bq| > 1 && |aq| > 1 {
      AlignedTail(bq, aq);
      EqualFrontsQueues(bq, aq, instrument);
      AlignedIsClean(bq[1..], aq[1..], b, a, instrument, bid, ask);
      assert [] + bq[1..] == bq[1..] && [] + aq[1..] == aq[1..];
    } else {
      var fill := Min(bq[0].remaining, aq[0].remaining);
      assert MatchQueues(bq[1..], aq[1..], instrument, ask) == Matched(bq[1..], aq[1..], []);
    }
  }

  lemma {:induction false} MisalignedIsNot(bq: seq<Entry>, aq: seq<Entry>, b: seq<Entry>, a: seq<Entry>, bid: real,
          ask: real)
    requires Fronts(bq, aq, b, a, bid, ask) && !Aligned(bq, aq)
    ensures !StepsClean(bq + b, aq + a)
  {
    hide StepsClean, Fronts;
    FrontsTail(bq, aq, b, a, bid, ask);
    StepsCleanStep(bq, aq, b, a);
    AlignedTail(bq, aq);
    if bq[0].remaining == aq[0].remaining {
      MisalignedIsNot(bq[1..], aq[1..], b, a, bid, ask);
      assert [] + bq[1..] == bq[1..] && [] + aq[1..] == aq[1..];
    }
  }

  lemma LevelFronts(bids: seq<Level>, asks: seq<Level>)
    requires Ladder(Buy, bids) && Ladder(Sell, asks) && bids != [] && asks != [] && asks[0].price <= bids[0].price
    ensures Fronts(bids[0].orders, asks[0].orders, Flat(bids[1..]), Flat(asks[1..]), bids[0].price, asks[0].price)
  {
    FlatSorted(Buy, bids[1..]);
    FlatSorted(Sell, asks[1..]);
    assert bids[1..] != [] ==> bids[1] in bids[1..];
    assert asks[1..] != [] ==> asks[1] in asks[1..];
  }

  lemma AlignedPass(bids: seq<Level>, asks: seq<Level>, instrument: Id)
    requires Ladder(Buy, bids) && Ladder(Sell, asks) && bids != [] && asks != [] && asks[0].price <= bids[0].price
    requires Aligned(bids[0].orders, asks[0].orders)
    ensures var m := MatchQueues(bids[0].orders, asks[0].orders, instrument, asks[0].price);
      && Ladder(Buy, Trim(bids, m.bids)) && Ladder(Sell, Trim(asks, m.asks))
      && (StepsClean(Flat(bids), Flat(asks)) <==> StepsClean(Flat(Trim(bids, m.bids)), Flat(Trim(asks, m.asks))))
  {
    hide MatchQueues, Aligned, Fronts, StepsClean, Sorted;
    var bq, aq, ask := bids[0].orders, asks[0].orders, asks[0].price;
    LevelFronts(bids, asks);
    var m := MatchQueues(bq, aq, instrument, ask);
    MatchQueuesKeeps(bq, aq, instrument, ask);
    TrimKeeps(Buy, bids, m.bids);
    TrimKeeps(Sell, asks, m.asks);
    AlignedIsClean(bq, aq, Flat(bids[1..]), Flat(asks[1..]), instrument, bids[0].price, ask);
  }

  lemma {:induction false} NeverOvertakesIsClean(bids: seq<Level>, asks: seq<Level>, instrument: Id)
    requires Ladder(Buy, bids) && Ladder(Sell, asks)
    ensures NeverOvertakes(bids, asks, instrument) <==> StepsClean(Flat(bids), Flat(asks))
    decreases Size(bids) + Size(asks)
  {
    FlatSorted(Buy, bids);
    FlatSorted(Sell, asks);
    if bids != [] && asks != [] && asks[0].price <= bids[0].price {
      var bq, aq, ask := bids[0].orders, asks[0].orders, asks[0].price;
      var m := MatchQueues(bq, aq, instrument, ask);
      LevelFronts(bids, asks);
      hide StepsClean, MatchQueues, Aligned, Fronts, Sorted, Ladder, Trim;
      if Aligned(bq, aq) {
        AlignedPass(bids, asks, instrument);
        NeverOvertakesIsClean(Trim(bids, m.bids), Trim(asks, m.asks), instrument);
      } else {
        MisalignedIsNot(bq, aq, Flat(bids[1..]), Flat(asks[1..]), bids[0].price, ask);
      }
    }
  }

  /** On any two sides the loop's run never overtakes exactly when no pair of orders is passed. */
  lemma NeverOvertakesIff(bids: seq<Level>, asks: seq<Level>, instrument: Id)
    requires Ladder(Buy, bids) && Ladder(Sell, asks)
    ensures NeverOvertakes(bids, asks, instrument) <==> NonePassed(Flat(bids), Flat(asks))
  {
    FlatSorted(Buy, bids);
    FlatSorted(Sell, asks);
    NeverOvertakesIsClean(bids, asks, instrument);
    StepsCleanIff(Flat(bids), Flat(asks));
  }

  /** `match_orders` is price-time matching exactly on the books of which no pair of orders is passed: there it
      makes the same trades and leaves the same queues, and on every other book it makes different trades. */
  lemma MatchLoopIsPriceTimeIff(bids: seq<Level>, asks: seq<Level>, instrument: Id)
    requires Ladder(Buy, bids) && Ladder(Sell, asks) && Distinct(Flat(bids)) && Distinct(Flat(asks))
    ensures var r, g := MatchLoop(bids, asks, instrument), Greedy(Flat(bids), Flat(asks), instrument);
      && (NonePassed(Flat(bids), Flat(asks)) <==> r.trades == g.trades)
      && (NonePassed(Flat(bids), Flat(asks)) ==> Flat(r.bids) == g.bids && Flat(r.asks) == g.asks)
  {
    hide NonePassed;
    NeverOvertakesIff(bids, asks, instrument);
    MatchLoopIsGreedyIff(bids, asks, instrument);
  }

  // ---- No reachable book is matched out of order ----

  /** The queues just after an order has been added. */
  function WithAdded(b: Book, side: Side, e: Entry): Book {
    b.With(side, Place(side, b.Of(side), e))
  }

  lemma AloneAtItsPrice(side: Side, own: seq<Entry>, opp: seq<Entry>, e: Entry, i: nat, j: nat)
    requires Sorted(side, own) && Sorted(side.Opposite(), opp) && Apart(side, own, opp)
    requires i < |Place(side, own, e)| && j < |opp|
    requires Rank(side.Opposite(), opp[j].price) <= Rank(side.Opposite(), Place(side, own, e)[i].price)
    ensures LastAtPrice(Place(side, own, e), i)
  {
    var q := Place(side, own, e);
    HeadIsBest(side.Opposite(), opp, opp[j]);
    forall x | x in own ensures Rank(side, q[i].price) < Rank(side, x.price) {
      HeadIsBest(side, own, x);
    }
    PlaceKeepsIds(side, own, e);
    assert q[i] in q && q[i] == e;
    assert q == [e] + own;
  }

  /** One order added to a book at rest is never part of a passed pair, and neither is any other. */
  lemma OneOrderIsNotPassed(b: Book, side: Side, e: Entry)
    requires AtRest(b)
    ensures NonePassed(WithAdded(b, side, e).bids, WithAdded(b, side, e).asks)
  {
    var c := WithAdded(b, side, e);
    forall i, j | 0 <= i < |c.bids| && 0 <= j < |c.asks| ensures !Passed(c.bids, c.asks, i, j) {
      if c.asks[j].price <= c.bids[i].price {
        if side == Buy {
          AloneAtItsPrice(Buy, b.bids, b.asks, e, i, j);
        } else {
          AloneAtItsPrice(Sell, b.asks, b.bids, e, j, i);
        }
      }
    }
  }

  /** So whatever the engine has done from rest, the next limit order is matched in price-time order: the loop is
      `Greedy` on the book it meets. */
  lemma ReachableIsPriceTime(b: Book, ops: seq<Op>, side: Side, e: Entry, bids: seq<Level>, asks: seq<Level>,
          instrument: Id)
    requires AtRest(b) && AdmissibleRun(b, ops, instrument) && Admissible(Run(b, ops, instrument).book, Submit(side, e))
    requires Ladder(Buy, bids) && Ladder(Sell, asks)
    requires Book(Flat(bids), Flat(asks)) == WithAdded(Run(b, ops, instrument).book, side, e)
    ensures NeverOvertakes(bids, asks, instrument)
    ensures var r, g := MatchLoop(bids, asks, instrument), Greedy(Flat(bids), Flat(asks), instrument);
      r.trades == g.trades && Flat(r.bids) == g.bids && Flat(r.asks) == g.asks
  {
    hide NonePassed, MatchLoop, Greedy, NeverOvertakes;
    RunKeepsRest(b, ops, instrument);
    var rest := Run(b, ops, instrument).book;
    OneOrderIsNotPassed(rest, side, e);
    NeverOvertakesIff(bids, asks, instrument);
    PlaceKeeps(side, rest.Of(side), e);
    MatchLoopIsPriceTimeIff(bids, asks, instrument);
  }
}
