/** The price-time priority specification: each side of a book is one queue, best price first and
    earliest first within a price, and an incoming order eats the opposite queue from its front. */
module PriceTime {
  import opened Orders

  /** The map order of a side: bids sort from high to low, asks from low to high. */
  function Rank(side: Side, price: real): real {
    if side == Buy then -price else price
  }

  // ---- Queues ----

  ghost predicate Sorted(side: Side, q: seq<Entry>) {
    q != [] ==> (forall e | e in q[1..] :: Rank(side, q[0].price) <= Rank(side, e.price)) && Sorted(side, q[1..])
  }

  ghost predicate Positive(q: seq<Entry>) {
    forall e | e in q :: e.remaining > 0.0
  }

  ghost predicate Holds(q: seq<Entry>, id: Id) {
    exists e :: e in q && e.id == id
  }

  ghost predicate Distinct(q: seq<Entry>) {
    q != [] ==> !Holds(q[1..], q[0].id) && Distinct(q[1..])
  }

  /** A well-formed queue of one side. */
  ghost predicate Queue(side: Side, q: seq<Entry>) {
    Sorted(side, q) && Positive(q) && Distinct(q)
  }

  function Volume(q: seq<Entry>): real {
    if q == [] then 0.0 else q[0].remaining + Volume(q[1..])
  }

  lemma {:induction false} VolumeConcat(a: seq<Entry>, b: seq<Entry>)
    ensures Volume(a + b) == Volume(a) + Volume(b)
  {
    if a == [] {
      assert a + b == b;
    } else {
      assert (a + b)[1..] == a[1..] + b;
      VolumeConcat(a[1..], b);
    }
  }

  /** Where a newly arrived order goes: behind every order at its price or a better one. */
  function Place(side: Side, q: seq<Entry>, e: Entry): seq<Entry> {
    if q == [] || Rank(side, e.price) < Rank(side, q[0].price) then [e] + q
    else [q[0]] + Place(side, q[1..], e)
  }

  /** `Place` puts the order at the one position price-time priority allows, and moves nothing else. */
  lemma {:induction false} PlaceIsPriceTime(side: Side, q: seq<Entry>, e: Entry)
    returns (ahead: seq<Entry>, behind: seq<Entry>)
    requires Sorted(side, q)
    ensures q == ahead + behind && Place(side, q, e) == ahead + [e] + behind
    ensures forall x | x in ahead :: Rank(side, x.price) <= Rank(side, e.price)
    ensures forall x | x in behind :: Rank(side, e.price) < Rank(side, x.price)
  {
    if q == [] || Rank(side, e.price) < Rank(side, q[0].price) {
      ahead, behind := [], q;
      assert forall x | x in q :: x == q[0] || x in q[1..];
    } else {
      var a;
      a, behind := PlaceIsPriceTime(side, q[1..], e);
      ahead := [q[0]] + a;
    }
  }

  lemma {:induction false} PlaceKeeps(side: Side, q: seq<Entry>, e: Entry)
    requires Queue(side, q) && e.remaining > 0.0 && !Holds(q, e.id)
    ensures Queue(side, Place(side, q, e))
    ensures forall x :: x in Place(side, q, e) <==> x == e || x in q
    ensures Volume(Place(side, q, e)) == Volume(q) + e.remaining
  {
    var r := Place(side, q, e);
    if q == [] || Rank(side, e.price) < Rank(side, q[0].price) {
      assert r[1..] == q;
    } else {
      PlaceKeeps(side, q[1..], e);
      assert r[1..] == Place(side, q[1..], e);
    }
  }

  lemma {:induction false} PlaceBehind(side: Side, a: seq<Entry>, b: seq<Entry>, e: Entry)
    requires forall x | x in a :: Rank(side, x.price) <= Rank(side, e.price)
    ensures Place(side, a + b, e) == a + Place(side, b, e)
  {
    if a == [] {
      assert a + b == b;
    } else {
      assert (a + b)[1..] == a[1..] + b;
      assert a[0] in a;
      PlaceBehind(side, a[1..], b, e);
    }
  }

  lemma {:induction false} PlaceKeepsIds(side: Side, q: seq<Entry>, e: Entry)
    ensures forall x :: x in Place(side, q, e) <==> x == e || x in q
  {
    if q != [] && !(Rank(side, e.price) < Rank(side, q[0].price)) {
      PlaceKeepsIds(side, q[1..], e);
      assert forall x :: x in q <==> x == q[0] || x in q[1..];
    }
  }

  /** An order at this price takes nothing away from what rests there. The code marks a level just created by its
      price, zero, and so replaces a level that stands at price zero instead of adding to it. */
  predicate Joins(q: seq<Entry>, price: real) {
    price == 0.0 ==> forall e | e in q :: e.price != 0.0
  }

  /** Cancelling: the order with this id leaves, the rest keep their places. */
  function Without(q: seq<Entry>, id: Id): seq<Entry> {
    if q == [] then []
    else if q[0].id == id then Without(q[1..], id)
    else [q[0]] + Without(q[1..], id)
  }

  lemma {:induction false} WithoutAbsent(q: seq<Entry>, id: Id)
    requires !Holds(q, id)
    ensures Without(q, id) == q
  {
    if q != [] {
      assert q[0] in q;
      WithoutAbsent(q[1..], id);
    }
  }

  lemma {:induction false} WithoutConcat(a: seq<Entry>, b: seq<Entry>, id: Id)
    ensures Without(a + b, id) == Without(a, id) + Without(b, id)
  {
    if a == [] {
      assert a + b == b;
    } else {
      assert (a + b)[1..] == a[1..] + b;
      WithoutConcat(a[1..], b, id);
    }
  }

  lemma {:induction false} WithoutKeeps(side: Side, q: seq<Entry>, id: Id)
    requires Queue(side, q)
    ensures Queue(side, Without(q, id))
    ensures forall e :: e in Without(q, id) <==> e in q && e.id != id
  {
    if q != [] {
      WithoutKeeps(side, q[1..], id);
      assert forall e :: e in q <==> e == q[0] || e in q[1..];
      if q[0].id != id {
        assert Without(q, id)[1..] == Without(q[1..], id);
      }
    }
  }

  // ---- Consuming a queue ----

  /** The part of a resting order taken by an incoming one. */
  datatype Fill = Fill(maker: Entry, quantity: real)

  datatype Outcome = Outcome(fills: seq<Fill>, rest: seq<Entry>, left: real)

  /** Whether a resting price on `side` is acceptable to an incoming order with this limit. */
  predicate Within(side: Side, limit: Option<real>, price: real) {
    limit.Some? ==> Rank(side, price) <= Rank(side, limit.value)
  }

  /** Eats the queue `q` of `side` from the front, at most `want`, up to the limit. */
  function Consume(side: Side, limit: Option<real>, q: seq<Entry>, want: real): Outcome {
    if q == [] || want <= 0.0 || !Within(side, limit, q[0].price) then
      Outcome([], q, want)
    else if q[0].remaining <= want then
      var o := Consume(side, limit, q[1..], want - q[0].remaining);
      Outcome([Fill(q[0], q[0].remaining)] + o.fills, o.rest, o.left)
    else
      Outcome([Fill(q[0], want)], [q[0].(remaining := q[0].remaining - want)] + q[1..], 0.0)
  }

  function Taken(fills: seq<Fill>): real {
    if fills == [] then 0.0 else fills[0].quantity + Taken(fills[1..])
  }

  /** Complete fills of every order of a queue, in queue order. */
  function Complete(q: seq<Entry>): seq<Fill> {
    if q == [] then [] else [Fill(q[0], q[0].remaining)] + Complete(q[1..])
  }

  /** The orders `done` are filled completely and in order, at most the next one partly, and everything
      behind is untouched. */
  ghost predicate FrontFirst(o: Outcome, done: seq<Entry>, behind: seq<Entry>, part: real) {
    if part == 0.0 then o.fills == Complete(done) && o.rest == behind
    else && behind != [] && 0.0 < part < behind[0].remaining
         && o.fills == Complete(done) + [Fill(behind[0], part)]
         && o.rest == [behind[0].(remaining := behind[0].remaining - part)] + behind[1..]
         && o.left == 0.0
  }

  /** What price-time priority means: eating a queue completely fills a prefix of it, in order, at most the
      next order partly, and touches nothing behind. */
  lemma {:induction false} ConsumeIsPriority(side: Side, limit: Option<real>, q: seq<Entry>, want: real)
    returns (done: seq<Entry>, behind: seq<Entry>, part: real)
    requires Positive(q)
    ensures q == done + behind && FrontFirst(Consume(side, limit, q, want), done, behind, part)
  {
    hide Within, FrontFirst;
    if q == [] || want <= 0.0 || !Within(side, limit, q[0].price) {
      done, behind, part := [], q, 0.0;
      FrontFirstEnds(q, want);
    } else if q[0].remaining <= want {
      var d;
      d, behind, part := ConsumeIsPriority(side, limit, q[1..], want - q[0].remaining);
      done := [q[0]] + d;
      FrontFirstStep(Consume(side, limit, q[1..], want - q[0].remaining), q[0], d, behind, part);
    } else {
      done, behind, part := [], q, want;
      FrontFirstPart(q, want);
    }
  }

  lemma FrontFirstEnds(q: seq<Entry>, want: real)
    ensures FrontFirst(Outcome([], q, want), [], q, 0.0)
  {
  }

  lemma FrontFirstPart(q: seq<Entry>, want: real)
    requires q != [] && 0.0 < want < q[0].remaining
    ensures FrontFirst(Outcome([Fill(q[0], want)], [q[0].(remaining := q[0].remaining - want)] + q[1..], 0.0),
                       [], q, want)
  {
    assert [] + [Fill(q[0], want)] == [Fill(q[0], want)];
  }

  lemma FrontFirstStep(o: Outcome, e: Entry, done: seq<Entry>, behind: seq<Entry>, part: real)
    requires FrontFirst(o, done, behind, part)
    ensures FrontFirst(Outcome([Fill(e, e.remaining)] + o.fills, o.rest, o.left), [e] + done, behind, part)
  {
  }

  /** How much is taken: all that is wanted, unless the queue runs out within the limit; every unit
      wanted and not left over has come out of the queue. */
  lemma {:induction false} ConsumeTotals(side: Side, limit: Option<real>, q: seq<Entry>, want: real)
    requires Positive(q) && want >= 0.0
    ensures var o := Consume(side, limit, q, want);
      && o.left >= 0.0
      && (o.left > 0.0 ==> o.rest == [] || !Within(side, limit, o.rest[0].price))
      && Taken(o.fills) == want - o.left
      && Volume(o.rest) == Volume(q) - Taken(o.fills)
  {
    if q == [] || want <= 0.0 || !Within(side, limit, q[0].price) {
    } else if q[0].remaining <= want {
      ConsumeTotals(side, limit, q[1..], want - q[0].remaining);
      var o, p := Consume(side, limit, q, want), Consume(side, limit, q[1..], want - q[0].remaining);
      assert o.fills[1..] == p.fills;
    } else {
      var o := Consume(side, limit, q, want);
      assert Taken(o.fills[1..]) == 0.0;
      assert o.rest[1..] == q[1..];
    }
  }

  /** Every fill is a positive part of an order of the queue whose price the limit accepts. */
  lemma {:induction false} FillsAreWithin(side: Side, limit: Option<real>, q: seq<Entry>, want: real)
    requires Positive(q)
    ensures forall f | f in Consume(side, limit, q, want).fills ::
      f.maker in q && 0.0 < f.quantity <= f.maker.remaining && Within(side, limit, f.maker.price)
  {
    if q == [] || want <= 0.0 || !Within(side, limit, q[0].price) {
    } else if q[0].remaining <= want {
      FillsAreWithin(side, limit, q[1..], want - q[0].remaining);
    }
  }

  /** An entry is left as it was, or with less remaining. */
  ghost predicate Comes(e: Entry, q: seq<Entry>) {
    exists d :: d in q && e == d.(remaining := e.remaining) && e.remaining <= d.remaining
  }

  lemma {:induction false} ConsumeKeeps(side: Side, limit: Option<real>, q: seq<Entry>, want: real)
    requires Queue(side, q)
    ensures Queue(side, Consume(side, limit, q, want).rest)
    ensures forall e | e in Consume(side, limit, q, want).rest :: Comes(e, q)
  {
    var r := Consume(side, limit, q, want).rest;
    if q == [] || want <= 0.0 || !Within(side, limit, q[0].price) {
    } else if q[0].remaining <= want {
      ConsumeKeeps(side, limit, q[1..], want - q[0].remaining);
      forall e | e in r ensures Comes(e, q) {
        var d :| d in q[1..] && e == d.(remaining := e.remaining) && e.remaining <= d.remaining;
        assert d in q;
      }
    } else {
      assert r[1..] == q[1..];
      forall e | e in r ensures Comes(e, q) {
        if e == r[0] {
          assert q[0] in q;
        } else {
          assert e in q && e == e.(remaining := e.remaining);
        }
      }
    }
  }

  /** Eating two queues one after the other is eating the queue made of both. */
  lemma {:induction false} ConsumeConcat(side: Side, limit: Option<real>, a: seq<Entry>, b: seq<Entry>, want: real)
    requires Positive(a)
    ensures var o := Consume(side, limit, a, want);
      Consume(side, limit, a + b, want) ==
        if o.rest == [] then
          var p := Consume(side, limit, b, o.left);
          Outcome(o.fills + p.fills, p.rest, p.left)
        else Outcome(o.fills, o.rest + b, o.left)
  {
    if a == [] {
      assert a + b == b;
      assert [] + Consume(side, limit, b, want).fills == Consume(side, limit, b, want).fills;
    } else if want > 0.0 && Within(side, limit, a[0].price) {
      assert (a + b)[1..] == a[1..] + b;
      if a[0].remaining <= want {
        var f := [Fill(a[0], a[0].remaining)];
        ConsumeConcat(side, limit, a[1..], b, want - a[0].remaining);
        var o := Consume(side, limit, a[1..], want - a[0].remaining);
        var p := Consume(side, limit, b, o.left);
        assert f + (o.fills + p.fills) == (f + o.fills) + p.fills;
      } else {
        var h := [a[0].(remaining := a[0].remaining - want)];
        assert h + (a[1..] + b) == (h + a[1..]) + b;
      }
    }
  }
}
