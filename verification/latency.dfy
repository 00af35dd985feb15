/** When a latency can come out negative (engine/src/exchange.cpp). Market data is published with half the latency of
    an order; if that is negative, the event is scheduled into the past. */
module Latency {
  import opened Arithmetic

  /** The congestion in force never eases the base latency. */
  function Congestion(level: real): (factor: real)
    ensures factor >= 1.0 && factor >= level && (factor == level || factor == 1.0)
  {
    if level > 1.0 then level else 1.0
  }

  /** A draw from the uniform distribution, which excludes its upper end. */
  predicate Drawn(draw: real) { -1.0 <= draw < 1.0 }

  /** The base latency times the jitter factor. */
  function Jittered(base: real, jitter: real, draw: real): real
    requires base != 0.0
  {
    base * (1.0 + draw * (jitter / base))
  }

  /** Times are whole nanoseconds. */
  function OrderLatency(base: int, jitter: int, congestion: real, draw: real): int
    requires base != 0
  {
    Truncated(Product(Jittered(base as real, jitter as real, draw), congestion))
  }

  /** The latency that events are scheduled by: half that of an order, cut towards zero. */
  function MarketDataLatency(base: int, jitter: int, congestion: real, draw: real): (latency: int)
    requires base != 0
    ensures var order := OrderLatency(base, jitter, congestion, draw);
      if order >= 0 then 2 * latency <= order <= 2 * latency + 1 else 2 * latency - 1 <= order <= 2 * latency
  {
    Half(OrderLatency(base, jitter, congestion, draw))
  }

  // ---- The lowest latency ----

  /** The latency before it is truncated. */
  function Stretched(base: real, jitter: real, factor: real, draw: real): real {
    Product(base + Product(draw, jitter), factor)
  }

  /** The lowest draw is reached and the highest is not: all latencies stay above `-least` if the lowest does, when the
      jitter is not negative, or if the limit at the excluded end does not go below, when it is. */
  predicate StaysAbove(base: real, jitter: real, factor: real, least: real) {
    if jitter >= 0.0 then Product(base - jitter, factor) > -least else Product(base + jitter, factor) >= -least
  }

  lemma Simplified(base: int, jitter: int, factor: real, draw: real)
    requires base != 0
    ensures OrderLatency(base, jitter, factor, draw) == Truncated(Stretched(base as real, jitter as real, factor, draw))
  {
    hide Jittered, Product, Truncated;
    JitteredIs(base as real, jitter as real, draw);
  }

  /** A latency is the base with the drawn part of the jitter, times the congestion, cut to whole nanoseconds. */
  lemma LatencyIs(base: int, jitter: int, factor: real, draw: real)
    requires base != 0
    ensures var exact := Product(base as real + Product(draw, jitter as real), factor);
      var latency := OrderLatency(base, jitter, factor, draw) as real;
      -1.0 < latency - exact < 1.0 && if exact >= 0.0 then 0.0 <= latency <= exact else exact <= latency <= 0.0
  {
    hide OrderLatency, Truncated, Product;
    Simplified(base, jitter, factor, draw);
  }

  lemma LatencyWithoutJitter(base: int, draw: real)
    requires base != 0
    ensures OrderLatency(base, 0, 1.0, draw) == base
  {
    hide OrderLatency, Truncated;
    Simplified(base, 0, 1.0, draw);
    assert Stretched(base as real, 0.0, 1.0, draw) == base as real;
  }

  lemma JitteredIs(b: real, j: real, draw: real)
    requires b != 0.0
    ensures Jittered(b, j, draw) == b + Product(draw, j)
  {
    var share := j / b;
    assert share * b == j;
    Distribute(b, draw, share);
  }

  lemma Distribute(b: real, draw: real, share: real)
    ensures b * (1.0 + draw * share) == b + draw * (share * b)
  {
  }

  lemma Grows(a: real, b: real, factor: real)
    requires factor > 0.0
    ensures a <= b ==> Product(a, factor) <= Product(b, factor)
    ensures a < b ==> Product(a, factor) < Product(b, factor)
  {
    assert Product(b, factor) - Product(a, factor) == (b - a) * factor;
    if a < b {
      PositiveProduct(b - a, factor);
    }
  }

  lemma PositiveProduct(a: real, b: real)
    requires a > 0.0 && b > 0.0
    ensures a * b > 0.0
  {
  }

  /** A draw moves the base down by at most the jitter, and by less than a negative one. */
  lemma Swing(draw: real, jitter: real)
    requires Drawn(draw)
    ensures if jitter >= 0.0 then Product(draw, jitter) >= -jitter else Product(draw, jitter) > jitter
  {
    if jitter < 0.0 {
      Grows(draw, 1.0, -jitter);
      assert Product(draw, -jitter) == -Product(draw, jitter);
    } else if jitter > 0.0 {
      Grows(-1.0, draw, jitter);
    }
  }

  lemma AllStayAbove(base: real, jitter: real, factor: real, least: real, draw: real)
    requires factor >= 1.0 && StaysAbove(base, jitter, factor, least) && Drawn(draw)
    ensures Stretched(base, jitter, factor, draw) > -least
  {
    Swing(draw, jitter);
    Grows(if jitter >= 0.0 then base - jitter else base + jitter, base + Product(draw, jitter), factor);
    hide Product;
  }

  /** A draw that shows a latency of `-least` or below. */
  function WorstDraw(base: real, jitter: real, factor: real, least: real): real
    requires factor >= 1.0
  {
    if jitter >= 0.0 then -1.0
    else
      var draw := (base + least / factor) / -jitter;
      if draw < -1.0 then -1.0 else draw
  }

  lemma WorstFalls(base: real, jitter: real, factor: real, least: real)
    requires factor >= 1.0 && !StaysAbove(base, jitter, factor, least)
    ensures Drawn(WorstDraw(base, jitter, factor, least))
    ensures Stretched(base, jitter, factor, WorstDraw(base, jitter, factor, least)) <= -least
  {
    var draw := WorstDraw(base, jitter, factor, least);
    if jitter >= 0.0 {
      assert Product(draw, jitter) == -jitter;
    } else {
      var share := least / factor;
      ShareIs(least, factor);
      Below(base + jitter, -share, factor);
      Fraction(base + share, -jitter, draw);
      Grows(base + Product(draw, jitter), -share, factor);
    }
    hide Product;
  }

  lemma ShareIs(least: real, factor: real)
    requires factor >= 1.0
    ensures Product(-(least / factor), factor) == -least
  {
    var share := least / factor;
    assert share * factor == least;
  }

  lemma Below(a: real, b: real, factor: real)
    requires factor > 0.0 && Product(a, factor) < Product(b, factor)
    ensures a < b
  {
    hide Product;
    Grows(b, a, factor);
  }

  lemma Fraction(a: real, b: real, draw: real)
    requires a < b && 0.0 < b && draw == if a / b < -1.0 then -1.0 else a / b
    ensures Drawn(draw) && a <= Product(draw, b) && Product(draw, -b) <= -a
  {
    var share := a / b;
    assert share * b == a;
    assert Product(draw, -b) == -Product(draw, b);
    Below(share, 1.0, b);
    if share < -1.0 {
      Grows(share, -1.0, b);
    }
  }

  // ---- Never negative ----

  lemma TruncationHides(x: real)
    ensures Truncated(x) >= 0 <==> x > -1.0
    ensures Half(Truncated(x)) >= 0 <==> x > -2.0
  {
  }

  /** No draw makes the latency of an order negative exactly when the lowest stays above -1. */
  lemma NeverNegativeIff(base: int, jitter: int, level: real)
    requires base != 0
    ensures var factor := Congestion(level);
      (forall draw: real | Drawn(draw) :: OrderLatency(base, jitter, factor, draw) >= 0)
      <==> StaysAbove(base as real, jitter as real, factor, 1.0)
  {
    hide OrderLatency, Stretched, StaysAbove, Truncated, WorstDraw;
    var b, j, factor := base as real, jitter as real, Congestion(level);
    if StaysAbove(b, j, factor, 1.0) {
      forall draw: real | Drawn(draw) ensures OrderLatency(base, jitter, factor, draw) >= 0 {
        Simplified(base, jitter, factor, draw);
        AllStayAbove(b, j, factor, 1.0, draw);
        TruncationHides(Stretched(b, j, factor, draw));
      }
    } else {
      var draw := WorstDraw(b, j, factor, 1.0);
      WorstFalls(b, j, factor, 1.0);
      Simplified(base, jitter, factor, draw);
      TruncationHides(Stretched(b, j, factor, draw));
    }
  }

  ghost predicate NeverLate(base: int, jitter: int, factor: real)
    requires base != 0
  {
    forall draw: real | Drawn(draw) :: MarketDataLatency(base, jitter, factor, draw) >= 0
  }

  /** No draw schedules market data into the past exactly when the lowest latency of an order stays above -2: halving
      hides one nanosecond more. */
  lemma NeverLateIff(base: int, jitter: int, level: real)
    requires base != 0
    ensures NeverLate(base, jitter, Congestion(level)) <==>
        StaysAbove(base as real, jitter as real, Congestion(level), 2.0)
  {
    hide OrderLatency, Stretched, StaysAbove, Truncated, Half, WorstDraw;
    var b, j, factor := base as real, jitter as real, Congestion(level);
    if StaysAbove(b, j, factor, 2.0) {
      forall draw: real | Drawn(draw) ensures MarketDataLatency(base, jitter, factor, draw) >= 0 {
        Simplified(base, jitter, factor, draw);
        AllStayAbove(b, j, factor, 2.0, draw);
        TruncationHides(Stretched(b, j, factor, draw));
      }
    } else {
      var draw := WorstDraw(b, j, factor, 2.0);
      WorstFalls(b, j, factor, 2.0);
      Simplified(base, jitter, factor, draw);
      TruncationHides(Stretched(b, j, factor, draw));
    }
  }

  /** Around the bound, without congestion: a jitter one above the base makes an order's latency negative and no
      market data late; two above the base makes market data late. */
  lemma AroundTheBound()
    ensures OrderLatency(10, 11, Congestion(0.0), -1.0) == -1 && NeverLate(10, 11, Congestion(0.0))
    ensures MarketDataLatency(10, 12, Congestion(0.0), -1.0) == -1
  {
    Simplified(10, 11, 1.0, -1.0);
    Simplified(10, 12, 1.0, -1.0);
    NeverLateIff(10, 11, 0.0);
  }
}
