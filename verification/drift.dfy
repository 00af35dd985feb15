/** Clock drift by least squares (orchestrator/clock_sync.go). Floating-point numbers are exact here. */
module Drift {
  import opened Arithmetic

  // ---- The regression ----

  /** Seconds since the first point, and the change of the offset since then in nanoseconds. */
  datatype Sample = Sample(x: real, y: real)

  datatype Sums = Sums(n: real, x: real, y: real, xy: real, xx: real)

  function Plus(t: Sums, s: Sample): Sums {
    Sums(t.n + 1.0, t.x + s.x, t.y + s.y, t.xy + Product(s.x, s.y), t.xx + Squared(s.x))
  }

  function SumsOf(s: seq<Sample>): Sums {
    if s == [] then Sums(0.0, 0.0, 0.0, 0.0, 0.0) else Plus(SumsOf(s[..|s| - 1]), s[|s| - 1])
  }

  function Spread(t: Sums): real
    requires t.n > 0.0
  {
    t.xx - t.x * t.x / t.n
  }

  function Rise(t: Sums): real
    requires t.n > 0.0
  {
    t.xy - t.x * t.y / t.n
  }

  function Slope(t: Sums): real
    requires t.n > 0.0 && Spread(t) != 0.0
  {
    Rise(t) / Spread(t)
  }

  predicate Guard(t: Sums) {
    t.n > 1.0 && t.xx > 0.0
  }

  // ---- The guard is enough, and no more than enough ----

  predicate Sharp(t: Sums) {
    t.n >= 1.0 && t.xx >= 0.0 && t.x * t.x <= (t.n - 1.0) * t.xx && (t.n == 1.0 ==> t.x == 0.0 && t.xx == 0.0)
  }

  /** With the first point at zero, one more than Cauchy-Schwarz gives: the sum is over all but one of the points. */
  lemma {:induction false} SharpCauchySchwarz(s: seq<Sample>)
    requires s != [] && s[0].x == 0.0
    ensures SumsOf(s).n == |s| as real && Sharp(SumsOf(s))
  {
    if |s| == 1 {
      assert s[..0] == [];
      assert SumsOf(s) == Plus(SumsOf([]), s[0]);
    } else {
      SharpCauchySchwarz(s[..|s| - 1]);
      SharpPlus(SumsOf(s[..|s| - 1]), s[|s| - 1]);
    }
  }

  lemma SharpPlus(t: Sums, s: Sample)
    requires Sharp(t)
    ensures Sharp(Plus(t, s))
  {
    OneMorePoint(t.n - 1.0, t.x, t.xx, s.x);
  }

  lemma OneMorePoint(m: real, x: real, xx: real, v: real)
    requires m >= 0.0 && xx >= 0.0 && x * x <= m * xx && (m == 0.0 ==> x == 0.0)
    ensures xx + v * v >= 0.0
    ensures (x + v) * (x + v) <= (m + 1.0) * (xx + v * v)
  {
    SquareIsPositive(v);
    CrossTerm(m, x, xx, v);
    Expand(m, x, xx, v);
  }

  lemma SquareIsPositive(v: real)
    ensures v * v >= 0.0
  {
  }

  lemma Expand(m: real, x: real, xx: real, v: real)
    ensures (m + 1.0) * (xx + v * v) - (x + v) * (x + v) == (m * xx - x * x) + (xx + m * (v * v) - 2.0 * (x * v))
  {
  }

  lemma CrossTerm(m: real, x: real, xx: real, v: real)
    requires m >= 0.0 && xx >= 0.0 && x * x <= m * xx && (m == 0.0 ==> x == 0.0)
    ensures 2.0 * (x * v) <= xx + m * (v * v)
  {
    if m != 0.0 {
      SquareIsPositive(x - m * v);
      var rest := xx + m * (v * v) - 2.0 * (x * v);
      assert m * rest == (m * xx - x * x) + (x - m * v) * (x - m * v) by {
        TimesRest(m, x, xx, v);
      }
      PositiveQuotient(m, rest);
    }
  }

  lemma TimesRest(m: real, x: real, xx: real, v: real)
    ensures m * (xx + m * (v * v) - 2.0 * (x * v)) == (m * xx - x * x) + (x - m * v) * (x - m * v)
  {
    var a, b := m * v, x * v;
    assert (x - a) * (x - a) == x * x - 2.0 * (x * a) + a * a;
    assert x * a == m * b && a * a == m * (m * (v * v));
    assert m * (xx + m * (v * v) - 2.0 * b) == m * xx + m * (m * (v * v)) - 2.0 * (m * b);
  }

  lemma PositiveQuotient(m: real, rest: real)
    requires m > 0.0 && m * rest >= 0.0
    ensures rest >= 0.0
  {
  }

  lemma SpreadTimesN(t: Sums)
    requires t.n > 0.0
    ensures Spread(t) * t.n == t.xx * t.n - t.x * t.x
  {
    var square := t.x * t.x;
    var share := square / t.n;
    assert share * t.n == square;
    MinusTimes(t.xx, share, t.n);
  }

  lemma MinusTimes(a: real, b: real, c: real)
    ensures (a - b) * c == a * c - b * c
  {
  }

  /** The slope's denominator is positive exactly when the guard holds, and zero otherwise. */
  lemma GuardIsExact(s: seq<Sample>)
    requires s != [] && s[0].x == 0.0
    ensures SumsOf(s).n > 0.0
    ensures Guard(SumsOf(s)) <==> Spread(SumsOf(s)) > 0.0
    ensures !Guard(SumsOf(s)) <==> Spread(SumsOf(s)) == 0.0
  {
    SharpCauchySchwarz(s);
    hide SumsOf, Spread, Guard;
    GuardOfSums(SumsOf(s));
  }

  lemma GuardOfSums(t: Sums)
    requires Sharp(t)
    ensures Guard(t) <==> Spread(t) > 0.0
    ensures !Guard(t) <==> Spread(t) == 0.0
  {
    SpreadTimesN(t);
    hide Spread;
    SpreadSign(t.n, t.x, t.xx, Spread(t));
  }

  lemma SpreadSign(n: real, x: real, xx: real, spread: real)
    requires n >= 1.0 && xx >= 0.0 && x * x <= (n - 1.0) * xx && spread * n == xx * n - x * x
    requires n == 1.0 ==> xx == 0.0
    ensures n > 1.0 && xx > 0.0 <==> spread > 0.0
    ensures n > 1.0 && xx > 0.0 <==> spread != 0.0
  {
    if xx == 0.0 {
      SquareIsPositive(x);
      ZeroFactor(spread, n);
    } else {
      MinusTimes(n, 1.0, xx);
      assert spread * n >= xx;
      PositiveFactor(spread, n);
    }
  }

  lemma PositiveFactor(a: real, b: real)
    requires b > 0.0 && a * b > 0.0
    ensures a > 0.0
  {
  }

  lemma ZeroFactor(a: real, b: real)
    requires a * b == 0.0 && b > 0.0
    ensures a == 0.0
  {
  }

  // ---- What the slope is ----

  predicate OnLine(s: seq<Sample>, rate: real) {
    forall p | p in s :: p.y == rate * p.x
  }

  predicate TotalsOnLine(t: Sums, rate: real) {
    t.y == rate * t.x && t.xy == rate * t.xx
  }

  lemma {:induction false} LineSums(s: seq<Sample>, rate: real)
    requires OnLine(s, rate)
    ensures TotalsOnLine(SumsOf(s), rate)
  {
    if s != [] {
      var last, t := s[|s| - 1], SumsOf(s[..|s| - 1]);
      LineSums(s[..|s| - 1], rate);
      LinePlus(t.x, t.xx, last.x, rate);
    }
  }

  lemma LinePlus(x: real, xx: real, v: real, rate: real)
    ensures rate * x + rate * v == rate * (x + v)
    ensures rate * xx + v * (rate * v) == rate * (xx + v * v)
  {
  }

  /** Offsets that drift at a constant rate give that rate back. */
  lemma SlopeIsTheRate(s: seq<Sample>, rate: real)
    requires s != [] && s[0].x == 0.0 && OnLine(s, rate) && Guard(SumsOf(s))
    ensures SumsOf(s).n > 0.0 && Spread(SumsOf(s)) > 0.0 && Slope(SumsOf(s)) == rate
  {
    hide SumsOf, Spread, Guard, Slope, TotalsOnLine;
    GuardIsExact(s);
    LineSums(s, rate);
    SlopeOnLine(SumsOf(s), rate);
  }

  lemma SlopeOnLine(t: Sums, rate: real)
    requires t.n > 0.0 && Spread(t) > 0.0 && TotalsOnLine(t, rate)
    ensures Slope(t) == rate
  {
    assert Rise(t) == rate * Spread(t) by {
      RiseOnLine(t.n, t.x, t.y, t.xy, t.xx, rate);
    }
    hide Spread, Rise;
    QuotientOf(rate, Spread(t), Rise(t));
  }

  lemma RiseOnLine(n: real, x: real, y: real, xy: real, xx: real, rate: real)
    requires n > 0.0 && y == rate * x && xy == rate * xx
    ensures xy - x * y / n == rate * (xx - x * x / n)
  {
    var square := x * x;
    assert x * y == rate * square;
    ScaleQuotient(rate, square, n);
    var share := square / n;
    assert rate * (xx - share) == rate * xx - rate * share;
  }

  lemma ScaleQuotient(k: real, a: real, b: real)
    requires b > 0.0
    ensures k * a / b == k * (a / b)
  {
  }

  lemma QuotientOf(k: real, b: real, a: real)
    requires b > 0.0 && a == k * b
    ensures a / b == k
  {
  }

  // ---- Least squares ----

  function Residual(p: Sample, rate: real, start: real): real {
    p.y - start - rate * p.x
  }

  function SquaredError(s: seq<Sample>, rate: real, start: real): real {
    if s == [] then 0.0
    else SquaredError(s[..|s| - 1], rate, start) + Squared(Residual(s[|s| - 1], rate, start))
  }

  /** Where the fitted line starts. */
  function Start(t: Sums): real
    requires t.n > 0.0 && Spread(t) != 0.0
  {
    (t.y - Slope(t) * t.x) / t.n
  }

  /** How the error grows when a line is moved by a change of rate and of start: `along` is its linear part. */
  function Along(t: Sums, rate: real, start: real, dRate: real, dStart: real): real {
    dStart * (t.y - start * t.n - rate * t.x) + dRate * (t.xy - start * t.x - rate * t.xx)
  }

  function Across(t: Sums, dRate: real, dStart: real): real {
    dStart * dStart * t.n + 2.0 * (dStart * dRate) * t.x + dRate * dRate * t.xx
  }

  function Shift(p: Sample, dRate: real, dStart: real): real {
    dStart + dRate * p.x
  }

  lemma {:induction false} ErrorMoved(s: seq<Sample>, rate: real, start: real, dRate: real, dStart: real)
    ensures SquaredError(s, rate + dRate, start + dStart) ==
            SquaredError(s, rate, start) - 2.0 * Along(SumsOf(s), rate, start, dRate, dStart)
                + Across(SumsOf(s), dRate, dStart)
  {
    if s == [] {
      NothingMoves(rate, start, dRate, dStart);
    } else {
      var last, t := s[|s| - 1], SumsOf(s[..|s| - 1]);
      assert SumsOf(s) == Plus(t, last);
      ErrorOfLast(s, rate, start);
      ErrorOfLast(s, rate + dRate, start + dStart);
      hide Residual, Along, Across, SumsOf, SquaredError, Plus, Squared, Shift, Product;
      ErrorMoved(s[..|s| - 1], rate, start, dRate, dStart);
      AlongPlus(t, last, rate, start, dRate, dStart);
      AcrossPlus(t, last, dRate, dStart);
      ResidualMoved(last, rate, start, dRate, dStart);
    }
  }

  lemma ErrorOfLast(s: seq<Sample>, rate: real, start: real)
    requires s != []
    ensures SquaredError(s, rate, start) ==
            SquaredError(s[..|s| - 1], rate, start) + Squared(Residual(s[|s| - 1], rate, start))
  {
  }

  lemma NothingMoves(rate: real, start: real, dRate: real, dStart: real)
    ensures Along(Sums(0.0, 0.0, 0.0, 0.0, 0.0), rate, start, dRate, dStart) == 0.0
    ensures Across(Sums(0.0, 0.0, 0.0, 0.0, 0.0), dRate, dStart) == 0.0
  {
  }

  lemma AlongPlus(t: Sums, p: Sample, rate: real, start: real, dRate: real, dStart: real)
    ensures Along(Plus(t, p), rate, start, dRate, dStart) ==
            Along(t, rate, start, dRate, dStart) + Product(Residual(p, rate, start), Shift(p, dRate, dStart))
  {
    var a, b := t.y - start * t.n - rate * t.x, t.xy - start * t.x - rate * t.xx;
    var r, q := Residual(p, rate, start), Plus(t, p);
    assert q.y - start * q.n - rate * q.x == a + r;
    assert q.xy - start * q.x - rate * q.xx == b + p.x * r by {
      assert p.x * r == p.x * p.y - start * p.x - rate * (p.x * p.x);
    }
    assert dStart * (a + r) == dStart * a + dStart * r;
    assert dRate * (b + p.x * r) == dRate * b + r * (dRate * p.x);
  }

  lemma AcrossPlus(t: Sums, p: Sample, dRate: real, dStart: real)
    ensures Across(Plus(t, p), dRate, dStart) ==
            Across(t, dRate, dStart) + Squared(Shift(p, dRate, dStart))
  {
    var u := dRate * p.x;
    assert (dStart + u) * (dStart + u) == dStart * dStart + 2.0 * (dStart * u) + u * u;
    assert dStart * u == (dStart * dRate) * p.x;
    assert u * u == (dRate * dRate) * (p.x * p.x);
    assert (dStart * dStart) * (t.n + 1.0) == dStart * dStart * t.n + dStart * dStart;
    assert 2.0 * (dStart * dRate) * (t.x + p.x) == 2.0 * (dStart * dRate) * t.x + 2.0 * ((dStart * dRate) * p.x);
    assert (dRate * dRate) * (t.xx + p.x * p.x) == dRate * dRate * t.xx + (dRate * dRate) * (p.x * p.x);
  }

  lemma ResidualMoved(p: Sample, rate: real, start: real, dRate: real, dStart: real)
    ensures var r, u := Residual(p, rate, start), Shift(p, dRate, dStart);
      Squared(Residual(p, rate + dRate, start + dStart)) == Squared(r) - 2.0 * Product(r, u) + Squared(u)
  {
    var r, u := Residual(p, rate, start), dStart + dRate * p.x;
    assert Residual(p, rate + dRate, start + dStart) == r - u;
    assert (r - u) * (r - u) == r * r - 2.0 * (r * u) + u * u;
  }

  /** The fitted line leaves nothing to gain in either direction. */
  lemma Stationary(t: Sums, dRate: real, dStart: real)
    requires t.n > 0.0 && Spread(t) != 0.0
    ensures Along(t, Slope(t), Start(t), dRate, dStart) == 0.0
  {
    var m, b, spread, rise := Slope(t), Start(t), Spread(t), Rise(t);
    assert m * spread == rise by {
      hide Spread, Rise;
      TimesQuotient(Rise(t), Spread(t));
    }
    assert b * t.n == t.y - m * t.x by {
      hide Slope;
      TimesQuotient(t.y - m * t.x, t.n);
    }
    NormalEquations(t.n, t.x, t.y, t.xy, t.xx, m, b, spread, rise);
    hide Slope, Start;
    NoChange(dStart, t.y - b * t.n - m * t.x);
    NoChange(dRate, t.xy - b * t.x - m * t.xx);
  }

  lemma TimesQuotient(a: real, b: real)
    requires b != 0.0
    ensures a / b * b == a
  {
  }

  lemma NoChange(d: real, a: real)
    requires a == 0.0
    ensures d * a == 0.0
  {
  }

  lemma NormalEquations(n: real, x: real, y: real, xy: real, xx: real, m: real, b: real, spread: real, rise: real)
    requires n > 0.0 && spread == xx - x * x / n && rise == xy - x * y / n
    requires m * spread == rise && b * n == y - m * x
    ensures y - b * n - m * x == 0.0
    ensures xy - b * x - m * xx == 0.0
  {
    var share := x / n;
    assert share * n == x;
    QuotientsOfProducts(x, y, n, share);
    assert b * x == (b * n) * share;
    assert (y - m * x) * share == y * share - m * (x * share);
    assert m * (xx - x * share) == m * xx - m * (x * share);
  }

  lemma QuotientsOfProducts(x: real, y: real, n: real, share: real)
    requires n > 0.0 && share == x / n
    ensures x * x / n == x * share && x * y / n == y * share
  {
    ScaleQuotient(x, x, n);
    ScaleQuotient(y, x, n);
  }

  /** Any move costs at least the spread times the square of the change of rate. */
  lemma AcrossIsConvex(t: Sums, dRate: real, dStart: real)
    requires t.n > 0.0
    ensures Across(t, dRate, dStart) >= Spread(t) * (dRate * dRate)
  {
    SpreadTimesN(t);
    hide Spread;
    CompleteTheSquare(t.n, t.x, t.xx, dRate, dStart, Spread(t));
  }

  lemma CompleteTheSquare(n: real, x: real, xx: real, dRate: real, dStart: real, spread: real)
    requires n > 0.0 && spread * n == xx * n - x * x
    ensures dStart * dStart * n + 2.0 * (dStart * dRate) * x + dRate * dRate * xx >= spread * (dRate * dRate)
  {
    var a, b, c := dStart * dStart, dStart * dRate, dRate * dRate;
    var gain := a * n + 2.0 * b * x + c * xx - spread * c;
    var u, v := dStart * n, dRate * x;
    assert gain * n == (u + v) * (u + v) by {
      assert (u + v) * (u + v) == u * u + 2.0 * (u * v) + v * v;
      assert u * u == (a * n) * n;
      assert u * v == (b * x) * n;
      assert v * v == c * (x * x);
      assert (c * xx) * n - (spread * c) * n == c * (x * x);
    }
    SquareIsPositive(u + v);
    PositiveQuotient(n, gain);
  }

  /** The slope is the rate of the one line with the least squared error: any other line does worse, by at least
      the spread times the square of the difference in rate. */
  lemma SlopeIsLeastSquares(s: seq<Sample>, rate: real, start: real)
    requires s != [] && s[0].x == 0.0 && Guard(SumsOf(s))
    ensures SumsOf(s).n > 0.0 && Spread(SumsOf(s)) > 0.0
    ensures var t := SumsOf(s); var off := rate - Slope(t);
      SquaredError(s, rate, start) >= SquaredError(s, Slope(t), Start(t)) + Spread(t) * (off * off)
  {
    hide Guard, Spread, Slope, Start, Along, Across, SquaredError;
    GuardIsExact(s);
    var t := SumsOf(s);
    var dRate, dStart := rate - Slope(t), start - Start(t);
    ErrorMoved(s, Slope(t), Start(t), dRate, dStart);
    Stationary(t, dRate, dStart);
    AcrossIsConvex(t, dRate, dStart);
    assert Slope(t) + dRate == rate && Start(t) + dStart == start;
  }
}
