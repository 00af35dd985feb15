/** The trend follower's signal (engine/src/actor.cpp). Floating-point numbers are exact here. */
module Trend {

  function Sum(s: seq<real>): real {
    if s == [] then 0.0 else Sum(s[..|s| - 1]) + s[|s| - 1]
  }

  /** The newest `n` prices, or all there are. */
  function Last(s: seq<real>, n: nat): (r: seq<real>)
    ensures |r| == if |s| > n then n else |s|
    ensures |s| <= n ==> r == s
  {
    if |s| > n then s[|s| - n..] else s
  }

  /** A window longer than the history has no average, and neither has a negative one, which is converted to a
      huge unsigned size. */
  function MovingAverage(prices: seq<real>, window: int): real
    requires window != 0
  {
    if prices == [] || window < 0 || window > |prices| then 0.0 else Sum(Last(prices, window)) / window as real
  }

  function Clamped(x: real): (r: real)
    ensures -1.0 <= r <= 1.0
    ensures (r < 0.0 <==> x < 0.0) && (r > 0.0 <==> x > 0.0)
  {
    if x < -1.0 then -1.0 else if x > 1.0 then 1.0 else x
  }

  /** The difference of the averages, relative to the newest price, stretched and cut to the range. */
  function Crossover(newest: real, shortAverage: real, longAverage: real): (signal: real)
    ensures -1.0 <= signal <= 1.0
  {
    var scale := if newest != 0.0 then newest else 1.0;
    Clamped((shortAverage - longAverage) / scale * 20.0)
  }

  function Signal(prices: seq<real>, short: int, long: int): (signal: real)
    requires short != 0 && long > 0
    ensures -1.0 <= signal <= 1.0
  {
    if |prices| < long then 0.0
    else Crossover(prices[|prices| - 1], MovingAverage(prices, short), MovingAverage(prices, long))
  }

  /** The signal is the lead relative to the newest price, unless that is zero, or the nearer end of the range. */
  predicate CutToRange(lead: real, newest: real, signal: real) {
    && (newest > 0.0 ==>
          && (lead > newest ==> signal == 1.0) && (lead < -newest ==> signal == -1.0)
          && (-newest <= lead <= newest ==> signal * newest == lead))
    && (newest < 0.0 ==>
          && (lead > -newest ==> signal == -1.0) && (lead < newest ==> signal == 1.0)
          && (newest <= lead <= -newest ==> signal * newest == lead))
    && (newest == 0.0 ==> signal == if lead > 1.0 then 1.0 else if lead < -1.0 then -1.0 else lead)
  }

  /** Without enough prices for the long window there is no signal; otherwise it is twenty times the lead of the short
      average, relative to the newest price unless that is zero, as long as that is within the range, and the nearer
      end of the range if it is not. */
  lemma SignalIsScaled(prices: seq<real>, short: int, long: int)
    requires short != 0 && long > 0
    ensures |prices| < long ==> Signal(prices, short, long) == 0.0
    ensures |prices| >= long ==>
      CutToRange(20.0 * (MovingAverage(prices, short) - MovingAverage(prices, long)), prices[|prices| - 1],
                 Signal(prices, short, long))
  {
    hide MovingAverage, Crossover;
    if |prices| >= long {
      ScaledTo(prices[|prices| - 1], MovingAverage(prices, short), MovingAverage(prices, long));
    }
  }

  lemma ScaledTo(newest: real, a: real, b: real)
    ensures CutToRange(20.0 * (a - b), newest, Crossover(newest, a, b))
  {
    if newest != 0.0 {
      var x := (a - b) / newest * 20.0;
      assert Crossover(newest, a, b) == Clamped(x);
      assert x * newest == 20.0 * (a - b) by {
        assert (a - b) / newest * newest == a - b;
      }
      hide Crossover, CutToRange;
      ClampedTo(x, newest);
    }
  }

  lemma ClampedTo(x: real, newest: real)
    requires newest != 0.0
    ensures CutToRange(x * newest, newest, Clamped(x))
  {
    assert x * newest - newest == (x - 1.0) * newest;
    assert x * newest + newest == (x + 1.0) * newest;
    SignTimes(x - 1.0, newest);
    SignTimes(x + 1.0, newest);
  }

  lemma SignTimes(a: real, b: real)
    ensures b > 0.0 ==> (a * b > 0.0 <==> a > 0.0) && (a * b < 0.0 <==> a < 0.0)
    ensures b < 0.0 ==> (a * b > 0.0 <==> a < 0.0) && (a * b < 0.0 <==> a > 0.0)
  {
  }

  // ---- Trimming ----

  /** Adding a price and dropping the oldest ones beyond the limit. */
  function Pushed(history: seq<real>, price: real, limit: nat): seq<real> {
    Last(history + [price], limit)
  }

  /** Trimming at every price leaves what trimming once at the end would. */
  lemma PushedIsLast(seen: seq<real>, price: real, limit: nat)
    ensures Pushed(Last(seen, limit), price, limit) == Last(seen + [price], limit)
  {
    if limit > 0 && |seen| > limit {
      var kept := seen[|seen| - limit..];
      assert (kept + [price])[1..] == (seen + [price])[|seen| + 1 - limit..];
    }
  }

  lemma LastOfLast(s: seq<real>, n: nat, limit: nat)
    requires n <= limit
    ensures Last(Last(s, limit), n) == Last(s, n)
  {
  }

  /** Trimming to twice the long window keeps the signal, for every history, exactly when the short window is no
      longer than that. */
  lemma TrimmingKeepsSignalIff(short: int, long: int)
    requires short != 0 && long > 0
    ensures (forall seen: seq<real> :: Signal(Last(seen, 2 * long), short, long) == Signal(seen, short, long))
            <==> short <= 2 * long
  {
    if short <= 2 * long {
      forall seen: seq<real> ensures Signal(Last(seen, 2 * long), short, long) == Signal(seen, short, long) {
        TrimmingKeepsSignal(seen, short, long);
      }
    } else {
      TrimmingChangesSignal(short, long);
    }
  }

  lemma TrimmingKeepsSignal(seen: seq<real>, short: int, long: int)
    requires short != 0 && long > 0 && short <= 2 * long
    ensures Signal(Last(seen, 2 * long), short, long) == Signal(seen, short, long)
  {
    hide Sum, Crossover;
    if |seen| > 2 * long {
      LastOfLast(seen, long, 2 * long);
      if short > 0 {
        LastOfLast(seen, short, 2 * long);
      }
    }
  }

  function Flat(n: nat, price: real): (s: seq<real>)
    ensures |s| == n && forall i | 0 <= i < n :: s[i] == price
  {
    seq(n, i => price)
  }

  function Times(n: int, x: real): real {
    n as real * x
  }

  lemma OneMore(n: int, x: real)
    ensures Times(n + 1, x) == Times(n, x) + x
  {
    assert (n + 1) as real == n as real + 1.0;
  }

  lemma {:induction false} SumOfFlat(s: seq<real>, price: real)
    requires forall i | 0 <= i < |s| :: s[i] == price
    ensures Sum(s) == Times(|s|, price)
  {
    if s != [] {
      SumOfFlat(s[..|s| - 1], price);
      OneMore(|s| - 1, price);
      hide Times;
    }
  }

  lemma AverageOfFlat(s: seq<real>, window: nat)
    requires 0 < window && forall i | 0 <= i < |s| :: s[i] == 1.0
    ensures MovingAverage(s, window) == if window <= |s| then 1.0 else 0.0
  {
    if window <= |s| {
      SumOfFlat(Last(s, window), 1.0);
      hide Sum, Last;
      assert window as real / window as real == 1.0;
    }
  }

  /** Beyond that a flat market, which has no trend, looks like a falling one once the history is trimmed. */
  lemma TrimmingChangesSignal(short: int, long: int)
    requires 0 < 2 * long < short
    ensures Signal(Flat(short, 1.0), short, long) == 0.0
    ensures Signal(Last(Flat(short, 1.0), 2 * long), short, long) == -1.0
  {
    var whole := Flat(short, 1.0);
    var kept := Last(whole, 2 * long);
    assert forall i | 0 <= i < |kept| :: kept[i] == 1.0;
    hide MovingAverage, Last, Flat, Crossover;
    AverageOfFlat(whole, short);
    AverageOfFlat(whole, long);
    AverageOfFlat(kept, short);
    AverageOfFlat(kept, long);
    CrossoverValues();
  }

  lemma CrossoverValues()
    ensures Crossover(1.0, 1.0, 1.0) == 0.0 && Crossover(1.0, 0.0, 1.0) == -1.0
  {
  }

  // ---- Direction ----

  predicate Rising(s: seq<real>) {
    forall i, j | 0 <= i < j < |s| :: s[i] <= s[j]
  }

  predicate Falling(s: seq<real>) {
    forall i, j | 0 <= i < j < |s| :: s[i] >= s[j]
  }

  lemma {:induction false} SumConcat(a: seq<real>, b: seq<real>)
    ensures Sum(a + b) == Sum(a) + Sum(b)
  {
    if b == [] {
      assert a + b == a;
    } else {
      assert (a + b)[..|a + b| - 1] == a + b[..|b| - 1];
      SumConcat(a, b[..|b| - 1]);
    }
  }

  lemma {:induction false} SumAtLeast(s: seq<real>, low: real)
    requires forall i | 0 <= i < |s| :: s[i] >= low
    ensures Sum(s) >= Times(|s|, low)
    ensures s != [] ==> Sum(s) >= Times(|s|, low) + (s[|s| - 1] - low)
  {
    if s != [] {
      SumAtLeast(s[..|s| - 1], low);
      OneMore(|s| - 1, low);
    }
  }

  function Negated(s: seq<real>): (r: seq<real>)
    ensures |r| == |s| && forall i | 0 <= i < |s| :: r[i] == -s[i]
  {
    seq(|s|, i requires 0 <= i < |s| => -s[i])
  }

  lemma {:induction false} SumNegated(s: seq<real>)
    ensures Sum(Negated(s)) == -Sum(s)
  {
    if s != [] {
      SumNegated(s[..|s| - 1]);
      assert Negated(s)[..|s| - 1] == Negated(s[..|s| - 1]);
    }
  }

  lemma {:induction false} SumFromFront(s: seq<real>)
    requires s != []
    ensures Sum(s) == s[0] + Sum(s[1..])
  {
    assert s == s[..1] + s[1..];
    SumConcat(s[..1], s[1..]);
    assert s[..1][..0] == [];
  }

  lemma {:induction false} SumAtMost(s: seq<real>, high: real)
    requires forall i | 0 <= i < |s| :: s[i] <= high
    ensures Sum(s) <= Times(|s|, high)
    ensures s != [] ==> Sum(s) <= Times(|s|, high) - (high - s[0])
  {
    if s != [] {
      SumFromFront(s);
      SumAtMost(s[1..], high);
      OneMore(|s| - 1, high);
    }
  }

  /** The averages of the newest `k` prices and of all of them, compared by cross-multiplying. */
  function Lead(w: seq<real>, k: nat): real
    requires k <= |w|
  {
    Compared(|w| as real, k as real, Sum(w), Sum(w[|w| - k..]))
  }

  function Compared(n: real, k: real, all: real, tail: real): real {
    n * tail - k * all
  }

  lemma LeadOfRising(w: seq<real>, k: nat)
    requires 0 < k <= |w| && Rising(w)
    ensures Lead(w, k) >= 0.0
    ensures k < |w| ==> (Lead(w, k) > 0.0 <==> w[0] < w[|w| - 1])
  {
    hide Sum, Compared, Times;
    var rest, tail := w[..|w| - k], w[|w| - k..];
    assert w == rest + tail;
    SumConcat(rest, tail);
    if k == |w| {
      assert tail == w;
      NothingCompared(k as real, Sum(w));
    } else {
      var mid := tail[0];
      SumAtLeast(tail, mid);
      SumAtMost(rest, mid);
      assert |w| as real == |rest| as real + k as real;
      LeadIsPositive(|rest|, k, Sum(rest), Sum(tail), w[0], mid, w[|w| - 1]);
      if w[0] == w[|w| - 1] {
        SumOfFlat(rest, mid);
        SumOfFlat(tail, mid);
        LeadOfFlat(|rest|, k, mid);
      }
    }
  }

  lemma NothingCompared(k: real, all: real)
    ensures Compared(k, k, all, all) == 0.0
  {
  }

  lemma LeadIsPositive(r: nat, k: nat, rest: real, tail: real, first: real, mid: real, last: real)
    requires r > 0 && k > 0 && first <= mid <= last
    requires tail >= Times(k, mid) + (last - mid) && rest <= Times(r, mid) - (mid - first)
    ensures Compared(r as real + k as real, k as real, rest + tail, tail) >= last - first
  {
    LeadAtLeast(r as real, k as real, rest, tail, first, mid, last);
  }

  lemma LeadOfFlat(r: nat, k: nat, mid: real)
    ensures Compared(r as real + k as real, k as real, Times(r, mid) + Times(k, mid), Times(k, mid)) == 0.0
  {
    LeadIsZero(r as real, k as real, mid);
  }

  lemma LeadAtLeast(r: real, k: real, rest: real, tail: real, first: real, mid: real, last: real)
    requires r >= 1.0 && k >= 1.0 && first <= mid <= last
    requires tail >= k * mid + (last - mid) && rest <= r * mid - (mid - first)
    ensures (r + k) * tail - k * (rest + tail) >= last - first
  {
    Scale(r, k * mid + (last - mid), tail);
    Scale(k, rest, r * mid - (mid - first));
    Scale(last - mid, 1.0, r);
    Scale(mid - first, 1.0, k);
    assert (r + k) * tail - k * (rest + tail) == r * tail - k * rest;
    assert r * (k * mid + (last - mid)) == r * (k * mid) + r * (last - mid);
    assert k * (r * mid - (mid - first)) == r * (k * mid) - k * (mid - first);
  }

  lemma Scale(c: real, a: real, b: real)
    requires c >= 0.0 && a <= b
    ensures c * a <= c * b
  {
  }

  lemma LeadIsZero(r: real, k: real, mid: real)
    ensures (r + k) * (k * mid) - k * (r * mid + k * mid) == 0.0
  {
  }

  lemma LeadOfFalling(w: seq<real>, k: nat)
    requires 0 < k <= |w| && Falling(w)
    ensures Lead(w, k) <= 0.0
    ensures k < |w| ==> (Lead(w, k) < 0.0 <==> w[0] > w[|w| - 1])
  {
    hide Sum, Compared;
    var n := Negated(w);
    assert Rising(n);
    LeadOfRising(n, k);
    SumNegated(w);
    SumNegated(w[|w| - k..]);
    assert n[|w| - k..] == Negated(w[|w| - k..]);
    Opposite(|w| as real, k as real, Sum(w), Sum(w[|w| - k..]));
  }

  lemma Opposite(n: real, k: real, all: real, tail: real)
    ensures Compared(n, k, -all, -tail) == -Compared(n, k, all, tail)
  {
  }

  /** The signal points the way the short average leads the long one. */
  lemma SignalIsCrossover(prices: seq<real>, short: int, long: int)
    requires 0 < short <= long <= |prices| && prices[|prices| - 1] > 0.0
    ensures var lead := Lead(Last(prices, long), short);
      && (Signal(prices, short, long) > 0.0 <==> lead > 0.0)
      && (Signal(prices, short, long) < 0.0 <==> lead < 0.0)
  {
    hide Sum, Crossover, Compared;
    var w := Last(prices, long);
    assert w[|w| - short..] == Last(prices, short);
    var shortSum, longSum := Sum(Last(prices, short)), Sum(w);
    CrossoverSign(prices[|prices| - 1], short as real, long as real, shortSum, longSum);
  }

  lemma CrossoverSign(newest: real, k: real, n: real, a: real, b: real)
    requires newest > 0.0 && k > 0.0 && n > 0.0
    ensures Crossover(newest, a / k, b / n) > 0.0 <==> Compared(n, k, b, a) > 0.0
    ensures Crossover(newest, a / k, b / n) < 0.0 <==> Compared(n, k, b, a) < 0.0
  {
    AverageDifference(k, n, a, b);
    hide Compared;
    ScaledSign(a / k - b / n, newest);
  }

  lemma AverageDifference(k: real, n: real, a: real, b: real)
    requires k > 0.0 && n > 0.0
    ensures a / k - b / n > 0.0 <==> Compared(n, k, b, a) > 0.0
    ensures a / k - b / n < 0.0 <==> Compared(n, k, b, a) < 0.0
  {
    var x, y := a / k, b / n;
    assert x * k == a && y * n == b;
    assert n * a - k * b == (k * n) * (x - y);
    SignOfProduct(k * n, x - y);
  }

  lemma SignOfProduct(c: real, x: real)
    requires c > 0.0
    ensures c * x > 0.0 <==> x > 0.0
    ensures c * x < 0.0 <==> x < 0.0
  {
  }

  lemma ScaledSign(x: real, scale: real)
    requires scale > 0.0
    ensures x / scale * 20.0 > 0.0 <==> x > 0.0
    ensures x / scale * 20.0 < 0.0 <==> x < 0.0
  {
    var q := x / scale;
    assert q * scale == x;
    SignOfProduct(scale, q);
  }

  predicate Positive(prices: seq<real>) {
    forall i | 0 <= i < |prices| :: prices[i] > 0.0
  }

  /** A market that has not fallen gives no sell signal; it gives a buy signal exactly when it has risen within
      the long window. */
  lemma SignalOfRising(prices: seq<real>, short: int, long: int)
    requires 0 < short <= long && Positive(prices) && Rising(prices)
    ensures Signal(prices, short, long) >= 0.0
    ensures short < long <= |prices| ==>
      (Signal(prices, short, long) > 0.0 <==> prices[|prices| - long] < prices[|prices| - 1])
  {
    if long <= |prices| {
      hide Sum, Signal;
      SignalIsCrossover(prices, short, long);
      LeadOfRising(Last(prices, long), short);
    }
  }

  lemma SignalOfFalling(prices: seq<real>, short: int, long: int)
    requires 0 < short <= long && Positive(prices) && Falling(prices)
    ensures Signal(prices, short, long) <= 0.0
    ensures short < long <= |prices| ==>
      (Signal(prices, short, long) < 0.0 <==> prices[|prices| - long] > prices[|prices| - 1])
  {
    if long <= |prices| {
      hide Sum, Signal;
      SignalIsCrossover(prices, short, long);
      LeadOfFalling(Last(prices, long), short);
    }
  }
}
