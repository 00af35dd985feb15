/** The trend follower's price histories (engine/src/actor.cpp). */
module TrendFollowers {
  import opened Orders
  import opened Trend

  class TrendFollower {
    const shortWindow: int
    const longWindow: int
    var priceHistory: map<Id, seq<real>>
    /** Every mid price ever observed. */
    ghost var seen: map<Id, seq<real>>

    /** What is kept of each instrument is the newest prices, twice the long window of them. */
    ghost predicate Valid()
      reads this
    {
      && shortWindow != 0 && longWindow > 0
      && priceHistory.Keys == seen.Keys
      && forall i | i in priceHistory :: priceHistory[i] == Last(seen[i], 2 * longWindow)
    }

    ghost function Seen(instrument: Id): seq<real>
      reads this
    {
      if instrument in seen then seen[instrument] else []
    }

    constructor (shortWindow: int, longWindow: int)
      requires shortWindow != 0 && longWindow > 0
      ensures Valid() && seen == map[] && this.shortWindow == shortWindow && this.longWindow == longWindow
    {
      this.shortWindow, this.longWindow := shortWindow, longWindow;
      priceHistory, seen := map[], map[];
    }

    /** Records the mid price when both sides have one. */
    method OnMarketObservation(instrument: Id, bestBid: Option<real>, bestAsk: Option<real>)
      requires Valid()
      modifies this
      ensures Valid()
      ensures seen == if bestBid.Some? && bestAsk.Some?
        then old(seen)[instrument := old(Seen(instrument)) + [(bestBid.value + bestAsk.value) / 2.0]]
        else old(seen)
    {
      hide Last;
      if bestBid.Some? && bestAsk.Some? {
        var midPrice := (bestBid.value + bestAsk.value) / 2.0;
        var limit := longWindow * 2;
        LastOfNone(limit);
        var history := if instrument in priceHistory then priceHistory[instrument] else [];
        PushedIsLast(Seen(instrument), midPrice, limit);
        history := Trimmed(history + [midPrice], limit);
        seen := seen[instrument := Seen(instrument) + [midPrice]];
        priceHistory := priceHistory[instrument := history];
      }
    }

    /** The signal is the one the whole untrimmed history gives, as long as the short window fits what is kept. */
    method CalculateTrendSignal(instrument: Id) returns (signal: real)
      requires Valid()
      ensures -1.0 <= signal <= 1.0
      ensures signal == Signal(Last(Seen(instrument), 2 * longWindow), shortWindow, longWindow)
      ensures shortWindow <= 2 * longWindow ==> signal == Signal(Seen(instrument), shortWindow, longWindow)
    {
      hide Sum, Last, MovingAverage;
      if shortWindow <= 2 * longWindow {
        TrimmingKeepsSignal(Seen(instrument), shortWindow, longWindow);
      }
      LastOfNone(2 * longWindow);
      if instrument !in priceHistory || |priceHistory[instrument]| < longWindow {
        return 0.0;
      }
      var prices := priceHistory[instrument];
      var shortMa := CalculateSimpleMovingAverage(prices, shortWindow);
      var longMa := CalculateSimpleMovingAverage(prices, longWindow);
      var priceScale := if prices[|prices| - 1] != 0.0 then prices[|prices| - 1] else 1.0;
      signal := Clamped((shortMa - longMa) / priceScale * 20.0);
    }
  }

  lemma LastOfNone(limit: nat)
    ensures Last([], limit) == []
  {
  }

  /** Erases the oldest prices beyond the limit. */
  method Trimmed(history: seq<real>, limit: nat) returns (kept: seq<real>)
    ensures kept == Last(history, limit)
  {
    kept := history;
    if |history| > limit {
      kept := history[|history| - limit..];
    }
  }

  /** The sum runs over the last `window` prices, oldest first. */
  method CalculateSimpleMovingAverage(prices: seq<real>, window: int) returns (average: real)
    requires window != 0
    ensures average == MovingAverage(prices, window)
  {
    if |prices| == 0 || window < 0 || window > |prices| {
      return 0.0;
    }
    ghost var newest := Last(prices, window);
    var sum := 0.0;
    var i := |prices| - window;
    while i < |prices|
      invariant |prices| - window <= i <= |prices|
      invariant sum == Sum(newest[..i - (|prices| - window)])
    {
      ghost var k := i - (|prices| - window);
      assert newest[..k + 1][..k] == newest[..k] && newest[k] == prices[i];
      sum := sum + prices[i];
      i := i + 1;
    }
    assert newest[..window] == newest;
    average := sum / window as real;
  }
}
