/** Recording synchronisation points and compensating for drift (orchestrator/clock_sync.go). */
module DriftCompensators {
  import opened Arithmetic
  import opened Drift

  /** Times are nanoseconds; `recordedAt` is the orchestrator's clock. */
  datatype SyncPoint = SyncPoint(localTime: int, masterTime: int, recordedAt: int, offset: int)

  const NANOSECONDS: real := 1000000000.0
  const MAX_HISTORY: nat := 100
  const MIN_POINTS: nat := 10

  function Seconds(from: SyncPoint, time: int): real {
    (time - from.recordedAt) as real / NANOSECONDS
  }

  function SampleOf(first: SyncPoint, p: SyncPoint): Sample {
    Sample(Seconds(first, p.recordedAt), (p.offset - first.offset) as real)
  }

  function SamplesOf(h: seq<SyncPoint>): (s: seq<Sample>)
    requires h != []
    ensures |s| == |h| && forall i | 0 <= i < |h| :: s[i] == SampleOf(h[0], h[i])
  {
    seq(|h|, i requires 0 <= i < |h| => SampleOf(h[0], h[i]))
  }

  /** The history after one more point: the oldest goes when there are too many. */
  function Recorded(h: seq<SyncPoint>, p: SyncPoint): (r: seq<SyncPoint>)
    ensures 0 < |r| && (|h| <= MAX_HISTORY ==> |r| <= MAX_HISTORY) && r[|r| - 1] == p
  {
    if |h| + 1 > MAX_HISTORY then (h + [p])[1..] else h + [p]
  }

  function RecordedAll(h: seq<SyncPoint>, points: seq<SyncPoint>): seq<SyncPoint> {
    if points == [] then h else Recorded(RecordedAll(h, points[..|points| - 1]), points[|points| - 1])
  }

  /** However many points are recorded, the history is the newest hundred of all of them, in their order. */
  lemma {:induction false} NewestAreKept(h: seq<SyncPoint>, points: seq<SyncPoint>)
    requires |h| <= 100
    ensures var all := h + points;
      RecordedAll(h, points) == if |all| > 100 then all[|all| - 100..] else all
  {
    if points == [] {
      assert h + points == h;
    } else {
      var earlier, p := points[..|points| - 1], points[|points| - 1];
      NewestAreKept(h, earlier);
      assert h + points == (h + earlier) + [p];
    }
  }

  /** The rate in force: the regression's if there are points enough and they span some time. */
  function RateFrom(h: seq<SyncPoint>, rate: real): real {
    if |h| >= MIN_POINTS && Guard(SumsOf(SamplesOf(h))) then
      GuardIsExact(SamplesOf(h));
      Slope(SumsOf(SamplesOf(h)))
    else rate
  }

  /** The guard asks for one thing: that not all points were recorded at the same time. */
  lemma {:induction false} SpreadInTime(s: seq<Sample>)
    ensures StandsStill(s) ==> SumsOf(s).xx == 0.0
    ensures !StandsStill(s) ==> SumsOf(s).xx > 0.0
  {
    if s != [] {
      var rest, last := s[..|s| - 1], s[|s| - 1];
      SpreadInTime(rest);
      NonZeroSquare(last.x);
      hide Squared, Product;
      StillPlus(rest, last);
      assert s == rest + [last];
    }
  }

  predicate StandsStill(s: seq<Sample>) {
    forall p | p in s :: p.x == 0.0
  }

  lemma StillPlus(s: seq<Sample>, p: Sample)
    ensures StandsStill(s + [p]) <==> StandsStill(s) && p.x == 0.0
  {
    if StandsStill(s + [p]) {
      assert p in s + [p] && forall q | q in s :: q in s + [p];
    }
  }

  lemma NonZeroSquare(x: real)
    ensures x == 0.0 || Squared(x) > 0.0
    ensures x == 0.0 ==> Squared(x) == 0.0
  {
    hide Squared, Product;
    var size := if x > 0.0 then x else -x;
    SquareOfSize(x, size);
    if size > 0.0 {
      PositiveProduct(size, size);
    }
  }

  lemma SquareOfSize(x: real, size: real)
    requires size == x || size == -x
    ensures Squared(x) == Product(size, size)
    ensures x == 0.0 ==> Squared(x) == 0.0
  {
  }

  lemma PositiveProduct(a: real, b: real)
    requires a > 0.0 && b > 0.0
    ensures Product(a, b) > 0.0
  {
  }

  predicate Simultaneous(h: seq<SyncPoint>) {
    forall p | p in h :: p.recordedAt == h[0].recordedAt
  }

  lemma GuardIffTimePasses(h: seq<SyncPoint>)
    requires |h| > 1
    ensures Guard(SumsOf(SamplesOf(h))) <==> !Simultaneous(h)
  {
    var s := SamplesOf(h);
    SpreadInTime(s);
    SharpCauchySchwarz(s);
    if Simultaneous(h) {
      forall p | p in s ensures p.x == 0.0 {
        var i :| 0 <= i < |s| && s[i] == p;
        assert h[i] in h;
      }
    } else {
      var p :| p in h && p.recordedAt != h[0].recordedAt;
      var i :| 0 <= i < |h| && h[i] == p;
      DifferentTimes(h[0], p.recordedAt);
      assert s[i] in s && s[i].x != 0.0;
    }
  }

  lemma DifferentTimes(first: SyncPoint, time: int)
    requires time != first.recordedAt
    ensures Seconds(first, time) != 0.0
  {
    assert Seconds(first, time) * NANOSECONDS == (time - first.recordedAt) as real;
  }

  // ---- A clock that drifts at a constant rate ----

  /** What the offset should be at a time. */
  function TrueOffset(first: SyncPoint, rate: real, time: int): real {
    first.offset as real + rate * Seconds(first, time)
  }

  predicate Steady(h: seq<SyncPoint>, rate: real) {
    forall p | p in h :: p.offset as real == TrueOffset(h[0], rate, p.recordedAt)
  }

  /** From points of a steady clock that span some time, the regression finds its rate. */
  lemma SteadyRateIsFound(h: seq<SyncPoint>, rate: real, previous: real)
    requires |h| >= 10 && Steady(h, rate) && !Simultaneous(h)
    ensures RateFrom(h, previous) == rate
  {
    hide SumsOf, Guard, Slope, Spread, Steady, Simultaneous, SamplesOf, OnLine;
    GuardIffTimePasses(h);
    SteadyIsOnLine(h, rate);
    assert SamplesOf(h)[0].x == 0.0;
    SlopeIsTheRate(SamplesOf(h), rate);
  }

  lemma SteadyIsOnLine(h: seq<SyncPoint>, rate: real)
    requires h != [] && Steady(h, rate)
    ensures OnLine(SamplesOf(h), rate)
  {
    var s := SamplesOf(h);
    hide Seconds, SamplesOf;
    forall p | p in s ensures p.y == rate * p.x {
      var i :| 0 <= i < |s| && s[i] == p;
      assert h[i] in h;
      assert s[i] == SampleOf(h[0], h[i]);
    }
  }

  /** The offset extrapolated from the last point. */
  function CompensatedOffset(h: seq<SyncPoint>, rate: real, now: int): int {
    if h == [] then 0
    else
      var last := h[|h| - 1];
      last.offset + Truncated(rate * Seconds(last, now))
  }

  lemma SecondsAdd(first: SyncPoint, last: SyncPoint, now: int, rate: real)
    ensures rate * Seconds(first, now) == rate * Seconds(first, last.recordedAt) + rate * Seconds(last, now)
  {
    var a, b := Seconds(first, last.recordedAt), Seconds(last, now);
    assert Seconds(first, now) == a + b;
    assert rate * (a + b) == rate * a + rate * b;
  }

  /** For a steady clock the compensated offset is off by less than one nanosecond, at any time. */
  lemma CompensationIsExact(h: seq<SyncPoint>, rate: real, previous: real, now: int)
    requires |h| >= 10 && Steady(h, rate) && !Simultaneous(h)
    ensures -1.0 < CompensatedOffset(h, RateFrom(h, previous), now) as real - TrueOffset(h[0], rate, now) < 1.0
  {
    SteadyRateIsFound(h, rate, previous);
    hide RateFrom, Simultaneous, Seconds;
    var last := h[|h| - 1];
    assert last.offset as real == TrueOffset(h[0], rate, last.recordedAt);
    SecondsAdd(h[0], last, now, rate);
  }

  /** Whatever was recorded before and whatever the rate, the newest point gives the offset at its own time, and from
      there on it is extrapolated at the rate, cut towards the newest offset. */
  lemma NewestCounts(h: seq<SyncPoint>, localTime: int, masterTime: int, now: int, rate: real, later: int)
    ensures var r := Recorded(h, SyncPoint(localTime, masterTime, now, masterTime - localTime));
      var drift := rate * ((later - now) as real / 1000000000.0);
      var moved := (CompensatedOffset(r, rate, later) - (masterTime - localTime)) as real;
      && CompensatedOffset(r, rate, now) == masterTime - localTime
      && -1.0 < moved - drift < 1.0
      && (drift >= 0.0 ==> 0.0 <= moved <= drift) && (drift <= 0.0 ==> drift <= moved <= 0.0)
  {
    assert (now - now) as real / NANOSECONDS == 0.0;
  }

  /** The rate stays as it is with fewer than ten points, or if all were recorded at one time. */
  lemma RateIsKept(h: seq<SyncPoint>, rate: real)
    requires |h| < 10 || Simultaneous(h)
    ensures RateFrom(h, rate) == rate
  {
    if |h| >= 10 {
      GuardIffTimePasses(h);
    }
  }

  lemma StartsAtZero(h: seq<SyncPoint>)
    requires h != []
    ensures SamplesOf(h)[0].x == 0.0
  {
  }

  // ---- The compensator ----

  class DriftCompensator {
    var syncHistory: seq<SyncPoint>
    var driftRate: real

    predicate Valid()
      reads this
    {
      |syncHistory| <= MAX_HISTORY
    }

    constructor ()
      ensures Valid() && syncHistory == [] && driftRate == 0.0
    {
      syncHistory, driftRate := [], 0.0;
    }

    /** Adds a point taken at `now`, and fits the rate again once there are enough. */
    method RecordSyncPoint(localTime: int, masterTime: int, now: int)
      requires Valid()
      modifies this
      ensures Valid()
      ensures syncHistory == Recorded(old(syncHistory), SyncPoint(localTime, masterTime, now, masterTime - localTime))
      ensures syncHistory != [] && syncHistory[|syncHistory| - 1] ==
        SyncPoint(localTime, masterTime, now, masterTime - localTime)
      ensures driftRate == RateFrom(syncHistory, old(driftRate))
    {
      var offset := masterTime - localTime;
      syncHistory := syncHistory + [SyncPoint(localTime, masterTime, now, offset)];
      if |syncHistory| > MAX_HISTORY {
        syncHistory := syncHistory[1..];
      }
      if |syncHistory| >= MIN_POINTS {
        CalculateDriftRate();
      }
    }

    /** The denominator is never zero under the guard. */
    method CalculateDriftRate()
      modifies this`driftRate
      ensures driftRate == RateFrom(syncHistory, old(driftRate))
    {
      hide Spread, Rise, Slope, Squared, Product, Seconds;
      if |syncHistory| < MIN_POINTS {
        return;
      }
      var sumX, sumY, sumXY, sumXX, n := 0.0, 0.0, 0.0, 0.0, 0.0;
      var first := syncHistory[0];
      ghost var samples := SamplesOf(syncHistory);
      var i := 0;
      while i < |syncHistory|
        invariant i <= |syncHistory| && unchanged(this)
        invariant SumsOf(samples[..i]) == Sums(n, sumX, sumY, sumXY, sumXX)
      {
        var point := syncHistory[i];
        var timeElapsed := Seconds(first, point.recordedAt);
        var offsetChange := (point.offset - first.offset) as real;
        assert samples[..i + 1][..i] == samples[..i] && samples[i] == Sample(timeElapsed, offsetChange);
        sumX := sumX + timeElapsed;
        sumY := sumY + offsetChange;
        sumXY := sumXY + Product(timeElapsed, offsetChange);
        sumXX := sumXX + Squared(timeElapsed);
        n := n + 1.0;
        i := i + 1;
      }
      assert samples[..i] == samples;
      if n > 1.0 && sumXX > 0.0 {
        StartsAtZero(syncHistory);
        GuardIsExact(samples);
        driftRate := Slope(Sums(n, sumX, sumY, sumXY, sumXX));
      }
    }

    /** Adjusts a timestamp for the drift over some seconds. */
    method CompensateForDrift(timestamp: int, elapsedSecs: real) returns (adjusted: int)
      ensures -1.0 < adjusted as real - (timestamp as real + driftRate * elapsedSecs) < 1.0
      ensures driftRate * elapsedSecs >= 0.0 ==> 0.0 <= (adjusted - timestamp) as real <= driftRate * elapsedSecs
      ensures driftRate * elapsedSecs <= 0.0 ==> driftRate * elapsedSecs <= (adjusted - timestamp) as real <= 0.0
    {
      adjusted := timestamp + Truncated(driftRate * elapsedSecs);
    }

    method GetLastOffset() returns (offset: int)
      ensures offset == if syncHistory == [] then 0 else syncHistory[|syncHistory| - 1].offset
    {
      if |syncHistory| == 0 {
        return 0;
      }
      offset := syncHistory[|syncHistory| - 1].offset;
    }

    method GetCompensatedOffset(now: int) returns (offset: int)
      ensures offset == CompensatedOffset(syncHistory, driftRate, now)
      ensures syncHistory == [] ==> offset == 0
      ensures syncHistory != [] ==>
        var newest := syncHistory[|syncHistory| - 1];
        var drift := driftRate * ((now - newest.recordedAt) as real / 1000000000.0);
        && -1.0 < (offset - newest.offset) as real - drift < 1.0
        && (now == newest.recordedAt ==> offset == newest.offset)
    {
      assert 0.0 / NANOSECONDS == 0.0;
      if |syncHistory| == 0 {
        return 0;
      }
      var last := syncHistory[|syncHistory| - 1];
      offset := last.offset + Truncated(driftRate * Seconds(last, now));
    }
  }
}
