/** How far the synchronised clocks can be off (orchestrator/clock_sync.go). Times are whole nanoseconds.
    What the nodes answer is a parameter; the nodes' and the master's clocks run at unit rate, each some fixed
    lead ahead of the orchestrator's own clock. */
module ClockSync {
  import opened Arithmetic
  import opened Orders

  datatype NodeTime = NodeTime(nodeId: Id, requestTime: int, nodeTimestamp: int, responseTime: int) {
    function RoundTrip(): int {
      responseTime - requestTime
    }
  }

  /** The answer to one request: an error, or a timestamp that came back at a time. */
  datatype Reply = Failed | Answered(requestTime: int, timestamp: int, responseTime: int)

  const SAMPLES_PER_NODE: nat := 5
  const SAMPLES_KEPT: nat := 3

  /** How much to adjust the node's clock by, judging from one sample and one reading of the master. */
  function OffsetOf(s: NodeTime, masterTimestamp: int, masterTime: int): int {
    (masterTimestamp - s.nodeTimestamp) - (masterTime - (s.requestTime + Half(s.RoundTrip())))
  }

  // ---- One sample ----

  /** The node read its clock between the request and the response. */
  predicate Taken(s: NodeTime, lead: int) {
    s.requestTime <= s.nodeTimestamp - lead <= s.responseTime
  }

  /** The master read its clock at most `roundTrip` before its answer was in. */
  predicate MasterTaken(masterTimestamp: int, masterTime: int, roundTrip: int, masterLead: int) {
    masterTime - roundTrip <= masterTimestamp - masterLead <= masterTime
  }

  /** The error of an offset is at most half a round trip up, and at most half a round trip, rounded up, and the
      master's round trip down. */
  predicate Close(offset: int, truth: int, roundTrip: int, masterRoundTrip: int) {
    -(roundTrip - Half(roundTrip)) - masterRoundTrip <= offset - truth <= Half(roundTrip)
  }

  lemma SampleIsClose(s: NodeTime, lead: int, masterTimestamp: int, masterTime: int, masterRoundTrip: int,
          masterLead: int)
    requires Taken(s, lead) && MasterTaken(masterTimestamp, masterTime, masterRoundTrip, masterLead)
    ensures Close(OffsetOf(s, masterTimestamp, masterTime), masterLead - lead, s.RoundTrip(), masterRoundTrip)
  {
    var half := Half(s.RoundTrip());
    var sooner := s.requestTime + half - (s.nodeTimestamp - lead);
    var later := masterTime - (masterTimestamp - masterLead);
    assert OffsetOf(s, masterTimestamp, masterTime) - (masterLead - lead) == sooner - later;
    assert half - s.RoundTrip() <= sooner <= half && 0 <= later <= masterRoundTrip;
  }

  /** No smaller bound would do: both ends are reached. */
  lemma BoundIsTight(id: Id, roundTrip: nat, masterRoundTrip: nat, lead: int, masterLead: int)
    ensures var early := NodeTime(id, 0, lead, roundTrip);
      && Taken(early, lead) && MasterTaken(masterLead, 0, masterRoundTrip, masterLead)
      && OffsetOf(early, masterLead, 0) - (masterLead - lead) == Half(roundTrip)
    ensures var late, reading := NodeTime(id, 0, lead + roundTrip, roundTrip), masterLead - masterRoundTrip;
      && Taken(late, lead) && MasterTaken(reading, 0, masterRoundTrip, masterLead)
      && OffsetOf(late, reading, 0) - (masterLead - lead) == -(roundTrip - Half(roundTrip)) - masterRoundTrip
  {
    var early, late := NodeTime(id, 0, lead, roundTrip), NodeTime(id, 0, lead + roundTrip, roundTrip);
    assert early.RoundTrip() == roundTrip == late.RoundTrip();
    assert OffsetOf(early, masterLead, 0) == (masterLead - lead) - (0 - Half(roundTrip));
  }

  lemma WiderIsWeaker(offset: int, truth: int, narrow: int, wide: int, masterRoundTrip: int)
    requires 0 <= narrow <= wide && Close(offset, truth, narrow, masterRoundTrip)
    ensures Close(offset, truth, wide, masterRoundTrip)
  {
  }

  // ---- The best samples and their median ----

  /** The samples with the shortest round trips, in some order of theirs. */
  ghost predicate Best(kept: seq<NodeTime>, samples: seq<NodeTime>) {
    exists sorted :: && multiset(sorted) == multiset(samples) && ByRoundTrip(sorted)
                     && kept == if |sorted| > SAMPLES_KEPT then sorted[..SAMPLES_KEPT] else sorted
  }

  predicate AscendingBy<T>(s: seq<T>, key: T -> int) {
    forall i, j | 0 <= i < j < |s| :: key(s[i]) <= key(s[j])
  }

  function RoundTripOf(s: NodeTime): int {
    s.RoundTrip()
  }

  predicate ByRoundTrip(s: seq<NodeTime>) {
    AscendingBy(s, RoundTripOf)
  }

  function Itself(x: int): int {
    x
  }

  predicate Ascending(s: seq<int>) {
    AscendingBy(s, Itself)
  }

  /** Sorting, as the library does it: a permutation in ascending order of the key. */
  function SortedBy<T>(s: seq<T>, key: T -> int): (r: seq<T>)
    ensures multiset(r) == multiset(s) && |r| == |s|
    ensures AscendingBy(r, key)
  {
    if s == [] then []
    else
      assert s == [s[0]] + s[1..];
      InsertedBy(SortedBy(s[1..], key), s[0], key)
  }

  function InsertedBy<T>(s: seq<T>, x: T, key: T -> int): (r: seq<T>)
    requires AscendingBy(s, key)
    ensures multiset(r) == multiset(s) + multiset{x} && |r| == |s| + 1
    ensures AscendingBy(r, key)
  {
    if s == [] || key(x) <= key(s[0]) then [x] + s
    else
      assert s == [s[0]] + s[1..];
      var rest := InsertedBy(s[1..], x, key);
      Behind(s[0], s[1..], x, rest, key);
      [s[0]] + rest
  }

  lemma Behind<T>(first: T, s: seq<T>, x: T, rest: seq<T>, key: T -> int)
    requires AscendingBy([first] + s, key) && key(first) <= key(x)
    requires multiset(rest) == multiset(s) + multiset{x} && AscendingBy(rest, key)
    ensures AscendingBy([first] + rest, key)
  {
    var all, r := [first] + s, [first] + rest;
    forall i, j | 0 <= i < j < |r| ensures key(r[i]) <= key(r[j]) {
      if i == 0 {
        assert rest[j - 1] in multiset(rest);
        if rest[j - 1] in s {
          var k :| 0 <= k < |s| && s[k] == rest[j - 1];
          assert key(all[0]) <= key(all[k + 1]);
        }
      } else {
        assert key(rest[i - 1]) <= key(rest[j - 1]);
      }
    }
  }

  function OffsetsOf(samples: seq<NodeTime>, masterTimestamp: int, masterTime: int): (r: seq<int>)
    ensures |r| == |samples|
  {
    seq(|samples|, i requires 0 <= i < |samples| => OffsetOf(samples[i], masterTimestamp, masterTime))
  }

  ghost predicate Median(median: int, values: seq<int>) {
    values != [] &&
    exists sorted :: multiset(sorted) == multiset(values) && Ascending(sorted) && median == sorted[|sorted| / 2]
  }

  /** What synchronising settles on for one node. */
  ghost predicate Settled(offset: int, samples: seq<NodeTime>, masterTimestamp: int, masterTime: int) {
    exists kept :: Best(kept, samples) && Median(offset, OffsetsOf(kept, masterTimestamp, masterTime))
  }

  predicate Between(x: int, a: int, b: int) {
    a <= x <= b || b <= x <= a
  }

  /** The median of three lies between any two of them. */
  lemma MedianOfThree(median: int, values: seq<int>)
    requires |values| == 3 && Median(median, values)
    ensures Between(median, values[0], values[1])
    ensures Between(median, values[0], values[2])
    ensures Between(median, values[1], values[2])
  {
    hide AscendingBy;
    var sorted: seq<int> :| multiset(sorted) == multiset(values) && Ascending(sorted) && median == sorted[|sorted| / 2];
    assert |sorted| == |multiset(sorted)| == |multiset(values)| == 3;
    Middle(sorted);
    ThreeOf(values);
    ThreeOf(sorted);
    TwoOfThree(sorted[0], sorted[1], sorted[2], values[0], values[1], values[2]);
  }

  /** Of an even number of values it is the upper one of the two in the middle. */
  lemma MedianOfTwo(median: int, a: int, b: int)
    requires a <= b && Median(median, [a, b])
    ensures median == b
  {
    var sorted: seq<int> :|
      multiset(sorted) == multiset([a, b]) && Ascending(sorted) && median == sorted[|sorted| / 2];
    assert |sorted| == |multiset(sorted)| == |multiset([a, b])| == 2;
    assert sorted == [sorted[0], sorted[1]];
    assert multiset{sorted[0], sorted[1]} == multiset{a, b};
    assert Itself(sorted[0]) <= Itself(sorted[1]);
  }

  lemma Middle(sorted: seq<int>)
    requires |sorted| == 3 && Ascending(sorted)
    ensures sorted[0] <= sorted[1] <= sorted[2]
  {
  }

  lemma ThreeOf(s: seq<int>)
    requires |s| == 3
    ensures multiset(s) == multiset{s[0], s[1], s[2]}
  {
    assert s == [s[0], s[1], s[2]];
  }

  lemma TwoOfThree(x: int, y: int, z: int, a: int, b: int, c: int)
    requires x <= y <= z && multiset{x, y, z} == multiset{a, b, c}
    ensures Between(y, a, b) && Between(y, a, c) && Between(y, b, c)
  {
  }

  /** Two quick samples leave two quick ones among those kept. */
  lemma SecondIsQuick(sorted: seq<NodeTime>, samples: seq<NodeTime>, i: nat, j: nat, bound: int)
    requires multiset(sorted) == multiset(samples) && ByRoundTrip(sorted)
    requires i < j < |samples| && samples[i].RoundTrip() <= bound && samples[j].RoundTrip() <= bound
    ensures |sorted| == |samples| && sorted[0].RoundTrip() <= sorted[1].RoundTrip() <= bound
  {
    var a, b := samples[i], samples[j];
    assert |sorted| == |multiset(sorted)| == |multiset(samples)| == |samples|;
    BothAreIn(samples, i, j);
    OneIsLeft(a, b, sorted);
    var k :| 1 <= k < |sorted| && (sorted[k] == a || sorted[k] == b);
    assert RoundTripOf(sorted[0]) <= RoundTripOf(sorted[1]);
    assert k > 1 ==> RoundTripOf(sorted[1]) <= RoundTripOf(sorted[k]);
  }

  lemma BothAreIn(samples: seq<NodeTime>, i: nat, j: nat)
    requires i < j < |samples|
    ensures multiset{samples[i], samples[j]} <= multiset(samples)
  {
    assert samples == samples[..j] + [samples[j]] + samples[j + 1..];
    assert samples[i] in samples[..j];
  }

  lemma OneIsLeft(a: NodeTime, b: NodeTime, sorted: seq<NodeTime>)
    requires multiset{a, b} <= multiset(sorted)
    ensures exists k :: 1 <= k < |sorted| && (sorted[k] == a || sorted[k] == b)
  {
    assert a in multiset{a, b};
    assert a in sorted;
    var rest := sorted[1..];
    assert sorted == [sorted[0]] + rest;
    assert multiset(sorted) == multiset{sorted[0]} + multiset(rest);
    assert multiset{a, b}[a] >= 1 && multiset{a, b}[b] >= 1 && (a == b ==> multiset{a, b}[a] == 2);
    assert a in rest || b in rest;
    var c: NodeTime := if a in rest then a else b;
    var k :| 0 <= k < |rest| && rest[k] == c;
    assert sorted[k + 1] == c;
  }

  lemma BetweenIsClose(median: int, a: int, b: int, truth: int, roundTrip: int, masterRoundTrip: int)
    requires Between(median, a, b)
    requires Close(a, truth, roundTrip, masterRoundTrip) && Close(b, truth, roundTrip, masterRoundTrip)
    ensures Close(median, truth, roundTrip, masterRoundTrip)
  {
  }

  /** Any two samples of the five, however bad the others are, bound the error of the offset settled on: the
      second-shortest round trip is what counts. */
  lemma SettledIsClose(offset: int, samples: seq<NodeTime>, lead: int, i: nat, j: nat, bound: int,
                       masterTimestamp: int, masterTime: int, masterRoundTrip: int, masterLead: int)
    requires |samples| == SAMPLES_PER_NODE && Settled(offset, samples, masterTimestamp, masterTime)
    requires forall s | s in samples :: Taken(s, lead)
    requires MasterTaken(masterTimestamp, masterTime, masterRoundTrip, masterLead)
    requires i < j < |samples| && samples[i].RoundTrip() <= bound && samples[j].RoundTrip() <= bound
    ensures Close(offset, masterLead - lead, bound, masterRoundTrip)
  {
    var kept :| Best(kept, samples) && Median(offset, OffsetsOf(kept, masterTimestamp, masterTime));
    var sorted: seq<NodeTime> :| multiset(sorted) == multiset(samples) && ByRoundTrip(sorted)
                  && kept == if |sorted| > SAMPLES_KEPT then sorted[..SAMPLES_KEPT] else sorted;
    SecondIsQuick(sorted, samples, i, j, bound);
    forall k | 0 <= k < 2
      ensures Close(OffsetOf(sorted[k], masterTimestamp, masterTime), masterLead - lead, bound, masterRoundTrip)
    {
      assert sorted[k] in multiset(sorted);
      SampleIsClose(sorted[k], lead, masterTimestamp, masterTime, masterRoundTrip, masterLead);
      var s: NodeTime := sorted[k];
      WiderIsWeaker(OffsetOf(s, masterTimestamp, masterTime), masterLead - lead, s.RoundTrip(), bound, masterRoundTrip);
    }
    var offsets := OffsetsOf(kept, masterTimestamp, masterTime);
    MedianOfThree(offset, offsets);
    BetweenIsClose(offset, offsets[0], offsets[1], masterLead - lead, bound, masterRoundTrip);
  }

  /** Two events far enough apart on the master's time line stay in order after adjustment, whichever nodes
      stamped them. The master's round trip counts only once. */
  lemma AdjustedKeepsOrder(first: int, second: int, firstLead: int, secondLead: int, masterLead: int,
                           firstOffset: int, secondOffset: int, firstBound: int, secondBound: int, masterRoundTrip: int)
    requires Close(firstOffset, masterLead - firstLead, firstBound, masterRoundTrip)
    requires Close(secondOffset, masterLead - secondLead, secondBound, masterRoundTrip)
    requires second - first > Half(firstBound) + (secondBound - Half(secondBound)) + masterRoundTrip
    ensures (first + firstLead) + firstOffset < (second + secondLead) + secondOffset
  {
  }
}
