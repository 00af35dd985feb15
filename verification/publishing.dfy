/** Publishing market data: the events it schedules, and when they keep the order of the event queue
    (engine/src/exchange.cpp:495-535). */
module Publishing {
  import opened Arithmetic
  import opened EventQueue
  import opened EventRuns
  import opened Latency

  /** The latency model of an exchange, at its latest congestion level, if it has one; without one, nothing is
      delayed. */
  datatype Model = NoModel | Model(base: int, jitter: int, level: real)

  /** The base latency is divided by. */
  predicate Usable(m: Model) {
    m.Model? ==> m.base != 0
  }

  function Delay(m: Model, draw: real): int
    requires Usable(m)
  {
    if m.Model? then MarketDataLatency(m.base, m.jitter, Congestion(m.level), draw) else 0
  }

  predicate AllDrawn(draws: seq<real>) {
    forall d | d in draws :: Drawn(d)
  }

  /** One event for each subscribed actor, each with a draw of its own. */
  function Published(m: Model, draws: seq<real>): seq<Request>
    requires Usable(m)
  {
    if draws == [] then [] else [Request(Delay(m, draws[0]), MarketData)] + Published(m, draws[1..])
  }

  lemma {:induction false} PublishedRequests(m: Model, draws: seq<real>)
    requires Usable(m)
    ensures forall r | r in Published(m, draws) :: r.kind == MarketData
    ensures NoneLate(Published(m, draws)) <==> forall d | d in draws :: Delay(m, d) >= 0
  {
    if draws != [] {
      PublishedRequests(m, draws[1..]);
      assert forall d :: d in draws <==> d == draws[0] || d in draws[1..];
      var r := Published(m, draws);
      assert forall x :: x in r <==> x == r[0] || x in Published(m, draws[1..]);
    }
  }

  lemma {:induction false} PublishedAt(m: Model, draws: seq<real>)
    requires Usable(m)
    ensures var r := Published(m, draws);
      |r| == |draws| && forall i | 0 <= i < |draws| :: r[i] == Request(Delay(m, draws[i]), MarketData)
  {
    hide Delay;
    if draws != [] {
      PublishedAt(m, draws[1..]);
      assert Published(m, draws)[1..] == Published(m, draws[1..]);
    }
  }

  /** Publishing adds one market data event for each subscriber, due after half the latency of an order on that
      subscriber's draw, which is half the base latency without jitter and congestion, or at once without a model. */
  lemma PublishingSchedules(m: Model, h: Handler, draws: seq<real>, s: State) returns (events: seq<Event>)
    requires Usable(m) && s.queue != [] && h(s.trace + [s.queue[0]]) == Published(m, draws)
    ensures |events| == |draws| && Joined(Step(h, s).queue, s.queue[1..], events)
    ensures forall i | 0 <= i < |draws| ::
      && events[i].id == s.nextId + i && events[i].kind == MarketData
      && events[i].timestamp == Step(h, s).clock
           + if m.NoModel? then 0 else Half(OrderLatency(m.base, m.jitter, Congestion(m.level), draws[i]))
    ensures m.Model? && m.jitter == 0 && m.level <= 1.0 ==>
      forall i | 0 <= i < |draws| :: events[i].timestamp == Step(h, s).clock + Half(m.base)
  {
    events := Events(Step(h, s).clock, s.nextId, Published(m, draws));
    PublishedAt(m, draws);
    hide Joined, Events, OrderLatency, Step;
    StepSchedules(h, s);
    if m.Model? && m.jitter == 0 && m.level <= 1.0 {
      forall i | 0 <= i < |draws| ensures events[i].timestamp == Step(h, s).clock + Half(m.base) {
        LatencyWithoutJitter(m.base, draws[i]);
      }
    }
  }

  /** The model never sends an event into the past. */
  predicate Punctual(m: Model) {
    m.Model? ==> StaysAbove(m.base as real, m.jitter as real, Congestion(m.level), 2.0)
  }

  /** What is published is never late, whatever is drawn for whomever, exactly if the model is punctual. */
  lemma PublishedIsPromptIff(m: Model)
    requires Usable(m)
    ensures (forall draws: seq<real> | AllDrawn(draws) :: NoneLate(Published(m, draws))) <==> Punctual(m)
  {
    hide StaysAbove, MarketDataLatency, Drawn;
    match m
    case NoModel =>
      forall draws: seq<real> | AllDrawn(draws) ensures NoneLate(Published(m, draws)) {
        PublishedRequests(m, draws);
      }
    case Model(base, jitter, level) =>
      NeverLateIff(base, jitter, level);
      if Punctual(m) {
        forall draws: seq<real> | AllDrawn(draws) ensures NoneLate(Published(m, draws)) {
          PublishedRequests(m, draws);
        }
      } else {
        var draw :| Drawn(draw) && MarketDataLatency(base, jitter, Congestion(level), draw) < 0;
        PublishedRequests(m, [draw]);
        assert AllDrawn([draw]) && draw in [draw];
      }
  }

  /** What a punctual model publishes is what orders and decisions may schedule. */
  lemma PublishedMayBeScheduled(m: Model, draws: seq<real>, kind: Kind)
    requires Usable(m) && Punctual(m) && AllDrawn(draws)
    ensures MaySchedule(kind, Published(m, draws))
  {
    PublishedIsPromptIff(m);
    PublishedRequests(m, draws);
  }

  /** A handler whose last event publishes market data on these draws keeps the order of events exactly if none of
      them gives a negative delay; so publishing keeps it on all draws exactly if the model is punctual. */
  lemma PublishingKeepsOrderIff(m: Model, h: Handler, draws: seq<real>, s: State)
    requires Usable(m) && Sound(s) && s.queue != [] && h(Popped(s).trace) == Published(m, draws)
    ensures Sound(Step(h, s)) <==> forall d | d in draws :: Delay(m, d) >= 0
    ensures Punctual(m) && AllDrawn(draws) ==> Sound(Step(h, s))
  {
    StepIsSoundIff(h, s);
    PublishedRequests(m, draws);
    hide Sound, Step, Popped;
    if Punctual(m) && AllDrawn(draws) {
      PublishedIsPromptIff(m);
    }
  }

  /** A jitter of 12 ns on a base of 10 ns, at the lowest draw: market data published at 10 ns is due at 9 ns, so it is
      processed out of order and the clock does not follow it back. */
  lemma LatePublishingBreaksTheOrder(h: Handler)
    requires forall t: seq<Event> :: h(t) == Published(Model(10, 12, 0.0), [-1.0])
    ensures AllDrawn([-1.0]) && !Punctual(Model(10, 12, 0.0))
    ensures var s := State(10, [Event(10, 0, OrderArrival)], 1, []);
      Sound(s) && !Ordered(Steps(h, s, 2).trace) && Steps(h, s, 2).clock == 10
  {
    var m := Model(10, 12, 0.0);
    AroundTheBound();
    assert [-1.0][1..] == [];
    assert Published(m, [-1.0]) == [Request(-1, MarketData)];
    LateEventsBreakTheOrder(h, -1, OrderArrival);
    NeverLateIff(10, 12, 0.0);
  }
}
