/** The event queue as a specification machine: what one event does, and what a run of events keeps
    (engine/src/engine.hpp, engine/src/engine.cpp). */
module EventQueue {

  /** What an event will do when its turn comes. */
  datatype Kind = Decision | OrderArrival | MarketData

  datatype Event = Event(timestamp: int, id: nat, kind: Kind)

  /** An event that a handler asks for, so long after the current clock. */
  datatype Request = Request(delay: int, kind: Kind)

  /** The whole world outside the engine: actors and exchanges are driven by the events alone, so what they
      schedule is some function of the events processed so far, the last of which is being processed. */
  type Handler = seq<Event> -> seq<Request>

  predicate Before(a: Event, b: Event) {
    a.timestamp < b.timestamp || (a.timestamp == b.timestamp && a.id < b.id)
  }

  predicate BeforeAll(a: Event, q: seq<Event>) {
    forall e | e in q :: Before(a, e)
  }

  predicate Ordered(q: seq<Event>) {
    q == [] || (BeforeAll(q[0], q[1..]) && Ordered(q[1..]))
  }

  function Insert(q: seq<Event>, e: Event): (r: seq<Event>)
    ensures multiset(r) == multiset(q) + multiset{e}
    ensures |r| == |q| + 1
    ensures forall x :: x in r <==> x in q || x == e
  {
    if q == [] || Before(e, q[0]) then [e] + q
    else
      assert q == [q[0]] + q[1..];
      [q[0]] + Insert(q[1..], e)
  }

  lemma {:induction false} InsertKeepsOrder(q: seq<Event>, e: Event)
    requires Ordered(q) && forall x | x in q :: x.id != e.id
    ensures Ordered(Insert(q, e))
  {
    if q == [] {
    } else if Before(e, q[0]) {
      assert ([e] + q)[1..] == q;
      assert BeforeAll(e, q) by {
        forall x | x in q ensures Before(e, x) {
          assert x == q[0] || x in q[1..];
        }
      }
    } else {
      InsertKeepsOrder(q[1..], e);
      var r := Insert(q[1..], e);
      assert ([q[0]] + r)[1..] == r;
      assert Before(q[0], e);
    }
  }

  // ---- The machine ----

  /** `trace` is every event processed so far. */
  datatype State = State(clock: int, queue: seq<Event>, nextId: nat, trace: seq<Event>)

  function Advanced(clock: int, time: int): int {
    if time > clock then time else clock
  }

  function Schedule(s: State, timestamp: int, kind: Kind): State {
    s.(queue := Insert(s.queue, Event(timestamp, s.nextId, kind)), nextId := s.nextId + 1)
  }

  function ScheduleAll(s: State, requests: seq<Request>): State
    decreases requests
  {
    if requests == [] then s
    else ScheduleAll(Schedule(s, s.clock + requests[0].delay, requests[0].kind), requests[1..])
  }

  /** Taking the next event off the queue: the clock moves first. */
  function Popped(s: State): State
    requires s.queue != []
  {
    State(Advanced(s.clock, s.queue[0].timestamp), s.queue[1..], s.nextId, s.trace + [s.queue[0]])
  }

  /** Processing one event; nothing happens on an empty queue. */
  function Step(h: Handler, s: State): State {
    if s.queue == [] then s
    else
      var popped := Popped(s);
      ScheduleAll(popped, h(popped.trace))
  }

  function Steps(h: Handler, s: State, n: nat): State {
    if n == 0 then s else Step(h, Steps(h, s, n - 1))
  }

  /** The events that requests ask for, under consecutive ids. */
  function Events(clock: int, nextId: nat, requests: seq<Request>): (r: seq<Event>)
    ensures |r| == |requests|
    ensures forall i | 0 <= i < |r| :: r[i] == Event(clock + requests[i].delay, nextId + i, requests[i].kind)
  {
    seq(|requests|, i requires 0 <= i < |requests| => Event(clock + requests[i].delay, nextId + i, requests[i].kind))
  }

  /** A queue is another one with some events more. */
  predicate Joined(after: seq<Event>, before: seq<Event>, events: seq<Event>) {
    multiset(after) == multiset(before) + multiset(events)
  }

  lemma JoinedOneByOne(a: seq<Event>, b: seq<Event>, c: seq<Event>, e: Event, events: seq<Event>)
    requires multiset(b) == multiset(a) + multiset{e} && Joined(c, b, events)
    ensures Joined(c, a, [e] + events)
  {
    assert multiset([e] + events) == multiset{e} + multiset(events);
  }

  /** Exactly the events asked for join the queue, and nothing else changes. */
  lemma {:induction false} SchedulingAllAdds(s: State, requests: seq<Request>)
    ensures var t := ScheduleAll(s, requests);
      && t.clock == s.clock && t.trace == s.trace && t.nextId == s.nextId + |requests|
      && Joined(t.queue, s.queue, Events(s.clock, s.nextId, requests))
    decreases requests
  {
    hide Insert, Joined;
    if requests == [] {
      NoneJoined(s.queue);
      assert Events(s.clock, s.nextId, requests) == [];
    } else {
      hide Events;
      var next := Schedule(s, s.clock + requests[0].delay, requests[0].kind);
      SchedulingAllAdds(next, requests[1..]);
      var first := Event(s.clock + requests[0].delay, s.nextId, requests[0].kind);
      var rest := Events(next.clock, next.nextId, requests[1..]);
      assert Events(s.clock, s.nextId, requests) == [first] + rest;
      JoinedOneByOne(s.queue, next.queue, ScheduleAll(next, requests[1..]).queue, first, rest);
    }
  }

  lemma NoneJoined(q: seq<Event>)
    ensures Joined(q, q, [])
  {
  }

  /** Processing the next event takes it off the queue and adds what its handler asks for, counted from the clock,
      which has moved to the event if that is later. */
  lemma StepSchedules(h: Handler, s: State)
    requires s.queue != []
    ensures var e, t, after := s.queue[0], s.trace + [s.queue[0]], Step(h, s);
      && after.clock == (if e.timestamp > s.clock then e.timestamp else s.clock) && after.trace == t
      && Joined(after.queue, s.queue[1..], Events(after.clock, s.nextId, h(t)))
  {
    hide Joined, Events, ScheduleAll;
    SchedulingAllAdds(Popped(s), h(Popped(s).trace));
  }

  // ---- Order and the clock ----

  /** The trace in order, the queue in order behind it, and the clock at the last event processed. */
  ghost predicate Sound(s: State) {
    && Ordered(s.queue)
    && Ordered(s.trace)
    && (s.trace != [] ==> s.clock == s.trace[|s.trace| - 1].timestamp && BeforeAll(s.trace[|s.trace| - 1], s.queue))
    && (forall e | e in s.queue :: s.clock <= e.timestamp)
    && (forall e | e in s.queue || e in s.trace :: e.id < s.nextId)
  }

  lemma SchedulingKeepsSound(s: State, timestamp: int, kind: Kind)
    requires Sound(s) && timestamp >= s.clock
    ensures Sound(Schedule(s, timestamp, kind))
  {
    InsertKeepsOrder(s.queue, Event(timestamp, s.nextId, kind));
  }

  predicate NoneLate(requests: seq<Request>) {
    forall r | r in requests :: r.delay >= 0
  }

  lemma {:induction false} SchedulingAllKeepsSound(s: State, requests: seq<Request>)
    requires Sound(s) && NoneLate(requests)
    ensures var t := ScheduleAll(s, requests); Sound(t) && t.clock == s.clock && t.trace == s.trace
    decreases requests
  {
    hide Ordered, Insert;
    if requests != [] {
      SchedulingKeepsSound(s, s.clock + requests[0].delay, requests[0].kind);
      SchedulingAllKeepsSound(Schedule(s, s.clock + requests[0].delay, requests[0].kind), requests[1..]);
    }
  }

  lemma {:induction false} OrderedAppend(q: seq<Event>, e: Event)
    requires Ordered(q) && (q != [] ==> Before(q[|q| - 1], e))
    ensures Ordered(q + [e])
    ensures forall x | x in q :: Before(x, e)
  {
    if q != [] {
      OrderedAppend(q[1..], e);
      assert (q + [e])[1..] == q[1..] + [e];
      if |q| > 1 {
        assert q[1] in q[1..];
      }
    }
  }

  lemma PoppingKeepsSound(s: State)
    requires Sound(s) && s.queue != []
    ensures Sound(Popped(s)) && s.clock <= Popped(s).clock == s.queue[0].timestamp
  {
    OrderedAppend(s.trace, s.queue[0]);
    forall e | e in s.queue[1..] ensures e in s.queue && Before(s.queue[0], e) {
    }
  }

  /** No handler schedules into the past: the delays of this system are latencies and decision pauses. */
  ghost predicate Prompt(h: Handler) {
    forall t: seq<Event> :: NoneLate(h(t))
  }

  lemma StepKeepsSound(h: Handler, s: State)
    requires Prompt(h) && Sound(s)
    ensures Sound(Step(h, s)) && s.clock <= Step(h, s).clock
    ensures s.queue != [] ==> Step(h, s).trace == s.trace + [s.queue[0]]
  {
    if s.queue != [] {
      PoppingKeepsSound(s);
      SchedulingAllKeepsSound(Popped(s), h(Popped(s).trace));
    }
  }

  lemma {:induction false} ScheduledIsPending(s: State, requests: seq<Request>, i: nat)
    requires i < |requests|
    ensures exists e :: e in ScheduleAll(s, requests).queue && e.timestamp == s.clock + requests[i].delay
    ensures ScheduleAll(s, requests).clock == s.clock
    decreases requests
  {
    hide Insert;
    var next := Schedule(s, s.clock + requests[0].delay, requests[0].kind);
    assert ScheduleAll(s, requests) == ScheduleAll(next, requests[1..]);
    hide ScheduleAll;
    if i > 0 {
      ScheduledIsPending(next, requests[1..], i - 1);
    } else {
      SchedulingAllKeepsPending(next, requests[1..], Event(s.clock + requests[0].delay, s.nextId, requests[0].kind));
    }
  }

  lemma {:induction false} SchedulingAllKeepsPending(s: State, requests: seq<Request>, e: Event)
    requires e in s.queue
    ensures e in ScheduleAll(s, requests).queue && ScheduleAll(s, requests).clock == s.clock
    decreases requests
  {
    if requests != [] {
      SchedulingAllKeepsPending(Schedule(s, s.clock + requests[0].delay, requests[0].kind), requests[1..], e);
    }
  }

  /** One event keeps the order exactly when its handler schedules nothing before the current clock. */
  lemma StepIsSoundIff(h: Handler, s: State)
    requires Sound(s) && s.queue != []
    ensures Sound(Step(h, s)) <==> NoneLate(h(Popped(s).trace))
  {
    PoppingKeepsSound(s);
    var requests := h(Popped(s).trace);
    if NoneLate(requests) {
      SchedulingAllKeepsSound(Popped(s), requests);
    } else {
      var r :| r in requests && r.delay < 0;
      var i :| 0 <= i < |requests| && requests[i] == r;
      ScheduledIsPending(Popped(s), requests, i);
    }
  }

  /** Over any run the trace stays strictly increasing in (timestamp, id), the clock never goes back and stands
      at the last event processed, and no event is pending in the past. */
  lemma {:induction false} RunKeepsSound(h: Handler, s: State, n: nat)
    requires Prompt(h) && Sound(s)
    ensures Sound(Steps(h, s, n)) && s.clock <= Steps(h, s, n).clock
    ensures s.trace <= Steps(h, s, n).trace
    ensures |Steps(h, s, n).trace| <= |s.trace| + n
  {
    if n > 0 {
      RunKeepsSound(h, s, n - 1);
      StepKeepsSound(h, Steps(h, s, n - 1));
    }
  }

  lemma {:induction false} OrderedMeans(q: seq<Event>, i: nat, j: nat)
    requires Ordered(q) && i < j < |q|
    ensures Before(q[i], q[j])
  {
    if i == 0 {
      assert q[j] in q[1..];
    } else {
      OrderedMeans(q[1..], i - 1, j - 1);
    }
  }

  /** Events for the same time are processed in the order they were constructed. */
  lemma TiesAreFirstComeFirstServed(h: Handler, s: State, n: nat, i: nat, j: nat)
    requires Prompt(h) && Sound(s)
    requires i < j < |Steps(h, s, n).trace|
    ensures var t := Steps(h, s, n).trace;
      t[i].timestamp <= t[j].timestamp && (t[i].timestamp == t[j].timestamp ==> t[i].id < t[j].id)
  {
    RunKeepsSound(h, s, n);
    OrderedMeans(Steps(h, s, n).trace, i, j);
  }

  /** Without `Prompt` the order is lost: an event scheduled into the past is processed after a later one,
      and the clock does not follow it back. */
  lemma LateEventsBreakTheOrder(h: Handler, delay: int, kind: Kind)
    requires delay < 0 && forall t: seq<Event> :: h(t) == [Request(delay, MarketData)]
    ensures var s := State(10, [Event(10, 0, kind)], 1, []);
      Sound(s) && !Ordered(Steps(h, s, 2).trace) && Steps(h, s, 2).clock == 10
  {
    hide ScheduleAll, Schedule, Insert;
    var s := State(10, [Event(10, 0, kind)], 1, []);
    var first, second := Event(10, 0, kind), Event(10 + delay, 1, MarketData);
    assert Ordered(s.queue[1..]) && Ordered(s.queue);
    var one := Step(h, s);
    assert Popped(s) == State(10, [], 1, [first]);
    ScheduleOne(Popped(s), Request(delay, MarketData));
    assert one == State(10, [second], 2, [first]);
    assert Steps(h, s, 1) == Step(h, Steps(h, s, 0)) == one;
    assert Popped(one) == State(10, [], 2, [first, second]);
    ScheduleOne(Popped(one), Request(delay, MarketData));
    var two := Step(h, one);
    assert Steps(h, s, 2) == Step(h, Steps(h, s, 1)) == two;
    assert two.trace == [first, second] && two.clock == 10;
    assert second in [first, second][1..] && !Before(first, second);
  }

  lemma ScheduleOne(s: State, r: Request)
    requires s.queue == []
    ensures ScheduleAll(s, [r]) == s.(queue := [Event(s.clock + r.delay, s.nextId, r.kind)], nextId := s.nextId + 1)
  {
    assert [r][1..] == [];
    assert ScheduleAll(s, [r]) == Schedule(s, s.clock + r.delay, r.kind);
  }

  // ---- Nothing is lost ----

  function Known(s: State): multiset<Event> {
    multiset(s.trace) + multiset(s.queue)
  }

  ghost predicate Named(known: multiset<Event>, id: nat) {
    exists e | e in known :: known[e] == 1 && e.id == id
  }

  /** The ids from `base` up to the next one name exactly the events that exist, each processed once or pending once. */
  ghost predicate Accounted(s: State, base: nat) {
    && base <= s.nextId
    && |s.trace| + |s.queue| == s.nextId - base
    && forall i: nat | base <= i < s.nextId :: Named(Known(s), i)
  }

  lemma SchedulingAccounts(s: State, timestamp: int, kind: Kind, base: nat)
    requires Accounted(s, base) && forall e | e in s.queue || e in s.trace :: e.id < s.nextId
    ensures Accounted(Schedule(s, timestamp, kind), base)
    ensures var t := Schedule(s, timestamp, kind); forall e | e in t.queue || e in t.trace :: e.id < t.nextId
  {
    var t, added := Schedule(s, timestamp, kind), Event(timestamp, s.nextId, kind);
    assert added !in Known(s);
    assert Known(t) == Known(s) + multiset{added};
    forall i: nat | base <= i < t.nextId ensures Named(Known(t), i) {
      if i == s.nextId {
        assert Known(t)[added] == 1;
      } else {
        assert Named(Known(s), i);
        var e :| e in Known(s) && Known(s)[e] == 1 && e.id == i;
        assert Known(t)[e] == 1;
      }
    }
  }

  lemma {:induction false} SchedulingAllAccounts(s: State, requests: seq<Request>, base: nat)
    requires Accounted(s, base) && forall e | e in s.queue || e in s.trace :: e.id < s.nextId
    ensures Accounted(ScheduleAll(s, requests), base)
    decreases requests
  {
    if requests != [] {
      SchedulingAccounts(s, s.clock + requests[0].delay, requests[0].kind, base);
      SchedulingAllAccounts(Schedule(s, s.clock + requests[0].delay, requests[0].kind), requests[1..], base);
    }
  }

  lemma StepAccounts(h: Handler, s: State, base: nat)
    requires Sound(s) && Accounted(s, base)
    ensures Accounted(Step(h, s), base)
  {
    hide Ordered, Accounted, ScheduleAll;
    if s.queue != [] {
      PoppingAccounts(s, base);
      PoppingKeepsSound(s);
      SchedulingAllAccounts(Popped(s), h(Popped(s).trace), base);
    }
  }

  /** Over any run every event ever constructed is processed exactly once or still pending exactly once. */
  lemma {:induction false} NothingIsLost(h: Handler, s: State, n: nat, base: nat)
    requires Prompt(h) && Sound(s) && Accounted(s, base)
    ensures Accounted(Steps(h, s, n), base)
  {
    if n > 0 {
      NothingIsLost(h, s, n - 1, base);
      RunKeepsSound(h, s, n - 1);
      StepAccounts(h, Steps(h, s, n - 1), base);
    }
  }

  lemma PoppingAccounts(s: State, base: nat)
    requires s.queue != [] && Accounted(s, base)
    ensures Accounted(Popped(s), base)
  {
    assert s.queue == [s.queue[0]] + s.queue[1..];
    assert Known(Popped(s)) == Known(s);
  }
}
