/** Why a run stops: the pauses between decisions bound how much work is left
    (engine/src/engine.cpp, engine/src/actor.cpp, engine/src/exchange.cpp). */
module EventRuns {
  import opened EventQueue

  // ---- What handlers schedule ----

  /** The pauses of the two actors that reschedule themselves, in nanoseconds, for a draw from their range. */
  function MarketMakerPause(draw: real): int {
    (draw * 1000000000.0).Floor
  }

  function TrendFollowerPause(draw: real): int {
    (draw * 5000000000.0).Floor
  }

  /** The shortest pause any draw gives. */
  const SHORTEST_PAUSE: nat := 800000000

  lemma PausesAreLong(draw: real)
    ensures draw * 1000000000.0 - 1.0 < MarketMakerPause(draw) as real <= draw * 1000000000.0
    ensures draw * 5000000000.0 - 1.0 < TrendFollowerPause(draw) as real <= draw * 5000000000.0
    ensures 0.8 <= draw < 1.2 ==> SHORTEST_PAUSE <= MarketMakerPause(draw) < 1200000000
    ensures 0.9 <= draw < 1.1 ==> SHORTEST_PAUSE < 4500000000 <= TrendFollowerPause(draw) < 5500000000
  {
    AtLeast(draw * 1000000000.0, 800000000);
    AtLeast(draw * 5000000000.0, 4500000000);
  }

  lemma AtLeast(x: real, n: int)
    ensures x >= n as real ==> x.Floor >= n
  {
  }

  function Count(requests: seq<Request>, kind: Kind): nat {
    if requests == [] then 0 else (if requests[0].kind == kind then 1 else 0) + Count(requests[1..], kind)
  }

  predicate PausedBy(requests: seq<Request>, gap: nat) {
    forall r | r in requests && r.kind == Decision :: r.delay >= gap
  }

  /** A decision schedules at most one more decision, at least `gap` later; an order arriving at an exchange
      only publishes market data; market data only updates what actors have observed. */
  predicate Permitted(kind: Kind, requests: seq<Request>, gap: nat) {
    && NoneLate(requests)
    && PausedBy(requests, gap)
    && Count(requests, Decision) <= (if kind == Decision then 1 else 0)
    && (kind != Decision ==> Count(requests, OrderArrival) == 0)
    && (kind == MarketData ==> requests == [])
  }

  ghost predicate Thrifty(h: Handler, gap: nat) {
    forall t: seq<Event> :: NoneLate(h(t)) && (t != [] ==> Permitted(t[|t| - 1].kind, h(t), gap))
  }

  // ---- The actors ----

  datatype Trader = MarketMaker | TrendFollower

  /** The uniform distributions exclude their upper ends. */
  predicate InRange(who: Trader, draw: real) {
    match who
    case MarketMaker => 0.8 <= draw < 1.2
    case TrendFollower => 0.9 <= draw < 1.1
  }

  function Pause(who: Trader, draw: real): int {
    match who
    case MarketMaker => MarketMakerPause(draw)
    case TrendFollower => TrendFollowerPause(draw)
  }

  /** Any number of market makers and trend followers: whose decision an event is, what was drawn for the next
      pause, and what else the event schedules, all of which may depend on everything that has happened. */
  datatype Mix = Mix(who: seq<Event> -> Trader, draw: seq<Event> -> real, others: seq<Event> -> seq<Request>)

  /** A decision may send orders and publish market data, an order arriving only publishes market data. */
  predicate MaySchedule(kind: Kind, requests: seq<Request>) {
    NoneLate(requests) && forall r | r in requests ::
        r.kind == MarketData || (kind == Decision && r.kind == OrderArrival)
  }

  ghost predicate LawfulAt(m: Mix, t: seq<Event>) {
    InRange(m.who(t), m.draw(t)) && (t != [] ==> MaySchedule(t[|t| - 1].kind, m.others(t)))
  }

  ghost predicate Lawful(m: Mix) {
    forall t: seq<Event> :: LawfulAt(m, t)
  }

  /** What the last event of a history schedules: a decision ends by scheduling the actor's next one. */
  function Response(m: Mix, t: seq<Event>): seq<Request> {
    if t == [] then []
    else match t[|t| - 1].kind
      case Decision => m.others(t) + [Request(Pause(m.who(t), m.draw(t)), Decision)]
      case OrderArrival => m.others(t)
      case MarketData => []
  }

  function Respond(m: Mix): Handler {
    (t: seq<Event>) => Response(m, t)
  }

  lemma {:induction false} NotCounted(requests: seq<Request>, kind: Kind)
    requires forall r | r in requests :: r.kind != kind
    ensures Count(requests, kind) == 0
  {
    if requests != [] {
      assert requests[0] in requests;
      NotCounted(requests[1..], kind);
    }
  }

  lemma {:induction false} CountConcat(a: seq<Request>, b: seq<Request>, kind: Kind)
    ensures Count(a + b, kind) == Count(a, kind) + Count(b, kind)
  {
    if a == [] {
      assert a + b == b;
    } else {
      assert (a + b)[1..] == a[1..] + b;
      CountConcat(a[1..], b, kind);
    }
  }

  lemma ResponseIsPermitted(m: Mix, t: seq<Event>)
    requires Lawful(m) && t != []
    ensures Permitted(t[|t| - 1].kind, Response(m, t), SHORTEST_PAUSE)
  {
    var kind, others := t[|t| - 1].kind, m.others(t);
    assert LawfulAt(m, t);
    NotCounted(others, Decision);
    match kind
    case Decision =>
      PausesAreLong(m.draw(t));
      var next := [Request(Pause(m.who(t), m.draw(t)), Decision)];
      CountConcat(others, next, Decision);
      assert next[1..] == [];
    case OrderArrival =>
      NotCounted(others, OrderArrival);
    case MarketData =>
  }

  /** Market makers and trend followers, in any mix and on any draws, keep to the rules. */
  lemma MixIsThrifty(m: Mix)
    requires Lawful(m)
    ensures Thrifty(Respond(m), SHORTEST_PAUSE)
  {
    hide Permitted, Response, Lawful;
    forall t: seq<Event>
      ensures NoneLate(Respond(m)(t)) && (t != [] ==> Permitted(t[|t| - 1].kind, Respond(m)(t), SHORTEST_PAUSE))
    {
      if t == [] {
        NothingYet(m);
      } else {
        ResponseIsPermitted(m, t);
        PermittedIsPrompt(t[|t| - 1].kind, Response(m, t), SHORTEST_PAUSE);
      }
    }
  }

  lemma NothingYet(m: Mix)
    ensures Response(m, []) == []
  {
  }

  lemma PermittedIsPrompt(kind: Kind, requests: seq<Request>, gap: nat)
    requires Permitted(kind, requests, gap)
    ensures NoneLate(requests)
  {
  }

  // ---- The work left ----

  /** How many decisions one pending decision can still lead to before `end`, itself included. */
  function Slots(timestamp: int, end: int, gap: nat): nat
    requires gap > 0
  {
    if timestamp >= end then 1 else 2 + (end - timestamp - 1) / gap
  }

  function SlotsOf(e: Event, end: int, gap: nat): nat
    requires gap > 0
  {
    if e.kind == Decision then Slots(e.timestamp, end, gap) else 0
  }

  function Pending(q: seq<Event>, end: int, gap: nat): nat
    requires gap > 0
  {
    if q == [] then 0 else SlotsOf(q[0], end, gap) + Pending(q[1..], end, gap)
  }

  function Waiting(q: seq<Event>, kind: Kind): nat {
    if q == [] then 0 else (if q[0].kind == kind then 1 else 0) + Waiting(q[1..], kind)
  }

  lemma {:induction false} InsertCosts(q: seq<Event>, e: Event, end: int, gap: nat)
    requires gap > 0
    ensures Pending(Insert(q, e), end, gap) == Pending(q, end, gap) + SlotsOf(e, end, gap)
    ensures forall k :: Waiting(Insert(q, e), k) == Waiting(q, k) + if e.kind == k then 1 else 0
  {
    if q == [] || Before(e, q[0]) {
      assert ([e] + q)[1..] == q;
    } else {
      InsertCosts(q[1..], e, end, gap);
      var r := Insert(q[1..], e);
      assert ([q[0]] + r)[1..] == r;
    }
  }

  /** A decision later by at least the gap leaves one slot fewer. */
  lemma LaterIsCheaper(timestamp: int, later: int, end: int, gap: nat)
    requires gap > 0 && timestamp < end && later >= timestamp + gap
    ensures Slots(later, end, gap) < Slots(timestamp, end, gap)
  {
    if later < end {
      var left, rest := end - later - 1, end - timestamp - 1;
      QuotientGrows(left, rest, gap);
    }
  }

  lemma QuotientGrows(x: nat, y: nat, gap: nat)
    requires gap > 0 && x + gap <= y
    ensures x / gap + 1 <= y / gap
  {
    var p, q := x / gap, y / gap;
    assert gap * p <= x && y < gap * (q + 1);
    Cancel(gap, p + 1, q + 1);
  }

  lemma Cancel(gap: nat, p: int, q: int)
    requires gap * p < gap * q
    ensures p < q
  {
  }

  function Budget(decisions: nat, most: nat): nat {
    decisions * most
  }

  lemma {:induction false} WaitingGrows(s: State, requests: seq<Request>, kind: Kind)
    ensures Waiting(ScheduleAll(s, requests).queue, kind) == Waiting(s.queue, kind) + Count(requests, kind)
    decreases requests
  {
    hide Insert, Slots, Pending, Waiting;
    if requests != [] {
      InsertCosts(s.queue, Event(s.clock + requests[0].delay, s.nextId, requests[0].kind), 0, 1);
      WaitingGrows(Schedule(s, s.clock + requests[0].delay, requests[0].kind), requests[1..], kind);
    }
  }

  /** `most` is what a rescheduled decision may cost. */
  lemma {:induction false} SchedulingCosts(s: State, requests: seq<Request>, end: int, gap: nat, most: nat)
    requires gap > 0
    requires forall r | r in requests && r.kind == Decision :: Slots(s.clock + r.delay, end, gap) <= most
    ensures Pending(ScheduleAll(s, requests).queue, end, gap)
         <= Pending(s.queue, end, gap) + Budget(Count(requests, Decision), most)
    decreases requests
  {
    hide Budget, Insert, Slots, Pending, Waiting;
    AddsUp(0, most);
    if requests != [] {
      var r := requests[0];
      var e := Event(s.clock + r.delay, s.nextId, r.kind);
      InsertCosts(s.queue, e, end, gap);
      SchedulingCosts(Schedule(s, s.clock + r.delay, r.kind), requests[1..], end, gap, most);
      assert SlotsOf(e, end, gap) <= if r.kind == Decision then most else 0;
      AddsUp(Count(requests[1..], Decision), most);
    }
  }

  lemma AddsUp(n: nat, most: nat)
    ensures Budget(n + 1, most) == Budget(n, most) + most && Budget(0, most) == 0
  {
  }

  /** Work left is compared decisions first, then orders, then market data. */
  predicate Less(a: State, b: State, end: int, gap: nat)
    requires gap > 0
  {
    var (da, db) := (Pending(a.queue, end, gap), Pending(b.queue, end, gap));
    var (oa, ob) := (Waiting(a.queue, OrderArrival), Waiting(b.queue, OrderArrival));
    da < db || (da == db && (oa < ob || (oa == ob && Waiting(a.queue, MarketData) < Waiting(b.queue, MarketData))))
  }

  /** Every event processed before `end` leaves less work than it found. */
  lemma StepLeavesLess(h: Handler, s: State, end: int, gap: nat)
    requires gap > 0 && Thrifty(h, gap) && Sound(s)
    requires s.queue != [] && s.queue[0].timestamp < end
    ensures Less(Step(h, s), s, end, gap)
  {
    var e, popped := s.queue[0], Popped(s);
    var requests := h(popped.trace);
    assert popped.trace[|popped.trace| - 1] == e;
    assert Permitted(e.kind, requests, gap);
    assert popped.clock == e.timestamp by {
      PoppingKeepsSound(s);
    }
    hide Thrifty, Sound, Ordered;
    ScheduledIsLess(e, popped, requests, end, gap);
    hide Permitted, Slots, ScheduleAll;
    assert s.queue == [e] + popped.queue;
  }

  /** What a permitted response schedules weighs less than the event it responds to. */
  lemma ScheduledIsLess(e: Event, popped: State, requests: seq<Request>, end: int, gap: nat)
    requires gap > 0 && e.timestamp == popped.clock < end && Permitted(e.kind, requests, gap)
    ensures var t := ScheduleAll(popped, requests).queue;
      var d, o, m := Pending(t, end, gap), Waiting(t, OrderArrival), Waiting(t, MarketData);
      var q := popped.queue;
      match e.kind
      case Decision => d < SlotsOf(e, end, gap) + Pending(q, end, gap)
      case OrderArrival => d <= Pending(q, end, gap) && o == Waiting(q, OrderArrival)
      case MarketData => d <= Pending(q, end, gap) && o == Waiting(q, OrderArrival) && m == Waiting(q, MarketData)
  {
    var most: nat := if e.kind == Decision then Slots(e.timestamp, end, gap) - 1 else 0;
    hide Slots, Budget, Pending, Waiting, ScheduleAll;
    NoDecision(requests);
    forall r | r in requests && r.kind == Decision ensures Slots(popped.clock + r.delay, end, gap) <= most {
      LaterIsCheaper(e.timestamp, popped.clock + r.delay, end, gap);
    }
    SchedulingCosts(popped, requests, end, gap, most);
    WaitingGrows(popped, requests, OrderArrival);
    WaitingGrows(popped, requests, MarketData);
    AtMostOnce(Count(requests, Decision), most);
  }

  lemma AtMostOnce(n: nat, most: nat)
    requires n <= 1
    ensures Budget(n, most) <= most
  {
  }

  lemma {:induction false} NoDecision(requests: seq<Request>)
    ensures Count(requests, Decision) == 0 ==> forall r | r in requests :: r.kind != Decision
  {
    if requests != [] {
      NoDecision(requests[1..]);
    }
  }

  // ---- Stopping ----

  /** `run_until` from `s` processes exactly `n` events: it looks at the clock only after an event. */
  ghost predicate StopsAfter(h: Handler, s: State, end: int, n: nat) {
    && (forall k: nat | k < n :: Steps(h, s, k).queue != [])
    && (forall k: nat | 0 < k < n :: Steps(h, s, k).clock < end)
    && (Steps(h, s, n).queue == [] || (n > 0 && Steps(h, s, n).clock >= end))
  }

  lemma {:induction false} StepsAdd(h: Handler, s: State, n: nat)
    ensures Steps(h, Step(h, s), n) == Steps(h, s, n + 1)
  {
    if n > 0 {
      StepsAdd(h, s, n - 1);
    }
  }

  /** Whatever the actors do within their rules, a run reaches its end: there is a number of events after which
      it stops. */
  lemma {:induction false} RunTerminates(h: Handler, s: State, end: int, gap: nat) returns (n: nat)
    requires gap > 0 && Thrifty(h, gap) && Sound(s)
    ensures StopsAfter(h, s, end, n)
    decreases Pending(s.queue, end, gap), Waiting(s.queue, OrderArrival), Waiting(s.queue, MarketData)
  {
    hide Sound, Ordered, Permitted, Pending, Waiting, ScheduleAll;
    if s.queue == [] {
      n := 0;
    } else if Step(h, s).clock >= end {
      n := 1;
      StepsAdd(h, s, 0);
    } else {
      StepKeepsSound(h, s);
      ClockReaches(h, s);
      StepLeavesLess(h, s, end, gap);
      var m := RunTerminates(h, Step(h, s), end, gap);
      n := m + 1;
      ShiftedStop(h, s, end, m);
    }
  }

  /** So every run of market makers and trend followers stops, and not before its end while anyone still decides. */
  lemma MixRunTerminates(m: Mix, s: State, end: int) returns (n: nat)
    requires Lawful(m) && Sound(s)
    ensures StopsAfter(Respond(m), s, end, n)
    ensures Waiting(s.queue, Decision) > 0 ==> n > 0 && Steps(Respond(m), s, n).clock >= end
  {
    MixIsThrifty(m);
    n := RunTerminates(Respond(m), s, end, SHORTEST_PAUSE);
    DecisionsStay(m, s, n);
    hide Steps, Sound, Lawful, Thrifty;
    if Waiting(s.queue, Decision) > 0 {
      assert Steps(Respond(m), s, n).queue != [];
    }
  }

  // ---- What the actors keep doing ----

  /** The decision that follows one made at `clock`. */
  function NextDecision(m: Mix, t: seq<Event>, clock: int, nextId: nat): Event {
    var pause := if m.who(t) == MarketMaker then MarketMakerPause(m.draw(t)) else TrendFollowerPause(m.draw(t));
    Event(clock + pause, nextId + |m.others(t)|, Decision)
  }

  /** What processing one event adds to the queue: a decision adds what else it asks for and the actor's next decision,
      a pause later; an order arriving adds what it asks for; market data adds nothing. */
  lemma RespondingSchedules(m: Mix, s: State)
    requires s.queue != []
    ensures var e, t, after := s.queue[0], s.trace + [s.queue[0]], Step(Respond(m), s);
      var asked := Events(after.clock, s.nextId, m.others(t));
      && after.clock == (if e.timestamp > s.clock then e.timestamp else s.clock)
      && match e.kind
         case Decision => Joined(after.queue, s.queue[1..], asked + [NextDecision(m, t, after.clock, s.nextId)])
         case OrderArrival => Joined(after.queue, s.queue[1..], asked)
         case MarketData => Joined(after.queue, s.queue[1..], [])
  {
    hide Joined, Step, Events;
    StepSchedules(Respond(m), s);
    var t, clock := s.trace + [s.queue[0]], Step(Respond(m), s).clock;
    if s.queue[0].kind == Decision {
      var all := Events(clock, s.nextId, Response(m, t));
      assert all == Events(clock, s.nextId, m.others(t)) + [all[|m.others(t)|]];
    } else if s.queue[0].kind == MarketData {
      assert Events(clock, s.nextId, []) == [];
    }
  }

  lemma OneDecisionForAnother(m: Mix, t: seq<Event>)
    requires Lawful(m) && t != []
    ensures Count(Response(m, t), Decision) == if t[|t| - 1].kind == Decision then 1 else 0
  {
    var others := m.others(t);
    assert LawfulAt(m, t);
    NotCounted(others, Decision);
    if t[|t| - 1].kind == Decision {
      var next := [Request(Pause(m.who(t), m.draw(t)), Decision)];
      CountConcat(others, next, Decision);
      assert next[1..] == [];
    }
  }

  /** Nobody stops deciding: over any run as many decisions are pending as at its start. */
  lemma {:induction false} DecisionsStay(m: Mix, s: State, n: nat)
    requires Lawful(m)
    ensures Waiting(Steps(Respond(m), s, n).queue, Decision) == Waiting(s.queue, Decision)
  {
    if n > 0 {
      DecisionsStay(m, s, n - 1);
      hide Step, Waiting, Lawful;
      if Steps(Respond(m), s, n - 1).queue != [] {
        OneDecisionStays(m, Steps(Respond(m), s, n - 1));
      }
    }
  }

  lemma OneDecisionStays(m: Mix, s: State)
    requires Lawful(m) && s.queue != []
    ensures Waiting(Step(Respond(m), s).queue, Decision) == Waiting(s.queue, Decision)
  {
    OneDecisionForAnother(m, Popped(s).trace);
    hide Response, Lawful, ScheduleAll;
    WaitingGrows(Popped(s), Respond(m)(Popped(s).trace), Decision);
  }

  lemma ClockReaches(h: Handler, s: State)
    requires s.queue != []
    ensures Step(h, s).clock >= s.queue[0].timestamp
  {
    ClockStays(Popped(s), h(Popped(s).trace));
  }

  lemma {:induction false} ClockStays(s: State, requests: seq<Request>)
    ensures ScheduleAll(s, requests).clock == s.clock
    decreases requests
  {
    if requests != [] {
      ClockStays(Schedule(s, s.clock + requests[0].delay, requests[0].kind), requests[1..]);
    }
  }

  lemma ShiftedStop(h: Handler, s: State, end: int, m: nat)
    requires s.queue != [] && Step(h, s).clock < end
    requires StopsAfter(h, Step(h, s), end, m)
    ensures StopsAfter(h, s, end, m + 1)
  {
    forall k: nat | k < m + 1
      ensures Steps(h, s, k).queue != [] && (k > 0 ==> Steps(h, s, k).clock < end)
    {
      if k > 0 {
        StepsAdd(h, s, k - 1);
        assert k - 1 < m;
      }
    }
    StepsAdd(h, s, m);
    if m == 0 {
      assert Steps(h, s, 1) == Step(h, s);
    }
  }

  /** What a finished run has done: every event due before `end` is processed, at most the last processed event
      is due at `end` or later, and it is the only one beyond it. */
  lemma RunIsComplete(h: Handler, s: State, end: int, n: nat)
    requires Prompt(h) && Sound(s) && StopsAfter(h, s, end, n)
    ensures forall e | e in Steps(h, s, n).queue :: e.timestamp >= end
    ensures |Steps(h, s, n).trace| == |s.trace| + n
    ensures forall i | |s.trace| <= i < |s.trace| + n - 1 :: Steps(h, s, n).trace[i].timestamp < end
  {
    hide Ordered, Prompt;
    RunKeepsSound(h, s, n);
    TraceGrows(h, s, n);
    if n > 1 {
      BeforeTheEnd(h, s, end, n);
    }
  }

  lemma BeforeTheEnd(h: Handler, s: State, end: int, n: nat)
    requires Prompt(h) && Sound(s) && n > 1 && StopsAfter(h, s, end, n)
    ensures |Steps(h, s, n).trace| == |s.trace| + n
    ensures forall i | |s.trace| <= i < |s.trace| + n - 1 :: Steps(h, s, n).trace[i].timestamp < end
  {
    hide Ordered, Prompt;
    var last := Steps(h, s, n - 1);
    assert last.clock < end && last.queue != [];
    TraceGrows(h, s, n - 1);
    RunKeepsSound(h, s, n - 1);
    StepKeepsSound(h, last);
    assert Steps(h, s, n) == Step(h, last);
    hide Step, Steps, StopsAfter, Sound;
    assert Steps(h, s, n).trace == last.trace + [last.queue[0]];
    forall i: nat | |s.trace| <= i < |last.trace| ensures last.trace[i].timestamp < end {
      NoneBeyondTheClock(last, i);
    }
  }

  lemma NoneBeyondTheClock(s: State, i: nat)
    requires Sound(s) && i < |s.trace|
    ensures s.trace[i].timestamp <= s.clock
  {
    if i < |s.trace| - 1 {
      OrderedMeans(s.trace, i, |s.trace| - 1);
    }
  }

  lemma {:induction false} TraceGrows(h: Handler, s: State, n: nat)
    requires Prompt(h) && Sound(s) && forall k: nat | k < n :: Steps(h, s, k).queue != []
    ensures |Steps(h, s, n).trace| == |s.trace| + n
  {
    hide Sound, Ordered, ScheduleAll;
    if n > 0 {
      TraceGrows(h, s, n - 1);
      RunKeepsSound(h, s, n - 1);
      StepKeepsSound(h, Steps(h, s, n - 1));
    }
  }

  /** A state in which one decision is pending, for now. */
  predicate DecidesNow(s: State, clock: int) {
    |s.queue| == 1 && s.queue[0].timestamp == s.clock == clock
  }

  lemma DecidesAgain(h: Handler, s: State)
    requires (forall t: seq<Event> :: h(t) == [Request(0, Decision)]) && DecidesNow(s, s.clock)
    ensures DecidesNow(Step(h, s), s.clock)
  {
    var popped := Popped(s);
    var requests := h(popped.trace);
    assert popped.queue == [] && popped.clock == s.clock;
    assert requests == [Request(0, Decision)] && requests[1..] == [];
    var e := Event(s.clock, s.nextId, Decision);
    assert ScheduleAll(popped, requests) == Schedule(popped, s.clock, Decision);
    assert Insert([], e) == [e];
  }

  /** The pause is what stops a run: one actor deciding again at once keeps the clock where it is for ever. */
  lemma {:induction false} NoPauseNeverStops(h: Handler, s: State, n: nat)
    requires (forall t: seq<Event> :: h(t) == [Request(0, Decision)]) && DecidesNow(s, s.clock)
    ensures DecidesNow(Steps(h, s, n), s.clock)
    ensures forall end :: s.clock < end ==> !StopsAfter(h, s, end, n)
  {
    if n > 0 {
      hide Step;
      NoPauseNeverStops(h, s, n - 1);
      DecidesAgain(h, Steps(h, s, n - 1));
    }
  }
}
