/** The simulation engine: clock, event queue and periodic callbacks (engine/src/engine.hpp, engine/src/engine.cpp).
    Locks are left out: the engine is single-threaded here. */
module Engine {
  import opened EventQueue
  import opened EventRuns

  class VirtualClock {
    var currentTime: int

    constructor ()
      ensures currentTime == 0
    {
      currentTime := 0;
    }

    method AdvanceTo(time: int)
      modifies this
      ensures currentTime == Advanced(old(currentTime), time)
      ensures currentTime >= old(currentTime) && currentTime >= time
    {
      if time > currentTime {
        currentTime := time;
      }
    }

    method Reset()
      modifies this
      ensures currentTime == 0
    {
      currentTime := 0;
    }
  }

  // ---- Periodic callbacks ----

  datatype PeriodicCallback = PeriodicCallback(interval: int, nextCall: int)

  /** How many whole intervals have passed at `now` since the registration at `start`. */
  function Elapsed(start: int, interval: int, now: int): int
    requires interval > 0
  {
    (now - start) / interval
  }

  /** The next multiple of the interval after `now`. */
  function Due(start: int, interval: int, now: int): (due: int)
    requires interval > 0
    ensures now < due <= now + interval && (due - start) % interval == 0
  {
    DueIsNext(start, interval, now);
    start + interval * (Elapsed(start, interval, now) + 1)
  }

  lemma DueIsNext(start: int, interval: int, now: int)
    requires interval > 0
    ensures var due := start + interval * (Elapsed(start, interval, now) + 1);
      now < due <= now + interval && (due - start) % interval == 0
  {
    Multiple(interval, Elapsed(start, interval, now) + 1);
  }

  lemma Multiple(interval: int, k: int)
    requires interval > 0
    ensures (interval * k) % interval == 0 && (interval * k) / interval == k
  {
    var x := interval * k;
    assert x == interval * (x / interval) + x % interval;
    SmallMultiple(interval, k - x / interval, x % interval);
  }

  lemma SmallMultiple(interval: int, k: int, rest: int)
    requires interval > 0 && interval * k == rest && 0 <= rest < interval
    ensures k == 0 && rest == 0
  {
  }

  /** The multiples of the interval have no other member between `now` and the next one. */
  lemma DueIsUnique(start: int, interval: int, now: int, due: int)
    requires interval > 0 && now < due <= now + interval && (due - start) % interval == 0
    ensures due == Due(start, interval, now)
  {
    var right := Due(start, interval, now);
    var x, y := due - start, right - start;
    assert x == interval * (x / interval) && y == interval * (y / interval);
    SmallGap(interval, x / interval, y / interval);
    SmallGap(interval, y / interval, x / interval);
  }

  lemma SmallGap(interval: int, a: int, b: int)
    requires interval > 0 && interval * a < interval * b + interval
    ensures a <= b
  {
    Cancel(interval, a, b + 1);
  }

  /** The callback is due exactly when a new interval has begun since the clock stood at `then`. */
  lemma DueWhenIntervalBegins(start: int, interval: int, earlier: int, now: int)
    requires interval > 0 && earlier <= now
    ensures now >= Due(start, interval, earlier) <==> Elapsed(start, interval, now) > Elapsed(start, interval, earlier)
    ensures Elapsed(start, interval, now) >= Elapsed(start, interval, earlier)
  {
    var before, after := Elapsed(start, interval, earlier), Elapsed(start, interval, now);
    var gone := now - start;
    assert interval * after <= gone < interval * (after + 1);
    assert interval * before <= earlier - start;
    Cancel(interval, before, after + 1);
    if gone < interval * (before + 1) {
      Cancel(interval, after, before + 1);
    } else {
      Cancel(interval, before + 1, after + 1);
    }
  }

  /** A callback moved past the clock, one interval at a time. */
  function Caught(p: PeriodicCallback, now: int): PeriodicCallback
    requires p.interval > 0
  {
    if now < p.nextCall then p else p.(nextCall := Due(p.nextCall, p.interval, now))
  }

  /** The next call is the next multiple of the interval, and no interval has been called for twice. */
  predicate OnSchedule(p: PeriodicCallback, start: int, calls: int, now: int) {
    p.interval > 0 && p.nextCall == Due(start, p.interval, now) && 0 <= calls <= Elapsed(start, p.interval, now)
  }

  lemma RegisteredOnSchedule(interval: int, now: int)
    requires interval > 0
    ensures OnSchedule(PeriodicCallback(interval, now + interval), now, 0, now)
  {
    Multiple(interval, 1);
    DueIsUnique(now, interval, now, now + interval);
  }

  lemma StillMultiple(interval: int, a: int, b: int)
    requires interval > 0 && a % interval == 0 && b % interval == 0
    ensures (a + b) % interval == 0
  {
    var x, y := a / interval, b / interval;
    assert a == interval * x && b == interval * y;
    assert a + b == interval * (x + y);
    Multiple(interval, x + y);
  }

  /** Catching up keeps the schedule, and calls exactly when a new interval has begun. */
  lemma CatchingUp(p: PeriodicCallback, start: int, calls: int, earlier: int, now: int)
    requires earlier <= now && OnSchedule(p, start, calls, earlier)
    ensures OnSchedule(Caught(p, now), start, calls + if now >= p.nextCall then 1 else 0, now)
    ensures now >= p.nextCall <==> Elapsed(start, p.interval, now) > Elapsed(start, p.interval, earlier)
  {
    DueWhenIntervalBegins(start, p.interval, earlier, now);
    hide Elapsed;
    if now < p.nextCall {
      DueIsUnique(start, p.interval, now, p.nextCall);
    } else {
      var due := Due(p.nextCall, p.interval, now);
      StillMultiple(p.interval, due - p.nextCall, p.nextCall - start);
      DueIsUnique(start, p.interval, now, due);
    }
  }

  // ---- Stopping ----

  lemma ThriftyIsPrompt(h: Handler, gap: nat)
    requires Thrifty(h, gap)
    ensures Prompt(h)
  {
  }

  lemma ScheduleAllFrom(s: State, requests: seq<Request>, i: nat)
    requires i <= |requests|
    ensures i == 0 ==> ScheduleAll(s, requests[i..]) == ScheduleAll(s, requests)
    ensures ScheduleAll(s, requests[i..]) ==
      if i == |requests| then s
      else ScheduleAll(Schedule(s, s.clock + requests[i].delay, requests[i].kind), requests[i + 1..])
  {
    hide Schedule;
    var rest := requests[i..];
    if i == 0 {
      assert rest == requests;
    }
    if i < |requests| {
      assert rest[0] == requests[i] && rest[1..] == requests[i + 1..];
    }
  }

  lemma EmptyStays(h: Handler, s: State)
    ensures s.queue == [] ==> Step(h, s) == s
  {
  }

  lemma NotYet(h: Handler, s: State, end: int, n: nat, total: nat)
    requires StopsAfter(h, s, end, total) && n <= total
    requires Steps(h, s, n).queue != [] && (n > 0 ==> Steps(h, s, n).clock < end)
    ensures n < total
  {
  }

  /** `run_until_condition` from `s` goes no further than `n` events. */
  ghost predicate Halted(h: Handler, condition: State -> bool, s: State, n: nat) {
    condition(Steps(h, s, n)) || Steps(h, s, n).queue == []
  }

  // ---- The engine ----

  class SimulationEngine {
    const clock: VirtualClock
    const handler: Handler
    var eventQueue: seq<Event>
    var nextId: nat
    var callbacks: seq<PeriodicCallback>
    var isRunning: bool
    /** Every event processed since the engine was last initialised: what the actors' state comes from. */
    var trace: seq<Event>
    /** Per callback, the clock at its registration and how often it has been called. */
    ghost var started: seq<int>
    ghost var calls: seq<int>

    ghost predicate Valid()
      reads this, clock
    {
      && |started| == |calls| == |callbacks|
      && forall i | 0 <= i < |callbacks| :: OnSchedule(callbacks[i], started[i], calls[i], clock.currentTime)
    }

    /** The state of the specification machine this engine is in. */
    function View(): State
      reads this, clock
    {
      State(clock.currentTime, eventQueue, nextId, trace)
    }

    constructor (handler: Handler)
      ensures Valid() && fresh(clock) && this.handler == handler
      ensures View() == State(0, [], 0, []) && Sound(View())
      ensures callbacks == [] && !isRunning
    {
      clock := new VirtualClock();
      this.handler := handler;
      eventQueue, nextId, trace := [], 0, [];
      callbacks, started, calls := [], [], [];
      isRunning := false;
    }

    /** Ids go on counting: only the clock, the queue and the callbacks are cleared. */
    method Initialize()
      modifies this, clock
      ensures Valid() && View() == State(0, [], old(nextId), []) && callbacks == []
      ensures isRunning == old(isRunning)
      ensures Sound(View())
    {
      clock.Reset();
      eventQueue, trace := [], [];
      callbacks, started, calls := [], [], [];
    }

    /** Constructs an event, which takes the next id, and queues it. */
    method ScheduleEvent(timestamp: int, kind: Kind)
      requires Valid()
      modifies this`eventQueue, this`nextId
      ensures Valid() && View() == Schedule(old(View()), timestamp, kind)
      ensures old(Sound(View())) && timestamp >= clock.currentTime ==> Sound(View())
    {
      if Sound(View()) && timestamp >= clock.currentTime {
        SchedulingKeepsSound(View(), timestamp, kind);
      }
      eventQueue := Insert(eventQueue, Event(timestamp, nextId, kind));
      nextId := nextId + 1;
    }

    /** An interval must be positive: with any other, the catch-up loop would not end. */
    method AddPeriodicCallback(interval: int)
      requires Valid() && interval > 0
      modifies this`callbacks, this`started, this`calls
      ensures Valid()
      ensures callbacks == old(callbacks) + [PeriodicCallback(interval, clock.currentTime + interval)]
      ensures started == old(started) + [clock.currentTime] && calls == old(calls) + [0]
    {
      RegisteredOnSchedule(interval, clock.currentTime);
      callbacks := callbacks + [PeriodicCallback(interval, clock.currentTime + interval)];
      started, calls := started + [clock.currentTime], calls + [0];
    }

    /** Calls the callback if it is due and moves its next call past the clock. */
    method CallBack(i: nat)
      requires i < |callbacks| == |started| == |calls|
      requires callbacks[i].interval > 0
      modifies this`callbacks, this`calls
      ensures var p, now := old(callbacks[i]), clock.currentTime;
        && callbacks == old(callbacks)[i := Caught(p, now)]
        && calls == old(calls)[i := old(calls[i]) + if now >= p.nextCall then 1 else 0]
    {
      var p := callbacks[i];
      if clock.currentTime >= p.nextCall {
        var next := p.nextCall;
        while next <= clock.currentTime
          invariant unchanged(this)
          invariant next <= clock.currentTime + p.interval
          invariant (next - p.nextCall) % p.interval == 0
          decreases clock.currentTime - next
        {
          Multiple(p.interval, 1);
          StillMultiple(p.interval, next - p.nextCall, p.interval);
          next := next + p.interval;
        }
        DueIsUnique(p.nextCall, p.interval, clock.currentTime, next);
        callbacks, calls := callbacks[i := p.(nextCall := next)], calls[i := calls[i] + 1];
      }
    }

    /** Processes the next event. Due callbacks run after the clock has moved and before the event; each runs at
        most once, however many of its intervals have passed. */
    method ProcessNextEvent() returns (processed: bool)
      requires Valid()
      modifies this`eventQueue, this`nextId, this`callbacks, this`trace, this`calls, clock
      ensures Valid() && processed == (old(eventQueue) != [])
      ensures View() == Step(handler, old(View()))
      ensures |calls| == old(|calls|) && |callbacks| == old(|callbacks|)
      ensures forall i | 0 <= i < |callbacks| ::
        && callbacks[i].interval == old(callbacks[i].interval) > 0
        && calls[i] == old(calls[i]) +
             if Elapsed(started[i], callbacks[i].interval, clock.currentTime)
                > Elapsed(started[i], callbacks[i].interval, old(clock.currentTime)) then 1 else 0
    {
      if eventQueue == [] {
        return false;
      }
      var event := eventQueue[0];
      ghost var before := View();
      eventQueue := eventQueue[1..];
      clock.AdvanceTo(event.timestamp);
      var i := 0;
      while i < |callbacks|
        invariant i <= |callbacks| == |calls| == |started| == old(|callbacks|)
        invariant eventQueue == before.queue[1..] && nextId == before.nextId && trace == before.trace
        invariant clock.currentTime == Advanced(before.clock, event.timestamp)
        invariant forall j | i <= j < |callbacks| :: callbacks[j] == old(callbacks[j]) && calls[j] == old(calls[j])
        invariant forall j | 0 <= j < i ::
          && callbacks[j] == Caught(old(callbacks[j]), clock.currentTime)
          && calls[j] == old(calls[j]) + if clock.currentTime >= old(callbacks[j]).nextCall then 1 else 0
      {
        CallBack(i);
        i := i + 1;
      }
      forall j | 0 <= j < |callbacks|
        ensures OnSchedule(callbacks[j], started[j], calls[j], clock.currentTime)
        ensures callbacks[j].interval == old(callbacks[j].interval) > 0
        ensures calls[j] == old(calls[j]) +
             if Elapsed(started[j], callbacks[j].interval, clock.currentTime)
                > Elapsed(started[j], callbacks[j].interval, old(clock.currentTime)) then 1 else 0
      {
        CatchingUp(old(callbacks[j]), started[j], old(calls[j]), before.clock, clock.currentTime);
      }
      trace := trace + [event];
      assert View() == Popped(before);
      Handle(handler(trace));
      processed := true;
    }

    /** The event's own work: it schedules what its handler asks for. */
    method Handle(requests: seq<Request>)
      requires Valid()
      modifies this`eventQueue, this`nextId
      ensures Valid() && View() == ScheduleAll(old(View()), requests)
    {
      hide Sound, OnSchedule, Insert, Schedule, ScheduleAll;
      ScheduleAllFrom(View(), requests, 0);
      var i := 0;
      while i < |requests|
        invariant i <= |requests| && Valid()
        invariant ScheduleAll(View(), requests[i..]) == ScheduleAll(old(View()), requests)
        invariant unchanged(clock)
      {
        ScheduleAllFrom(View(), requests, i);
        ScheduleEvent(clock.currentTime + requests[i].delay, requests[i].kind);
        i := i + 1;
      }
      ScheduleAllFrom(View(), requests, i);
    }

    /** Runs until the clock has reached `endTime` or no event is left. The actors' pauses make it stop. */
    method RunUntil(endTime: int, ghost gap: nat)
      requires Valid() && Sound(View()) && gap > 0 && Thrifty(handler, gap)
      modifies this`eventQueue, this`nextId, this`callbacks, this`trace, this`calls, this`isRunning, clock
      ensures Valid() && Sound(View()) && !isRunning
      ensures |trace| >= old(|trace|)
      ensures var n := |trace| - old(|trace|);
        View() == Steps(handler, old(View()), n) && StopsAfter(handler, old(View()), endTime, n)
    {
      hide Sound, Ordered, Thrifty, Step, OnSchedule, Pending, Waiting;
      ThriftyIsPrompt(handler, gap);
      ghost var n, s := 0, View();
      ghost var total := RunTerminates(handler, s, endTime, gap);
      isRunning := true;
      while isRunning
        invariant Valid() && Sound(View())
        invariant View() == Steps(handler, s, n) && |trace| == |s.trace| + n
        invariant forall k: nat | k < n :: Steps(handler, s, k).queue != []
        invariant forall k: nat | 0 < k < n :: Steps(handler, s, k).clock < endTime
        invariant isRunning ==> n <= total && (n > 0 ==> clock.currentTime < endTime)
        invariant !isRunning ==> StopsAfter(handler, s, endTime, n)
        decreases isRunning, total - n
      {
        StepKeepsSound(handler, View());
        EmptyStays(handler, View());
        if eventQueue != [] {
          NotYet(handler, s, endTime, n, total);
        }
        var processed := ProcessNextEvent();
        if !processed {
          isRunning := false;
        } else {
          n := n + 1;
          if clock.currentTime >= endTime {
            isRunning := false;
          }
        }
      }
    }

    method RunFor(duration: int, ghost gap: nat)
      requires Valid() && Sound(View()) && gap > 0 && Thrifty(handler, gap)
      modifies this`eventQueue, this`nextId, this`callbacks, this`trace, this`calls, this`isRunning, clock
      ensures Valid() && Sound(View()) && !isRunning
      ensures |trace| >= old(|trace|)
      ensures var n := |trace| - old(|trace|);
        && View() == Steps(handler, old(View()), n)
        && StopsAfter(handler, old(View()), old(clock.currentTime) + duration, n)
    {
      RunUntil(clock.currentTime + duration, gap);
    }

    /** Runs until the condition holds, looking before every event, or no event is left. Nothing but the condition
        makes it stop, so the caller must know that one of the two happens. */
    method RunUntilCondition(condition: State -> bool, ghost bound: nat)
      requires Valid() && Sound(View()) && Prompt(handler) && Halted(handler, condition, View(), bound)
      modifies this`eventQueue, this`nextId, this`callbacks, this`trace, this`calls, this`isRunning, clock
      ensures Valid() && Sound(View()) && !isRunning
      ensures |trace| >= old(|trace|)
      ensures var n := |trace| - old(|trace|);
        && View() == Steps(handler, old(View()), n)
        && Halted(handler, condition, old(View()), n)
        && forall k: nat | k < n :: !Halted(handler, condition, old(View()), k)
    {
      hide Sound, Ordered, Prompt, Step, OnSchedule;
      ghost var n, s := 0, View();
      isRunning := true;
      while isRunning
        invariant Valid() && Sound(View()) && n <= bound
        invariant View() == Steps(handler, s, n) && |trace| == |s.trace| + n
        invariant forall k: nat | k < n :: !Halted(handler, condition, s, k)
        invariant !isRunning ==> Halted(handler, condition, s, n)
        decreases isRunning, bound - n
      {
        if condition(View()) {
          isRunning := false;
        } else {
          StepKeepsSound(handler, View());
          EmptyStays(handler, View());
          var processed := ProcessNextEvent();
          if !processed {
            isRunning := false;
          } else {
            n := n + 1;
          }
        }
      }
    }
  }
}
