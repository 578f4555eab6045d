/** The decisions of the resize event loop, twice: over the three maps of the loop, for all namespaces
    at once, and as a one-slot protocol for a single namespace. */
module ResizeProtocol {
  import opened Quantities

  /** `serial` is the arrival number of the request. The program has no such field and no branch below
      reads it; it keeps equal requests apart in the histories. */
  datatype Event = Event(serial: nat, namespace: string, resourceQuota: string, oldSize: Amount, newSize: Amount)

  datatype ResizeCache = ResizeCache(timestamp: int, event: Event)

  /** `time.Minute`, in nanoseconds. */
  const MINUTE: int := 60_000_000_000

  /** One entry of a history: what happened to which request, and when. */
  datatype Mark = Mark(event: Event, at: int)

  /** What the loop did so far. `started` lists the goroutines it launched. */
  datatype Log = Log(
    received: seq<Mark>, started: seq<Mark>, completed: seq<Mark>, superseded: seq<Mark>, rejected: seq<Mark>)
  {
    function Received(event: Event, at: int): Log { this.(received := received + [Mark(event, at)]) }

    function Started(event: Event, at: int): Log { this.(started := started + [Mark(event, at)]) }

    function Completed(event: Event, at: int): Log { this.(completed := completed + [Mark(event, at)]) }

    function Superseded(event: Event, at: int): Log { this.(superseded := superseded + [Mark(event, at)]) }

    function Rejected(event: Event, at: int): Log { this.(rejected := rejected + [Mark(event, at)]) }
  }

  const EMPTY_LOG: Log := Log([], [], [], [], [])

  /** A message the loop's `select` takes. `stamp` and `now` are the clock readings of the cache update
      and of the scale-down check. */
  datatype Input =
    | Receive(event: Event, now: int)
    | Done(event: Event, stamp: int, now: int)

  /** The scale-down check: a smaller request within a minute of the last completion. */
  predicate TooSoon(previous: Option<ResizeCache>, event: Event, now: int) {
    && previous.Some?
    && event.newSize.LowerThan(previous.value.event.newSize)
    && previous.value.timestamp + MINUTE > now
  }

  // ---------- All namespaces: the loop's maps ----------

  datatype Loop = Loop(
    inProgress: map<string, bool>, pending: map<string, Event>, cache: map<string, ResizeCache>, log: Log)

  const FRESH_LOOP: Loop := Loop(map[], map[], map[], EMPTY_LOG)

  /** Reading the Go map: an absent key is false. */
  predicate Busy(l: Loop, ns: string) {
    ns in l.inProgress && l.inProgress[ns]
  }

  /** The `resize` closure: launch the goroutine, or refuse. */
  function Resize(l: Loop, event: Event, now: int): (Loop, bool) {
    if TooSoon(Lookup(l.cache, event.namespace), event, now) then
      (l.(log := l.log.Rejected(event, now)), false)
    else
      (l.(log := l.log.Started(event, now)), true)
  }

  function OnReceive(l0: Loop, event: Event, now: int): Loop {
    var ns := event.namespace;
    var l := l0.(log := l0.log.Received(event, now));
    if Busy(l, ns) then
      l.(pending := l.pending[ns := event],
         log := if ns in l.pending then l.log.Superseded(l.pending[ns], now) else l.log)
    else
      var (l', ok) := Resize(l, event, now);
      if ok then l'.(inProgress := l'.inProgress[ns := true]) else l'
  }

  function OnDone(l0: Loop, done: Event, stamp: int, now: int): Loop {
    var ns := done.namespace;
    var l := l0.(cache := l0.cache[ns := ResizeCache(stamp, done)],
                 log := l0.log.Completed(done, stamp));
    if ns in l.pending then
      var (l', ok) := Resize(l.(pending := l.pending - {ns}), l.pending[ns], now);
      if ok then l' else l'.(inProgress := l'.inProgress[ns := false])
    else
      l.(inProgress := l.inProgress[ns := false])
  }

  function LoopStep(l: Loop, i: Input): Loop {
    match i
    case Receive(event, now) => OnReceive(l, event, now)
    case Done(event, stamp, now) => OnDone(l, event, stamp, now)
  }

  function LoopRun(l: Loop, inputs: seq<Input>): Loop
    decreases |inputs|
  {
    if inputs == [] then l else LoopRun(LoopStep(l, inputs[0]), inputs[1..])
  }

  // ---------- One namespace: the one-slot protocol ----------

  /** Idle, busy, or busy with one request waiting; and the last completed resize. */
  datatype Slot = Slot(busy: bool, waiting: Option<Event>, cached: Option<ResizeCache>, log: Log)

  const FRESH_SLOT: Slot := Slot(false, None, None, EMPTY_LOG)

  function SlotResize(s: Slot, event: Event, now: int): Slot {
    if TooSoon(s.cached, event, now) then
      s.(busy := false, log := s.log.Rejected(event, now))
    else
      s.(busy := true, log := s.log.Started(event, now))
  }

  function SlotReceive(s0: Slot, event: Event, now: int): Slot {
    var s := s0.(log := s0.log.Received(event, now));
    if s.busy then
      s.(waiting := Some(event),
         log := if s.waiting.Some? then s.log.Superseded(s.waiting.value, now) else s.log)
    else
      SlotResize(s, event, now)
  }

  function SlotDone(s0: Slot, done: Event, stamp: int, now: int): Slot {
    var s := s0.(cached := Some(ResizeCache(stamp, done)),
                 log := s0.log.Completed(done, stamp));
    if s.waiting.Some? then SlotResize(s.(waiting := None), s.waiting.value, now) else s.(busy := false)
  }

  function SlotStep(s: Slot, i: Input): Slot {
    match i
    case Receive(event, now) => SlotReceive(s, event, now)
    case Done(event, stamp, now) => SlotDone(s, event, stamp, now)
  }

  function SlotRun(s: Slot, inputs: seq<Input>): Slot
    decreases |inputs|
  {
    if inputs == [] then s else SlotRun(SlotStep(s, inputs[0]), inputs[1..])
  }

  // ---------- Projection ----------

  function Only(marks: seq<Mark>, ns: string): seq<Mark> {
    if marks == [] then []
    else
      var rest, last := Only(marks[..|marks| - 1], ns), marks[|marks| - 1];
      if last.event.namespace == ns then rest + [last] else rest
  }

  function OnlyLog(log: Log, ns: string): Log {
    Log(Only(log.received, ns), Only(log.started, ns), Only(log.completed, ns),
        Only(log.superseded, ns), Only(log.rejected, ns))
  }

  /** What one namespace sees of the loop. */
  function View(l: Loop, ns: string): Slot {
    Slot(Busy(l, ns), Lookup(l.pending, ns), Lookup(l.cache, ns), OnlyLog(l.log, ns))
  }

  function Project(inputs: seq<Input>, ns: string): seq<Input> {
    if inputs == [] then []
    else if inputs[0].event.namespace == ns then [inputs[0]] + Project(inputs[1..], ns)
    else Project(inputs[1..], ns)
  }

  lemma OnlyAppend(marks: seq<Mark>, m: Mark, ns: string)
    ensures Only(marks + [m], ns) == if m.event.namespace == ns then Only(marks, ns) + [m] else Only(marks, ns)
  {
    assert (marks + [m])[..|marks|] == marks;
  }

  // Filtering a history commutes with extending it.

  lemma OnlyReceived(log: Log, event: Event, at: int, ns: string)
    ensures OnlyLog(log.Received(event, at), ns)
         == if event.namespace == ns then OnlyLog(log, ns).Received(event, at) else OnlyLog(log, ns)
  {
    OnlyAppend(log.received, Mark(event, at), ns);
  }

  lemma OnlyStarted(log: Log, event: Event, at: int, ns: string)
    ensures OnlyLog(log.Started(event, at), ns)
         == if event.namespace == ns then OnlyLog(log, ns).Started(event, at) else OnlyLog(log, ns)
  {
    OnlyAppend(log.started, Mark(event, at), ns);
  }

  lemma OnlyCompleted(log: Log, event: Event, at: int, ns: string)
    ensures OnlyLog(log.Completed(event, at), ns)
         == if event.namespace == ns then OnlyLog(log, ns).Completed(event, at) else OnlyLog(log, ns)
  {
    OnlyAppend(log.completed, Mark(event, at), ns);
  }

  lemma OnlySuperseded(log: Log, event: Event, at: int, ns: string)
    ensures OnlyLog(log.Superseded(event, at), ns)
         == if event.namespace == ns then OnlyLog(log, ns).Superseded(event, at) else OnlyLog(log, ns)
  {
    OnlyAppend(log.superseded, Mark(event, at), ns);
  }

  lemma OnlyRejected(log: Log, event: Event, at: int, ns: string)
    ensures OnlyLog(log.Rejected(event, at), ns)
         == if event.namespace == ns then OnlyLog(log, ns).Rejected(event, at) else OnlyLog(log, ns)
  {
    OnlyAppend(log.rejected, Mark(event, at), ns);
  }

  /** A waiting request is stored under its own namespace, which is busy. */
  ghost predicate Keyed(l: Loop) {
    forall ns <- l.pending :: l.pending[ns].namespace == ns && Busy(l, ns)
  }

  lemma KeyedStep(l: Loop, i: Input)
    requires Keyed(l)
    ensures Keyed(LoopStep(l, i))
  {
  }

  lemma ViewOfResize(l: Loop, event: Event, now: int, ns: string)
    ensures var (l', ok) := Resize(l, event, now);
            && (event.namespace == ns ==>
                  View(l'.(inProgress := l'.inProgress[ns := ok]), ns) == SlotResize(View(l, ns), event, now))
            && (event.namespace != ns ==>
                  View(l'.(inProgress := l'.inProgress[event.namespace := ok]), ns) == View(l, ns))
  {
    if TooSoon(Lookup(l.cache, event.namespace), event, now) {
      OnlyRejected(l.log, event, now, ns);
    } else {
      OnlyStarted(l.log, event, now, ns);
    }
  }

  lemma ViewOfQueueing(l: Loop, event: Event, now: int, ns: string)
    requires Keyed(l) && Busy(l, event.namespace)
    ensures View(OnReceive(l, event, now), ns)
         == if event.namespace == ns then SlotReceive(View(l, ns), event, now) else View(l, ns)
  {
    OnlyReceived(l.log, event, now, ns);
    if event.namespace in l.pending {
      OnlySuperseded(l.log.Received(event, now), l.pending[event.namespace], now, ns);
    }
  }

  lemma ViewOfReceive(l: Loop, event: Event, now: int, ns: string)
    requires Keyed(l)
    ensures View(OnReceive(l, event, now), ns)
         == if event.namespace == ns then SlotReceive(View(l, ns), event, now) else View(l, ns)
  {
    if Busy(l, event.namespace) {
      ViewOfQueueing(l, event, now, ns);
    } else {
      OnlyReceived(l.log, event, now, ns);
      ViewOfResize(l.(log := l.log.Received(event, now)), event, now, ns);
    }
  }

  lemma ViewOfDone(l: Loop, done: Event, stamp: int, now: int, ns: string)
    requires Keyed(l)
    ensures View(OnDone(l, done, stamp, now), ns)
         == if done.namespace == ns then SlotDone(View(l, ns), done, stamp, now) else View(l, ns)
  {
    OnlyCompleted(l.log, done, stamp, ns);
    if done.namespace in l.pending {
      var l1 := l.(cache := l.cache[done.namespace := ResizeCache(stamp, done)],
                   log := l.log.Completed(done, stamp),
                   pending := l.pending - {done.namespace});
      ViewOfResize(l1, l.pending[done.namespace], now, ns);
    }
  }

  lemma ViewOfStep(l: Loop, i: Input, ns: string)
    requires Keyed(l)
    ensures View(LoopStep(l, i), ns) == if i.event.namespace == ns then SlotStep(View(l, ns), i) else View(l, ns)
  {
    match i
    case Receive(event, now) => ViewOfReceive(l, event, now, ns);
    case Done(event, stamp, now) => ViewOfDone(l, event, stamp, now, ns);
  }

  /** Namespace independence: whatever messages the loop takes, and however they interleave, each
      namespace sees exactly the one-slot protocol run on its own messages. */
  lemma {:induction false} LoopIsProductOfSlots(l: Loop, inputs: seq<Input>, ns: string)
    requires Keyed(l)
    ensures Keyed(LoopRun(l, inputs))
    ensures View(LoopRun(l, inputs), ns) == SlotRun(View(l, ns), Project(inputs, ns))
    decreases |inputs|
  {
    if inputs != [] {
      KeyedStep(l, inputs[0]);
      ViewOfStep(l, inputs[0], ns);
      LoopIsProductOfSlots(LoopStep(l, inputs[0]), inputs[1..], ns);
      var mine := Project(inputs[1..], ns);
      assert ([inputs[0]] + mine)[1..] == mine;
    }
  }

  // ---------- The cooldown, by its numbers ----------

  /** A size asked for is lower in CPU or in memory than the one of the cache entry, which is less than 60
      seconds old. */
  predicate CoolsDown(cached: Option<ResizeCache>, size: Amount, now: int) {
    && cached.Some?
    && (size.cpu < cached.value.event.newSize.cpu || size.memory < cached.value.event.newSize.memory)
    && now - cached.value.timestamp < 60 * 1_000_000_000
  }

  /** A request for an idle namespace is refused if and only if it cools down; else it starts. Nothing else
      changes. */
  lemma IdleRefusesExactly(l: Loop, event: Event, now: int)
    requires !Busy(l, event.namespace)
    ensures var ns := event.namespace;
            var t, refused := OnReceive(l, event, now), CoolsDown(Lookup(l.cache, ns), event.newSize, now);
            && (Busy(t, ns) <==> !refused)
            && t.log.started == l.log.started + (if refused then [] else [Mark(event, now)])
            && t.log.rejected == l.log.rejected + (if refused then [Mark(event, now)] else [])
            && t.cache == l.cache && t.pending == l.pending
  {
  }

  /** The same for a request that waited, when the resize before it completes: it is compared with the size
      of that resize. */
  lemma WaitingRefusesExactly(l: Loop, done: Event, stamp: int, now: int)
    requires Keyed(l) && done.namespace in l.pending
    ensures var ns, next := done.namespace, l.pending[done.namespace];
            var t, refused := OnDone(l, done, stamp, now),
                              CoolsDown(Some(ResizeCache(stamp, done)), next.newSize, now);
            && (Busy(t, ns) <==> !refused)
            && t.log.started == l.log.started + (if refused then [] else [Mark(next, now)])
            && t.log.rejected == l.log.rejected + (if refused then [Mark(next, now)] else [])
            && t.cache == l.cache[ns := ResizeCache(stamp, done)] && t.pending == l.pending - {ns}
  {
  }

  // ---------- The tests' intent ----------

  /** Requests for one namespace, and no completions. */
  ghost predicate Burst(inputs: seq<Input>, ns: string) {
    forall i <- inputs :: i.Receive? && i.event.namespace == ns
  }

  lemma {:induction false} BurstWhileBusy(s: Slot, inputs: seq<Input>, ns: string)
    requires s.busy && Burst(inputs, ns)
    ensures var t := SlotRun(s, inputs);
            && t.busy && t.cached == s.cached && t.log.started == s.log.started && t.log.rejected == s.log.rejected
            && t.waiting == if inputs == [] then s.waiting else Some(inputs[|inputs| - 1].event)
    decreases |inputs|
  {
    if inputs != [] {
      BurstWhileBusy(SlotStep(s, inputs[0]), inputs[1..], ns);
    }
  }

  /** The completion of a resize with one request waiting, and the completion of that one. */
  lemma WaitingStartsNext(s: Slot, done: Event, next: Event, stamp: int, now: int)
    requires s.waiting == Some(next)
    ensures var t := SlotDone(s, done, stamp, now);
            var refused := CoolsDown(Some(ResizeCache(stamp, done)), next.newSize, now);
            && t.log.started == s.log.started + (if refused then [] else [Mark(next, now)])
            && (done.newSize.cpu <= next.newSize.cpu && done.newSize.memory <= next.newSize.memory ==>
                  !SlotDone(t, next, stamp, now).busy && SlotDone(t, next, stamp, now).log.started == t.log.started)
  {
  }

  /** A burst that arrives before the first resize completes costs two resize calls, of the first and of
      the last request: the second one starts unless it is a scale-down within the minute. */
  lemma BurstCostsTwoCalls(first: Input, rest: seq<Input>, ns: string, stamp: int, now: int)
    requires Burst([first] + rest, ns) && rest != []
    ensures var last := rest[|rest| - 1].event;
            var before := SlotRun(FRESH_SLOT, [first] + rest);
            var after := SlotDone(before, first.event, stamp, now);
            && before.log.started == [Mark(first.event, first.now)]
            && after.log.started == before.log.started
                 + (if CoolsDown(Some(ResizeCache(stamp, first.event)), last.newSize, now) then []
                    else [Mark(last, now)])
            && (first.event.newSize.cpu <= last.newSize.cpu && first.event.newSize.memory <= last.newSize.memory ==>
                  !SlotDone(after, last, stamp, now).busy
                  && SlotDone(after, last, stamp, now).log.started == after.log.started)
  {
    var inputs := [first] + rest;
    assert inputs[0] == first && inputs[1..] == rest;
    BurstWhileBusy(SlotStep(FRESH_SLOT, first), rest, ns);
    WaitingStartsNext(SlotRun(FRESH_SLOT, inputs), first.event, rest[|rest| - 1].event, stamp, now);
  }
}
