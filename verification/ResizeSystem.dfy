/** The whole resize machinery: the event loop, the goroutines it launches, and the result channel. Any
    number of goroutines run at once; every interleaving is a run. */
module ResizeSystem {
  import opened Quantities
  import opened ResizeProtocol
  import opened SlotSafety

  /** A goroutine is inside the resize call, or blocked handing its event back to the loop. */
  datatype Phase = Calling | Acking

  datatype Worker = Worker(event: Event, phase: Phase)

  datatype ResizeResult = ResizeResult(event: Event, failed: bool)

  /** A publication: whether it went through, and how many results the reader had taken by then. */
  datatype Offer = Offer(result: ResizeResult, delivered: bool, taken: nat)

  /** The capacity of `ResizeResultChan`. */
  const RESULT_SLOTS: nat := 1024

  /** Goroutines are numbered in launch order. `offers` and `consumed` record the publications and what
      the reader of the result channel took. */
  datatype System = System(
    loop: Loop, workers: map<nat, Worker>, results: seq<ResizeResult>, clock: int,
    offers: seq<Offer>, consumed: seq<ResizeResult>)

  const BOOT: System := System(FRESH_LOOP, map[], [], 0, [], [])

  datatype Action =
    | Arrive(event: Event, now: int)          // a producer meets the loop on ResizeNsChan
    | Finish(g: nat, failed: bool)            // a resize call returns, its result is published
    | Ack(g: nat, stamp: int, now: int)       // a goroutine meets the loop on eventDoneChan
    | Consume                                 // the watcher takes one result

  predicate Enabled(s: System, a: Action) {
    match a
    case Arrive(event, now) => s.clock <= now && event.serial == |s.loop.log.received|
    case Finish(g, failed) => g in s.workers && s.workers[g].phase == Calling
    case Ack(g, stamp, now) => g in s.workers && s.workers[g].phase == Acking && s.clock <= stamp <= now
    case Consume => s.results != []
  }

  /** The `go` statement: a goroutine for each request added to `started`. */
  function Launch(workers: map<nat, Worker>, before: Loop, after: Loop): map<nat, Worker> {
    var n := |before.log.started|;
    if n < |after.log.started| then workers[n := Worker(after.log.started[n].event, Calling)] else workers
  }

  function Publish(s: System, result: ResizeResult): System {
    if |s.results| < RESULT_SLOTS then
      s.(results := s.results + [result], offers := s.offers + [Offer(result, true, |s.consumed|)])
    else
      s.(offers := s.offers + [Offer(result, false, |s.consumed|)])
  }

  /** One step; an action that is not enabled does not happen. */
  function Step(s: System, a: Action): System {
    if !Enabled(s, a) then s
    else match a
      case Arrive(event, now) =>
        var loop := OnReceive(s.loop, event, now);
        s.(loop := loop, workers := Launch(s.workers, s.loop, loop), clock := now)
      case Finish(g, failed) =>
        var event := s.workers[g].event;
        Publish(s, ResizeResult(event, failed)).(workers := s.workers[g := Worker(event, Acking)])
      case Ack(g, stamp, now) =>
        var loop := OnDone(s.loop, s.workers[g].event, stamp, now);
        s.(loop := loop, workers := Launch(s.workers - {g}, s.loop, loop), clock := now)
      case Consume =>
        s.(results := s.results[1..], consumed := s.consumed + [s.results[0]])
  }

  function Run(s: System, actions: seq<Action>): System
    decreases |actions|
  {
    if actions == [] then s else Run(Step(s, actions[0]), actions[1..])
  }

  /** The message an action hands to the loop, if any. */
  function Message(s: System, a: Action): Option<Input> {
    if !Enabled(s, a) then None
    else match a
      case Arrive(event, now) => Some(Receive(event, now))
      case Ack(g, stamp, now) => Some(Done(s.workers[g].event, stamp, now))
      case _ => None
  }

  function Messages(s: System, actions: seq<Action>): seq<Input>
    decreases |actions|
  {
    if actions == [] then []
    else
      var rest := Messages(Step(s, actions[0]), actions[1..]);
      var m := Message(s, actions[0]);
      if m.Some? then [m.value] + rest else rest
  }

  // ---------- The invariant ----------

  type Workers = map<nat, Worker>

  /** Goroutine `g` is out for namespace `ns`. */
  predicate Carries(workers: Workers, g: nat, ns: string) {
    g in workers && workers[g].event.namespace == ns
  }

  /** A namespace is busy exactly when one goroutine is out for it, carrying its last started request. */
  ghost predicate Flight(workers: Workers, ns: string, slot: Slot) {
    && (forall g: nat, h: nat :: Carries(workers, g, ns) && Carries(workers, h, ns) ==> g == h)
    && (slot.busy <==> exists g: nat :: Carries(workers, g, ns))
    && (forall g: nat :: Carries(workers, g, ns) ==>
          slot.log.started != [] && Last(slot.log.started).event == workers[g].event)
  }

  ghost predicate SingleFlight(s: System) {
    forall ns {:trigger Flight(s.workers, ns, View(s.loop, ns))} :: Flight(s.workers, ns, View(s.loop, ns))
  }

  /** The history of every namespace satisfies the one-slot invariant. */
  ghost predicate HistoriesSound(s: System) {
    forall ns {:trigger SlotInv(View(s.loop, ns), s.clock, |s.loop.log.received|)} ::
      SlotInv(View(s.loop, ns), s.clock, |s.loop.log.received|)
  }

  /** Goroutines are numbered by the requests started, and each one out has not completed. */
  ghost predicate Accounted(s: System) {
    && (forall g <- s.workers :: g < |s.loop.log.started|)
    && |s.loop.log.started| == |s.loop.log.completed| + |s.workers|
  }

  ghost predicate Inv(s: System) {
    Keyed(s.loop) && SingleFlight(s) && HistoriesSound(s) && Accounted(s)
  }

  lemma BootInv()
    ensures Inv(BOOT)
  {
    forall ns ensures SlotInv(View(BOOT.loop, ns), 0, 0) && Flight(map[], ns, View(BOOT.loop, ns)) {
      assert View(BOOT.loop, ns) == FRESH_SLOT;
    }
  }

  lemma MessageIsLegal(s: System, a: Action)
    requires SingleFlight(s) && Message(s, a).Some?
    ensures var i := Message(s, a).value;
            Legal(View(s.loop, i.event.namespace), i, s.clock, |s.loop.log.received|)
  {
    if a.Ack? {
      var ns := s.workers[a.g].event.namespace;
      assert Flight(s.workers, ns, View(s.loop, ns)) && Carries(s.workers, a.g, ns);
    }
  }

  /** A message adds at most one request to `started`, for its own namespace. */
  lemma StartsAtMostOne(l: Loop, i: Input)
    requires Keyed(l)
    ensures var started, started' := l.log.started, LoopStep(l, i).log.started;
            && started <= started' && |started'| <= |started| + 1
            && (|started'| > |started| ==> started'[|started|].event.namespace == i.event.namespace)
    ensures |LoopStep(l, i).log.completed| == |l.log.completed| + if i.Done? then 1 else 0
    ensures |LoopStep(l, i).log.received| == |l.log.received| + if i.Receive? then 1 else 0
  {
  }

  lemma HistoriesStep(s: System, a: Action)
    requires Inv(s) && Message(s, a).Some?
    ensures HistoriesSound(Step(s, a))
  {
    var i, t := Message(s, a).value, Step(s, a);
    var next := |s.loop.log.received|;
    MessageIsLegal(s, a);
    StartsAtMostOne(s.loop, i);
    forall ns ensures SlotInv(View(t.loop, ns), t.clock, |t.loop.log.received|) {
      ViewOfStep(s.loop, i, ns);
      assert SlotInv(View(s.loop, ns), s.clock, next);
      if i.event.namespace == ns {
        SlotInvStep(View(s.loop, ns), i, s.clock, next);
        SlotInvLater(View(t.loop, ns), t.clock, NextSerial(i, next), t.clock, |t.loop.log.received|);
      } else {
        SlotInvLater(View(s.loop, ns), s.clock, next, t.clock, |t.loop.log.received|);
      }
    }
  }

  /** A slot step either starts a request, which is then last started and keeps the slot busy, or starts
      none and leaves the slot idle unless it was busy and got one more request. */
  lemma SlotStarts(s: Slot, i: Input)
    requires s.waiting.Some? ==> s.busy
    ensures var t := SlotStep(s, i);
            && (t.log.started != s.log.started ==>
                  t.busy && |t.log.started| == |s.log.started| + 1 && (i.Receive? ==> !s.busy))
            && (t.log.started == s.log.started ==> (t.busy <==> s.busy && i.Receive?))
  {
  }

  lemma FlightUnaffected(workers: Workers, workers': Workers, ns: string, slot: Slot)
    requires Flight(workers, ns, slot)
    requires forall g: nat :: Carries(workers', g, ns) ==>
               Carries(workers, g, ns) && workers'[g].event == workers[g].event
    requires forall g: nat :: Carries(workers, g, ns) ==> Carries(workers', g, ns)
    ensures Flight(workers', ns, slot)
  {
  }

  lemma LaunchIsAlone(workers: Workers, n: nat, event: Event, ns: string, slot: Slot)
    requires forall g: nat :: !Carries(workers, g, ns)
    requires event.namespace == ns && slot.busy && slot.log.started != [] && Last(slot.log.started).event == event
    ensures Flight(workers[n := Worker(event, Calling)], ns, slot)
  {
    var launched := workers[n := Worker(event, Calling)];
    forall g: nat ensures Carries(launched, g, ns) <==> g == n {
      assert !Carries(workers, g, ns);
    }
    assert Carries(launched, n, ns);
  }

  /** The namespace of the message: `workers` are the goroutines left before a launch. */
  lemma FlightOfOwn(l: Loop, i: Input, workers: Workers)
    requires Keyed(l)
    requires forall g <- workers :: g < |l.log.started|
    requires var slot := View(l, i.event.namespace);
             (slot.waiting.Some? ==> slot.busy)
             && (i.Receive? ==> Flight(workers, i.event.namespace, slot))
             && (i.Done? ==> forall g: nat :: !Carries(workers, g, i.event.namespace))
    ensures Flight(Launch(workers, l, LoopStep(l, i)), i.event.namespace, View(LoopStep(l, i), i.event.namespace))
  {
    var ns, l' := i.event.namespace, LoopStep(l, i);
    var slot, slot' := View(l, ns), View(l', ns);
    StartsAtMostOne(l, i);
    ViewOfStep(l, i, ns);
    SlotStarts(slot, i);
    var n := |l.log.started|;
    if n < |l'.log.started| {
      assert l'.log.started == l.log.started + [l'.log.started[n]];
      OnlyAppend(l.log.started, l'.log.started[n], ns);
      assert slot'.log.started == slot.log.started + [l'.log.started[n]];
      assert forall g: nat :: !Carries(workers, g, ns);
      LaunchIsAlone(workers, n, l'.log.started[n].event, ns, slot');
    } else {
      assert l'.log.started == l.log.started;
    }
  }

  /** When its only goroutine is gone, a namespace has none. */
  lemma NoneLeft(workers: Workers, g: nat, ns: string, slot: Slot)
    requires Flight(workers, ns, slot) && Carries(workers, g, ns)
    ensures forall h: nat :: !Carries(workers - {g}, h, ns)
  {
    forall h: nat ensures !Carries(workers - {g}, h, ns) {
      assert Carries(workers - {g}, h, ns) ==> Carries(workers, h, ns) && h != g;
    }
  }

  /** Other namespaces keep their goroutines. */
  lemma FlightOfOther(s: System, i: Input, left: Workers, ns: string)
    requires Keyed(s.loop) && i.event.namespace != ns
    requires Flight(s.workers, ns, View(s.loop, ns)) && forall g <- s.workers :: g < |s.loop.log.started|
    requires || left == s.workers
             || exists g: nat :: Carries(s.workers, g, i.event.namespace) && left == s.workers - {g}
    ensures Flight(Launch(left, s.loop, LoopStep(s.loop, i)), ns, View(LoopStep(s.loop, i), ns))
  {
    StartsAtMostOne(s.loop, i);
    ViewOfStep(s.loop, i, ns);
    FlightUnaffected(s.workers, Launch(left, s.loop, LoopStep(s.loop, i)), ns, View(s.loop, ns));
  }

  lemma FlightStep(s: System, a: Action)
    requires Keyed(s.loop) && SingleFlight(s) && HistoriesSound(s) && Accounted(s) && Message(s, a).Some?
    ensures SingleFlight(Step(s, a))
  {
    var i, t := Message(s, a).value, Step(s, a);
    var left := if a.Ack? then s.workers - {a.g} else s.workers;
    forall ns ensures Flight(t.workers, ns, View(t.loop, ns)) {
      assert Flight(s.workers, ns, View(s.loop, ns));
      if a.Ack? {
        assert Carries(s.workers, a.g, i.event.namespace);
      }
      if i.event.namespace == ns {
        assert SlotInv(View(s.loop, ns), s.clock, |s.loop.log.received|);
        if a.Ack? {
          NoneLeft(s.workers, a.g, ns, View(s.loop, ns));
        }
        FlightOfOwn(s.loop, i, left);
      } else {
        FlightOfOther(s, i, left, ns);
      }
    }
  }

  lemma AccountedStep(s: System, a: Action)
    requires Keyed(s.loop) && Accounted(s) && Message(s, a).Some?
    ensures Accounted(Step(s, a))
  {
    StartsAtMostOne(s.loop, Message(s, a).value);
  }

  lemma StepInv(s: System, a: Action)
    requires Inv(s)
    ensures Inv(Step(s, a))
  {
    if Message(s, a).Some? {
      KeyedStep(s.loop, Message(s, a).value);
      HistoriesStep(s, a);
      FlightStep(s, a);
      AccountedStep(s, a);
    } else if Enabled(s, a) {
      QuietStep(s, a);
    }
  }

  /** Publishing and consuming results leaves the loop alone, and every goroutine with its event. */
  lemma QuietStep(s: System, a: Action)
    requires Inv(s) && Enabled(s, a) && Message(s, a).None?
    ensures Inv(Step(s, a))
  {
    var t := Step(s, a);
    assert t.loop == s.loop && t.clock == s.clock;
    assert t.workers.Keys == s.workers.Keys;
    assert |t.workers| == |t.workers.Keys| == |s.workers|;
    QuietFlight(s, t);
  }

  lemma QuietFlight(s: System, t: System)
    requires SingleFlight(s) && t.loop == s.loop && t.workers.Keys == s.workers.Keys
    requires forall g <- s.workers :: t.workers[g].event == s.workers[g].event
    ensures SingleFlight(t)
  {
    forall ns ensures Flight(t.workers, ns, View(t.loop, ns)) {
      assert Flight(s.workers, ns, View(s.loop, ns));
      FlightUnaffected(s.workers, t.workers, ns, View(s.loop, ns));
    }
  }

  lemma {:induction false} RunInv(s: System, actions: seq<Action>)
    requires Inv(s)
    ensures Inv(Run(s, actions))
    decreases |actions|
  {
    if actions != [] {
      StepInv(s, actions[0]);
      RunInv(Step(s, actions[0]), actions[1..]);
    }
  }

  // ---------- What every run guarantees ----------

  /** The goroutines out for a namespace. */
  function InFlight(s: System, ns: string): set<nat> {
    set g | g in s.workers && s.workers[g].event.namespace == ns
  }

  lemma FlightCount(s: System, ns: string, slot: Slot)
    requires Flight(s.workers, ns, slot)
    ensures |InFlight(s, ns)| == if slot.busy then 1 else 0
  {
    forall g: nat ensures g in InFlight(s, ns) <==> Carries(s.workers, g, ns) {
    }
    if slot.busy {
      var g: nat :| Carries(s.workers, g, ns);
      assert InFlight(s, ns) == {g};
    } else {
      assert InFlight(s, ns) == {};
    }
  }

  /** Single flight: at every point of every run, a namespace marked in progress has one goroutine out, any
      other none; and only a namespace in progress has a request waiting. */
  lemma SingleFlightAlways(actions: seq<Action>, ns: string)
    ensures var s := Run(BOOT, actions);
            && |InFlight(s, ns)| == (if Busy(s.loop, ns) then 1 else 0)
            && (ns in s.loop.pending ==> Busy(s.loop, ns) && s.loop.pending[ns].namespace == ns)
  {
    BootInv();
    RunInv(BOOT, actions);
    var s := Run(BOOT, actions);
    FlightCount(s, ns, View(s.loop, ns));
  }

  /** Where entry `i` of a history ends up in the history of its namespace. */
  function Position(marks: seq<Mark>, i: nat): nat
    requires i < |marks|
  {
    |Only(marks[..i], marks[i].event.namespace)|
  }

  lemma {:induction false} OnlyGrows(marks: seq<Mark>, i: nat, ns: string)
    requires i <= |marks|
    ensures Only(marks[..i], ns) <= Only(marks, ns)
  {
    if i < |marks| {
      var rest := marks[..|marks| - 1];
      OnlyGrows(rest, i, ns);
      assert rest[..i] == marks[..i];
    } else {
      assert marks[..i] == marks;
    }
  }

  lemma PositionOf(marks: seq<Mark>, i: nat)
    requires i < |marks|
    ensures var own := Only(marks, marks[i].event.namespace);
            Position(marks, i) < |own| && own[Position(marks, i)] == marks[i]
  {
    var ns := marks[i].event.namespace;
    assert marks[..i + 1] == marks[..i] + [marks[i]];
    OnlyAppend(marks[..i], marks[i], ns);
    OnlyGrows(marks, i + 1, ns);
  }

  lemma PositionsAscend(marks: seq<Mark>, i: nat, j: nat)
    requires i < j < |marks| && marks[i].event.namespace == marks[j].event.namespace
    ensures Position(marks, i) < Position(marks, j)
  {
    var ns := marks[i].event.namespace;
    assert marks[..j][..i] == marks[..i];
    assert marks[..i + 1] == marks[..i] + [marks[i]];
    assert marks[..j][..i + 1] == marks[..i + 1];
    OnlyAppend(marks[..i], marks[i], ns);
    OnlyGrows(marks[..j], i + 1, ns);
  }

  lemma {:induction false} OnlyIsPart(marks: seq<Mark>, ns: string, m: Mark)
    ensures m in Only(marks, ns) <==> m in marks && m.event.namespace == ns
  {
    if marks != [] {
      OnlyIsPart(marks[..|marks| - 1], ns, m);
      assert marks == marks[..|marks| - 1] + [marks[|marks| - 1]];
    }
  }

  /** Cooldown over whole runs: of two resizes started for one namespace, adjacent or not, the later one
      is smaller in CPU or memory only if it started at least a minute after the earlier one completed,
      whether that one failed or not. */
  lemma CooldownAlways(actions: seq<Action>, i: nat, j: nat)
    requires var started := Run(BOOT, actions).loop.log.started;
             && i < j < |started|
             && started[i].event.namespace == started[j].event.namespace
             && (|| started[j].event.newSize.cpu < started[i].event.newSize.cpu
                 || started[j].event.newSize.memory < started[i].event.newSize.memory)
    ensures var log := Run(BOOT, actions).loop.log;
            exists c <- log.completed ::
              c.event == log.started[i].event && log.started[j].at - c.at >= 60 * 1_000_000_000
  {
    BootInv();
    RunInv(BOOT, actions);
    var s := Run(BOOT, actions);
    var log, ns := s.loop.log, s.loop.log.started[i].event.namespace;
    var slot := View(s.loop, ns);
    assert SlotInv(slot, s.clock, |log.received|);
    PositionOf(log.started, i);
    PositionOf(log.started, j);
    PositionsAscend(log.started, i, j);
    var k := Position(log.started, i);
    CooldownBetween(slot, k, Position(log.started, j));
    OnlyIsPart(log.completed, ns, slot.log.completed[k]);
    assert slot.log.completed[k].event == log.started[i].event;
  }

  /** Conservation and order: in every namespace each received request is exactly one of started,
      superseded, refused and waiting, and nothing else is any of these; requests start in arrival order,
      each once; and over all namespaces what was started has completed or is in flight. */
  lemma NothingLostOrRepeated(actions: seq<Action>, ns: string)
    ensures var s := Run(BOOT, actions);
            var own := OnlyLog(s.loop.log, ns);
            && (forall e: Event ::
                  multiset(Events(own.started))[e] + multiset(Events(own.superseded))[e]
                  + multiset(Events(own.rejected))[e] + Waiting(View(s.loop, ns))[e]
                  == if e in Events(own.received) then 1 else 0)
            && Ordered(own.received)
            && Ordered(own.started)
            && Subsequence(Events(own.started), Events(own.received))
            && |s.loop.log.started| == |s.loop.log.completed| + |s.workers|
  {
    BootInv();
    RunInv(BOOT, actions);
    var s := Run(BOOT, actions);
    var slot := View(s.loop, ns);
    assert SlotInv(slot, s.clock, |s.loop.log.received|);
    StartedInOrder(slot, s.clock, |s.loop.log.received|);
    forall e: Event ensures multiset(Events(slot.log.started))[e] + multiset(Events(slot.log.superseded))[e]
                  + multiset(Events(slot.log.rejected))[e] + Waiting(slot)[e]
                  == if e in Events(slot.log.received) then 1 else 0 {
      OneFateEach(slot, s.clock, |s.loop.log.received|, e);
    }
  }

  /** Latest wins: once no goroutine is out for a namespace, its newest request was the last one started
      or was refused, as a smaller request within a minute of a completion. */
  lemma LatestWinsWhenIdle(actions: seq<Action>, ns: string)
    requires var s := Run(BOOT, actions);
             InFlight(s, ns) == {} && Only(s.loop.log.received, ns) != []
    ensures var own := OnlyLog(Run(BOOT, actions).loop.log, ns);
            var newest := Last(own.received).event;
            || (own.started != [] && Last(own.started).event == newest)
            || (own.rejected != [] && Last(own.rejected).event == newest
                && exists c <- own.completed ::
                     CoolsDown(Some(ResizeCache(c.at, c.event)), newest.newSize, Last(own.rejected).at))
  {
    BootInv();
    RunInv(BOOT, actions);
    SingleFlightAlways(actions, ns);
    var s := Run(BOOT, actions);
    var slot := View(s.loop, ns);
    assert SlotInv(slot, s.clock, |s.loop.log.received|);
    if slot.log.rejected != [] {
      var r := Last(slot.log.rejected);
      assert r in slot.log.rejected;
      assert Refused(slot, r);
      var k :| 0 <= k < |slot.log.completed| && Undercuts(r, slot.log.completed[k]);
      assert slot.log.completed[k] in slot.log.completed;
    }
  }

  /** When the sizes asked for a namespace never shrink, nothing is refused, and the last resize started
      is the last request received, for any burst and any interleaving. */
  lemma GrowingNamespaceGetsLatest(actions: seq<Action>, ns: string)
    requires Growing(Only(Run(BOOT, actions).loop.log.received, ns))
    ensures var s := Run(BOOT, actions);
            var own := OnlyLog(s.loop.log, ns);
            && own.rejected == []
            && (InFlight(s, ns) == {} && own.received != [] ==>
                  own.started != [] && Last(own.started).event == Last(own.received).event)
  {
    BootInv();
    RunInv(BOOT, actions);
    SingleFlightAlways(actions, ns);
    var s := Run(BOOT, actions);
    assert SlotInv(View(s.loop, ns), s.clock, |s.loop.log.received|);
    GrowingRequestsAllServed(View(s.loop, ns), s.clock, |s.loop.log.received|);
  }
}
