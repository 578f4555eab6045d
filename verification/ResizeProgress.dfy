/** Progress of the resize machinery: it drains, it never blocks on the result channel, and its runs are
    exactly the interleavings of one-slot runs. */
module ResizeProgress {
  import opened ResizeProtocol
  import opened SlotSafety
  import opened ResizeSystem

  // ---------- Drain ----------

  function CallingOnes(workers: Workers): set<nat> {
    set g | g in workers && workers[g].phase == Calling
  }

  /** The worker steps still owed: two for each waiting request, one or two for each goroutine. */
  function Backlog(s: System): nat {
    2 * |s.loop.pending| + |s.workers| + |CallingOnes(s.workers)|
  }

  predicate WorkerStep(a: Action) {
    a.Finish? || a.Ack?
  }

  lemma RemoveOne<K, V>(m: map<K, V>, k: K)
    requires k in m
    ensures |m - {k}| == |m| - 1
  {
    assert (m - {k}).Keys == m.Keys - {k};
    assert |(m - {k}).Keys| == |m.Keys| - 1;
    assert |m - {k}| == |(m - {k}).Keys| && |m| == |m.Keys|;
  }

  lemma InsertOne<K, V>(m: map<K, V>, k: K, v: V)
    ensures |m[k := v]| == |m| + if k in m then 0 else 1
  {
    assert m[k := v].Keys == m.Keys + {k};
    assert |m[k := v]| == |m[k := v].Keys| && |m| == |m.Keys|;
  }

  lemma FinishOwesLess(s: System, a: Action)
    requires Enabled(s, a) && a.Finish?
    ensures Backlog(Step(s, a)) == Backlog(s) - 1
  {
    var t := Step(s, a);
    InsertOne(s.workers, a.g, t.workers[a.g]);
    assert CallingOnes(t.workers) == CallingOnes(s.workers) - {a.g};
  }

  lemma LaunchOwes(workers: Workers, before: Loop, after: Loop)
    requires |before.log.started| !in workers
    ensures var launched := Launch(workers, before, after);
            var extra := if |before.log.started| < |after.log.started| then 1 else 0;
            |launched| == |workers| + extra && |CallingOnes(launched)| == |CallingOnes(workers)| + extra
  {
    var n := |before.log.started|;
    if n < |after.log.started| {
      var w := Worker(after.log.started[n].event, Calling);
      InsertOne(workers, n, w);
      assert CallingOnes(workers[n := w]) == CallingOnes(workers) + {n};
    }
  }

  lemma AckOwesLess(s: System, a: Action)
    requires Keyed(s.loop) && Accounted(s) && Enabled(s, a) && a.Ack?
    ensures Backlog(Step(s, a)) < Backlog(s)
  {
    var done := s.workers[a.g].event;
    var left, after := s.workers - {a.g}, OnDone(s.loop, done, a.stamp, a.now);
    RemoveOne(s.workers, a.g);
    assert CallingOnes(left) == CallingOnes(s.workers);
    LaunchOwes(left, s.loop, after);
    StartsAtMostOne(s.loop, Done(done, a.stamp, a.now));
    if done.namespace in s.loop.pending {
      RemoveOne(s.loop.pending, done.namespace);
    }
  }

  /** How many worker steps of a schedule take place. */
  function WorkerSteps(s: System, actions: seq<Action>): nat
    decreases |actions|
  {
    if actions == [] then 0
    else (if Enabled(s, actions[0]) && WorkerStep(actions[0]) then 1 else 0)
         + WorkerSteps(Step(s, actions[0]), actions[1..])
  }

  ghost predicate NoArrivals(actions: seq<Action>) {
    forall a <- actions :: !a.Arrive?
  }

  lemma StepOwesLess(s: System, a: Action)
    requires Inv(s) && Enabled(s, a) && !a.Arrive?
    ensures Backlog(Step(s, a)) + (if WorkerStep(a) then 1 else 0) <= Backlog(s)
  {
    match a
    case Finish(_, _) => FinishOwesLess(s, a);
    case Ack(_, _, _) => AckOwesLess(s, a);
    case Consume =>
  }

  /** Without new requests every schedule takes at most `Backlog` worker steps: each one takes place only
      once, and shrinks what is left. */
  lemma {:induction false} EveryScheduleDrains(s: System, actions: seq<Action>)
    requires Inv(s) && NoArrivals(actions)
    ensures Backlog(Run(s, actions)) + WorkerSteps(s, actions) <= Backlog(s)
    decreases |actions|
  {
    if actions != [] {
      StepInv(s, actions[0]);
      if Enabled(s, actions[0]) {
        StepOwesLess(s, actions[0]);
      }
      EveryScheduleDrains(Step(s, actions[0]), actions[1..]);
    }
  }

  /** Nothing is in flight, waiting or marked in progress. */
  ghost predicate AllIdle(s: System) {
    s.workers == map[] && s.loop.pending == map[] && forall ns :: !Busy(s.loop, ns)
  }

  lemma NothingOwedMeansIdle(s: System)
    requires Inv(s)
    ensures Backlog(s) == 0 <==> AllIdle(s)
    ensures s.workers == map[] <==> AllIdle(s)
  {
    assert |s.workers| == 0 <==> s.workers == map[];
    assert |s.loop.pending| == 0 <==> s.loop.pending == map[];
    if s.workers == map[] {
      forall ns ensures !Busy(s.loop, ns) {
        assert Flight(s.workers, ns, View(s.loop, ns));
      }
      forall ns ensures ns !in s.loop.pending {
        assert ns in s.loop.pending ==> Busy(s.loop, ns);
      }
      assert CallingOnes(s.workers) == {};
    }
  }

  /** Publishing does not block, and the handlers of the loop contain no send, so the loop always returns to
      the select that takes acknowledgements: the next step of each goroutine is enabled. */
  lemma EachGoroutineCanStep(s: System, g: nat, failed: bool)
    requires g in s.workers
    ensures Enabled(s, Finish(g, failed)) || Enabled(s, Ack(g, s.clock, s.clock))
  {
    match s.workers[g].phase
    case Calling =>
    case Acking =>
  }

  /** From every state a schedule without consumption of results reaches the all-idle state in at most
      `Backlog` steps. */
  lemma {:induction false} DrainIsPossible(s: System) returns (plan: seq<Action>)
    requires Inv(s)
    ensures NoArrivals(plan) && (forall a <- plan :: WorkerStep(a)) && |plan| <= Backlog(s)
    ensures AllIdle(Run(s, plan))
    decreases Backlog(s)
  {
    NothingOwedMeansIdle(s);
    if s.workers == map[] {
      plan := [];
    } else {
      var g :| g in s.workers;
      EachGoroutineCanStep(s, g, false);
      var a := if Enabled(s, Finish(g, false)) then Finish(g, false) else Ack(g, s.clock, s.clock);
      StepInv(s, a);
      StepOwesLess(s, a);
      var rest := DrainIsPossible(Step(s, a));
      plan := [a] + rest;
      assert plan[1..] == rest;
    }
  }

  // ---------- The result channel ----------

  function Delivered(offers: seq<Offer>): seq<ResizeResult> {
    if offers == [] then []
    else
      var rest, last := Delivered(offers[..|offers| - 1]), offers[|offers| - 1];
      if last.delivered then rest + [last.result] else rest
  }

  /** A publication goes through exactly when fewer than the channel's capacity of the results delivered
      before it were still unread. */
  ghost predicate LostOnlyWhenFull(offers: seq<Offer>) {
    forall k :: 0 <= k < |offers| ==>
      (offers[k].delivered <==> |Delivered(offers[..k])| - offers[k].taken < 1024)
  }

  ghost predicate ChannelSound(s: System) {
    && |s.results| <= 1024
    && Delivered(s.offers) == s.consumed + s.results
    && LostOnlyWhenFull(s.offers)
  }

  lemma DeliveredAppend(offers: seq<Offer>, o: Offer)
    ensures Delivered(offers + [o]) == if o.delivered then Delivered(offers) + [o.result] else Delivered(offers)
  {
    assert (offers + [o])[..|offers|] == offers;
  }

  lemma LostAppend(offers: seq<Offer>, o: Offer)
    requires LostOnlyWhenFull(offers)
    requires o.delivered <==> |Delivered(offers)| - o.taken < RESULT_SLOTS
    ensures LostOnlyWhenFull(offers + [o])
  {
    var longer := offers + [o];
    forall k | 0 <= k < |longer|
      ensures longer[k].delivered <==> |Delivered(longer[..k])| - longer[k].taken < RESULT_SLOTS
    {
      assert longer[..k] == offers[..k];
      assert offers[..|offers|] == offers;
    }
  }

  lemma PublishKeepsChannel(s: System, r: ResizeResult)
    requires ChannelSound(s)
    ensures ChannelSound(Publish(s, r))
  {
    var o := Offer(r, |s.results| < RESULT_SLOTS, |s.consumed|);
    DeliveredAppend(s.offers, o);
    LostAppend(s.offers, o);
    if |s.results| < RESULT_SLOTS {
      assert s.consumed + s.results + [r] == s.consumed + (s.results + [r]);
    }
  }

  lemma ConsumeKeepsChannel(s: System)
    requires ChannelSound(s) && s.results != []
    ensures ChannelSound(Step(s, Consume))
  {
    assert s.results == [s.results[0]] + s.results[1..];
  }

  lemma ChannelStep(s: System, a: Action)
    requires ChannelSound(s)
    ensures ChannelSound(Step(s, a))
  {
    if Enabled(s, a) {
      var t := Step(s, a);
      match a
      case Finish(g, failed) =>
        var r := ResizeResult(s.workers[g].event, failed);
        PublishKeepsChannel(s, r);
        assert t.results == Publish(s, r).results && t.offers == Publish(s, r).offers && t.consumed == s.consumed;
      case Consume => ConsumeKeepsChannel(s);
      case _ => assert t.results == s.results && t.offers == s.offers && t.consumed == s.consumed;
    }
  }

  /** The result channel never exceeds its capacity, the reader sees the delivered results in publication
      order, and a result is dropped exactly when the channel is full. */
  lemma {:induction false} ChannelAlwaysSound(s: System, actions: seq<Action>)
    requires ChannelSound(s)
    ensures ChannelSound(Run(s, actions))
    decreases |actions|
  {
    if actions != [] {
      ChannelStep(s, actions[0]);
      ChannelAlwaysSound(Step(s, actions[0]), actions[1..]);
    }
  }

  /** What the resize calls that return in a run return, in the order they do. */
  function CallsReturned(s: System, actions: seq<Action>): seq<ResizeResult>
    decreases |actions|
  {
    if actions == [] then []
    else
      var rest, a := CallsReturned(Step(s, actions[0]), actions[1..]), actions[0];
      if a.Finish? && a.g in s.workers && s.workers[a.g].phase == Calling then
        [ResizeResult(s.workers[a.g].event, a.failed)] + rest
      else rest
  }

  function Outcomes(offers: seq<Offer>): (results: seq<ResizeResult>)
    ensures |results| == |offers|
  {
    seq(|offers|, i requires 0 <= i < |offers| => offers[i].result)
  }

  /** Every call that returns offers its result, failed or not, once and in order, and nothing else does. */
  lemma {:induction false} EachCallIsPublished(s: System, actions: seq<Action>)
    ensures Outcomes(Run(s, actions).offers) == Outcomes(s.offers) + CallsReturned(s, actions)
    decreases |actions|
  {
    if actions != [] {
      EachCallIsPublished(Step(s, actions[0]), actions[1..]);
    }
  }

  // ---------- Runs of the system and runs of the slots ----------

  /** Completions reported to a slot are of the resize it has in flight. */
  predicate InOrder(s: Slot, inputs: seq<Input>)
    decreases |inputs|
  {
    inputs == [] || (
      && (inputs[0].Done? ==>
            s.busy && s.log.started != [] && inputs[0].event == Last(s.log.started).event)
      && InOrder(SlotStep(s, inputs[0]), inputs[1..]))
  }

  /** The clock does not go back. */
  predicate Timed(inputs: seq<Input>, clock: int)
    decreases |inputs|
  {
    inputs == [] || (
      && clock <= inputs[0].now
      && (inputs[0].Done? ==> clock <= inputs[0].stamp <= inputs[0].now)
      && Timed(inputs[1..], inputs[0].now))
  }

  /** Requests are numbered in arrival order. */
  predicate Numbered(inputs: seq<Input>, next: nat)
    decreases |inputs|
  {
    inputs == [] || (
      && (inputs[0].Receive? ==> inputs[0].event.serial == next)
      && Numbered(inputs[1..], if inputs[0].Receive? then next + 1 else next))
  }

  lemma ProjectCons(i: Input, rest: seq<Input>, ns: string)
    ensures Project([i] + rest, ns)
         == if i.event.namespace == ns then [i] + Project(rest, ns) else Project(rest, ns)
  {
    assert ([i] + rest)[1..] == rest;
  }

  /** Legality of a slot run, one message at a time. */
  lemma InOrderCons(l: Loop, i: Input, rest: seq<Input>, ns: string)
    requires Keyed(l)
    ensures var slot := View(l, ns);
            var head := i.event.namespace == ns && i.Done? ==>
              slot.busy && slot.log.started != [] && i.event == Last(slot.log.started).event;
            InOrder(slot, Project([i] + rest, ns)) <==> head && InOrder(View(LoopStep(l, i), ns), Project(rest, ns))
  {
    ViewOfStep(l, i, ns);
    ProjectCons(i, rest, ns);
    var mine := Project(rest, ns);
    assert ([i] + mine)[1..] == mine;
  }

  /** The messages of a run, seen by one namespace, are a legal run of its slot. */
  lemma {:induction false} RunsProjectToSlotRuns(s: System, actions: seq<Action>, ns: string)
    requires Inv(s)
    ensures LoopRun(s.loop, Messages(s, actions)) == Run(s, actions).loop
    ensures Timed(Messages(s, actions), s.clock) && Numbered(Messages(s, actions), |s.loop.log.received|)
    ensures InOrder(View(s.loop, ns), Project(Messages(s, actions), ns))
    decreases |actions|
  {
    if actions != [] {
      var t := Step(s, actions[0]);
      StepInv(s, actions[0]);
      RunsProjectToSlotRuns(t, actions[1..], ns);
      if Message(s, actions[0]).Some? {
        MessageExtendsRun(s, actions[0], Messages(t, actions[1..]), ns);
      } else {
        assert t.loop == s.loop && t.clock == s.clock;
      }
    }
  }

  lemma MessageExtendsRun(s: System, a: Action, rest: seq<Input>, ns: string)
    requires Keyed(s.loop) && SingleFlight(s) && Message(s, a).Some?
    requires var t := Step(s, a);
             && Timed(rest, t.clock) && Numbered(rest, |t.loop.log.received|)
             && InOrder(View(t.loop, ns), Project(rest, ns))
    ensures var inputs := [Message(s, a).value] + rest;
            && Timed(inputs, s.clock) && Numbered(inputs, |s.loop.log.received|)
            && InOrder(View(s.loop, ns), Project(inputs, ns))
            && LoopRun(s.loop, inputs) == LoopRun(Step(s, a).loop, rest)
  {
    var i := Message(s, a).value;
    assert ([i] + rest)[1..] == rest;
    MessageIsLegal(s, a);
    StartsAtMostOne(s.loop, i);
    InOrderCons(s.loop, i, rest, ns);
  }

  ghost predicate AllCalling(s: System) {
    forall g <- s.workers :: s.workers[g].phase == Calling
  }

  ghost predicate AllInOrder(l: Loop, inputs: seq<Input>) {
    forall ns :: InOrder(View(l, ns), Project(inputs, ns))
  }

  lemma AllInOrderTail(l: Loop, i: Input, rest: seq<Input>)
    requires Keyed(l) && AllInOrder(l, [i] + rest)
    ensures AllInOrder(LoopStep(l, i), rest)
    ensures var slot := View(l, i.event.namespace);
            i.Done? ==> slot.busy && slot.log.started != [] && i.event == Last(slot.log.started).event
  {
    forall ns ensures InOrder(View(LoopStep(l, i), ns), Project(rest, ns)) {
      assert InOrder(View(l, ns), Project([i] + rest, ns));
      InOrderCons(l, i, rest, ns);
    }
    InOrderCons(l, i, rest, i.event.namespace);
    assert InOrder(View(l, i.event.namespace), Project([i] + rest, i.event.namespace));
  }

  /** Conversely, one-slot runs of any number of namespaces can be interleaved freely: every message
      sequence that is well timed, numbered, and legal for each slot by itself is the message sequence of
      a run of the system. */
  lemma {:induction false} SlotRunsInterleave(s: System, inputs: seq<Input>) returns (actions: seq<Action>)
    requires Inv(s) && AllCalling(s)
    requires Timed(inputs, s.clock) && Numbered(inputs, |s.loop.log.received|)
    requires AllInOrder(s.loop, inputs)
    ensures Messages(s, actions) == inputs
    decreases |inputs|
  {
    if inputs == [] {
      actions := [];
    } else {
      assert inputs == [inputs[0]] + inputs[1..];
      AllInOrderTail(s.loop, inputs[0], inputs[1..]);
      var steps := StepsFor(s, inputs[0]);
      RunInv(s, steps);
      var rest := SlotRunsInterleave(Run(s, steps), inputs[1..]);
      MessagesCompose(s, steps, rest);
      actions := steps + rest;
    }
  }

  lemma {:induction false} MessagesCompose(s: System, first: seq<Action>, second: seq<Action>)
    ensures Messages(s, first + second) == Messages(s, first) + Messages(Run(s, first), second)
    decreases |first|
  {
    if first == [] {
      assert first + second == second;
    } else {
      assert (first + second)[1..] == first[1..] + second;
      MessagesCompose(Step(s, first[0]), first[1..], second);
    }
  }

  /** The actions that put one legal message in front of the loop. */
  lemma StepsFor(s: System, i: Input) returns (steps: seq<Action>)
    requires Keyed(s.loop) && SingleFlight(s) && AllCalling(s)
    requires s.clock <= i.now && (i.Done? ==> s.clock <= i.stamp <= i.now)
    requires i.Receive? ==> i.event.serial == |s.loop.log.received|
    requires var slot := View(s.loop, i.event.namespace);
             i.Done? ==> slot.busy && slot.log.started != [] && i.event == Last(slot.log.started).event
    ensures Messages(s, steps) == [i]
    ensures var t := Run(s, steps);
            && t.loop == LoopStep(s.loop, i)
            && t.clock == i.now
            && |t.loop.log.received| == |s.loop.log.received| + (if i.Receive? then 1 else 0)
            && AllCalling(t)
  {
    StartsAtMostOne(s.loop, i);
    match i
    case Receive(event, now) =>
      var a := Arrive(event, now);
      steps := [a];
      assert steps[1..] == [];
      assert Run(s, steps) == Run(Step(s, a), []);
      assert Messages(s, steps) == [i] + Messages(Step(s, a), []);
    case Done(event, stamp, now) =>
      assert Flight(s.workers, event.namespace, View(s.loop, event.namespace));
      var g: nat :| Carries(s.workers, g, event.namespace);
      var f, a := Finish(g, false), Ack(g, stamp, now);
      steps := [f, a];
      assert steps[1..] == [a] && [a][1..] == [];
      var mid := Step(s, f);
      assert Enabled(mid, a);
      assert Run(s, steps) == Run(mid, [a]) == Run(Step(mid, a), []);
      assert Messages(mid, [a]) == [i] + Messages(Step(mid, a), []);
  }
}
