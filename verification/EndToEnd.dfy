/** The decision pipeline feeding the resize loop, and a quota that follows its resize calls. */
module EndToEnd {
  import opened Quantities
  import opened ResizeProtocol
  import opened ResizeSystem
  import opened Scaling
  import opened Decision
  import opened ClosedLoop
  import opened Settling
  import opened Swinging

  /** The request as the loop receives it. */
  function AsEvent(r: Request, serial: nat): Event {
    Event(serial, r.namespace, r.resourceQuota, r.oldSize, r.newSize)
  }

  // ---------- The quota follows the calls ----------

  /** The size of the quota of a namespace, and the last resize call that returned for it. */
  datatype Followed = Followed(size: Amount, last: Option<ResizeResult>)

  /** The result of a call that returns in this step. */
  function Returned(s: System, a: Action, ns: string): Option<ResizeResult> {
    if a.Finish? && Enabled(s, a) && s.workers[a.g].event.namespace == ns then
      Some(ResizeResult(s.workers[a.g].event, a.failed))
    else None
  }

  /** A call that succeeds sets the size of the quota, a failed one leaves it alone. */
  function FollowStep(s: System, a: Action, ns: string, f: Followed): Followed {
    var r := Returned(s, a, ns);
    if r.None? then f else Followed(if r.value.failed then f.size else r.value.event.newSize, r)
  }

  function Follow(s: System, actions: seq<Action>, ns: string, f: Followed): Followed
    decreases |actions|
  {
    if actions == [] then f else Follow(Step(s, actions[0]), actions[1..], ns, FollowStep(s, actions[0], ns, f))
  }

  /** What the cache of a namespace holds: nothing before the first call. */
  predicate Remembers(cached: Option<ResizeCache>, last: Option<ResizeResult>) {
    if last.None? then cached.None? else cached.Some? && cached.value.event == last.value.event
  }

  /** Between the return of a call and its acknowledgement the goroutine carries the event, else the cache. */
  ghost predicate Tracks(s: System, ns: string, f: Followed) {
    && (forall g: nat :: Carries(s.workers, g, ns) && s.workers[g].phase == Acking ==>
          f.last.Some? && f.last.value.event == s.workers[g].event)
    && ((forall g: nat :: Carries(s.workers, g, ns) ==> s.workers[g].phase == Calling) ==>
          Remembers(Lookup(s.loop.cache, ns), f.last))
    && (f.last.Some? && !f.last.value.failed ==> f.size == f.last.value.event.newSize)
  }

  lemma TracksStep(s: System, a: Action, ns: string, f: Followed)
    requires Inv(s) && Tracks(s, ns, f)
    ensures Tracks(Step(s, a), ns, FollowStep(s, a, ns, f))
  {
    assert Flight(s.workers, ns, View(s.loop, ns));
    if Enabled(s, a) {
      match a
      case Arrive(event, now) => TracksArrive(s, event, now, ns, f);
      case Finish(g, failed) => TracksFinish(s, g, failed, ns, f);
      case Ack(g, stamp, now) => TracksAck(s, g, stamp, now, ns, f);
      case Consume =>
    }
  }

  /** A launch keeps the goroutines that are out; the new one is in its call. */
  lemma LaunchKeeps(left: Workers, before: Loop, after: Loop, ns: string)
    requires forall g <- left :: g < |before.log.started|
    ensures var launched := Launch(left, before, after);
            && (forall g: nat :: Carries(left, g, ns) ==> Carries(launched, g, ns) && launched[g] == left[g])
            && (forall g: nat :: Carries(launched, g, ns) ==> Carries(left, g, ns) || launched[g].phase == Calling)
  {
  }

  lemma TracksArrive(s: System, event: Event, now: int, ns: string, f: Followed)
    requires Inv(s) && Tracks(s, ns, f) && Enabled(s, Arrive(event, now))
    ensures Tracks(Step(s, Arrive(event, now)), ns, f)
  {
    var loop := OnReceive(s.loop, event, now);
    LaunchKeeps(s.workers, s.loop, loop, ns);
    assert loop.cache == s.loop.cache;
  }

  lemma TracksFinish(s: System, g: nat, failed: bool, ns: string, f: Followed)
    requires Inv(s) && Tracks(s, ns, f) && Enabled(s, Finish(g, failed))
    requires Flight(s.workers, ns, View(s.loop, ns))
    ensures Tracks(Step(s, Finish(g, failed)), ns, FollowStep(s, Finish(g, failed), ns, f))
  {
    var t := Step(s, Finish(g, failed));
    forall h: nat ensures Carries(t.workers, h, ns) <==> Carries(s.workers, h, ns) {
    }
    if s.workers[g].event.namespace == ns {
      assert Carries(t.workers, g, ns) && t.workers[g].phase == Acking;
    } else {
      forall h: nat | Carries(s.workers, h, ns) ensures t.workers[h] == s.workers[h] {
      }
    }
  }

  lemma TracksAck(s: System, g: nat, stamp: int, now: int, ns: string, f: Followed)
    requires Inv(s) && Tracks(s, ns, f) && Enabled(s, Ack(g, stamp, now))
    requires Flight(s.workers, ns, View(s.loop, ns))
    ensures Tracks(Step(s, Ack(g, stamp, now)), ns, f)
  {
    var done, left := s.workers[g].event, s.workers - {g};
    var loop := OnDone(s.loop, done, stamp, now);
    assert loop.cache == s.loop.cache[done.namespace := ResizeCache(stamp, done)];
    LaunchKeeps(left, s.loop, loop, ns);
    if done.namespace == ns {
      NoneLeft(s.workers, g, ns, View(s.loop, ns));
      assert Carries(s.workers, g, ns);
    } else {
      forall h: nat ensures Carries(left, h, ns) <==> Carries(s.workers, h, ns) {
      }
    }
  }

  lemma {:induction false} TracksRun(s: System, actions: seq<Action>, ns: string, f: Followed)
    requires Inv(s) && Tracks(s, ns, f)
    ensures Tracks(Run(s, actions), ns, Follow(s, actions, ns, f))
    decreases |actions|
  {
    if actions != [] {
      StepInv(s, actions[0]);
      TracksStep(s, actions[0], ns, f);
      TracksRun(Step(s, actions[0]), actions[1..], ns, FollowStep(s, actions[0], ns, f));
    }
  }

  /** In every run, once no goroutine is out for a namespace its cache holds the last call that returned;
      and the quota has that size if the call succeeded. */
  lemma IdleCacheIsLastCall(actions: seq<Action>, ns: string, size: Amount)
    requires !Busy(Run(BOOT, actions).loop, ns)
    ensures var f := Follow(BOOT, actions, ns, Followed(size, None));
            && Remembers(Lookup(Run(BOOT, actions).loop.cache, ns), f.last)
            && (f.last.Some? && !f.last.value.failed ==> f.size == f.last.value.event.newSize)
  {
    BootInv();
    RunInv(BOOT, actions);
    TracksRun(BOOT, actions, ns, Followed(size, None));
    var s := Run(BOOT, actions);
    assert Flight(s.workers, ns, View(s.loop, ns));
  }

  /** Over runs, for an idle namespace and a request decided at the size the calls gave the quota: the
      request is refused exactly when its CPU or its memory is lower than the last call asked for, within a
      minute of its completion. If that call succeeded, these are the requests that raise nothing, so one
      that raises anything starts. Before the first call every request starts. */
  lemma OnlyRecentScaleDownsAreRefused(
      actions: seq<Action>, spec: ScalerSpec, size: Amount, used: Amount, demand: Amount, inf: int, ns: string,
      serial: nat, now: int)
    requires !Busy(Run(BOOT, actions).loop, ns)
    ensures var l, f := Run(BOOT, actions).loop, Follow(BOOT, actions, ns, Followed(size, None));
            var decision := Decide(ns, spec, Usage(f.size, used), demand, inf);
            decision.Some? ==>
              var r := decision.value;
              var after := OnReceive(l, AsEvent(r, serial), now);
              var smaller := f.last.Some? && (r.newSize.cpu < f.last.value.event.newSize.cpu
                                              || r.newSize.memory < f.last.value.event.newSize.memory);
              var recent := ns in l.cache && now - l.cache[ns].timestamp < 60 * 1_000_000_000;
              && (Busy(after, ns) <==> !(smaller && recent))
              && after.log.started == l.log.started + 
                 (if Busy(after, ns) then [Mark(Event(serial, ns, spec.resourceQuota, f.size, r.newSize), now)] else [])
              && (f.last.Some? && !f.last.value.failed ==>
                    (smaller <==> r.newSize.cpu <= f.size.cpu && r.newSize.memory <= f.size.memory))
              && (f.last.Some? && !f.last.value.failed && !smaller ==>
                    r.newSize.cpu >= f.size.cpu && r.newSize.memory >= f.size.memory)
  {
    IdleCacheIsLastCall(actions, ns, size);
    var l, f := Run(BOOT, actions).loop, Follow(BOOT, actions, ns, Followed(size, None));
    var decision := Decide(ns, spec, Usage(f.size, used), demand, inf);
    if decision.Some? {
      EveryRequestIsSound(ns, spec, Usage(f.size, used), demand, inf);
      IdleRefusesExactly(l, AsEvent(decision.value, serial), now);
    }
  }

  lemma RunFirst(s: System, a: Action, rest: seq<Action>, ns: string, f: Followed)
    ensures Run(s, [a] + rest) == Run(Step(s, a), rest)
    ensures Follow(s, [a] + rest, ns, f) == Follow(Step(s, a), rest, ns, FollowStep(s, a, ns, f))
  {
    assert ([a] + rest)[1..] == rest;
  }

  /** One call, from its request at time 0 to its acknowledgement. */
  function OneCall(event: Event, failed: bool): seq<Action> {
    [Arrive(event, 0), Finish(0, failed), Ack(0, 0, 0)]
  }

  lemma AfterOneCall(event: Event, failed: bool, size: Amount)
    requires event.serial == 0
    ensures Run(BOOT, OneCall(event, failed)).loop == OnDone(OnReceive(FRESH_LOOP, event, 0), event, 0, 0)
    ensures Follow(BOOT, OneCall(event, failed), event.namespace, Followed(size, None))
         == Followed(if failed then size else event.newSize, Some(ResizeResult(event, failed)))
  {
    var ns, f := event.namespace, Followed(size, None);
    var s1 := Step(BOOT, Arrive(event, 0));
    assert s1.workers == map[0 := Worker(event, Calling)];
    var s2 := Step(s1, Finish(0, failed));
    assert s2.workers == map[0 := Worker(event, Acking)] && s2.loop == s1.loop;
    assert OneCall(event, failed) == [Arrive(event, 0)] + [Finish(0, failed), Ack(0, 0, 0)];
    RunFirst(BOOT, Arrive(event, 0), [Finish(0, failed), Ack(0, 0, 0)], ns, f);
    assert [Finish(0, failed), Ack(0, 0, 0)] == [Finish(0, failed)] + [Ack(0, 0, 0)];
    RunFirst(s1, Finish(0, failed), [Ack(0, 0, 0)], ns, f);
    assert [Ack(0, 0, 0)] == [Ack(0, 0, 0)] + [];
    RunFirst(s2, Ack(0, 0, 0), [], ns, FollowStep(s1, Finish(0, failed), ns, f));
  }

  /** After a failed call the cache holds a size the quota does not have: at 100 millicores, with a failed
      resize to 500 completed at time 0, the raise to 110 is refused for a minute as a scale-down. */
  lemma FailedCallBlocksRaise(ns: string, inf: int, now: int)
    requires 0 <= now < MINUTE
    ensures var u := CpuUsage(100, 51);
            var actions := OneCall(Event(0, ns, "quota", u.hard, Amount(500, 1000, 0)), true);
            var l := Run(BOOT, actions).loop;
            var decision := Decide(ns, SWINGING, u, NOTHING, inf);
            && !Busy(l, ns) && Follow(BOOT, actions, ns, Followed(u.hard, None)).size == u.hard
            && decision.Some? && decision.value.newSize == Amount(110, 1000, 0)
            && OnReceive(l, AsEvent(decision.value, 1), now).log.started == l.log.started
  {
    var u := CpuUsage(100, 51);
    AfterOneCall(Event(0, ns, "quota", u.hard, Amount(500, 1000, 0)), true, u.hard);
    RaiseInSwing(ns, inf);
  }

  lemma RaiseInSwing(ns: string, inf: int)
    ensures var decision := Decide(ns, SWINGING, CpuUsage(100, 51), NOTHING, inf);
            decision.Some? && decision.value.namespace == ns && decision.value.newSize == Amount(110, 1000, 0)
  {
    var u := CpuUsage(100, 51);
    SwingsForEver(ns, inf, 0);
    SwingsForEver(ns, inf, 1);
    AfterFirst(ns, SWINGING, u, inf, 0);
  }
}
