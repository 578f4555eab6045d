/** The event loop and its workers as objects: the maps are updated in place. */
module ResizeHandler {
  import opened ResizeProtocol
  import opened ResizeSystem

  /** The three maps of `RunEventHandler`; `log` records what the loop did, its `started` part being the
      goroutines launched. */
  class EventHandler {
    var inProgress: map<string, bool>
    var pending: map<string, Event>
    var cache: map<string, ResizeCache>
    var log: Log

    function State(): Loop
      reads this
    {
      Loop(inProgress, pending, cache, log)
    }

    constructor ()
      ensures State() == FRESH_LOOP
    {
      inProgress, pending, cache, log := map[], map[], map[], EMPTY_LOG;
    }

    /** The `resize` closure. */
    method Resize(event: Event, now: int) returns (ok: bool)
      modifies this`log
      ensures (State(), ok) == ResizeProtocol.Resize(old(State()), event, now)
    {
      if event.namespace in cache {
        var previous := cache[event.namespace];
        if (event.newSize.cpu < previous.event.newSize.cpu || event.newSize.memory < previous.event.newSize.memory)
           && previous.timestamp + MINUTE > now {
          log := log.Rejected(event, now);
          return false;
        }
      }
      log := log.Started(event, now);
      return true;
    }

    method TakeRequest(event: Event, now: int)
      modifies this
      ensures State() == OnReceive(old(State()), event, now)
    {
      log := log.Received(event, now);
      if event.namespace in inProgress && inProgress[event.namespace] {
        if event.namespace in pending {
          log := log.Superseded(pending[event.namespace], now);
        }
        pending := pending[event.namespace := event];
      } else {
        var ok := Resize(event, now);
        if ok {
          inProgress := inProgress[event.namespace := true];
        }
      }
    }

    method TakeDone(done: Event, stamp: int, now: int)
      modifies this
      ensures State() == OnDone(old(State()), done, stamp, now)
    {
      cache := cache[done.namespace := ResizeCache(stamp, done)];
      log := log.Completed(done, stamp);
      if done.namespace in pending {
        var event := pending[done.namespace];
        pending := pending - {done.namespace};
        var ok := Resize(event, now);
        if !ok {
          inProgress := inProgress[done.namespace := false];
        }
      } else {
        inProgress := inProgress[done.namespace := false];
      }
    }

    /** The loop over the messages its `select` takes: each namespace is served as by its own one-slot
        loop, whatever the messages of the others. */
    method RunEventHandler(inputs: seq<Input>)
      requires Keyed(State())
      modifies this
      ensures State() == LoopRun(old(State()), inputs)
      ensures forall ns :: View(State(), ns) == SlotRun(View(old(State()), ns), Project(inputs, ns))
    {
      ghost var start := State();
      for i := 0 to |inputs|
        invariant LoopRun(State(), inputs[i..]) == LoopRun(start, inputs)
      {
        assert inputs[i..][0] == inputs[i] && inputs[i..][1..] == inputs[i + 1..];
        match inputs[i] {
          case Receive(event, now) => TakeRequest(event, now);
          case Done(event, stamp, now) => TakeDone(event, stamp, now);
        }
      }
      forall ns ensures View(State(), ns) == SlotRun(View(start, ns), Project(inputs, ns)) {
        LoopIsProductOfSlots(start, inputs, ns);
      }
    }
  }

  /** `ResizeResultChan`: a buffer that drops what does not fit. */
  class ResultChannel {
    var buffer: seq<ResizeResult>

    constructor ()
      ensures buffer == []
    {
      buffer := [];
    }

    /** A send that never blocks. */
    method PublishResizeResult(event: Event, failed: bool) returns (delivered: bool)
      modifies this
      ensures delivered == (|old(buffer)| < 1024)
      ensures buffer == if delivered then old(buffer) + [ResizeResult(event, failed)] else old(buffer)
      ensures forall s: System :: s.results == old(buffer) ==> Publish(s, ResizeResult(event, failed)).results == buffer
    {
      delivered := |buffer| < RESULT_SLOTS;
      if delivered {
        buffer := buffer + [ResizeResult(event, failed)];
      }
    }
  }

  /** A worker: after the resize call, failed or not, it publishes once and hands its event back. */
  method ResizeAsync(event: Event, failed: bool, channel: ResultChannel) returns (done: Event)
    modifies channel
    ensures done == event
    ensures forall s: System :: s.results == old(channel.buffer) ==>
              Publish(s, ResizeResult(event, failed)).results == channel.buffer
  {
    if failed {
      var _ := channel.PublishResizeResult(event, true);
      return event;
    }
    var _ := channel.PublishResizeResult(event, false);
    return event;
  }
}
