/** What every step of the one-slot protocol keeps, and what that says about the whole history of one
    namespace. */
module SlotSafety {
  import opened Quantities
  import opened ResizeProtocol

  function Events(marks: seq<Mark>): (events: seq<Event>)
    ensures |events| == |marks|
    ensures forall k :: 0 <= k < |marks| ==> events[k] == marks[k].event
  {
    seq(|marks|, k requires 0 <= k < |marks| => marks[k].event)
  }

  function Last(marks: seq<Mark>): Mark
    requires marks != []
  {
    marks[|marks| - 1]
  }

  /** Requests arrive in the order of their serial numbers, each once. */
  ghost predicate Ordered(marks: seq<Mark>) {
    forall i, j :: 0 <= i < j < |marks| ==> marks[i].event.serial < marks[j].event.serial
  }

  /** Resize k completed after it started and before resize k + 1 started. */
  ghost predicate Sequential(started: seq<Mark>, completed: seq<Mark>) {
    && |completed| <= |started| <= |completed| + 1
    && (forall k :: 0 <= k < |completed| ==>
          completed[k].event == started[k].event && started[k].at <= completed[k].at)
    && (forall i, j :: 0 <= i < j < |started| ==> completed[i].at <= started[j].at)
  }

  /** At most one resize is in flight, only then may a request wait, and the cache holds the last
      completion. */
  ghost predicate Paired(s: Slot) {
    var completed := s.log.completed;
    && Sequential(s.log.started, completed)
    && (s.busy <==> |s.log.started| == |completed| + 1)
    && (s.waiting.Some? ==> s.busy)
    && s.cached == if completed == [] then None else Some(ResizeCache(Last(completed).at, Last(completed).event))
  }

  /** A resize smaller than the one before it started at least a minute after that one completed. */
  ghost predicate Paced(s: Slot) {
    var started, completed := s.log.started, s.log.completed;
    forall k :: 0 < k < |started| && k <= |completed|
                && started[k].event.newSize.LowerThan(started[k - 1].event.newSize) ==>
      completed[k - 1].at + MINUTE <= started[k].at
  }

  /** Refusal `r` is of a request smaller than an earlier one that completed, at `c`, less than a minute
      before. */
  ghost predicate Undercuts(r: Mark, c: Mark) {
    && r.event.newSize.LowerThan(c.event.newSize)
    && c.event.serial < r.event.serial
    && c.at <= r.at < c.at + MINUTE
  }

  ghost predicate Refused(s: Slot, r: Mark) {
    exists k :: 0 <= k < |s.log.completed| && Undercuts(r, s.log.completed[k])
  }

  /** Every refusal has a reason. */
  ghost predicate Justified(s: Slot) {
    forall r <- s.log.rejected :: Refused(s, r)
  }

  function Waiting(s: Slot): multiset<Event> {
    if s.waiting.Some? then multiset{s.waiting.value} else multiset{}
  }

  /** Each received request is started, superseded, refused or waiting, exactly once. */
  ghost predicate Conserved(s: Slot) {
    multiset(Events(s.log.received)) ==
      multiset(Events(s.log.started)) + multiset(Events(s.log.superseded)) + multiset(Events(s.log.rejected))
      + Waiting(s)
  }

  /** The newest received request is the one waiting, else the one last started, else it was refused. */
  ghost predicate NewestWins(s: Slot) {
    var log := s.log;
    log.received != [] ==>
      var newest := Last(log.received).event;
      if s.waiting.Some? then s.waiting.value == newest
      else || (log.started != [] && Last(log.started).event == newest)
           || (!s.busy && log.rejected != [] && Last(log.rejected).event == newest)
  }

  ghost predicate Before(marks: seq<Mark>, clock: int, next: nat) {
    forall k :: 0 <= k < |marks| ==> marks[k].event.serial < next && marks[k].at <= clock
  }

  /** Requests seen are numbered below `next`, times are at most `clock`, and requests start in the order
      of their arrival. */
  ghost predicate Bounded(s: Slot, clock: int, next: nat) {
    && Before(s.log.received, clock, next)
    && Before(s.log.started, clock, next)
    && Before(s.log.completed, clock, next)
    && Ordered(s.log.received)
    && Ordered(s.log.started)
    && (s.waiting.Some? ==> s.waiting.value.serial < next && Before(s.log.started, clock, s.waiting.value.serial))
  }

  ghost predicate SlotInv(s: Slot, clock: int, next: nat) {
    && Paired(s)
    && Paced(s)
    && Justified(s)
    && Conserved(s)
    && NewestWins(s)
    && Bounded(s, clock, next)
  }

  /** The messages a slot can get: new requests carry fresh serial numbers, only the resize in flight can
      be reported done, and the clock does not go back. */
  predicate Legal(s: Slot, i: Input, clock: int, next: nat) {
    match i
    case Receive(event, now) => clock <= now && next <= event.serial
    case Done(event, stamp, now) =>
      clock <= stamp <= now && s.busy && s.log.started != [] && event == Last(s.log.started).event
  }

  function NextSerial(i: Input, next: nat): nat {
    if i.Receive? then i.event.serial + 1 else next
  }

  lemma EventsAppend(marks: seq<Mark>, m: Mark)
    ensures Events(marks + [m]) == Events(marks) + [m.event]
  {
  }

  /** The slot right after a completion, before the waiting request is looked at. */
  function Finished(s: Slot, done: Event, stamp: int): Slot {
    s.(busy := false, waiting := None, cached := Some(ResizeCache(stamp, done)), log := s.log.Completed(done, stamp))
  }

  lemma DoneIsFinishThenResize(s: Slot, done: Event, stamp: int, now: int)
    ensures SlotDone(s, done, stamp, now)
         == if s.waiting.Some? then SlotResize(Finished(s, done, stamp), s.waiting.value, now)
            else Finished(s, done, stamp)
  {
  }

  lemma PairedFinish(s: Slot, done: Event, stamp: int)
    requires Paired(s) && s.busy && done == Last(s.log.started).event && Last(s.log.started).at <= stamp
    ensures Paired(Finished(s, done, stamp))
  {
  }

  lemma PairedResize(s: Slot, event: Event, now: int, next: nat)
    requires Paired(s) && !s.busy && Before(s.log.completed, now, next)
    ensures Paired(SlotResize(s, event, now))
  {
  }

  lemma PairedReceive(s: Slot, event: Event, now: int, next: nat)
    requires Paired(s) && Before(s.log.completed, now, next)
    ensures Paired(SlotReceive(s, event, now))
  {
    if !s.busy {
      PairedResize(s.(log := s.log.Received(event, now)), event, now, next);
    }
  }

  lemma PairedDone(s: Slot, done: Event, stamp: int, now: int, next: nat)
    requires Paired(s) && Before(s.log.completed, stamp, next) && s.busy && done == Last(s.log.started).event
    requires Last(s.log.started).at <= stamp <= now && done.serial < next
    ensures Paired(SlotDone(s, done, stamp, now))
  {
    PairedFinish(s, done, stamp);
    DoneIsFinishThenResize(s, done, stamp, now);
    if s.waiting.Some? {
      PairedResize(Finished(s, done, stamp), s.waiting.value, now, next);
    }
  }

  lemma PacedResize(s: Slot, event: Event, now: int)
    requires Paired(s) && !s.busy && Paced(s)
    ensures Paced(SlotResize(s, event, now))
  {
  }

  lemma PacedReceive(s: Slot, event: Event, now: int)
    requires Paired(s) && Paced(s)
    ensures Paced(SlotReceive(s, event, now))
  {
    if !s.busy {
      PacedResize(s.(log := s.log.Received(event, now)), event, now);
    }
  }

  lemma PacedDone(s: Slot, done: Event, stamp: int, now: int)
    requires Paired(s) && Paced(s) && s.busy && done == Last(s.log.started).event && Last(s.log.started).at <= stamp
    ensures Paced(SlotDone(s, done, stamp, now))
  {
    PairedFinish(s, done, stamp);
    DoneIsFinishThenResize(s, done, stamp, now);
    if s.waiting.Some? {
      PacedResize(Finished(s, done, stamp), s.waiting.value, now);
    }
  }

  lemma BoundedResize(s: Slot, event: Event, now: int, next: nat)
    requires Bounded(s, now, next) && s.waiting.None?
    requires event.serial < next && Before(s.log.started, now, event.serial)
    ensures Bounded(SlotResize(s, event, now), now, next)
  {
  }

  lemma BoundedReceive(s: Slot, event: Event, now: int, clock: int, next: nat)
    requires Paired(s) && Bounded(s, clock, next) && clock <= now && next <= event.serial
    ensures Bounded(SlotReceive(s, event, now), now, event.serial + 1)
  {
    if !s.busy {
      BoundedResize(s.(log := s.log.Received(event, now)), event, now, event.serial + 1);
    }
  }

  lemma BoundedDone(s: Slot, done: Event, stamp: int, now: int, clock: int, next: nat)
    requires Paired(s) && Bounded(s, clock, next) && clock <= stamp <= now && done.serial < next
    ensures Bounded(SlotDone(s, done, stamp, now), now, next)
  {
    DoneIsFinishThenResize(s, done, stamp, now);
    if s.waiting.Some? {
      BoundedResize(Finished(s, done, stamp), s.waiting.value, now, next);
    }
  }

  lemma ConservedQueue(s: Slot, event: Event, now: int)
    requires Conserved(s) && s.busy
    ensures Conserved(SlotReceive(s, event, now))
  {
    EventsAppend(s.log.received, Mark(event, now));
    if s.waiting.Some? {
      EventsAppend(s.log.superseded, Mark(s.waiting.value, now));
    }
  }

  lemma ConservedReceive(s: Slot, event: Event, now: int)
    requires Paired(s) && Conserved(s)
    ensures Conserved(SlotReceive(s, event, now))
  {
    if s.busy {
      ConservedQueue(s, event, now);
    } else {
      EventsAppend(s.log.received, Mark(event, now));
      EventsAppend(s.log.rejected, Mark(event, now));
      EventsAppend(s.log.started, Mark(event, now));
    }
  }

  lemma ConservedDone(s: Slot, done: Event, stamp: int, now: int)
    requires Conserved(s)
    ensures Conserved(SlotDone(s, done, stamp, now))
  {
    if s.waiting.Some? {
      EventsAppend(s.log.started, Mark(s.waiting.value, now));
      EventsAppend(s.log.rejected, Mark(s.waiting.value, now));
    }
  }

  lemma NewestWinsStep(s: Slot, i: Input, clock: int, next: nat)
    requires Paired(s) && NewestWins(s) && Legal(s, i, clock, next)
    ensures NewestWins(SlotStep(s, i))
  {
  }

  lemma JustifiedLater(s: Slot, t: Slot)
    requires Justified(s) && s.log.completed <= t.log.completed && s.log.rejected == t.log.rejected
    ensures Justified(t)
  {
    forall r <- t.log.rejected ensures Refused(t, r) {
      var k :| 0 <= k < |s.log.completed| && Undercuts(r, s.log.completed[k]);
      assert t.log.completed[k] == s.log.completed[k];
    }
  }

  lemma JustifiedResize(s: Slot, event: Event, now: int, next: nat)
    requires Paired(s) && Justified(s) && Before(s.log.completed, now, next)
    requires Before(s.log.started, now, event.serial)
    ensures Justified(SlotResize(s, event, now))
  {
    var t := SlotResize(s, event, now);
    forall r <- t.log.rejected ensures Refused(t, r) {
      if r in s.log.rejected {
        assert Refused(s, r);
      } else {
        var k := |s.log.completed| - 1;
        assert s.log.started[k].event == s.log.completed[k].event;
        assert Undercuts(r, t.log.completed[k]);
      }
    }
  }

  lemma ReceiveInv(s: Slot, event: Event, now: int, clock: int, next: nat)
    requires SlotInv(s, clock, next) && clock <= now && next <= event.serial
    ensures SlotInv(SlotReceive(s, event, now), now, event.serial + 1)
  {
    PairedReceive(s, event, now, next);
    PacedReceive(s, event, now);
    BoundedReceive(s, event, now, clock, next);
    ConservedReceive(s, event, now);
    NewestWinsStep(s, Receive(event, now), clock, next);
    var noted := s.(log := s.log.Received(event, now));
    JustifiedLater(s, noted);
    if s.busy {
      JustifiedLater(s, SlotReceive(s, event, now));
    } else {
      JustifiedResize(noted, event, now, next);
    }
  }

  lemma DoneInv(s: Slot, done: Event, stamp: int, now: int, clock: int, next: nat)
    requires SlotInv(s, clock, next) && Legal(s, Done(done, stamp, now), clock, next)
    ensures SlotInv(SlotDone(s, done, stamp, now), now, next)
  {
    PairedDone(s, done, stamp, now, next);
    PacedDone(s, done, stamp, now);
    BoundedDone(s, done, stamp, now, clock, next);
    ConservedDone(s, done, stamp, now);
    NewestWinsStep(s, Done(done, stamp, now), clock, next);
    var finished := Finished(s, done, stamp);
    JustifiedLater(s, finished);
    DoneIsFinishThenResize(s, done, stamp, now);
    if s.waiting.Some? {
      PairedFinish(s, done, stamp);
      JustifiedResize(finished, s.waiting.value, now, next);
    }
  }

  /** Every legal message keeps the invariant of the namespace. */
  lemma SlotInvStep(s: Slot, i: Input, clock: int, next: nat)
    requires SlotInv(s, clock, next) && Legal(s, i, clock, next)
    ensures SlotInv(SlotStep(s, i), i.now, NextSerial(i, next))
  {
    match i
    case Receive(event, now) => ReceiveInv(s, event, now, clock, next);
    case Done(done, stamp, now) => DoneInv(s, done, stamp, now, clock, next);
  }

  lemma SlotInvLater(s: Slot, clock: int, next: nat, clock': int, next': nat)
    requires SlotInv(s, clock, next) && clock <= clock' && next <= next'
    ensures SlotInv(s, clock', next')
  {
  }

  // ---------- Consequences ----------

  /** The cooldown between any two resizes, adjacent or not. */
  lemma {:induction false} CooldownBetween(s: Slot, i: nat, j: nat)
    requires Paired(s) && Paced(s)
    requires i < j < |s.log.started|
    requires s.log.started[j].event.newSize.LowerThan(s.log.started[i].event.newSize)
    ensures s.log.completed[i].at + MINUTE <= s.log.started[j].at
    decreases j
  {
    var started := s.log.started;
    if i + 1 < j && !started[j].event.newSize.LowerThan(started[j - 1].event.newSize) {
      CooldownBetween(s, i, j - 1);
      assert started[j - 1].at <= s.log.completed[j - 1].at <= started[j].at;
    } else if i + 1 < j {
      assert s.log.completed[j - 1].at + MINUTE <= started[j].at;
      assert s.log.completed[i].at <= started[j - 1].at <= s.log.completed[j - 1].at;
    }
  }

  /** New sizes never shrink from one received request to the next. */
  ghost predicate Growing(received: seq<Mark>) {
    forall i, j :: 0 <= i < j < |received| ==>
      && received[i].event.newSize.cpu <= received[j].event.newSize.cpu
      && received[i].event.newSize.memory <= received[j].event.newSize.memory
  }

  lemma IndexOf(marks: seq<Mark>, e: Event) returns (k: nat)
    requires e in multiset(Events(marks))
    ensures k < |marks| && marks[k].event == e
  {
    assert e in Events(marks);
    k :| 0 <= k < |Events(marks)| && Events(marks)[k] == e;
  }

  lemma StartedOrRefusedWasReceived(s: Slot, e: Event)
    requires Conserved(s)
    requires e in Events(s.log.started) || e in Events(s.log.rejected)
    ensures e in multiset(Events(s.log.received))
  {
  }

  lemma GrowingNeverUndercuts(received: seq<Mark>, r: Mark, c: Mark)
    requires Growing(received) && Ordered(received)
    requires r.event in multiset(Events(received)) && c.event in multiset(Events(received))
    ensures !Undercuts(r, c)
  {
    var a := IndexOf(received, r.event);
    var b := IndexOf(received, c.event);
  }

  lemma GrowingRequestsNotRefused(s: Slot, clock: int, next: nat)
    requires SlotInv(s, clock, next) && Growing(s.log.received)
    ensures s.log.rejected == []
  {
    if s.log.rejected != [] {
      var r := s.log.rejected[0];
      assert Refused(s, r);
      var k :| 0 <= k < |s.log.completed| && Undercuts(r, s.log.completed[k]);
      assert Events(s.log.rejected)[0] == r.event && Events(s.log.started)[k] == s.log.completed[k].event;
      StartedOrRefusedWasReceived(s, r.event);
      StartedOrRefusedWasReceived(s, s.log.completed[k].event);
      GrowingNeverUndercuts(s.log.received, r, s.log.completed[k]);
    }
  }

  /** When requests only grow, none is refused, so the newest one is the last one started once the
      namespace is idle. */
  lemma GrowingRequestsAllServed(s: Slot, clock: int, next: nat)
    requires SlotInv(s, clock, next) && Growing(s.log.received)
    ensures s.log.rejected == []
    ensures !s.busy && s.log.received != [] ==>
              s.log.started != [] && Last(s.log.started).event == Last(s.log.received).event
  {
    GrowingRequestsNotRefused(s, clock, next);
  }

  /** `a` is obtained from `b` by deleting elements. */
  ghost predicate Subsequence(a: seq<Event>, b: seq<Event>) {
    a == [] || (b != [] &&
      var a', b' := a[..|a| - 1], b[..|b| - 1];
      if a[|a| - 1] == b[|b| - 1] then Subsequence(a', b') else Subsequence(a, b'))
  }

  lemma {:induction false} OrderedSubsetIsSubsequence(a: seq<Event>, b: seq<Event>)
    requires forall i, j :: 0 <= i < j < |a| ==> a[i].serial < a[j].serial
    requires forall i, j :: 0 <= i < j < |b| ==> b[i].serial < b[j].serial
    requires forall e <- a :: e in b
    ensures Subsequence(a, b)
    decreases |b|
  {
    if a != [] {
      var n, m := |a| - 1, |b| - 1;
      var k := IndexIn(b, a[n]);
      var b' := b[..m];
      var a' := if a[n] == b[m] then a[..n] else a;
      forall e | e in a' ensures e in b' {
        var i := IndexIn(a', e);
        assert a[i] == e;
        var j := IndexIn(b, e);
        if j < m {
          assert b'[j] == e;
        } else {
          assert false;
        }
      }
      OrderedSubsetIsSubsequence(a', b');
    }
  }

  lemma IndexIn(events: seq<Event>, e: Event) returns (k: nat)
    requires e in events
    ensures k < |events| && events[k] == e
  {
    k :| 0 <= k < |events| && events[k] == e;
  }

  /** Resizes start in the order in which their requests arrived. */
  lemma StartedInOrder(s: Slot, clock: int, next: nat)
    requires SlotInv(s, clock, next)
    ensures Subsequence(Events(s.log.started), Events(s.log.received))
  {
    forall e | e in Events(s.log.started) ensures e in Events(s.log.received) {
      StartedOrRefusedWasReceived(s, e);
      assert e in multiset(Events(s.log.received));
    }
    OrderedSubsetIsSubsequence(Events(s.log.started), Events(s.log.received));
  }

  lemma {:induction false} DistinctOnce(events: seq<Event>, e: Event)
    requires forall i, j :: 0 <= i < j < |events| ==> events[i].serial < events[j].serial
    ensures multiset(events)[e] == if e in events then 1 else 0
  {
    if events != [] {
      var n := |events| - 1;
      DistinctOnce(events[..n], e);
      assert events == events[..n] + [events[n]];
    }
  }

  /** What became of each received request: exactly one thing. */
  lemma OneFateEach(s: Slot, clock: int, next: nat, e: Event)
    requires SlotInv(s, clock, next)
    ensures multiset(Events(s.log.started))[e] + multiset(Events(s.log.superseded))[e]
            + multiset(Events(s.log.rejected))[e] + Waiting(s)[e]
         == if e in Events(s.log.received) then 1 else 0
  {
    DistinctOnce(Events(s.log.received), e);
  }
}
