/** The watcher: it stores quotas, scalers and pod events by namespace, and hands the events over in
    batches when the ticker fires. */
module Watcher {
  import opened Quantities
  import opened Scaling
  import opened Decision
  import opened PodEvents

  datatype Scaler = Scaler(namespace: string, name: string, spec: ScalerSpec)

  /** A goroutine running `UpdateQuotaIfRequired`; `batch` is None when events are not read. */
  datatype Evaluation = Evaluation(ns: string, quota: ResourceQuota, scaler: Scaler, batch: Option<seq<PodEvent>>)

  /** A batch consumed by a tick, and whether a scaler and a quota were known to evaluate it with. */
  datatype Handover = Handover(ns: string, batch: seq<PodEvent>, evaluated: bool)

  datatype Watch = Watch(
    scalers: map<string, Scaler>, quotas: map<string, ResourceQuota>, events: map<string, seq<PodEvent>>,
    launched: seq<Evaluation>, handed: seq<Handover>)

  /** What the watcher's `select` takes. `fetched` is the answer of the API server when the quota of a new
      scaler is missing; `order` is the order in which a tick visits the namespaces. */
  datatype Message =
    | QuotaChanged(quota: ResourceQuota, deleted: bool)
    | ScalerChanged(scaler: Scaler, deleted: bool, fetched: Option<ResourceQuota>)
    | PodFailed(event: PodEvent)
    | Tick(order: seq<string>)

  // ---------- What each message does ----------

  function Stored(w: Watch, ns: string): seq<PodEvent> {
    if ns in w.events then w.events[ns] else []
  }

  /** Launch an evaluation, if the namespace has both a scaler and a quota. */
  function Updated(w: Watch, ns: string, readEvents: bool): Watch {
    if ns in w.scalers && ns in w.quotas then
      var batch := if readEvents && ns in w.events then Some(w.events[ns]) else None;
      w.(launched := w.launched + [Evaluation(ns, w.quotas[ns], w.scalers[ns], batch)])
    else w
  }

  /** The scaler of the quota's namespace is known and names this quota. */
  predicate Names(scalers: map<string, Scaler>, quota: ResourceQuota) {
    quota.namespace in scalers && scalers[quota.namespace].spec.resourceQuota == quota.name
  }

  /** `RegisterQuotaEvent`: only the quota its scaler names is stored. The answer "" means nothing to do. */
  function RegisterQuota(w: Watch, quota: ResourceQuota, deleted: bool): (Watch, string) {
    var ns := quota.namespace;
    if Names(w.scalers, quota) then
      if deleted then (w.(quotas := w.quotas - {ns}), "") else (w.(quotas := w.quotas[ns := quota]), ns)
    else (w, "")
  }

  /** `RegisterScalerEvent`: a new scaler fetches its quota when none is stored. */
  function RegisterScaler(w: Watch, scaler: Scaler, deleted: bool, fetched: Option<ResourceQuota>): (Watch, string) {
    var ns := scaler.namespace;
    if deleted then (w.(scalers := w.scalers - {ns}), "")
    else
      var quotas := if ns !in w.quotas && fetched.Some? then w.quotas[ns := fetched.value] else w.quotas;
      (w.(scalers := w.scalers[ns := scaler], quotas := quotas), ns)
  }

  /** A stored quota waits for the next tick: its namespace gets an empty batch. */
  function OnQuota(w: Watch, quota: ResourceQuota, deleted: bool): Watch {
    var (w', ns) := RegisterQuota(w, quota, deleted);
    if ns != "" && ns !in w'.events then w'.(events := w'.events[ns := []]) else w'
  }

  /** A stored scaler is evaluated at once, without events. */
  function OnScaler(w: Watch, scaler: Scaler, deleted: bool, fetched: Option<ResourceQuota>): Watch {
    var (w', ns) := RegisterScaler(w, scaler, deleted, fetched);
    if ns != "" then Updated(w', ns, false) else w'
  }

  function OnPodEvent(w: Watch, e: PodEvent): Watch {
    w.(events := w.events[e.target.namespace := Stored(w, e.target.namespace) + [e]])
  }

  /** One namespace of a tick: its batch is handed over and forgotten. */
  function HandOver(w: Watch, ns: string): Watch {
    var h := Handover(ns, Stored(w, ns), ns in w.scalers && ns in w.quotas);
    Updated(w, ns, true).(handed := w.handed + [h], events := w.events - {ns})
  }

  function HandOverAll(w: Watch, order: seq<string>): Watch
    decreases |order|
  {
    if order == [] then w else HandOverAll(HandOver(w, order[0]), order[1..])
  }

  /** A tick visits every namespace that has an entry, once, in some order. */
  predicate Visits(order: seq<string>, events: map<string, seq<PodEvent>>) {
    && (forall i, j :: 0 <= i < j < |order| ==> order[i] != order[j])
    && (forall ns <- order :: ns in events)
    && (forall ns <- events :: ns in order)
  }

  /** A tick on its way: `left` are the namespaces still to be visited. */
  ghost predicate Visiting(order: seq<string>, all: set<string>, left: set<string>) {
    && left <= all
    && (forall i, j :: 0 <= i < j < |order| ==> order[i] != order[j])
    && (forall ns <- order :: ns in all && ns !in left)
    && (forall ns <- all :: ns in order || ns in left)
  }

  lemma VisitOne(order: seq<string>, all: set<string>, left: set<string>, ns: string)
    requires Visiting(order, all, left) && ns in left
    ensures Visiting(order + [ns], all, left - {ns})
  {
    forall i, j | 0 <= i < j < |order + [ns]| ensures (order + [ns])[i] != (order + [ns])[j] {
      assert order[i] in order;
    }
  }

  /** A tick that visits other namespaces than it should does not happen. */
  function WatchStep(w: Watch, m: Message): Watch {
    match m
    case QuotaChanged(quota, deleted) => OnQuota(w, quota, deleted)
    case ScalerChanged(scaler, deleted, fetched) => OnScaler(w, scaler, deleted, fetched)
    case PodFailed(e) => OnPodEvent(w, e)
    case Tick(order) => if Visits(order, w.events) then HandOverAll(w, order) else w
  }

  function WatchRun(w: Watch, messages: seq<Message>): Watch
    decreases |messages|
  {
    if messages == [] then w else WatchRun(WatchStep(w, messages[0]), messages[1..])
  }

  /** The scalers of a listing by namespace; a later one replaces an earlier one. */
  function Listed(scalers: seq<Scaler>): map<string, Scaler> {
    if scalers == [] then map[]
    else
      var last := scalers[|scalers| - 1];
      Listed(scalers[..|scalers| - 1])[last.namespace := last]
  }

  /** The listed quotas that a scaler names, by namespace. */
  function Coupled(scalers: map<string, Scaler>, quotas: seq<ResourceQuota>): map<string, ResourceQuota> {
    if quotas == [] then map[]
    else
      var rest, last := Coupled(scalers, quotas[..|quotas| - 1]), quotas[|quotas| - 1];
      if Names(scalers, last) then rest[last.namespace := last] else rest
  }

  /** No scaler of this namespace is listed from `k` on. */
  predicate NoneListed(scalers: seq<Scaler>, ns: string, k: nat) {
    forall j :: k <= j < |scalers| ==> scalers[j].namespace != ns
  }

  /** At the start a namespace has the last of its listed scalers, if there is one. */
  lemma {:induction false} StartsListed(scalers: seq<Scaler>, ns: string)
    ensures if ns in Listed(scalers) then
              exists k: nat :: k < |scalers| && scalers[k] == Listed(scalers)[ns] && scalers[k].namespace == ns
                               && NoneListed(scalers, ns, k + 1)
            else NoneListed(scalers, ns, 0)
  {
    if scalers != [] {
      var n := |scalers| - 1;
      var rest := scalers[..n];
      StartsListed(rest, ns);
      if scalers[n].namespace == ns {
        assert NoneListed(scalers, ns, n + 1);
      } else if ns in Listed(rest) {
        var k: nat :| k < n && rest[k] == Listed(rest)[ns] && rest[k].namespace == ns && NoneListed(rest, ns, k + 1);
        assert scalers[k] == Listed(scalers)[ns];
        LastListed(scalers, ns, k + 1);
      } else {
        LastListed(scalers, ns, 0);
      }
    }
  }

  lemma LastListed(scalers: seq<Scaler>, ns: string, k: nat)
    requires scalers != [] && scalers[|scalers| - 1].namespace != ns
    requires NoneListed(scalers[..|scalers| - 1], ns, k)
    ensures NoneListed(scalers, ns, k)
  {
    forall j | k <= j < |scalers| ensures scalers[j].namespace != ns {
      assert j < |scalers| - 1 ==> scalers[..|scalers| - 1][j] == scalers[j];
    }
  }

  /** No quota of this namespace that its scaler names is listed from `k` on. */
  predicate NoneCoupled(scalers: map<string, Scaler>, quotas: seq<ResourceQuota>, ns: string, k: nat) {
    forall j :: k <= j < |quotas| ==> !Coupling(scalers, quotas[j], ns)
  }

  /** And it has the last listed quota that its scaler names, if there is one. */
  lemma {:induction false} StartsCoupled(scalers: map<string, Scaler>, quotas: seq<ResourceQuota>, ns: string)
    ensures var start := Coupled(scalers, quotas);
            if ns in start then
              exists k: nat :: k < |quotas| && quotas[k] == start[ns] && Coupling(scalers, quotas[k], ns)
                               && NoneCoupled(scalers, quotas, ns, k + 1)
            else NoneCoupled(scalers, quotas, ns, 0)
  {
    if quotas != [] {
      var n := |quotas| - 1;
      var rest := quotas[..n];
      StartsCoupled(scalers, rest, ns);
      if Coupling(scalers, quotas[n], ns) {
        assert NoneCoupled(scalers, quotas, ns, n + 1);
      } else if ns in Coupled(scalers, rest) {
        var k: nat :| k < n && rest[k] == Coupled(scalers, rest)[ns] && Coupling(scalers, rest[k], ns)
                      && NoneCoupled(scalers, rest, ns, k + 1);
        assert quotas[k] == Coupled(scalers, quotas)[ns];
        LastCoupled(scalers, quotas, ns, k + 1);
      } else {
        LastCoupled(scalers, quotas, ns, 0);
      }
    }
  }

  lemma LastCoupled(scalers: map<string, Scaler>, quotas: seq<ResourceQuota>, ns: string, k: nat)
    requires quotas != [] && !Coupling(scalers, quotas[|quotas| - 1], ns)
    requires NoneCoupled(scalers, quotas[..|quotas| - 1], ns, k)
    ensures NoneCoupled(scalers, quotas, ns, k)
  {
    forall j | k <= j < |quotas| ensures !Coupling(scalers, quotas[j], ns) {
      assert j < |quotas| - 1 ==> quotas[..|quotas| - 1][j] == quotas[j];
    }
  }

  /** The quota is of this namespace, and the scaler there names it. */
  predicate Coupling(scalers: map<string, Scaler>, quota: ResourceQuota, ns: string) {
    quota.namespace == ns && ns in scalers && scalers[ns].spec.resourceQuota == quota.name
  }

  // ---------- The object ----------

  class QuotaWatcher {
    var scalers: map<string, Scaler>
    var quotas: map<string, ResourceQuota>
    var events: map<string, seq<PodEvent>>
    var launched: seq<Evaluation>
    var handed: seq<Handover>

    function State(): Watch
      reads this
    {
      Watch(scalers, quotas, events, launched, handed)
    }

    /** The start of `WatchQuotas`: listed scalers are stored, and of the listed quotas those their scalers
        name. */
    constructor (startScalers: seq<Scaler>, startQuotas: seq<ResourceQuota>)
      ensures State() == Watch(Listed(startScalers), Coupled(Listed(startScalers), startQuotas), map[], [], [])
    {
      scalers, quotas, events, launched, handed := map[], map[], map[], [], [];
      new;
      for i := 0 to |startScalers|
        invariant scalers == Listed(startScalers[..i])
        invariant quotas == map[] && events == map[] && launched == [] && handed == []
      {
        assert startScalers[..i + 1][..i] == startScalers[..i];
        scalers := scalers[startScalers[i].namespace := startScalers[i]];
      }
      assert startScalers[..|startScalers|] == startScalers;
      for i := 0 to |startQuotas|
        invariant scalers == Listed(startScalers) && quotas == Coupled(scalers, startQuotas[..i])
        invariant events == map[] && launched == [] && handed == []
      {
        var quota := startQuotas[i];
        assert startQuotas[..i + 1][..i] == startQuotas[..i];
        if Names(scalers, quota) {
          quotas := quotas[quota.namespace := quota];
        }
      }
      assert startQuotas[..|startQuotas|] == startQuotas;
    }

    method UpdateNs(ns: string, readEvents: bool)
      modifies this`launched
      ensures State() == Updated(old(State()), ns, readEvents)
    {
      var batch: Option<seq<PodEvent>> := None;
      if readEvents && ns in events {
        batch := Some(events[ns]);
      }
      if ns in scalers && ns in quotas {
        launched := launched + [Evaluation(ns, quotas[ns], scalers[ns], batch)];
      }
    }

    method RegisterQuotaEvent(quota: ResourceQuota, deleted: bool) returns (ns: string)
      modifies this`quotas
      ensures (State(), ns) == RegisterQuota(old(State()), quota, deleted)
    {
      if Names(scalers, quota) {
        if deleted {
          quotas := quotas - {quota.namespace};
          return "";
        }
        quotas := quotas[quota.namespace := quota];
        return quota.namespace;
      }
      return "";
    }

    method RegisterScalerEvent(scaler: Scaler, deleted: bool, fetched: Option<ResourceQuota>) returns (ns: string)
      modifies this`scalers, this`quotas
      ensures (State(), ns) == RegisterScaler(old(State()), scaler, deleted, fetched)
    {
      if deleted {
        scalers := scalers - {scaler.namespace};
        return "";
      }
      scalers := scalers[scaler.namespace := scaler];
      if scaler.namespace !in quotas {
        if fetched.Some? {
          quotas := quotas[scaler.namespace := fetched.value];
        }
      }
      return scaler.namespace;
    }

    /** Answers with the event's own namespace, which is only logged; the object's namespace is the key. */
    method RegisterNamespacedEvent(e: PodEvent) returns (ns: string)
      modifies this`events
      ensures State() == OnPodEvent(old(State()), e) && ns == e.namespace
    {
      if e.target.namespace !in events {
        events := events[e.target.namespace := [e]];
        assert [] + [e] == [e];
      } else {
        events := events[e.target.namespace := events[e.target.namespace] + [e]];
      }
      return e.namespace;
    }

    /** The body of the ticker's loop. */
    method HandOverNs(ns: string)
      requires ns in events
      modifies this`launched, this`handed, this`events
      ensures State() == HandOver(old(State()), ns)
      ensures events.Keys == old(events.Keys) - {ns} && |events| < |old(events)|
    {
      var known := ns in scalers && ns in quotas;
      UpdateNs(ns, true);
      handed := handed + [Handover(ns, events[ns], known)];
      events := events - {ns};
      assert events.Keys == old(events.Keys) - {ns};
      assert |events| == |events.Keys| && |old(events)| == |old(events.Keys)|;
    }

    /** The ticker case: every namespace with an entry is updated, and its entry deleted. The order is up
        to the map. */
    method TickAll() returns (order: seq<string>)
      modifies this
      ensures Visits(order, old(events))
      ensures State() == HandOverAll(old(State()), order)
      ensures events == map[]
    {
      order := [];
      ghost var all := events.Keys;
      while events != map[]
        invariant Visiting(order, all, events.Keys)
        invariant HandOverAll(old(State()), order) == State()
        decreases |events|
      {
        var ns :| ns in events;
        HandOverAllAppend(old(State()), order, ns);
        VisitOne(order, all, events.Keys, ns);
        HandOverNs(ns);
        order := order + [ns];
      }
    }

    /** One round of the `select`; a tick chooses its own order. */
    method Take(m: Message) returns (taken: Message)
      modifies this
      ensures if m.Tick? then taken.Tick? && Visits(taken.order, old(events)) else taken == m
      ensures State() == WatchStep(old(State()), taken)
    {
      taken := m;
      match m
      case QuotaChanged(quota, deleted) =>
        var ns := RegisterQuotaEvent(quota, deleted);
        if ns != "" {
          if ns !in events {
            events := events[ns := []];
          }
        }
      case ScalerChanged(scaler, deleted, fetched) =>
        var ns := RegisterScalerEvent(scaler, deleted, fetched);
        if ns != "" {
          UpdateNs(ns, false);
        }
      case PodFailed(e) =>
        var _ := RegisterNamespacedEvent(e);
      case Tick(_) =>
        var order := TickAll();
        taken := Tick(order);
    }
  }

  lemma {:induction false} HandOverAllAppend(w: Watch, order: seq<string>, ns: string)
    ensures HandOverAll(w, order + [ns]) == HandOver(HandOverAll(w, order), ns)
    decreases |order|
  {
    if order == [] {
      assert [ns][1..] == [];
      assert [] + [ns] == [ns];
    } else {
      assert (order + [ns])[1..] == order[1..] + [ns];
      HandOverAllAppend(HandOver(w, order[0]), order[1..], ns);
    }
  }

  // ---------- Nothing lost, nothing twice ----------

  /** The batches handed over for a namespace, one after the other. */
  function Batches(handed: seq<Handover>, ns: string): seq<PodEvent> {
    if handed == [] then []
    else
      var rest, h := Batches(handed[..|handed| - 1], ns), handed[|handed| - 1];
      if h.ns == ns then rest + h.batch else rest
  }

  /** The events that arrive for objects of a namespace, in order. */
  function Arrived(messages: seq<Message>, ns: string): seq<PodEvent> {
    if messages == [] then []
    else if messages[0].PodFailed? && messages[0].event.target.namespace == ns then
      [messages[0].event] + Arrived(messages[1..], ns)
    else Arrived(messages[1..], ns)
  }

  /** All events of a namespace so far: handed over, then still stored. */
  function Accounted(w: Watch, ns: string): seq<PodEvent> {
    Batches(w.handed, ns) + Stored(w, ns)
  }

  lemma HandOverKeeps(w: Watch, visited: string, ns: string)
    ensures Accounted(HandOver(w, visited), ns) == Accounted(w, ns)
  {
    var h := HandOver(w, visited).handed[|w.handed|];
    assert HandOver(w, visited).handed[..|w.handed|] == w.handed;
  }

  lemma {:induction false} HandOverAllKeeps(w: Watch, order: seq<string>, ns: string)
    ensures Accounted(HandOverAll(w, order), ns) == Accounted(w, ns)
    decreases |order|
  {
    if order != [] {
      HandOverKeeps(w, order[0], ns);
      HandOverAllKeeps(HandOver(w, order[0]), order[1..], ns);
    }
  }

  lemma ScalerKeeps(w: Watch, scaler: Scaler, deleted: bool, fetched: Option<ResourceQuota>, ns: string)
    ensures Accounted(OnScaler(w, scaler, deleted, fetched), ns) == Accounted(w, ns)
  {
  }

  lemma QuotaKeeps(w: Watch, quota: ResourceQuota, deleted: bool, ns: string)
    ensures Accounted(OnQuota(w, quota, deleted), ns) == Accounted(w, ns)
  {
  }

  lemma StepAccounts(w: Watch, m: Message, ns: string)
    ensures Accounted(WatchStep(w, m), ns)
         == if m.PodFailed? && m.event.target.namespace == ns then Accounted(w, ns) + [m.event] else Accounted(w, ns)
  {
    match m
    case QuotaChanged(quota, deleted) => QuotaKeeps(w, quota, deleted, ns);
    case ScalerChanged(scaler, deleted, fetched) => ScalerKeeps(w, scaler, deleted, fetched, ns);
    case PodFailed(e) =>
    case Tick(order) => HandOverAllKeeps(w, order, ns);
  }

  lemma MovedOver<T>(s: seq<T>, x: T, t: seq<T>)
    ensures (s + [x]) + t == s + ([x] + t)
  {
  }

  /** Batch conservation over a run: for every namespace the batches handed over at ticks, concatenated,
      followed by the stored events, are the events that arrived for its objects, in order. Quota and
      scaler messages lose none and repeat none. */
  lemma {:induction false} EventsAreHandedOverOnce(w: Watch, messages: seq<Message>, ns: string)
    ensures Accounted(WatchRun(w, messages), ns) == Accounted(w, ns) + Arrived(messages, ns)
    decreases |messages|
  {
    if messages != [] {
      var m := messages[0];
      StepAccounts(w, m, ns);
      EventsAreHandedOverOnce(WatchStep(w, m), messages[1..], ns);
      if m.PodFailed? && m.event.target.namespace == ns {
        MovedOver(Accounted(w, ns), m.event, Arrived(messages[1..], ns));
      }
    }
  }

  // ---------- Which scaler and which quota an evaluation gets ----------

  /** The scaler of a namespace after some messages: that of the last scaler message of the namespace. */
  function LatestScaler(start: Watch, messages: seq<Message>, ns: string): Option<Scaler> {
    if messages == [] then Lookup(start.scalers, ns)
    else
      var m := messages[|messages| - 1];
      if m.ScalerChanged? && m.scaler.namespace == ns then if m.deleted then None else Some(m.scaler)
      else LatestScaler(start, messages[..|messages| - 1], ns)
  }

  /** The quota of a namespace: that of the last message about the quota its scaler named at that time, or
      fetched for a scaler that found none. */
  function LatestQuota(start: Watch, messages: seq<Message>, ns: string): Option<ResourceQuota> {
    if messages == [] then Lookup(start.quotas, ns)
    else
      var before, m := messages[..|messages| - 1], messages[|messages| - 1];
      var scaler, known := LatestScaler(start, before, ns), LatestQuota(start, before, ns);
      match m
      case QuotaChanged(quota, deleted) =>
        if quota.namespace == ns && scaler.Some? && scaler.value.spec.resourceQuota == quota.name then
          if deleted then None else Some(quota)
        else known
      case ScalerChanged(_, deleted, fetched) =>
        if m.scaler.namespace == ns && !deleted && known.None? then fetched else known
      case _ => known
  }

  lemma RunAppend(w: Watch, messages: seq<Message>, m: Message)
    ensures WatchRun(w, messages + [m]) == WatchStep(WatchRun(w, messages), m)
    decreases |messages|
  {
    if messages == [] {
      assert [m][1..] == [];
      assert [] + [m] == [m];
    } else {
      assert (messages + [m])[1..] == messages[1..] + [m];
      RunAppend(WatchStep(w, messages[0]), messages[1..], m);
    }
  }

  lemma {:induction false} HandOverAllKeepsKnown(w: Watch, order: seq<string>)
    ensures HandOverAll(w, order).scalers == w.scalers && HandOverAll(w, order).quotas == w.quotas
    decreases |order|
  {
    if order != [] {
      HandOverAllKeepsKnown(HandOver(w, order[0]), order[1..]);
    }
  }

  /** What is stored is the latest of each. */
  lemma {:induction false} StoresTheLatest(start: Watch, messages: seq<Message>, ns: string)
    ensures Lookup(WatchRun(start, messages).scalers, ns) == LatestScaler(start, messages, ns)
    ensures Lookup(WatchRun(start, messages).quotas, ns) == LatestQuota(start, messages, ns)
    decreases |messages|
  {
    if messages != [] {
      var before, m := messages[..|messages| - 1], messages[|messages| - 1];
      StoresTheLatest(start, before, ns);
      assert messages == before + [m];
      RunAppend(start, before, m);
      StoredByStep(WatchRun(start, before), m, ns);
    }
  }

  lemma StoredByStep(w: Watch, m: Message, ns: string)
    ensures var t, scaler, quota := WatchStep(w, m), Lookup(w.scalers, ns), Lookup(w.quotas, ns);
            && Lookup(t.scalers, ns)
               == (if m.ScalerChanged? && m.scaler.namespace == ns then if m.deleted then None else Some(m.scaler)
                   else scaler)
            && Lookup(t.quotas, ns)
               == match m
                  case QuotaChanged(q, deleted) =>
                    if q.namespace == ns && scaler.Some? && scaler.value.spec.resourceQuota == q.name then
                      if deleted then None else Some(q)
                    else quota
                  case ScalerChanged(_, deleted, fetched) =>
                    if m.scaler.namespace == ns && !deleted && quota.None? then fetched else quota
                  case _ => quota
  {
    if m.Tick? {
      HandOverAllKeepsKnown(w, m.order);
    }
  }

  /** The evaluations of one namespace. */
  function Evaluations(launched: seq<Evaluation>, ns: string): seq<Evaluation> {
    if launched == [] then []
    else
      var rest, e := Evaluations(launched[..|launched| - 1], ns), launched[|launched| - 1];
      if e.ns == ns then rest + [e] else rest
  }

  lemma EvaluationsAppend(launched: seq<Evaluation>, e: Evaluation, ns: string)
    ensures Evaluations(launched + [e], ns) == Evaluations(launched, ns) + if e.ns == ns then [e] else []
  {
    assert (launched + [e])[..|launched|] == launched;
  }

  /** A namespace that is evaluated now, if its scaler and its quota are known. */
  function Due(w: Watch, ns: string, batch: Option<seq<PodEvent>>): seq<Evaluation> {
    if ns in w.scalers && ns in w.quotas then [Evaluation(ns, w.quotas[ns], w.scalers[ns], batch)] else []
  }

  lemma UpdatedEvaluates(w: Watch, key: string, readEvents: bool, ns: string)
    ensures Evaluations(Updated(w, key, readEvents).launched, ns)
         == Evaluations(w.launched, ns)
            + if key == ns then Due(w, ns, if readEvents then Lookup(w.events, ns) else None) else []
  {
    var t := Updated(w, key, readEvents);
    if t.launched != w.launched {
      EvaluationsAppend(w.launched, t.launched[|w.launched|], ns);
    }
  }

  lemma {:induction false} TickEvaluates(w: Watch, order: seq<string>, ns: string)
    requires forall i, j :: 0 <= i < j < |order| ==> order[i] != order[j]
    ensures Evaluations(HandOverAll(w, order).launched, ns)
         == Evaluations(w.launched, ns) + if ns in order then Due(w, ns, Lookup(w.events, ns)) else []
    ensures forall key :: key in HandOverAll(w, order).events <==> key in w.events && key !in order
    decreases |order|
  {
    if order != [] {
      var rest, t := order[1..], HandOver(w, order[0]);
      UpdatedEvaluates(w, order[0], true, ns);
      TickEvaluates(t, rest, ns);
      assert order == [order[0]] + rest;
      if order[0] == ns {
        assert ns !in rest;
      } else {
        assert Due(t, ns, Lookup(t.events, ns)) == Due(w, ns, Lookup(w.events, ns));
      }
    }
  }

  /** The message about the quota that the namespace's scaler names. */
  predicate StoresQuota(m: Message, scaler: Option<Scaler>, ns: string) {
    && m.QuotaChanged? && !m.deleted && m.quota.namespace == ns
    && scaler.Some? && scaler.value.spec.resourceQuota == m.quota.name
  }

  /** What one message evaluates for a namespace, by what is known afterwards. */
  function Evaluated(w: Watch, m: Message, ns: string): seq<Evaluation> {
    var t := WatchStep(w, m);
    if m.ScalerChanged? && !m.deleted && m.scaler.namespace == ns && ns != "" then Due(t, ns, None)
    else if m.Tick? && ns in w.events then Due(t, ns, Some(w.events[ns]))
    else []
  }

  lemma SameDue(w: Watch, t: Watch, ns: string, batch: Option<seq<PodEvent>>)
    requires t.scalers == w.scalers && t.quotas == w.quotas
    ensures Due(t, ns, batch) == Due(w, ns, batch)
  {
  }

  lemma ScalerEvaluates(w: Watch, scaler: Scaler, deleted: bool, fetched: Option<ResourceQuota>, ns: string)
    ensures var m := ScalerChanged(scaler, deleted, fetched);
            && Evaluations(WatchStep(w, m).launched, ns) == Evaluations(w.launched, ns) + Evaluated(w, m, ns)
            && WatchStep(w, m).events == w.events
  {
    var m := ScalerChanged(scaler, deleted, fetched);
    var t := WatchStep(w, m);
    if !deleted && scaler.namespace != "" {
      var (w', key) := RegisterScaler(w, scaler, deleted, fetched);
      assert w'.launched == w.launched && t == Updated(w', key, false);
      UpdatedEvaluates(w', key, false, ns);
      SameDue(w', t, ns, None);
      assert Evaluated(w, m, ns) == if key == ns then Due(w', ns, None) else [];
    } else {
      assert t.launched == w.launched && Evaluated(w, m, ns) == [];
    }
  }

  lemma StepEvaluates(w: Watch, m: Message, ns: string)
    requires m.Tick? ==> Visits(m.order, w.events)
    ensures Evaluations(WatchStep(w, m).launched, ns) == Evaluations(w.launched, ns) + Evaluated(w, m, ns)
    ensures ns in WatchStep(w, m).events <==>
              !m.Tick? && (|| ns in w.events
                           || (m.PodFailed? && m.event.target.namespace == ns)
                           || (StoresQuota(m, Lookup(w.scalers, ns), ns) && ns != ""))
  {
    match m
    case Tick(order) =>
      TickEvaluates(w, order, ns);
      HandOverAllKeepsKnown(w, order);
    case ScalerChanged(scaler, deleted, fetched) => ScalerEvaluates(w, scaler, deleted, fetched, ns);
    case _ =>
  }

  /** Over runs: a scaler message evaluates its namespace at once and without events, a tick each namespace
      that waits, with its events, and no other message any. An evaluation gets the latest scaler and the
      latest quota of its namespace; while one of them is missing, deleted for example, there is none. A
      namespace waits from a message that stores its quota, or an event for one of its objects, until the
      next tick. */
  lemma EvaluationsGetTheLatest(start: Watch, messages: seq<Message>, m: Message, ns: string)
    requires m.Tick? ==> Visits(m.order, WatchRun(start, messages).events)
    ensures var w, t := WatchRun(start, messages), WatchRun(start, messages + [m]);
            var scaler, quota := LatestScaler(start, messages + [m], ns), LatestQuota(start, messages + [m], ns);
            var asked := || (m.ScalerChanged? && !m.deleted && m.scaler.namespace == ns && ns != "")
                         || (m.Tick? && ns in w.events);
            && Evaluations(t.launched, ns)
               == Evaluations(w.launched, ns)
                  + (if asked && scaler.Some? && quota.Some? then
                       [Evaluation(ns, quota.value, scaler.value, if m.Tick? then Some(w.events[ns]) else None)]
                     else [])
            && (ns in t.events <==>
                  !m.Tick? && (|| ns in w.events
                               || (m.PodFailed? && m.event.target.namespace == ns)
                               || (StoresQuota(m, LatestScaler(start, messages, ns), ns) && ns != "")))
  {
    RunAppend(start, messages, m);
    StoresTheLatest(start, messages, ns);
    StoresTheLatest(start, messages + [m], ns);
    StepEvaluates(WatchRun(start, messages), m, ns);
  }

  /** A batch with its namespace. */
  datatype Labelled = Labelled(ns: string, batch: seq<PodEvent>)

  function EvaluatedBatches(handed: seq<Handover>): seq<Labelled> {
    if handed == [] then []
    else
      var rest, h := EvaluatedBatches(handed[..|handed| - 1]), handed[|handed| - 1];
      if h.evaluated then rest + [Labelled(h.ns, h.batch)] else rest
  }

  function LaunchedBatches(launched: seq<Evaluation>): seq<Labelled> {
    if launched == [] then []
    else
      var rest, e := LaunchedBatches(launched[..|launched| - 1]), launched[|launched| - 1];
      if e.batch.Some? then rest + [Labelled(e.ns, e.batch.value)] else rest
  }

  /** Stored events belong to the namespace they are stored under; and the batches that evaluations read
      are the batches handed over with a scaler and a quota known, in order, each by one evaluation. */
  ghost predicate WatchInv(w: Watch) {
    && (forall ns <- w.events :: forall e <- w.events[ns] :: e.target.namespace == ns)
    && (forall h <- w.handed :: forall e <- h.batch :: e.target.namespace == h.ns)
    && LaunchedBatches(w.launched) == EvaluatedBatches(w.handed)
  }

  lemma LaunchedAppend(launched: seq<Evaluation>, e: Evaluation)
    ensures LaunchedBatches(launched + [e])
         == if e.batch.Some? then LaunchedBatches(launched) + [Labelled(e.ns, e.batch.value)]
            else LaunchedBatches(launched)
  {
    assert (launched + [e])[..|launched|] == launched;
  }

  lemma HandOverInv(w: Watch, ns: string)
    requires WatchInv(w) && ns in w.events
    ensures WatchInv(HandOver(w, ns))
  {
    var t := HandOver(w, ns);
    var h := t.handed[|w.handed|];
    assert t.handed == w.handed + [h] && t.handed[..|w.handed|] == w.handed;
    if h.evaluated {
      LaunchedAppend(w.launched, t.launched[|w.launched|]);
    }
  }

  lemma {:induction false} HandOverAllInv(w: Watch, order: seq<string>)
    requires WatchInv(w)
    requires forall i, j :: 0 <= i < j < |order| ==> order[i] != order[j]
    requires forall ns <- order :: ns in w.events
    ensures WatchInv(HandOverAll(w, order))
    decreases |order|
  {
    if order != [] {
      HandOverInv(w, order[0]);
      var t, rest := HandOver(w, order[0]), order[1..];
      forall ns <- rest ensures ns in t.events {
        var i :| 0 <= i < |rest| && rest[i] == ns;
        assert order[i + 1] == ns && order[0] != order[i + 1];
      }
      HandOverAllInv(t, rest);
    }
  }

  lemma QuotaInv(w: Watch, quota: ResourceQuota, deleted: bool)
    requires WatchInv(w)
    ensures WatchInv(OnQuota(w, quota, deleted))
  {
  }

  lemma ScalerInv(w: Watch, scaler: Scaler, deleted: bool, fetched: Option<ResourceQuota>)
    requires WatchInv(w)
    ensures WatchInv(OnScaler(w, scaler, deleted, fetched))
  {
    var t := OnScaler(w, scaler, deleted, fetched);
    if t.launched != w.launched {
      LaunchedAppend(w.launched, t.launched[|w.launched|]);
    }
  }

  lemma WatchStepInv(w: Watch, m: Message)
    requires WatchInv(w)
    ensures WatchInv(WatchStep(w, m))
  {
    match m
    case Tick(order) =>
      if Visits(order, w.events) {
        HandOverAllInv(w, order);
      }
    case QuotaChanged(quota, deleted) => QuotaInv(w, quota, deleted);
    case ScalerChanged(scaler, deleted, fetched) => ScalerInv(w, scaler, deleted, fetched);
    case PodFailed(e) =>
  }

  lemma {:induction false} WatchRunInv(w: Watch, messages: seq<Message>)
    requires WatchInv(w)
    ensures WatchInv(WatchRun(w, messages))
    decreases |messages|
  {
    if messages != [] {
      WatchStepInv(w, messages[0]);
      WatchRunInv(WatchStep(w, messages[0]), messages[1..]);
    }
  }

  /** The messages carry only events of kinds the program knows, or of daemon sets. */
  predicate KnownKinds(events: seq<PodEvent>) {
    forall e <- events :: IsDaemonSet(e) || Supported(e.target.kind)
  }

  /** Every batch of a run is of one namespace, so its demand depends only on the set of objects in it,
      provided the kinds are known ones. */
  lemma BatchDemandIsPerObject(
      scalers: map<string, Scaler>, quotas: map<string, ResourceQuota>, messages: seq<Message>,
      h: Handover, other: seq<PodEvent>, cluster: Cluster)
    requires h in WatchRun(Watch(scalers, quotas, map[], [], []), messages).handed
    requires KnownKinds(h.batch)
    requires KnownKinds(other) && Objects(other) == Objects(h.batch)
    requires forall e <- other :: e.target.namespace == h.ns
    ensures Demand(cluster, other) == Demand(cluster, h.batch)
    ensures forall objects :: Enumerates(objects, Objects(h.batch)) ==>
              Demand(cluster, h.batch) == Total(cluster, objects)
  {
    WatchRunInv(Watch(scalers, quotas, map[], [], []), messages);
    assert Regular(h.batch, h.ns) && Regular(other, h.ns);
    DemandIgnoresOrderAndRepetition(cluster, h.batch, other, h.ns);
    RegularIsUnshadowed(h.batch, h.ns);
    forall objects | Enumerates(objects, Objects(h.batch))
      ensures Demand(cluster, h.batch) == Total(cluster, objects)
    {
      DemandIsPerObjectExactly(h.batch, objects);
    }
  }
}
