/** The extra demand that failed pod creations put on a quota: batches of events, deduplicated by the
    object involved, summed over containers and missing replicas. */
module PodEvents {
  import opened Quantities
  import Resources

  /** CPU limits may be this many times the CPU requests of a namespace. */
  const REQ_LIM_RATIO := 10

  /** The CPU request, or a tenth of the CPU limit when that is larger. */
  function NormalizedUsedCpu(request: Quantity, limit: Quantity): Quantity {
    var normalized := ScaledValue(limit, MILLI) / REQ_LIM_RATIO;
    if normalized > ScaledValue(request, MILLI) then normalized * MILLI else request
  }

  /** Normalising a second time, against the same limit or against the result itself, changes nothing. */
  lemma NormalizingIsIdempotent(request: Quantity, limit: Quantity)
    ensures var n := NormalizedUsedCpu(request, limit);
            NormalizedUsedCpu(n, limit) == n && NormalizedUsedCpu(n, n) == n
  {
  }

  // ---------- One pod template ----------

  datatype Container = Container(requests: Option<ResourceList>, limits: Option<ResourceList>)

  /** What one container counts for: its requests, raised by its limits if it has any. */
  function CountedCpu(c: Container): Quantity {
    if c.requests.None? then 0
    else if c.limits.None? then Reading(c.requests.value, "cpu")
    else NormalizedUsedCpu(Reading(c.requests.value, "cpu"), Reading(c.limits.value, "cpu"))
  }

  function CountedMemory(c: Container): Quantity {
    if c.requests.None? then 0
    else if c.limits.None? then Reading(c.requests.value, "memory")
    else Reading(c.limits.value, "memory")
  }

  function SumCpu(containers: seq<Container>): Quantity {
    if containers == [] then 0
    else SumCpu(containers[..|containers| - 1]) + CountedCpu(containers[|containers| - 1])
  }

  function SumMemory(containers: seq<Container>): Quantity {
    if containers == [] then 0
    else SumMemory(containers[..|containers| - 1]) + CountedMemory(containers[|containers| - 1])
  }

  function PodDemand(containers: seq<Container>, missing: int): (demand: Amount)
    ensures demand.cpu >= 0 && demand.memory >= 0 && demand.storage == 0
  {
    if missing <= 0 then NOTHING
    else Amount(ScaledValue(SumCpu(containers), MILLI) * missing, ScaledValue(SumMemory(containers), MEGA) * missing, 0)
  }

  method CalculatePodResources(containers: seq<Container>, missing: int) returns (demand: Amount)
    ensures demand == PodDemand(containers, missing)
  {
    var neededCpu, neededMemory := 0, 0;
    for i := 0 to |containers|
      invariant neededCpu == SumCpu(containers[..i]) && neededMemory == SumMemory(containers[..i])
    {
      var c := containers[i];
      assert containers[..i + 1][..i] == containers[..i];
      if c.requests.Some? {
        var cpu := Reading(c.requests.value, "cpu");
        var memory := Reading(c.requests.value, "memory");
        if c.limits.Some? {
          memory := Reading(c.limits.value, "memory");
          cpu := NormalizedUsedCpu(Reading(c.requests.value, "cpu"), Reading(c.limits.value, "cpu"));
        }
        neededCpu := neededCpu + cpu;
        neededMemory := neededMemory + memory;
      }
    }
    assert containers[..|containers|] == containers;
    if missing <= 0 {
      return NOTHING;
    }
    demand := Amount(ScaledValue(neededCpu, MILLI) * missing, ScaledValue(neededMemory, MEGA) * missing, 0);
  }

  // ---------- What the demand covers ----------

  /** CPU requested by the containers that have requests. */
  function RequestedCpu(containers: seq<Container>): Quantity {
    if containers == [] then 0
    else
      var c := containers[|containers| - 1];
      RequestedCpu(containers[..|containers| - 1])
      + if c.requests.Some? then Reading(c.requests.value, "cpu") else 0
  }

  predicate Limited(c: Container) {
    c.requests.Some? && c.limits.Some?
  }

  /** CPU limits of the containers that have requests and limits. */
  function LimitCpu(containers: seq<Container>): Quantity {
    if containers == [] then 0
    else
      var c := containers[|containers| - 1];
      LimitCpu(containers[..|containers| - 1]) + if Limited(c) then Reading(c.limits.value, "cpu") else 0
  }

  function LimitedCount(containers: seq<Container>): nat {
    if containers == [] then 0
    else LimitedCount(containers[..|containers| - 1]) + if Limited(containers[|containers| - 1]) then 1 else 0
  }

  /** CPU requests are whole millicores. */
  predicate WholeMilli(containers: seq<Container>) {
    forall c <- containers :: c.requests.Some? ==> Reading(c.requests.value, "cpu") % MILLI == 0
  }

  lemma NormalizedCovers(request: Quantity, limit: Quantity)
    ensures var n := NormalizedUsedCpu(request, limit);
            && n >= request && REQ_LIM_RATIO * n >= limit - 19 * MILLI
            && (request % MILLI == 0 ==> REQ_LIM_RATIO * n >= limit - 9 * MILLI)
  {
    var l, r := ScaledValue(limit, MILLI), ScaledValue(request, MILLI);
    var tenth := l / REQ_LIM_RATIO;
    assert REQ_LIM_RATIO * tenth >= l - 9;
    if request % MILLI == 0 {
      var whole := request / MILLI;
      assert request == whole * MILLI;
      assert r == whole;
    }
  }

  lemma ContainerCovers(c: Container)
    ensures c.requests.Some? ==> CountedCpu(c) >= Reading(c.requests.value, "cpu")
    ensures Limited(c) ==>
              var limit := Reading(c.limits.value, "cpu");
              && REQ_LIM_RATIO * CountedCpu(c) >= limit - 19 * MILLI
              && (Reading(c.requests.value, "cpu") % MILLI == 0 ==> REQ_LIM_RATIO * CountedCpu(c) >= limit - 9 * MILLI)
  {
    if Limited(c) {
      NormalizedCovers(Reading(c.requests.value, "cpu"), Reading(c.limits.value, "cpu"));
    }
  }

  lemma {:induction false} CountedCpuCovers(containers: seq<Container>)
    ensures SumCpu(containers) >= RequestedCpu(containers)
    ensures REQ_LIM_RATIO * SumCpu(containers) >= LimitCpu(containers) - 19 * MILLI * LimitedCount(containers)
    ensures WholeMilli(containers) ==>
              REQ_LIM_RATIO * SumCpu(containers) >= LimitCpu(containers) - 9 * MILLI * LimitedCount(containers)
  {
    if containers != [] {
      var rest, c := containers[..|containers| - 1], containers[|containers| - 1];
      CountedCpuCovers(rest);
      ContainerCovers(c);
      assert c in containers;
    }
  }

  /** Inequalities between quantities survive multiplication by the replicas, in units of `unit`. */
  lemma PerReplica(scaled: int, unit: nat, low: int, high: int, r: int)
    requires r > 0 && low <= scaled * unit <= high
    ensures r * low <= (scaled * r) * unit <= r * high
  {
    assert (scaled * r) * unit == r * (scaled * unit);
  }

  /** The CPU limits that rounding may leave uncovered: 9 millicores a limited container, 19 if requests are
      fractions of a millicore. */
  function Slack(containers: seq<Container>): nat {
    (if WholeMilli(containers) then 9 else 19) * MILLI * LimitedCount(containers)
  }

  lemma DemandCoversCpu(containers: seq<Container>, missing: int)
    requires missing > 0
    ensures var d := PodDemand(containers, missing);
            && d.cpu * MILLI >= missing * RequestedCpu(containers)
            && d.cpu * (REQ_LIM_RATIO * MILLI) >= missing * (LimitCpu(containers) - Slack(containers))
  {
    CountedCpuCovers(containers);
    var cpu := ScaledValue(SumCpu(containers), MILLI);
    PerReplica(cpu, MILLI, RequestedCpu(containers), cpu * MILLI, missing);
    var tenfold := REQ_LIM_RATIO * MILLI;
    PerReplica(cpu, tenfold, LimitCpu(containers) - Slack(containers), cpu * tenfold, missing);
  }

  /** Ten times the CPU that may count at most: the requests, or the limits where they are higher. */
  function CpuCeiling(containers: seq<Container>): Quantity {
    if containers == [] then 0
    else
      var c := containers[|containers| - 1];
      CpuCeiling(containers[..|containers| - 1])
      + if c.requests.None? then 0
        else if c.limits.None? then REQ_LIM_RATIO * Reading(c.requests.value, "cpu")
        else Max(REQ_LIM_RATIO * Reading(c.requests.value, "cpu"), Reading(c.limits.value, "cpu") + MILLI - 1)
  }

  lemma {:induction false} CountedCpuAtMost(containers: seq<Container>)
    ensures REQ_LIM_RATIO * SumCpu(containers) <= CpuCeiling(containers)
  {
    if containers != [] {
      CountedCpuAtMost(containers[..|containers| - 1]);
    }
  }

  /** Memory limits of the containers that have requests and limits. */
  function LimitMemory(containers: seq<Container>): Quantity {
    if containers == [] then 0
    else
      var c := containers[|containers| - 1];
      LimitMemory(containers[..|containers| - 1]) + if Limited(c) then Reading(c.limits.value, "memory") else 0
  }

  /** Memory requests of the containers that have requests and no limits. */
  function UnlimitedMemory(containers: seq<Container>): Quantity {
    if containers == [] then 0
    else
      var c := containers[|containers| - 1];
      UnlimitedMemory(containers[..|containers| - 1])
      + if c.requests.Some? && c.limits.None? then Reading(c.requests.value, "memory") else 0
  }

  lemma {:induction false} MemoryIsLimitsElseRequests(containers: seq<Container>)
    ensures SumMemory(containers) == LimitMemory(containers) + UnlimitedMemory(containers)
  {
    if containers != [] {
      MemoryIsLimitsElseRequests(containers[..|containers| - 1]);
    }
  }

  /** With `missing` replicas to come, the demand covers their CPU requests; ten times the demand covers
      their CPU limits up to 9 millicores a limited container (19 if requests are fractions of a
      millicore), and is no more than requests or limits call for, up to a millicore each; and the memory
      demand is the memory limits of the limited containers and the memory requests of the others, and
      less than a megabyte a replica more. */
  lemma DemandCoversPods(containers: seq<Container>, missing: int)
    requires missing > 0
    ensures var d := PodDemand(containers, missing);
            var memory := LimitMemory(containers) + UnlimitedMemory(containers);
            && d.cpu * MILLI >= missing * RequestedCpu(containers)
            && d.cpu * (REQ_LIM_RATIO * MILLI) >= missing * (LimitCpu(containers) - Slack(containers))
            && d.cpu * (REQ_LIM_RATIO * MILLI) <= missing * (CpuCeiling(containers) + REQ_LIM_RATIO * (MILLI - 1))
            && missing * memory <= d.memory * MEGA <= missing * (memory + MEGA - 1)
  {
    DemandCoversCpu(containers, missing);
    DemandAtMost(containers, missing);
    DemandOfMemory(containers, missing);
  }

  lemma DemandOfMemory(containers: seq<Container>, missing: int)
    requires missing > 0
    ensures var d, memory := PodDemand(containers, missing), LimitMemory(containers) + UnlimitedMemory(containers);
            missing * memory <= d.memory * MEGA <= missing * (memory + MEGA - 1)
  {
    MemoryIsLimitsElseRequests(containers);
    var memory := ScaledValue(SumMemory(containers), MEGA);
    PerReplica(memory, MEGA, SumMemory(containers), SumMemory(containers) + MEGA - 1, missing);
  }

  lemma DemandAtMost(containers: seq<Container>, missing: int)
    requires missing > 0
    ensures PodDemand(containers, missing).cpu * (REQ_LIM_RATIO * MILLI)
         <= missing * (CpuCeiling(containers) + REQ_LIM_RATIO * (MILLI - 1))
  {
    CountedCpuAtMost(containers);
    var cpu := ScaledValue(SumCpu(containers), MILLI);
    PerReplica(cpu, REQ_LIM_RATIO * MILLI, 0, CpuCeiling(containers) + REQ_LIM_RATIO * (MILLI - 1), missing);
  }

  /** In millicores the normalised usage is the request or a tenth of the limit, whichever is more; and it is
      the request itself unless the limit is ten times at least a millicore more. */
  lemma NormalizedInMillicores(request: Quantity, limit: Quantity)
    ensures ScaledValue(NormalizedUsedCpu(request, limit), MILLI)
         == Max(ScaledValue(request, MILLI), ScaledValue(limit, MILLI) / 10)
    ensures NormalizedUsedCpu(request, limit) != request ==>
              ScaledValue(limit, MILLI) >= 10 * (ScaledValue(request, MILLI) + 1)
  {
  }

  // ---------- Events ----------

  datatype ObjectRef = ObjectRef(kind: string, namespace: string, name: string)

  /** A failed-creation event; `namespace` is the event's own namespace, used for logging only. */
  datatype PodEvent = PodEvent(target: ObjectRef, namespace: string)

  /** What the API server knows of an object that creates pods. */
  datatype Workload = Workload(template: Option<seq<Container>>, wanted: int, present: int)

  /** The objects that can be fetched; a missing one makes the fetch fail. */
  type Cluster = map<ObjectRef, Workload>

  datatype PodSpec = PodSpec(containers: seq<Container>, missing: int)

  const CHALLENGE_CONTAINER: Container := Container(
    Some(map["cpu" := 10 * MILLI, "memory" := 67_108_864 * 1_000_000_000]),
    Some(map["cpu" := 100 * MILLI, "memory" := 67_108_864 * 1_000_000_000]))

  /** The kinds that have a pod template: the cases of the switch. */
  predicate Supported(kind: string) {
    kind == "ReplicaSet" || kind == "Job" || kind == "StatefulSet" || kind == "ReplicationController"
    || kind == "Challenge"
  }

  /** The pod template behind an event and how many replicas of it are missing; None when the kind is
      not supported, the fetch fails, or a ReplicationController has no template. */
  function TemplateOf(cluster: Cluster, o: ObjectRef): Option<PodSpec> {
    if o.kind == "Challenge" then Some(PodSpec([CHALLENGE_CONTAINER], 1))
    else if !Supported(o.kind) || o !in cluster then None
    else
      var w := cluster[o];
      var containers := if w.template.Some? then w.template.value else [];
      if o.kind == "Job" then Some(PodSpec(containers, 1))
      else if o.kind == "ReplicationController" && w.template.None? then None
      else Some(PodSpec(containers, w.wanted - w.present))
  }

  function Contribution(cluster: Cluster, o: ObjectRef): (c: Amount)
    ensures c.cpu >= 0 && c.memory >= 0 && c.storage == 0
    ensures !Supported(o.kind) ==> c == NOTHING
  {
    match TemplateOf(cluster, o)
    case None => NOTHING
    case Some(spec) => PodDemand(spec.containers, spec.missing)
  }

  function Times(a: Amount, n: int): Amount {
    Amount(a.cpu * n, a.memory * n, a.storage * n)
  }

  /** What an object asks for, kind by kind: a job one pod, a certificate challenge a fixed small pod, the
      others a pod for each replica short; nothing when the object is gone, has no template or has all its
      replicas, or is of another kind. */
  lemma ContributionByKind(cluster: Cluster, o: ObjectRef)
    ensures var c := Contribution(cluster, o);
            if o.kind == "Challenge" then c == Amount(10, 68, 0)
            else if o !in cluster || cluster[o].template.None? then c == NOTHING
            else
              var w, pod := cluster[o], PodDemand(cluster[o].template.value, 1);
              if o.kind == "Job" then c == pod
              else if o.kind == "ReplicaSet" || o.kind == "StatefulSet" || o.kind == "ReplicationController" then
                c == if w.present >= w.wanted then NOTHING else Times(pod, w.wanted - w.present)
              else c == NOTHING
  {
    if o.kind == "Challenge" {
      var one := [CHALLENGE_CONTAINER];
      assert one[..0] == [];
      assert SumCpu(one) == CountedCpu(CHALLENGE_CONTAINER) == 10 * MILLI;
      assert SumMemory(one) == CountedMemory(CHALLENGE_CONTAINER) == 67_108_864 * 1_000_000_000;
    }
  }

  predicate IsDaemonSet(e: PodEvent) {
    e.target.kind == "DaemonSet"
  }

  /** The key that marks an object as handled. */
  function Key(o: ObjectRef): string {
    o.kind + o.name
  }

  function Seen(events: seq<PodEvent>): set<string> {
    set e | e in events && !IsDaemonSet(e) :: Key(e.target)
  }

  /** The demand of a batch, in the order the events arrived. */
  function Demand(cluster: Cluster, events: seq<PodEvent>): Amount {
    if events == [] then NOTHING
    else
      var rest, e := events[..|events| - 1], events[|events| - 1];
      if IsDaemonSet(e) || Key(e.target) in Seen(rest) then Demand(cluster, rest)
      else Demand(cluster, rest).Plus(Contribution(cluster, e.target))
  }

  lemma DemandAppend(cluster: Cluster, events: seq<PodEvent>, e: PodEvent)
    ensures Seen(events + [e]) == Seen(events) + if IsDaemonSet(e) then {} else {Key(e.target)}
    ensures Demand(cluster, events + [e])
         == if IsDaemonSet(e) || Key(e.target) in Seen(events) then Demand(cluster, events)
            else Demand(cluster, events).Plus(Contribution(cluster, e.target))
  {
    assert (events + [e])[..|events|] == events;
    assert Seen(events + [e]) == Seen(events) + if IsDaemonSet(e) then {} else {Key(e.target)};
  }

  lemma DemandOfPrefix(cluster: Cluster, events: seq<PodEvent>, i: nat)
    requires i < |events|
    ensures var before, after, e := events[..i], events[..i + 1], events[i];
            var isNew := !IsDaemonSet(e) && Key(e.target) !in Seen(before);
            && Seen(after) == Seen(before) + (if isNew then {Key(e.target)} else {})
            && Demand(cluster, after)
               == if isNew then Demand(cluster, before).Plus(Contribution(cluster, e.target))
                  else Demand(cluster, before)
  {
    assert events[..i + 1] == events[..i] + [events[i]];
    DemandAppend(cluster, events[..i], events[i]);
  }

  /** An event by itself adds what its object asks for; a daemon set asks for nothing. */
  lemma DemandOfOneEvent(cluster: Cluster, e: PodEvent)
    ensures Demand(cluster, [e]) == Contribution(cluster, e.target)
    ensures e.target.kind == "DaemonSet" ==> Demand(cluster, [e]) == NOTHING
  {
    DemandAppend(cluster, [], e);
    assert [] + [e] == [e];
    assert Demand(cluster, []) == NOTHING && Seen([]) == {};
  }

  /** The handling of one object: one that cannot be fetched is passed over. */
  method AddContribution(sum: Resources.Resources, cluster: Cluster, o: ObjectRef)
    modifies sum
    ensures sum.View() == old(sum.View()).Plus(Contribution(cluster, o))
  {
    var template := TemplateOf(cluster, o);
    if template.None? {
      return;
    }
    var needed := CalculatePodResources(template.value.containers, template.value.missing);
    var extra := new Resources.Resources(needed);
    var _ := sum.Add(extra);
  }

  /** The handling of one event: daemon sets and objects handled before are passed over. */
  method HandleEvent(sum: Resources.Resources, involved: map<string, bool>, cluster: Cluster, e: PodEvent)
    returns (involvedObjects: map<string, bool>)
    modifies sum
    ensures var isNew := !IsDaemonSet(e) && Key(e.target) !in involved;
            && involvedObjects.Keys == involved.Keys + (if isNew then {Key(e.target)} else {})
            && sum.View() == if isNew then old(sum.View()).Plus(Contribution(cluster, e.target)) else old(sum.View())
  {
    involvedObjects := involved;
    if IsDaemonSet(e) {
      return;
    }
    if Key(e.target) !in involvedObjects {
      involvedObjects := involvedObjects[Key(e.target) := true];
      AddContribution(sum, cluster, e.target);
    }
  }

  method GetResourcesFromPodEvents(cluster: Cluster, events: seq<PodEvent>) returns (sum: Resources.Resources)
    ensures fresh(sum) && sum.View() == Demand(cluster, events)
  {
    sum := new Resources.Resources(NOTHING);
    var involvedObjects: map<string, bool> := map[];
    for i := 0 to |events|
      invariant fresh(sum) && sum.View() == Demand(cluster, events[..i])
      invariant involvedObjects.Keys == Seen(events[..i])
    {
      DemandOfPrefix(cluster, events, i);
      involvedObjects := HandleEvent(sum, involvedObjects, cluster, events[i]);
    }
    assert events[..|events|] == events;
  }

  // ---------- Demand as a function of the set of objects ----------

  /** The distinct objects of a batch, daemon sets left out. */
  function Objects(events: seq<PodEvent>): set<ObjectRef> {
    set e | e in events && !IsDaemonSet(e) :: e.target
  }

  /** The objects that were handled, each at the first event that carries its key. */
  function Handled(events: seq<PodEvent>): seq<ObjectRef> {
    if events == [] then []
    else
      var rest, e := events[..|events| - 1], events[|events| - 1];
      if IsDaemonSet(e) || Key(e.target) in Seen(rest) then Handled(rest) else Handled(rest) + [e.target]
  }

  /** No object with a pod template is taken for another one handled before it. */
  predicate Unshadowed(events: seq<PodEvent>) {
    forall o <- Objects(events) :: Supported(o.kind) ==> o in Handled(events)
  }

  function TotalBy(weight: ObjectRef -> Amount, objects: seq<ObjectRef>): Amount {
    if objects == [] then NOTHING
    else TotalBy(weight, objects[..|objects| - 1]).Plus(weight(objects[|objects| - 1]))
  }

  function Weight(cluster: Cluster): ObjectRef -> Amount {
    o => Contribution(cluster, o)
  }

  function Total(cluster: Cluster, objects: seq<ObjectRef>): Amount {
    TotalBy(Weight(cluster), objects)
  }

  predicate Distinct(objects: seq<ObjectRef>) {
    forall i, j :: 0 <= i < j < |objects| ==> objects[i] != objects[j]
  }

  /** `objects` lists the members of `all`, each once. */
  predicate Enumerates(objects: seq<ObjectRef>, all: set<ObjectRef>) {
    Distinct(objects) && (forall o <- objects :: o in all) && (forall o <- all :: o in objects)
  }

  lemma {:induction false} DemandIsTotalOfHandled(cluster: Cluster, events: seq<PodEvent>)
    ensures Demand(cluster, events) == Total(cluster, Handled(events))
  {
    if events != [] {
      var rest, e := events[..|events| - 1], events[|events| - 1];
      DemandIsTotalOfHandled(cluster, rest);
      assert (Handled(rest) + [e.target])[..|Handled(rest)|] == Handled(rest);
    }
  }

  lemma {:induction false} HandledIsPartOfObjects(events: seq<PodEvent>)
    ensures Distinct(Handled(events))
    ensures forall o <- Handled(events) :: o in Objects(events) && Key(o) in Seen(events)
  {
    if events != [] {
      var rest, e := events[..|events| - 1], events[|events| - 1];
      HandledIsPartOfObjects(rest);
      assert events == rest + [e];
      assert Seen(rest) <= Seen(events) && Objects(rest) <= Objects(events);
      if !IsDaemonSet(e) {
        assert e in events;
        assert e.target in Objects(events) && Key(e.target) in Seen(events);
      }
    }
  }

  function Without(objects: seq<ObjectRef>, k: nat): seq<ObjectRef>
    requires k < |objects|
  {
    objects[..k] + objects[k + 1..]
  }

  lemma TotalAppend(weight: ObjectRef -> Amount, objects: seq<ObjectRef>, o: ObjectRef)
    ensures TotalBy(weight, objects + [o]) == TotalBy(weight, objects).Plus(weight(o))
  {
    assert (objects + [o])[..|objects|] == objects;
  }

  lemma WithoutInit(objects: seq<ObjectRef>, k: nat)
    requires k < |objects| - 1
    ensures Without(objects, k) == Without(objects[..|objects| - 1], k) + [objects[|objects| - 1]]
  {
  }

  lemma {:induction false} TotalWithout(weight: ObjectRef -> Amount, objects: seq<ObjectRef>, k: nat)
    requires k < |objects|
    ensures TotalBy(weight, objects) == TotalBy(weight, Without(objects, k)).Plus(weight(objects[k]))
  {
    var n := |objects| - 1;
    if k == n {
      assert Without(objects, k) == objects[..n];
    } else {
      var rest := objects[..n];
      TotalWithout(weight, rest, k);
      WithoutInit(objects, k);
      TotalAppend(weight, Without(rest, k), objects[n]);
    }
  }

  lemma DistinctWithout(objects: seq<ObjectRef>, k: nat)
    requires Distinct(objects) && k < |objects|
    ensures Distinct(Without(objects, k))
    ensures forall o :: o in Without(objects, k) <==> o in objects && o != objects[k]
  {
    var w := Without(objects, k);
    forall o ensures o in w <==> o in objects && o != objects[k] {
      if o in objects && o != objects[k] {
        var i :| 0 <= i < |objects| && objects[i] == o;
        assert w[if i < k then i else i - 1] == o;
      }
    }
  }

  ghost predicate NonNegative(weight: ObjectRef -> Amount) {
    forall o :: weight(o).cpu >= 0 && weight(o).memory >= 0
  }

  ghost predicate Covers(weight: ObjectRef -> Amount, part: seq<ObjectRef>, all: seq<ObjectRef>) {
    forall o <- all :: o in part || weight(o) == NOTHING
  }

  lemma HasMember(objects: seq<ObjectRef>)
    requires objects != []
    ensures exists o :: o in objects
  {
    assert objects[0] in objects;
  }

  /** The total over more objects is larger by what the further ones weigh. */
  lemma {:induction false} TotalOfPart(weight: ObjectRef -> Amount, part: seq<ObjectRef>, all: seq<ObjectRef>)
    requires NonNegative(weight) && Distinct(part) && Distinct(all) && forall o <- part :: o in all
    ensures TotalBy(weight, part).Within(TotalBy(weight, all))
    ensures Covers(weight, part, all) ==> TotalBy(weight, part) == TotalBy(weight, all)
    decreases |all|
  {
    if all == [] {
      if part != [] {
        HasMember(part);
      }
    } else {
      var n := |all| - 1;
      var last, rest := all[n], all[..n];
      assert Without(all, n) == rest;
      DistinctWithout(all, n);
      if last in part {
        var k :| 0 <= k < |part| && part[k] == last;
        DistinctWithout(part, k);
        TotalWithout(weight, part, k);
        TotalOfPart(weight, Without(part, k), rest);
      } else {
        TotalOfPart(weight, part, rest);
      }
    }
  }

  /** An object kept out of `part` makes its total miss at least that object's weight. */
  lemma TotalMisses(weight: ObjectRef -> Amount, part: seq<ObjectRef>, all: seq<ObjectRef>, o: ObjectRef)
    requires NonNegative(weight) && Distinct(part) && Distinct(all) && (forall p <- part :: p in all)
    requires o in all && o !in part
    ensures TotalBy(weight, part).Plus(weight(o)).Within(TotalBy(weight, all))
  {
    var more := part + [o];
    assert more[..|part|] == part;
    TotalOfPart(weight, more, all);
  }

  const ONE_CORE: Container := Container(Some(map["cpu" := 1000 * MILLI]), None)

  /** A cluster in which a supported object asks for something. */
  lemma SomethingDemanded(o: ObjectRef) returns (cluster: Cluster)
    requires Supported(o.kind)
    ensures Contribution(cluster, o).cpu > 0
  {
    cluster := map[o := Workload(Some([ONE_CORE]), 1, 0)];
    assert SumCpu([ONE_CORE]) == SumCpu([]) + CountedCpu(ONE_CORE);
    assert SumCpu([CHALLENGE_CONTAINER]) == SumCpu([]) + CountedCpu(CHALLENGE_CONTAINER);
  }

  /** The demand is the total over the distinct objects of the batch, whatever the cluster holds, exactly
      for the batches in which no supported object shares its key with another object handled first. */
  lemma DemandIsPerObjectExactly(events: seq<PodEvent>, objects: seq<ObjectRef>)
    requires Enumerates(objects, Objects(events))
    ensures Unshadowed(events) <==>
              forall cluster: Cluster :: Demand(cluster, events) == Total(cluster, objects)
  {
    HandledIsPartOfObjects(events);
    var handled := Handled(events);
    if Unshadowed(events) {
      forall cluster: Cluster ensures Demand(cluster, events) == Total(cluster, objects) {
        DemandIsTotalOfHandled(cluster, events);
        TotalOfPart(Weight(cluster), handled, objects);
      }
    } else {
      var o :| o in Objects(events) && Supported(o.kind) && o !in handled;
      var cluster := SomethingDemanded(o);
      DemandIsTotalOfHandled(cluster, events);
      TotalMisses(Weight(cluster), handled, objects, o);
      assert Demand(cluster, events) != Total(cluster, objects);
    }
  }

  /** The batches the watcher builds: one namespace, and kinds it knows. */
  predicate Regular(events: seq<PodEvent>, ns: string) {
    forall e <- events :: e.target.namespace == ns && (IsDaemonSet(e) || Supported(e.target.kind))
  }

  /** No supported kind is a prefix of another, so kind and name can be read off the key. */
  lemma KeyDetermines(a: ObjectRef, b: ObjectRef)
    requires Supported(a.kind) && Supported(b.kind) && Key(a) == Key(b)
    ensures a.kind == b.kind && a.name == b.name
  {
    var key := Key(a);
    assert key[0] == a.kind[0] == b.kind[0];
    if a.kind[0] == 'R' {
      assert key[7] == a.kind[7] == b.kind[7];
    }
    assert a.kind == b.kind;
    assert key[|a.kind|..] == a.name && key[|b.kind|..] == b.name;
  }

  lemma {:induction false} SeenIsHandled(events: seq<PodEvent>, key: string)
    requires key in Seen(events)
    ensures exists o <- Handled(events) :: Key(o) == key
  {
    var rest, e := events[..|events| - 1], events[|events| - 1];
    assert events == rest + [e];
    if key in Seen(rest) {
      SeenIsHandled(rest, key);
      var o :| o in Handled(rest) && Key(o) == key;
      assert o in Handled(events);
    } else {
      var e' :| e' in events && !IsDaemonSet(e') && Key(e'.target) == key;
      assert e' == e;
      assert e.target in Handled(events);
    }
  }

  lemma RegularIsUnshadowed(events: seq<PodEvent>, ns: string)
    requires Regular(events, ns)
    ensures Unshadowed(events)
  {
    HandledIsPartOfObjects(events);
    forall o <- Objects(events) | Supported(o.kind) ensures o in Handled(events) {
      SeenIsHandled(events, Key(o));
      var h :| h in Handled(events) && Key(h) == Key(o);
      KeyDetermines(h, o);
    }
  }

  lemma {:induction false} Enumeration(all: set<ObjectRef>) returns (objects: seq<ObjectRef>)
    ensures Enumerates(objects, all)
    decreases |all|
  {
    if all == {} {
      objects := [];
    } else {
      var o :| o in all;
      var rest := Enumeration(all - {o});
      objects := rest + [o];
    }
  }

  /** The demand of a regular batch depends only on which objects it mentions: reordering or repeating
      events changes nothing. */
  lemma DemandIgnoresOrderAndRepetition(cluster: Cluster, a: seq<PodEvent>, b: seq<PodEvent>, ns: string)
    requires Regular(a, ns) && Regular(b, ns) && Objects(a) == Objects(b)
    ensures Demand(cluster, a) == Demand(cluster, b)
  {
    var objects := Enumeration(Objects(a));
    RegularIsUnshadowed(a, ns);
    RegularIsUnshadowed(b, ns);
    DemandIsPerObjectExactly(a, objects);
    DemandIsPerObjectExactly(b, objects);
  }

  /** An event of an unknown kind can hide a job: `Jo` + `bx` and `Job` + `x` share the key `Jobx`. */
  lemma UnknownKindCanHideAnObject()
    ensures var other, hidden := ObjectRef("Jo", "dev", "bx"), ObjectRef("Job", "dev", "x");
            var events := [PodEvent(other, "dev"), PodEvent(hidden, "dev")];
            exists cluster: Cluster :: Demand(cluster, events) != Total(cluster, [other, hidden])
  {
    var other, hidden := ObjectRef("Jo", "dev", "bx"), ObjectRef("Job", "dev", "x");
    var first, second := PodEvent(other, "dev"), PodEvent(hidden, "dev");
    var events := [first, second];
    assert Key(other) == Key(hidden) == "Jobx";
    assert events[..1] == [first];
    assert first in [first] && Key(other) in Seen([first]);
    assert [first][..0] == [];
    assert Handled(events) == Handled([first]) == [other];
    assert second in events && hidden in Objects(events);
    assert !Unshadowed(events);
    forall o ensures o in Objects(events) <==> o in [other, hidden] {
      assert first in events;
    }
    DemandIsPerObjectExactly(events, [other, hidden]);
  }
}
