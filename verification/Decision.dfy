/** `UpdateQuotaIfRequired`: from a quota, its scaler and a batch of events to at most one resize request. */
module Decision {
  import opened Quantities
  import opened Scaling
  import Resources
  import opened PodEvents

  datatype Request = Request(namespace: string, resourceQuota: string, oldSize: Amount, newSize: Amount)

  // ---------- What is computed ----------

  /** Each policy that asks for something replaces what the ones before it asked for. */
  function ApplyPolicies(start: Amount, policies: seq<Policy>, scaleUp: bool, l: Limits, u: Usage, inf: int): Amount {
    if policies == [] then start
    else
      ApplyPolicies(start, policies[..|policies| - 1], scaleUp, l, u, inf)
        .ReplacedBy(Target(l, scaleUp, policies[|policies| - 1], u, inf))
  }

  /** Policies, then the demand of the events on top of the usage. */
  function Desired(spec: ScalerSpec, u: Usage, demand: Amount, inf: int): Amount {
    var l := Validate(spec);
    var size := Amount(u.hard.cpu, u.hard.memory, 0);
    var desired := ApplyPolicies(ApplyPolicies(size, spec.scaleDown, false, l, u, inf), spec.scaleUp, true, l, u, inf);
    if demand.IsEmpty() then desired
    else Amount(u.used.cpu, u.used.memory, 0).Plus(demand).RaisedTo(desired)
  }

  /** Bring a size within the scaler's bounds; storage is never scaled. */
  function Clamped(desired: Amount, l: Limits, hard: Amount): Amount {
    desired.RaisedTo(Amount(l.minCpu, l.minMemory, 0)).LimitedTo(Amount(l.maxCpu, l.maxMemory, 0))
      .(storage := hard.storage)
  }

  /** Within the bounds, then in one direction. */
  function Bounded(desired: Amount, l: Limits, hard: Amount): Amount {
    Resources.OneDirection(Clamped(desired, l, hard), hard)
  }

  function NewSize(spec: ScalerSpec, u: Usage, demand: Amount, inf: int): Amount {
    Bounded(Desired(spec, u, demand, inf), Capped(Validate(spec)), u.hard)
  }

  /** The request sent for a quota, if its size has to change. */
  function Decide(ns: string, spec: ScalerSpec, u: Usage, demand: Amount, inf: int): Option<Request> {
    var size := NewSize(spec, u, demand, inf);
    if size.SameSize(u.hard) then None else Some(Request(ns, spec.resourceQuota, u.hard, size))
  }

  // ---------- The stored quota ----------

  /** The `Status.Used` map of a quota. Copies of the quota share it. */
  class UsedMap {
    var m: ResourceList

    constructor (m: ResourceList)
      ensures this.m == m
    {
      this.m := m;
    }
  }

  /** `used` is null and `statusHard` false when the status maps are nil. */
  datatype ResourceQuota = ResourceQuota(
    namespace: string, name: string, hard: ResourceList, statusHard: bool, used: UsedMap?)

  function UsedMemoryLimit(used: ResourceList): Quantity {
    if "limits.memory" in used then used["limits.memory"] else Reading(used, "memory")
  }

  function UsedCpuLimit(used: ResourceList): Quantity {
    if "limits.cpu" in used then used["limits.cpu"] else Reading(used, "cpu")
  }

  /** The write-back: CPU usage is raised to a tenth of the CPU limits in use. */
  function Normalized(used: ResourceList): ResourceList {
    used["cpu" := NormalizedUsedCpu(Reading(used, "cpu"), UsedCpuLimit(used))]
  }

  function HardSize(hard: ResourceList): Amount {
    Amount(ScaledValue(Reading(hard, "cpu"), MILLI), ScaledValue(Reading(hard, "memory"), MEGA),
           ScaledValue(Reading(hard, "requests.storage"), GIGA))
  }

  function UsageOf(hard: ResourceList, used: ResourceList): Usage {
    Usage(HardSize(hard),
          Amount(ScaledValue(Reading(used, "cpu"), MILLI), ScaledValue(UsedMemoryLimit(used), MEGA), 0))
  }

  /** The demand of the events handed over, nothing when none are read. */
  function DemandOf(cluster: Cluster, events: Option<seq<PodEvent>>): Amount {
    if events.Some? then Demand(cluster, events.value) else NOTHING
  }

  /** The outcome of one evaluation, as a function of the contents of the quota. */
  function Evaluate(
      ns: string, spec: ScalerSpec, hard: ResourceList, used: ResourceList, demand: Amount, inf: int): Option<Request>
  {
    Decide(ns, spec, UsageOf(hard, Normalized(used)), demand, inf)
  }

  method ActivatePolicies(
      desired: Resources.Resources, scaler: ValidatedQuotaScaler, policies: seq<Policy>, u: Usage,
      scaleUp: bool, inf: int)
    modifies desired
    ensures desired.View() == ApplyPolicies(old(desired.View()), policies, scaleUp, scaler.View(), u, inf)
  {
    for i := 0 to |policies|
      invariant desired.View() == ApplyPolicies(old(desired.View()), policies[..i], scaleUp, scaler.View(), u, inf)
    {
      var target := scaler.ActivateScalerPolicy(policies[i], u, scaleUp, inf);
      var _ := desired.Replace(target);
      assert policies[..i + 1][..i] == policies[..i];
    }
    assert policies[..|policies|] == policies;
  }

  /** The demand of the events goes on top of the usage; `desired` is then that new object. */
  method AddDemand(desired: Resources.Resources, u: Usage, events: Option<seq<PodEvent>>, cluster: Cluster)
    returns (res: Resources.Resources)
    ensures res == desired || fresh(res)
    ensures var demand := DemandOf(cluster, events);
            res.View() == if demand.IsEmpty() then desired.View()
                          else Amount(u.used.cpu, u.used.memory, 0).Plus(demand).RaisedTo(desired.View())
  {
    res := desired;
    if events.Some? {
      var sum := GetResourcesFromPodEvents(cluster, events.value);
      var empty := sum.IsEmpty();
      if !empty {
        var usage := new Resources.Resources(Amount(u.used.cpu, u.used.memory, 0));
        var added := usage.Add(sum);
        res := added.Max(desired);
      }
    }
  }

  /** Policies and events, on a new object that starts from the size of the quota. */
  method Desire(
      scaler: ValidatedQuotaScaler, spec: ScalerSpec, u: Usage, events: Option<seq<PodEvent>>, cluster: Cluster,
      inf: int)
    returns (desired: Resources.Resources)
    requires scaler.View() == Validate(spec)
    ensures fresh(desired) && desired.View() == Desired(spec, u, DemandOf(cluster, events), inf)
  {
    desired := new Resources.Resources(Amount(u.hard.cpu, u.hard.memory, 0));
    ActivatePolicies(desired, scaler, spec.scaleDown, u, false, inf);
    ActivatePolicies(desired, scaler, spec.scaleUp, u, true, inf);
    desired := AddDemand(desired, u, events, cluster);
  }

  /** The bounds, with the limits already capped, and the fix-up. */
  method KeepWithin(desired: Resources.Resources, scaler: ValidatedQuotaScaler, hard: Amount)
    modifies desired
    ensures desired.View() == Bounded(old(desired.View()), scaler.View(), hard)
  {
    var floor := new Resources.Resources(Amount(scaler.minCpu, scaler.minMemory, 0));
    var _ := desired.Max(floor);
    var limit := new Resources.Resources(Amount(scaler.maxCpu, scaler.maxMemory, 0));
    var _ := desired.Limit(limit);
    desired.storage := hard.storage;
    desired.ForceNoScaleDownWhenScaleUp(hard);
  }

  /** One evaluation. The quota is a copy of the stored one, but its `used` map is the stored one: the
      normalised CPU usage is written back through it. Fails without effect when the status is nil. */
  method UpdateQuotaIfRequired(
      quota: ResourceQuota, spec: ScalerSpec, events: Option<seq<PodEvent>>, cluster: Cluster, inf: int)
    returns (ok: bool, request: Option<Request>)
    modifies quota.used
    ensures ok == (quota.used != null && quota.statusHard)
    ensures !ok ==> request == None && (quota.used != null ==> quota.used.m == old(quota.used.m))
    ensures ok ==> quota.used.m == Normalized(old(quota.used.m))
    ensures ok ==>
              request == Evaluate(quota.namespace, spec, quota.hard, old(quota.used.m), DemandOf(cluster, events), inf)
  {
    var scaler := new ValidatedQuotaScaler(spec);
    var hard := HardSize(quota.hard);
    if quota.used == null || !quota.statusHard {
      return false, None;
    }
    quota.used.m := quota.used.m["cpu" := NormalizedUsedCpu(Reading(quota.used.m, "cpu"), UsedCpuLimit(quota.used.m))];
    var u := UsageOf(quota.hard, quota.used.m);
    var desired := Desire(scaler, spec, u, events, cluster, inf);
    scaler.ForceLimitToDefaultMax();
    KeepWithin(desired, scaler, hard);
    var differs := desired.DiffersFrom(hard);
    if differs {
      return true, Some(Request(quota.namespace, spec.resourceQuota, hard, desired.View()));
    }
    return true, None;
  }

  // ---------- Carrying a request out ----------

  /** The hard limits after the stub resize call: sizes in millicores and megabytes, the CPU limit at the
      ratio. The memory limit is written with the unit `m`, as the program does. */
  function Patched(hard: ResourceList, size: Amount): ResourceList
    requires size.cpu >= 0 && size.memory >= 0
  {
    hard["cpu" := size.cpu * MILLI]["limits.cpu" := size.cpu * REQ_LIM_RATIO * MILLI]
        ["memory" := size.memory * MEGA]["limits.memory" := size.memory * MILLI]
  }

  /** A request that was carried out reads back as the new size, with the usage unchanged; so the next
      evaluation sees just the old usage at the new size. The CPU limit is ten times the CPU; the memory limit
      is a billionth of the memory. Nothing else changes. */
  lemma RequestReadsBack(hard: ResourceList, used: ResourceList, size: Amount)
    requires size.cpu >= 0 && size.memory >= 0 && size.storage == HardSize(hard).storage
    ensures UsageOf(Patched(hard, size), used) == UsageOf(hard, used).(hard := size)
    ensures Reading(Patched(hard, size), "limits.cpu") == 10 * Reading(Patched(hard, size), "cpu")
    ensures 1_000_000_000 * Reading(Patched(hard, size), "limits.memory") == Reading(Patched(hard, size), "memory")
    ensures forall key | key !in {"cpu", "limits.cpu", "memory", "limits.memory"} ::
              Reading(Patched(hard, size), key) == Reading(hard, key)
  {
    var patched := Patched(hard, size);
    assert patched["cpu"] == size.cpu * MILLI && patched["memory"] == size.memory * MEGA;
    assert Reading(patched, "requests.storage") == Reading(hard, "requests.storage");
  }

  // ---------- The shared map ----------

  lemma NormalizedIsIdempotent(used: ResourceList)
    ensures Normalized(Normalized(used)) == Normalized(used)
    ensures UsedMemoryLimit(Normalized(used)) == UsedMemoryLimit(used)
  {
    NormalizingIsIdempotent(Reading(used, "cpu"), UsedCpuLimit(used));
  }

  /** What the policies see as usage: of CPU the larger of the requests and a tenth of the limits in use, so
      a quota that holds it admits the limits, at ten to one and up to 9 millicores; of memory the limits
      in use when they are known, else the requests. */
  lemma UsageCoversLimits(hard: ResourceList, used: ResourceList)
    ensures var u := UsageOf(hard, Normalized(used)).used;
            var requested := ScaledValue(Reading(used, "cpu"), MILLI);
            var limits := ScaledValue(if "limits.cpu" in used then used["limits.cpu"] else Reading(used, "cpu"), MILLI);
            var memory := if "limits.memory" in used then used["limits.memory"] else Reading(used, "memory");
            && u.cpu >= requested && REQ_LIM_RATIO * u.cpu + 9 >= limits
            && (u.cpu == requested || u.cpu * REQ_LIM_RATIO <= limits)
            && ("limits.cpu" !in used ==> u.cpu == requested)
            && (u.memory - 1) * MEGA < memory <= u.memory * MEGA
  {
    NormalizedIsIdempotent(used);
  }

  /** The `used` map after `n` evaluations. */
  function NormalizedTimes(used: ResourceList, n: nat): ResourceList {
    if n == 0 then used else Normalized(NormalizedTimes(used, n - 1))
  }

  /** The write-back through the shared map is harmless: however often a stored quota has been evaluated,
      the next evaluation finds the same request. */
  lemma {:induction false} WriteBackIsHarmless(
      ns: string, spec: ScalerSpec, hard: ResourceList, used: ResourceList, demand: Amount, inf: int, n: nat)
    ensures Evaluate(ns, spec, hard, NormalizedTimes(used, n), demand, inf)
         == Evaluate(ns, spec, hard, used, demand, inf)
    ensures n > 0 ==> NormalizedTimes(used, n) == Normalized(used)
  {
    if n > 0 {
      WriteBackIsHarmless(ns, spec, hard, used, demand, inf, n - 1);
      NormalizedIsIdempotent(used);
    }
  }

  /** The same over the stored object itself: two copies of a quota, evaluated one after the other, send
      the same request. */
  method EvaluateTwice(
      stored: ResourceQuota, spec: ScalerSpec, events: Option<seq<PodEvent>>, cluster: Cluster, inf: int)
    returns (first: Option<Request>, second: Option<Request>)
    modifies stored.used
    ensures first == second
  {
    var ok1, ok2;
    var copy := ResourceQuota(stored.namespace, stored.name, stored.hard, stored.statusHard, stored.used);
    ghost var used := if stored.used != null then stored.used.m else map[];
    ok1, first := UpdateQuotaIfRequired(stored, spec, events, cluster, inf);
    ok2, second := UpdateQuotaIfRequired(copy, spec, events, cluster, inf);
    WriteBackIsHarmless(stored.namespace, spec, stored.hard, used, DemandOf(cluster, events), inf, 1);
    assert NormalizedTimes(used, 1) == Normalized(NormalizedTimes(used, 0)) == Normalized(used);
  }

  // ---------- Properties of every request ----------

  ghost predicate QuietAfter(targets: seq<int>, k: int) {
    forall i :: 0 <= k < i < |targets| ==> targets[i] == 0
  }

  /** The last policy of a list that asks for something in one dimension, else the start. */
  ghost predicate LastWins(result: int, start: int, targets: seq<int>) {
    || (result == start && forall t <- targets :: t == 0)
    || (exists k :: 0 <= k < |targets| && targets[k] == result != 0 && QuietAfter(targets, k))
  }

  function CpuTargets(policies: seq<Policy>, scaleUp: bool, l: Limits, u: Usage, inf: int): (targets: seq<int>)
    ensures |targets| == |policies|
  {
    seq(|policies|, i requires 0 <= i < |policies| => Target(l, scaleUp, policies[i], u, inf).cpu)
  }

  function MemoryTargets(policies: seq<Policy>, scaleUp: bool, l: Limits, u: Usage, inf: int): (targets: seq<int>)
    ensures |targets| == |policies|
  {
    seq(|policies|, i requires 0 <= i < |policies| => Target(l, scaleUp, policies[i], u, inf).memory)
  }

  lemma LastWinsAppend(result: int, start: int, targets: seq<int>, next: int)
    requires LastWins(result, start, targets)
    ensures LastWins(if next != 0 then next else result, start, targets + [next])
  {
    var longer := targets + [next];
    if next != 0 {
      assert longer[|targets|] == next && QuietAfter(longer, |targets|);
    } else if !(result == start && forall t <- targets :: t == 0) {
      var k :| 0 <= k < |targets| && targets[k] == result != 0 && QuietAfter(targets, k);
      assert longer[k] == result && QuietAfter(longer, k);
    }
  }

  /** In each dimension a list of policies yields the target of its last active policy, else it changes
      nothing. */
  lemma {:induction false} LastActivePolicyWins(
      start: Amount, policies: seq<Policy>, scaleUp: bool, l: Limits, u: Usage, inf: int)
    ensures var r := ApplyPolicies(start, policies, scaleUp, l, u, inf);
            && LastWins(r.cpu, start.cpu, CpuTargets(policies, scaleUp, l, u, inf))
            && LastWins(r.memory, start.memory, MemoryTargets(policies, scaleUp, l, u, inf))
            && r.storage == start.storage
  {
    if policies != [] {
      var rest, last := policies[..|policies| - 1], policies[|policies| - 1];
      LastActivePolicyWins(start, rest, scaleUp, l, u, inf);
      var before, t := ApplyPolicies(start, rest, scaleUp, l, u, inf), Target(l, scaleUp, last, u, inf);
      LastWinsAppend(before.cpu, start.cpu, CpuTargets(rest, scaleUp, l, u, inf), t.cpu);
      LastWinsAppend(before.memory, start.memory, MemoryTargets(rest, scaleUp, l, u, inf), t.memory);
      assert CpuTargets(policies, scaleUp, l, u, inf) == CpuTargets(rest, scaleUp, l, u, inf) + [t.cpu];
      assert MemoryTargets(policies, scaleUp, l, u, inf) == MemoryTargets(rest, scaleUp, l, u, inf) + [t.memory];
    }
  }

  /** The demand of events, field by field: the size aimed at is the usage and the demand together, or what
      the policies alone ask for where that is more, brought within the bounds; no demand leaves it to the
      policies. */
  lemma DemandIsAimedAt(spec: ScalerSpec, u: Usage, demand: Amount, inf: int)
    ensures var l, alone := Capped(Validate(spec)), Desired(spec, u, NOTHING, inf);
            var aim := Clamped(Desired(spec, u, demand, inf), l, u.hard);
            var some := demand.cpu != 0 || demand.memory != 0;
            && aim.cpu == Min(l.maxCpu, Max(l.minCpu,
                 if some then Max(u.used.cpu + demand.cpu, alone.cpu) else alone.cpu))
            && aim.memory == Min(l.maxMemory, Max(l.minMemory,
                 if some then Max(u.used.memory + demand.memory, alone.memory) else alone.memory))
            && aim.storage == u.hard.storage
  {
  }

  /** Demand is met as far as the maximum allows: whatever the policies ask for, the new size leaves room for
      the usage and the demand in both dimensions, and the request is sent when the quota has not. */
  lemma DemandIsMet(ns: string, spec: ScalerSpec, u: Usage, demand: Amount, inf: int)
    requires demand.cpu != 0 || demand.memory != 0
    ensures var l, r := Capped(Validate(spec)), NewSize(spec, u, demand, inf);
            && r.cpu >= Min(l.maxCpu, u.used.cpu + demand.cpu)
            && r.memory >= Min(l.maxMemory, u.used.memory + demand.memory)
            && (u.hard.cpu < Min(l.maxCpu, u.used.cpu + demand.cpu)
                || u.hard.memory < Min(l.maxMemory, u.used.memory + demand.memory) ==>
                  Decide(ns, spec, u, demand, inf).Some?)
  {
    DemandIsAimedAt(spec, u, demand, inf);
  }

  /** Bounds for whatever the policies and the events asked for, in spite of the fix-up after clamping. */
  lemma BoundedKeepsBounds(desired: Amount, l: Limits, hard: Amount)
    ensures var r := Bounded(desired, l, hard);
            && Min(l.minCpu, l.maxCpu) <= r.cpu <= Max(l.maxCpu, hard.cpu)
            && Min(l.minMemory, l.maxMemory) <= r.memory <= Max(l.maxMemory, hard.memory)
            && (r.cpu > hard.cpu ==> r.cpu <= l.maxCpu)
            && (r.memory > hard.memory ==> r.memory <= l.maxMemory)
  {
  }

  /** Every request, for any policies and any demand: it differs from the current size, goes up or down
      but not both, and respects the scaler's bounds, the maximum capped by the default. */
  lemma EveryRequestIsSound(ns: string, spec: ScalerSpec, u: Usage, demand: Amount, inf: int)
    requires Decide(ns, spec, u, demand, inf).Some?
    ensures var r := Decide(ns, spec, u, demand, inf).value;
            var l := Capped(Validate(spec));
            && r.namespace == ns && r.resourceQuota == spec.resourceQuota
            && r.oldSize == u.hard && r.newSize.storage == u.hard.storage
            && !r.newSize.SameSize(u.hard)
            && (u.hard.Within(r.newSize) || r.newSize.Within(u.hard))
            && Min(l.minCpu, l.maxCpu) <= r.newSize.cpu <= Max(l.maxCpu, u.hard.cpu)
            && Min(l.minMemory, l.maxMemory) <= r.newSize.memory <= Max(l.maxMemory, u.hard.memory)
            && (r.newSize.cpu > u.hard.cpu ==> r.newSize.cpu <= l.maxCpu <= DEFAULT_MAX_CPU)
            && (r.newSize.memory > u.hard.memory ==> r.newSize.memory <= l.maxMemory <= DEFAULT_MAX_MEMORY)
  {
    BoundedKeepsBounds(Desired(spec, u, demand, inf), Capped(Validate(spec)), u.hard);
  }
}
