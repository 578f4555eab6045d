/** Whole evaluations in numbers: from the resource lists of a quota and the events of a batch to the
    request. */
module Scenarios {
  import opened Quantities
  import opened Scaling
  import opened PodEvents
  import opened Decision
  import opened ClosedLoop

  /** A scaler that gives nothing but policies. */
  function PolicyScaler(scaleDown: seq<Policy>, scaleUp: seq<Policy>): ScalerSpec {
    ScalerSpec("quota", None, None, None, None, None, None, None, None, scaleDown, scaleUp)
  }

  lemma OneMemoryPolicy(start: Amount, p: Policy, scaleUp: bool, l: Limits, u: Usage, inf: int)
    requires SameLetters(p.resource, "memory")
    ensures ApplyPolicies(start, [p], scaleUp, l, u, inf)
         == start.ReplacedBy(Amount(0, Asked(l, scaleUp, p, u, inf, Memory), 0))
  {
    MethodsByName(p);
    TargetPart(l, scaleUp, p, u, inf, Cpu);
    TargetPart(l, scaleUp, p, u, inf, Memory);
    assert [p][..0] == [];
    assert ApplyPolicies(start, [], scaleUp, l, u, inf) == start;
  }

  /** A memory band of 50 to 70 percent, however the method is written: at 2000 megabytes and a usage of
      1799, which is 89 percent, the memory is raised to 2542; at 10000 and 1000 it is lowered to 2000; at 2000
      and 1200 it stays. */
  lemma MemoryIsKeptInBand(ns: string, cpu: int, inf: int)
    requires 400 <= cpu <= 35_000
    ensures var spec := PolicyScaler([Policy("MEMORY", 50)], [Policy("memory", 70)]);
            && Decide(ns, spec, Usage(Amount(cpu, 2000, 7), Amount(0, 1799, 0)), NOTHING, inf)
               == Some(Request(ns, "quota", Amount(cpu, 2000, 7), Amount(cpu, 2542, 7)))
            && Decide(ns, spec, Usage(Amount(cpu, 10_000, 7), Amount(0, 1000, 0)), NOTHING, inf)
               == Some(Request(ns, "quota", Amount(cpu, 10_000, 7), Amount(cpu, 2000, 7)))
            && Decide(ns, spec, Usage(Amount(cpu, 2000, 7), Amount(0, 1200, 0)), NOTHING, inf) == None
  {
    MemoryDesired(Usage(Amount(cpu, 2000, 7), Amount(0, 1799, 0)), inf);
    MemoryDesired(Usage(Amount(cpu, 10_000, 7), Amount(0, 1000, 0)), inf);
    MemoryDesired(Usage(Amount(cpu, 2000, 7), Amount(0, 1200, 0)), inf);
  }

  lemma MemoryDesired(u: Usage, inf: int)
    ensures var spec := PolicyScaler([Policy("MEMORY", 50)], [Policy("memory", 70)]);
            var l := Validate(spec);
            var lower := TargetOf(false, Policed(l, false, 50, u, Memory), inf);
            var higher := TargetOf(true, Policed(l, true, 70, u, Memory), inf);
            Desired(spec, u, NOTHING, inf)
            == Amount(u.hard.cpu, if higher != 0 then higher else if lower != 0 then lower else u.hard.memory, 0)
  {
    var l := Validate(PolicyScaler([Policy("MEMORY", 50)], [Policy("memory", 70)]));
    var start := Amount(u.hard.cpu, u.hard.memory, 0);
    var down := ApplyPolicies(start, [Policy("MEMORY", 50)], false, l, u, inf);
    OneMemoryPolicy(start, Policy("MEMORY", 50), false, l, u, inf);
    OneMemoryPolicy(down, Policy("memory", 70), true, l, u, inf);
  }

  // ---------- A batch of events ----------

  /** Units of a resource list: a millicore, a megabyte and a gigabyte in nano-units. */
  const MILLICORE: nat := 1_000_000
  const MEGABYTE: nat := 1_000_000_000_000_000
  const GIGABYTE: nat := 1_000_000_000_000_000_000

  const HARD: ResourceList :=
    map["cpu" := 1000 * MILLICORE, "memory" := 2000 * MEGABYTE, "requests.storage" := 5 * GIGABYTE]

  /** The CPU limits weigh more than the CPU requests, the memory limits count instead of the requests. */
  const USED: ResourceList :=
    map["cpu" := 300 * MILLICORE, "limits.cpu" := 9000 * MILLICORE,
        "memory" := 1000 * MEGABYTE, "limits.memory" := 1800 * MEGABYTE]

  const WEB: ObjectRef := ObjectRef("ReplicaSet", "dev", "web")

  const SERVER: Container := Container(
    Some(map["cpu" := 250 * MILLICORE, "memory" := 600 * MEGABYTE]),
    Some(map["cpu" := 5000 * MILLICORE, "memory" := 1000 * MEGABYTE]))

  /** One of three replicas is missing. */
  const CLUSTER: Cluster := map[WEB := Workload(Some([SERVER]), 3, 2)]

  lemma OneContainer(c: Container, missing: nat)
    ensures PodDemand([c], missing)
         == if missing == 0 then NOTHING
            else Amount(ScaledValue(CountedCpu(c), MILLI) * missing, ScaledValue(CountedMemory(c), MEGA) * missing, 0)
  {
    assert [c][..0] == [];
    assert SumCpu([c]) == SumCpu([]) + CountedCpu(c) && SumMemory([c]) == SumMemory([]) + CountedMemory(c);
  }

  /** A pod counts with a tenth of its CPU limit, which is more than its request, and its memory limit. */
  lemma ServerCounts()
    ensures PodDemand([SERVER], 1) == Amount(500, 1000, 0)
  {
    OneContainer(SERVER, 1);
  }

  lemma WebNeeds()
    ensures DemandOf(CLUSTER, Some([PodEvent(WEB, "dev")])) == Amount(500, 1000, 0)
  {
    DemandOfOneEvent(CLUSTER, PodEvent(WEB, "dev"));
    ContributionByKind(CLUSTER, WEB);
    ServerCounts();
  }

  /** Without policies a pod that could not be created raises the quota by what it needs on top of the usage:
      900 + 500 millicores and 1800 + 1000 megabytes; without the event nothing is sent. */
  lemma FailedPodRaisesQuota(inf: int)
    ensures var spec, events := PolicyScaler([], []), [PodEvent(WEB, "dev")];
            && Evaluate("dev", spec, HARD, USED, DemandOf(CLUSTER, Some(events)), inf)
               == Some(Request("dev", "quota", Amount(1000, 2000, 5), Amount(1400, 2800, 5)))
            && Evaluate("dev", spec, HARD, USED, DemandOf(CLUSTER, None), inf) == None
  {
    WebNeeds();
    SeenUsage();
  }

  lemma SeenUsage()
    ensures UsageOf(HARD, Normalized(USED)) == Usage(Amount(1000, 2000, 5), Amount(900, 1800, 0))
  {
  }

  /** A quota without any of the entries has size and usage zero, and is given the default minimum. */
  lemma EmptyQuotaGetsMinimum(ns: string, inf: int)
    ensures Evaluate(ns, PolicyScaler([], []), map[], map[], NOTHING, inf)
         == Some(Request(ns, "quota", Amount(0, 0, 0), Amount(400, 1000, 0)))
  {
  }
}
