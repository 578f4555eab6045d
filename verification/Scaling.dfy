/** Scaling policies: which target a policy asks for, given the quota's size and usage. */
module Scaling {
  import opened Quantities
  import Resources

  /** `resource` is the policy's method: "cpu" or "memory" in any case; others have no effect. */
  datatype Policy = Policy(resource: string, value: int)

  /** The quantities of a QuotaAutoscaler in millicores and megabytes; None when empty or unparsable. */
  datatype ScalerSpec = ScalerSpec(
    resourceQuota: string,
    minCpu: Option<int>, maxCpu: Option<int>, minCpuStep: Option<int>, maxCpuStep: Option<int>,
    minMemory: Option<int>, maxMemory: Option<int>, minMemoryStep: Option<int>, maxMemoryStep: Option<int>,
    scaleDown: seq<Policy>, scaleUp: seq<Policy>)

  datatype Limits = Limits(
    minCpu: int, maxCpu: int, minCpuStep: int, maxCpuStep: int,
    minMemory: int, maxMemory: int, minMemoryStep: int, maxMemoryStep: int)

  const DEFAULT_MAX_CPU := 35000
  const DEFAULT_MAX_MEMORY := 150000

  function WithDefault(value: Option<int>, default: int): int {
    if value.Some? then value.value else default
  }

  /** The maximal CPU step is read from `minCpuStep`, as the program does; `maxCpuStep` is never read. */
  function Validate(spec: ScalerSpec): Limits {
    Limits(
      WithDefault(spec.minCpu, 400),
      WithDefault(spec.maxCpu, DEFAULT_MAX_CPU),
      WithDefault(spec.minCpuStep, 10),
      WithDefault(spec.minCpuStep, 35000),
      WithDefault(spec.minMemory, 1000),
      WithDefault(spec.maxMemory, DEFAULT_MAX_MEMORY),
      WithDefault(spec.minMemoryStep, 10),
      WithDefault(spec.maxMemoryStep, 150000))
  }

  /** `ForceLimitToDefaultMax`. */
  function Capped(l: Limits): Limits {
    l.(maxCpu := Min(l.maxCpu, DEFAULT_MAX_CPU), maxMemory := Min(l.maxMemory, DEFAULT_MAX_MEMORY))
  }

  /** The size of a quota and its usage; CPU usage is already normalised against the CPU limit. */
  datatype Usage = Usage(hard: Amount, used: Amount)

  datatype ActivePolicy = ActivePolicy(
    isCpu: bool, currentMaximum: int, usagePercentage: int, threshold: int,
    quotaLimit: int, minimalStep: int, maximumStep: int, used: int)

  /** Conversion of an exact quotient to an integer drops the fraction. */
  function Truncate(a: int, b: int): int
    requires b != 0
  {
    if (a >= 0) == (b > 0) then Abs(a) / Abs(b) else -(Abs(a) / Abs(b))
  }

  function Abs(a: int): nat {
    if a < 0 then -a else a
  }

  function Percentage(used: int, maximum: int): int {
    if maximum != 0 then Truncate(used * 100, maximum) else 0
  }

  function LowerCase(s: string): string {
    seq(|s|, i requires 0 <= i < |s| => if 'A' <= s[i] <= 'Z' then s[i] - 'A' + 'a' else s[i])
  }

  predicate IsCpu(p: Policy) {
    LowerCase(p.resource) == "cpu"
  }

  predicate IsMemory(p: Policy) {
    LowerCase(p.resource) == "memory"
  }

  function ToActivePolicy(l: Limits, scaleUp: bool, p: Policy, u: Usage): ActivePolicy {
    if IsMemory(p) then
      ActivePolicy(false, u.hard.memory, Percentage(u.used.memory, u.hard.memory), p.value,
                   if scaleUp then l.maxMemory else l.minMemory, l.minMemoryStep, l.maxMemoryStep, u.used.memory)
    else if IsCpu(p) then
      ActivePolicy(true, u.hard.cpu, Percentage(u.used.cpu, u.hard.cpu), p.value,
                   if scaleUp then l.maxCpu else l.minCpu, l.minCpuStep, l.maxCpuStep, u.used.cpu)
    else
      ActivePolicy(false, 0, 0, p.value, 0, 0, 0, 0)
  }

  /** The size at which the usage would be at the threshold. A threshold of 0 divides by zero: what the
      platform makes of that is the parameter `inf`. */
  function RawTarget(a: ActivePolicy, inf: int): int {
    if a.threshold == 0 then inf else Truncate(a.usagePercentage * a.currentMaximum, a.threshold)
  }

  /** What a step up may lead to: at most the limit, at most one maximal step up, and at least one minimal
      step up unless the limit or the maximal step forbids it. */
  predicate AdmissibleUp(a: ActivePolicy, size: int) {
    && size <= a.quotaLimit && size <= a.currentMaximum + a.maximumStep
    && (|| size >= a.currentMaximum + a.minimalStep
        || size == a.quotaLimit || size == a.currentMaximum + a.maximumStep)
  }

  predicate AdmissibleDown(a: ActivePolicy, size: int) {
    && size >= a.quotaLimit && size >= a.currentMaximum - a.maximumStep
    && (|| size <= a.currentMaximum - a.minimalStep
        || size == a.quotaLimit || size == a.currentMaximum - a.maximumStep)
  }

  /** An arbitrary raw target, brought within the limit and the steps: a raw target that is admissible is
      kept. */
  function StepUp(a: ActivePolicy, raw: int): (size: int)
    ensures AdmissibleUp(a, size)
    ensures AdmissibleUp(a, raw) ==> size == raw
  {
    Min(Max(raw, a.currentMaximum + a.minimalStep), Min(a.quotaLimit, a.currentMaximum + a.maximumStep))
  }

  function StepDown(a: ActivePolicy, raw: int): (size: int)
    ensures AdmissibleDown(a, size)
    ensures AdmissibleDown(a, raw) ==> size == raw
  {
    Max(Min(raw, a.currentMaximum - a.minimalStep), Max(a.quotaLimit, a.currentMaximum - a.maximumStep))
  }

  /** Of the admissible sizes none is nearer to the raw target. */
  ghost predicate NearestUp(a: ActivePolicy, raw: int, size: int) {
    AdmissibleUp(a, size) && forall other :: AdmissibleUp(a, other) ==> Abs(size - raw) <= Abs(other - raw)
  }

  ghost predicate NearestDown(a: ActivePolicy, raw: int, size: int) {
    AdmissibleDown(a, size) && forall other :: AdmissibleDown(a, other) ==> Abs(size - raw) <= Abs(other - raw)
  }

  /** A step up leads to the one admissible size nearest to the raw target, whatever the raw target, the
      limit and the steps are. */
  lemma StepUpIsNearest(a: ActivePolicy, raw: int, size: int)
    ensures size == StepUp(a, raw) <==> NearestUp(a, raw, size)
  {
    var step := StepUp(a, raw);
    assert AdmissibleUp(a, step);
  }

  lemma StepDownIsNearest(a: ActivePolicy, raw: int, size: int)
    ensures size == StepDown(a, raw) <==> NearestDown(a, raw, size)
  {
    var step := StepDown(a, raw);
    assert AdmissibleDown(a, step);
  }

  method CalculateScaleUp(a: ActivePolicy, inf: int) returns (desired: int)
    ensures NearestUp(a, RawTarget(a, inf), desired)
    ensures desired == StepUp(a, RawTarget(a, inf))
  {
    desired := RawTarget(a, inf);
    desired := Max(desired, a.currentMaximum + a.minimalStep);
    desired := Min(desired, Min(a.quotaLimit, a.currentMaximum + a.maximumStep));
    StepUpIsNearest(a, RawTarget(a, inf), desired);
  }

  method CalculateScaleDown(a: ActivePolicy, inf: int) returns (desired: int)
    ensures NearestDown(a, RawTarget(a, inf), desired)
    ensures desired == StepDown(a, RawTarget(a, inf))
  {
    desired := RawTarget(a, inf);
    desired := Min(desired, a.currentMaximum - a.minimalStep);
    desired := Max(desired, Max(a.quotaLimit, a.currentMaximum - a.maximumStep));
    StepDownIsNearest(a, RawTarget(a, inf), desired);
  }

  /** The target an active policy asks for; 0 means nothing to do. */
  function TargetOf(scaleUp: bool, a: ActivePolicy, inf: int): int {
    if a.threshold == 100 then
      if !scaleUp && a.used != a.currentMaximum then Max(a.used, a.quotaLimit) else 0
    else if scaleUp && a.usagePercentage > a.threshold then StepUp(a, RawTarget(a, inf))
    else if !scaleUp && a.usagePercentage < a.threshold then StepDown(a, RawTarget(a, inf))
    else 0
  }

  /** What a policy contributes: its target in its own dimension, zero elsewhere. */
  function Target(l: Limits, scaleUp: bool, p: Policy, u: Usage, inf: int): Amount {
    var a := ToActivePolicy(l, scaleUp, p, u);
    var target := TargetOf(scaleUp, a, inf);
    if a.isCpu then Amount(target, 0, 0) else Amount(0, target, 0)
  }

  class ValidatedQuotaScaler {
    var minCpu: int
    var maxCpu: int
    var minCpuStep: int
    var maxCpuStep: int
    var minMemory: int
    var maxMemory: int
    var minMemoryStep: int
    var maxMemoryStep: int

    function View(): Limits
      reads this
    {
      Limits(minCpu, maxCpu, minCpuStep, maxCpuStep, minMemory, maxMemory, minMemoryStep, maxMemoryStep)
    }

    /** `ValidateQuotaScaler`. */
    constructor (spec: ScalerSpec)
      ensures View() == Validate(spec)
    {
      minCpu := WithDefault(spec.minCpu, 400);
      maxCpu := WithDefault(spec.maxCpu, DEFAULT_MAX_CPU);
      minCpuStep := WithDefault(spec.minCpuStep, 10);
      maxCpuStep := WithDefault(spec.minCpuStep, 35000);
      minMemory := WithDefault(spec.minMemory, 1000);
      maxMemory := WithDefault(spec.maxMemory, DEFAULT_MAX_MEMORY);
      minMemoryStep := WithDefault(spec.minMemoryStep, 10);
      maxMemoryStep := WithDefault(spec.maxMemoryStep, 150000);
    }

    method ForceLimitToDefaultMax()
      modifies this
      ensures View() == Capped(old(View()))
    {
      if maxMemory > DEFAULT_MAX_MEMORY {
        maxMemory := DEFAULT_MAX_MEMORY;
      }
      if maxCpu > DEFAULT_MAX_CPU {
        maxCpu := DEFAULT_MAX_CPU;
      }
    }

    method ActivatePolicy(scaleUp: bool, p: Policy, u: Usage, inf: int) returns (a: ActivePolicy, target: int)
      ensures a == ToActivePolicy(View(), scaleUp, p, u) && target == TargetOf(scaleUp, a, inf)
    {
      a := ToActivePolicy(View(), scaleUp, p, u);
      if a.threshold == 100 {
        if !scaleUp && a.used != a.currentMaximum {
          return a, Max(a.used, a.quotaLimit);
        }
      } else if scaleUp && a.usagePercentage > p.value {
        target := CalculateScaleUp(a, inf);
        return a, target;
      } else if !scaleUp && a.usagePercentage < p.value {
        target := CalculateScaleDown(a, inf);
        return a, target;
      }
      return a, 0;
    }

    method ActivateScalerPolicy(p: Policy, u: Usage, scaleUp: bool, inf: int) returns (desired: Resources.Resources)
      ensures fresh(desired) && desired.View() == Target(View(), scaleUp, p, u, inf)
    {
      desired := new Resources.Resources(NOTHING);
      var a, target := ActivatePolicy(scaleUp, p, u, inf);
      if target != 0 {
        if a.isCpu {
          desired.cpu := target;
        } else {
          desired.memory := target;
        }
      }
    }
  }

  /** Equal up to the case of ASCII letters. */
  predicate SameLetters(a: string, b: string) {
    && |a| == |b|
    && forall i :: 0 <= i < |a| ==>
         || a[i] == b[i]
         || ('A' <= a[i] <= 'Z' && b[i] as int == a[i] as int + 32)
         || ('A' <= b[i] <= 'Z' && a[i] as int == b[i] as int + 32)
  }

  /** A policy is for the CPU, or for memory, exactly when its method is that word in any case. */
  lemma MethodsByName(p: Policy)
    ensures IsCpu(p) <==> SameLetters(p.resource, "cpu")
    ensures IsMemory(p) <==> SameLetters(p.resource, "memory")
    ensures !(IsCpu(p) && IsMemory(p))
  {
    SpelledExactly(p.resource, "cpu");
    SpelledExactly(p.resource, "memory");
    assert |"cpu"| != |"memory"|;
  }

  lemma SpelledExactly(s: string, word: string)
    requires forall c <- word :: 'a' <= c <= 'z'
    ensures LowerCase(s) == word <==> SameLetters(s, word)
  {
    if SameLetters(s, word) {
      forall i | 0 <= i < |s| ensures LowerCase(s)[i] == word[i] {
        assert word[i] in word;
      }
    }
  }

  /** The case of a policy's method does not matter. */
  lemma CaseDoesNotMatter(l: Limits, scaleUp: bool, p: Policy, q: Policy, u: Usage, inf: int)
    requires SameLetters(p.resource, q.resource) && p.value == q.value
    ensures Target(l, scaleUp, p, u, inf) == Target(l, scaleUp, q, u, inf)
  {
    assert LowerCase(p.resource) == LowerCase(q.resource);
  }

  /** The limits of a scaler, field by field: what it gives, else the default. Only the maximal CPU step is
      taken from another field. */
  lemma LimitsByField(spec: ScalerSpec)
    ensures var l := Validate(spec);
            && l.minCpu == (match spec.minCpu case Some(v) => v case None => 400)
            && l.maxCpu == (match spec.maxCpu case Some(v) => v case None => 35_000)
            && l.minCpuStep == (match spec.minCpuStep case Some(v) => v case None => 10)
            && l.maxCpuStep == (match spec.minCpuStep case Some(v) => v case None => 35_000)
            && l.minMemory == (match spec.minMemory case Some(v) => v case None => 1_000)
            && l.maxMemory == (match spec.maxMemory case Some(v) => v case None => 150_000)
            && l.minMemoryStep == (match spec.minMemoryStep case Some(v) => v case None => 10)
            && l.maxMemoryStep == (match spec.maxMemoryStep case Some(v) => v case None => 150_000)
    ensures Capped(Validate(spec)) == Validate(spec).(maxCpu := Min(Validate(spec).maxCpu, 35_000),
                                                      maxMemory := Min(Validate(spec).maxMemory, 150_000))
  {
  }

  /** A dimension of size zero counts as unused: no scale-up threshold is exceeded there, whatever the usage. */
  lemma ZeroSizeIsUnused(l: Limits, p: Policy, u: Usage, inf: int)
    requires p.value >= 0
    ensures SameLetters(p.resource, "cpu") && u.hard.cpu == 0 ==> Target(l, true, p, u, inf) == NOTHING
    ensures SameLetters(p.resource, "memory") && u.hard.memory == 0 ==> Target(l, true, p, u, inf) == NOTHING
  {
    MethodsByName(p);
  }

  /** A scale-up at threshold zero goes as near as it may to what the platform makes of the division. */
  lemma ZeroThresholdAimsAtInf(a: ActivePolicy, inf: int)
    requires a.threshold == 0 && a.usagePercentage > 0
    ensures NearestUp(a, inf, TargetOf(true, a, inf))
  {
    StepUpIsNearest(a, inf, TargetOf(true, a, inf));
  }

  /** A policy for neither CPU nor memory asks for nothing, whatever its value. */
  lemma UnknownPolicyAsksNothing(l: Limits, scaleUp: bool, p: Policy, u: Usage, inf: int)
    requires !IsCpu(p) && !IsMemory(p)
    ensures Target(l, scaleUp, p, u, inf) == NOTHING
  {
    if p.value != 0 {
      assert Abs(0) / Abs(p.value) == 0;
    }
  }
}
