/** What happens when the requests of the decision pipeline become the next size of the quota. */
module ClosedLoop {
  import opened Quantities
  import opened Scaling
  import opened ScalingLaws
  import opened Decision
  import Resources

  /** The usage seen after a request was carried out; without a request nothing changes. */
  function Applied(u: Usage, request: Option<Request>): Usage {
    if request.Some? then u.(hard := request.value.newSize) else u
  }

  /** `n` evaluations at fixed usage and without events, each request applied. */
  function After(ns: string, spec: ScalerSpec, u: Usage, inf: int, n: nat): Usage {
    if n == 0 then u
    else
      var v := After(ns, spec, u, inf, n - 1);
      Applied(v, Decide(ns, spec, v, NOTHING, inf))
  }

  // ---------- One dimension at a time ----------

  datatype Dimension = Cpu | Memory

  function Part(a: Amount, d: Dimension): int {
    if d.Cpu? then a.cpu else a.memory
  }

  predicate Concerns(p: Policy, d: Dimension) {
    if d.Cpu? then IsCpu(p) else IsMemory(p)
  }

  function MinOf(l: Limits, d: Dimension): int {
    if d.Cpu? then l.minCpu else l.minMemory
  }

  function MaxOf(l: Limits, d: Dimension): int {
    if d.Cpu? then l.maxCpu else l.maxMemory
  }

  function MinStepOf(l: Limits, d: Dimension): int {
    if d.Cpu? then l.minCpuStep else l.minMemoryStep
  }

  function MaxStepOf(l: Limits, d: Dimension): int {
    if d.Cpu? then l.maxCpuStep else l.maxMemoryStep
  }

  function Policed(l: Limits, scaleUp: bool, value: int, u: Usage, d: Dimension): ActivePolicy {
    var m, used := Part(u.hard, d), Part(u.used, d);
    ActivePolicy(d.Cpu?, m, Percentage(used, m), value, if scaleUp then MaxOf(l, d) else MinOf(l, d),
                 MinStepOf(l, d), MaxStepOf(l, d), used)
  }

  /** What a policy asks for in a dimension it concerns. */
  function Asked(l: Limits, scaleUp: bool, p: Policy, u: Usage, inf: int, d: Dimension): int {
    TargetOf(scaleUp, Policed(l, scaleUp, p.value, u, d), inf)
  }

  /** A policy asks for something in its own dimension only. */
  lemma TargetPart(l: Limits, scaleUp: bool, p: Policy, u: Usage, inf: int, d: Dimension)
    ensures Part(Target(l, scaleUp, p, u, inf), d)
         == if Concerns(p, d) then Asked(l, scaleUp, p, u, inf, d) else 0
  {
    if !IsCpu(p) && !IsMemory(p) {
      UnknownPolicyAsksNothing(l, scaleUp, p, u, inf);
    }
    assert !(IsCpu(p) && IsMemory(p)) by {
      assert |"cpu"| != |"memory"|;
    }
  }

  /** The result of a list of policies in one dimension: what an active policy asks for if there is one,
      else the start. */
  lemma {:induction false} PoliciesYield(
      start: Amount, policies: seq<Policy>, scaleUp: bool, l: Limits, u: Usage, inf: int, d: Dimension)
    ensures var r := Part(ApplyPolicies(start, policies, scaleUp, l, u, inf), d);
            || r == Part(start, d)
            || exists p <- policies :: Concerns(p, d) && r == Asked(l, scaleUp, p, u, inf, d) != 0
    ensures (forall p <- policies :: Concerns(p, d) ==> Asked(l, scaleUp, p, u, inf, d) == 0) ==>
              Part(ApplyPolicies(start, policies, scaleUp, l, u, inf), d) == Part(start, d)
    ensures (exists p <- policies :: Concerns(p, d) && Asked(l, scaleUp, p, u, inf, d) != 0) ==>
              var r := Part(ApplyPolicies(start, policies, scaleUp, l, u, inf), d);
              exists p <- policies :: Concerns(p, d) && r == Asked(l, scaleUp, p, u, inf, d) != 0
  {
    if policies != [] {
      var rest, last := policies[..|policies| - 1], policies[|policies| - 1];
      PoliciesYield(start, rest, scaleUp, l, u, inf, d);
      TargetPart(l, scaleUp, last, u, inf, d);
      assert policies == rest + [last];
      assert last in policies;
    }
  }

  // ---------- All policies at 100 ----------

  predicate AllFull(policies: seq<Policy>) {
    forall p <- policies :: p.value == 100
  }

  /** Where a quota belongs under 100/100 policies: at the usage, within the bounds. */
  function Goal(spec: ScalerSpec, used: Amount): Amount {
    var l := Capped(Validate(spec));
    Amount(Min(Max(used.cpu, l.minCpu), l.maxCpu), Min(Max(used.memory, l.minMemory), l.maxMemory), 0)
  }

  /** Every policy has value 100, both dimensions can go down, and no target is the sentinel 0. */
  predicate FullyUtilised(spec: ScalerSpec, used: Amount) {
    var l := Validate(spec);
    && AllFull(spec.scaleDown) && AllFull(spec.scaleUp)
    && (exists p <- spec.scaleDown :: IsCpu(p))
    && (exists p <- spec.scaleDown :: IsMemory(p))
    && Max(used.cpu, l.minCpu) != 0 && Max(used.memory, l.minMemory) != 0
  }

  lemma {:induction false} FullDown(start: Amount, policies: seq<Policy>, l: Limits, u: Usage, inf: int, d: Dimension)
    requires AllFull(policies) && Max(Part(u.used, d), MinOf(l, d)) != 0
    ensures Part(ApplyPolicies(start, policies, false, l, u, inf), d)
         == if Part(u.used, d) != Part(u.hard, d) && exists p <- policies :: Concerns(p, d)
            then Max(Part(u.used, d), MinOf(l, d)) else Part(start, d)
  {
    if policies != [] {
      var rest, last := policies[..|policies| - 1], policies[|policies| - 1];
      FullDown(start, rest, l, u, inf, d);
      TargetPart(l, false, last, u, inf, d);
      assert policies == rest + [last];
      assert last in policies;
    }
  }

  lemma {:induction false} FullUp(start: Amount, policies: seq<Policy>, l: Limits, u: Usage, inf: int, d: Dimension)
    requires AllFull(policies)
    ensures Part(ApplyPolicies(start, policies, true, l, u, inf), d) == Part(start, d)
  {
    forall p <- policies ensures Concerns(p, d) ==> Asked(l, true, p, u, inf, d) == 0 {
    }
    PoliciesYield(start, policies, true, l, u, inf, d);
  }

  /** One evaluation aims at the goal, whatever the current size; only the fix-up can defer it. */
  lemma FullAimsAtGoal(spec: ScalerSpec, u: Usage, inf: int)
    requires FullyUtilised(spec, u.used)
    ensures NewSize(spec, u, NOTHING, inf)
         == Resources.OneDirection(Goal(spec, u.used).(storage := u.hard.storage), u.hard)
  {
    var l := Validate(spec);
    var size := Amount(u.hard.cpu, u.hard.memory, 0);
    var down := ApplyPolicies(size, spec.scaleDown, false, l, u, inf);
    FullDown(size, spec.scaleDown, l, u, inf, Cpu);
    FullDown(size, spec.scaleDown, l, u, inf, Memory);
    FullUp(down, spec.scaleUp, l, u, inf, Cpu);
    FullUp(down, spec.scaleUp, l, u, inf, Memory);
    assert exists p <- spec.scaleDown :: Concerns(p, Cpu);
    assert exists p <- spec.scaleDown :: Concerns(p, Memory);
  }

  /** Under 100/100 policies, at fixed usage and without events, at most two requests bring a quota to its
      goal; nothing is sent once it is there, and one request is enough unless one dimension has to rise
      and the other to fall. */
  lemma FullPoliciesReachGoal(ns: string, spec: ScalerSpec, u: Usage, inf: int)
    requires FullyUtilised(spec, u.used)
    ensures var goal := Goal(spec, u.used);
            && (Decide(ns, spec, u, NOTHING, inf) == None <==> u.hard.SameSize(goal))
            && After(ns, spec, u, inf, 2).hard.SameSize(goal)
            && Decide(ns, spec, After(ns, spec, u, inf, 2), NOTHING, inf) == None
            && (After(ns, spec, u, inf, 1).hard.SameSize(goal) <==> goal.Within(u.hard) || u.hard.Within(goal))
  {
    var u1 := After(ns, spec, u, inf, 1);
    assert u1 == Applied(After(ns, spec, u, inf, 0), Decide(ns, spec, After(ns, spec, u, inf, 0), NOTHING, inf));
    var u2 := After(ns, spec, u, inf, 2);
    assert u2 == Applied(u1, Decide(ns, spec, u1, NOTHING, inf));
    assert u1.used == u.used && u2.used == u.used;
    FullAimsAtGoal(spec, u, inf);
    FullAimsAtGoal(spec, u1, inf);
    FullAimsAtGoal(spec, u2, inf);
  }

  // ---------- Percentage policies: a raise is not undone ----------

  /** In one dimension every scale-down threshold is below 100 and every scale-up threshold, with a margin
      that pays for the minimal step at the current size. */
  predicate Banded(spec: ScalerSpec, size: int, d: Dimension) {
    forall p <- spec.scaleDown, q <- spec.scaleUp :: Concerns(p, d) && Concerns(q, d) ==>
      && 0 <= p.value < 100 && p.value <= q.value && 1 <= q.value
      && Margin(p.value, q.value, size, MinStepOf(Validate(spec), d))
  }

  predicate Margin(down: int, up: int, size: int, step: int) {
    (up + 1 - down) * size >= down * step
  }

  lemma MarginGrows(down: int, up: int, size: int, larger: int, step: int)
    requires Margin(down, up, size, step) && size <= larger && down <= up
    ensures Margin(down, up, larger, step)
  {
    Scale(size, larger, up + 1 - down);
  }

  predicate StepsForward(spec: ScalerSpec, d: Dimension) {
    MinStepOf(Validate(spec), d) >= 0 && MaxStepOf(Validate(spec), d) >= 0
  }

  /** A raise either stays within the minimum, or was asked for by a scale-up policy. */
  lemma RaiseComesFromUpPolicy(spec: ScalerSpec, u: Usage, inf: int, d: Dimension)
    requires StepsForward(spec, d) && (forall p <- spec.scaleDown :: Concerns(p, d) ==> p.value < 100)
    requires Part(NewSize(spec, u, NOTHING, inf), d) > Part(u.hard, d)
    ensures var l := Validate(spec);
            var r := Part(NewSize(spec, u, NOTHING, inf), d);
            && r <= MaxOf(Capped(l), d)
            && (|| r <= MinOf(l, d)
                || exists q <- spec.scaleUp :: Concerns(q, d)
                     && r <= Asked(l, true, q, u, inf, d)
                     && Asked(l, true, q, u, inf, d) != 0)
  {
    var l := Validate(spec);
    var size := Amount(u.hard.cpu, u.hard.memory, 0);
    var down := ApplyPolicies(size, spec.scaleDown, false, l, u, inf);
    PoliciesYield(size, spec.scaleDown, false, l, u, inf, d);
    PoliciesYield(down, spec.scaleUp, true, l, u, inf, d);
    BoundedKeepsBounds(Desired(spec, u, NOTHING, inf), Capped(l), u.hard);
    DownTargetsRaiseToMinimum(spec, u, inf, d);
  }

  lemma DownTargetsRaiseToMinimum(spec: ScalerSpec, u: Usage, inf: int, d: Dimension)
    requires StepsForward(spec, d) && (forall p <- spec.scaleDown :: Concerns(p, d) ==> p.value < 100)
    ensures forall p <- spec.scaleDown :: Concerns(p, d) ==>
              Asked(Validate(spec), false, p, u, inf, d)
              <= Max(0, Max(Part(u.hard, d), MinOf(Validate(spec), d)))
  {
  }

  /** At a size no scale-down policy is active at, only the scale-up policies count, and they do not lower
      it. */
  lemma QuietDownKeepsSize(spec: ScalerSpec, u: Usage, inf: int, d: Dimension)
    requires StepsForward(spec, d) && 0 < Part(u.hard, d) <= MaxOf(Capped(Validate(spec)), d)
    requires forall p <- spec.scaleDown :: Concerns(p, d) ==>
               p.value < 100 && Percentage(Part(u.used, d), Part(u.hard, d)) >= p.value
    ensures Part(NewSize(spec, u, NOTHING, inf), d) >= Part(u.hard, d)
  {
    var l := Validate(spec);
    var size := Amount(u.hard.cpu, u.hard.memory, 0);
    var down := ApplyPolicies(size, spec.scaleDown, false, l, u, inf);
    PoliciesYield(size, spec.scaleDown, false, l, u, inf, d);
    PoliciesYield(down, spec.scaleUp, true, l, u, inf, d);
  }

  lemma UpTargetCoversDown(a: ActivePolicy, inf: int, down: int, r: int)
    requires Sized(a) && 1 <= a.threshold && 0 <= down <= a.threshold
    requires Margin(down, a.threshold, a.currentMaximum, a.minimalStep)
    requires 0 < r <= TargetOf(true, a, inf)
    ensures Percentage(a.used, r) >= down
  {
    var target := TargetOf(true, a, inf);
    NoDownAfterUp(a, inf, down);
    PercentageBelow(a.used, target, down);
    PercentageBelow(a.used, r, down);
    Scale(r, target, down);
  }

  /** With banded thresholds, a dimension that a request raised is not lowered by the next evaluation at
      the same usage, for any lists of policies. */
  lemma RaiseIsNotUndone(spec: ScalerSpec, u: Usage, inf: int, d: Dimension)
    requires Part(u.hard, d) > 0 && Part(u.used, d) >= 0
    requires StepsForward(spec, d) && Banded(spec, Part(u.hard, d), d)
    requires forall p <- spec.scaleDown :: Concerns(p, d) ==> p.value < 100
    requires Part(NewSize(spec, u, NOTHING, inf), d) > Part(u.hard, d)
    ensures var raised := u.(hard := NewSize(spec, u, NOTHING, inf));
            Part(NewSize(spec, raised, NOTHING, inf), d) >= Part(raised.hard, d)
  {
    var l := Validate(spec);
    var raised := u.(hard := NewSize(spec, u, NOTHING, inf));
    var r := Part(raised.hard, d);
    RaiseComesFromUpPolicy(spec, u, inf, d);
    if r <= MinOf(l, d) {
      BoundedKeepsBounds(Desired(spec, raised, NOTHING, inf), Capped(l), raised.hard);
    } else {
      var q :| q in spec.scaleUp && Concerns(q, d) && r <= Asked(l, true, q, u, inf, d);
      forall p <- spec.scaleDown | Concerns(p, d) ensures Percentage(Part(u.used, d), r) >= p.value {
        UpTargetCoversDown(Policed(l, true, q.value, u, d), inf, p.value, r);
      }
      QuietDownKeepsSize(spec, raised, inf, d);
    }
  }

  // ---------- A quota at rest ----------

  /** Whether a policy value asks for a change at this usage, without looking at targets. */
  predicate Asks(scaleUp: bool, value: int, used: int, size: int) {
    if value == 100 then !scaleUp && used != size
    else if scaleUp then Percentage(used, size) > value
    else Percentage(used, size) < value
  }

  /** The usage is between the scale-down and the scale-up values, and is the size where 100 is asked. */
  predicate InBand(spec: ScalerSpec, u: Usage, d: Dimension) {
    && (forall p <- spec.scaleDown :: Concerns(p, d) ==> !Asks(false, p.value, Part(u.used, d), Part(u.hard, d)))
    && (forall q <- spec.scaleUp :: Concerns(q, d) ==> !Asks(true, q.value, Part(u.used, d), Part(u.hard, d)))
  }

  /** The size is strictly within the scaler's bounds, and steps are positive. */
  predicate Interior(spec: ScalerSpec, u: Usage, d: Dimension) {
    var l := Validate(spec);
    && 1 <= MinOf(l, d) < Part(u.hard, d) < MaxOf(Capped(l), d)
    && MinStepOf(l, d) >= 1 && MaxStepOf(l, d) >= 1
  }

  lemma AskingMoves(l: Limits, scaleUp: bool, value: int, u: Usage, inf: int, d: Dimension)
    requires 1 <= MinOf(l, d) < Part(u.hard, d) < MaxOf(l, d) && MinStepOf(l, d) >= 1 && MaxStepOf(l, d) >= 1
    ensures var target := TargetOf(scaleUp, Policed(l, scaleUp, value, u, d), inf);
            && (target != 0 <==> Asks(scaleUp, value, Part(u.used, d), Part(u.hard, d)))
            && (target != 0 ==> target != Part(u.hard, d))
  {
  }

  lemma DesiredStaysInBand(spec: ScalerSpec, u: Usage, inf: int, d: Dimension)
    requires Interior(spec, u, d)
    ensures Part(Desired(spec, u, NOTHING, inf), d) == Part(u.hard, d) <==> InBand(spec, u, d)
  {
    var l := Validate(spec);
    var size := Amount(u.hard.cpu, u.hard.memory, 0);
    var down := ApplyPolicies(size, spec.scaleDown, false, l, u, inf);
    PoliciesYield(size, spec.scaleDown, false, l, u, inf, d);
    PoliciesYield(down, spec.scaleUp, true, l, u, inf, d);
    forall p <- spec.scaleDown { AskingMoves(l, false, p.value, u, inf, d); }
    forall q <- spec.scaleUp { AskingMoves(l, true, q.value, u, inf, d); }
  }

  /** A quota strictly within its bounds is left alone exactly when, in both dimensions, its usage is in
      the band that all policies together describe. */
  lemma AtRestExactlyInBand(ns: string, spec: ScalerSpec, u: Usage, inf: int)
    requires Interior(spec, u, Cpu) && Interior(spec, u, Memory)
    ensures Decide(ns, spec, u, NOTHING, inf) == None <==> InBand(spec, u, Cpu) && InBand(spec, u, Memory)
  {
    DesiredStaysInBand(spec, u, inf, Cpu);
    DesiredStaysInBand(spec, u, inf, Memory);
  }
}
