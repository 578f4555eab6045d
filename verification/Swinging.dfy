/** When the request after a raise is a lowering, and scalers that never come to rest or leap. */
module Swinging {
  import opened Quantities
  import opened Scaling
  import opened ScalingLaws
  import opened Decision
  import opened ClosedLoop
  import opened Settling
  import opened Crossing

  // ---------- A raise that is answered ----------

  /** All policies of a dimension say the same: lower below `down`, raise above `up`. */
  predicate BandOf(spec: ScalerSpec, d: Dimension, down: int, up: int) {
    && (exists p <- spec.scaleDown :: Concerns(p, d)) && (exists q <- spec.scaleUp :: Concerns(q, d))
    && (forall p <- spec.scaleDown :: Concerns(p, d) ==> p.value == down)
    && (forall q <- spec.scaleUp :: Concerns(q, d) ==> q.value == up)
  }

  /** The scale-up policy of a dimension, with the limit that requests are capped to. */
  function CappedUp(spec: ScalerSpec, up: int, u: Usage, d: Dimension): ActivePolicy {
    Policed(Capped(Validate(spec)), true, up, u, d)
  }

  /** An active scale-up policy decides what is aimed at. */
  lemma UpDecides(spec: ScalerSpec, u: Usage, inf: int, d: Dimension, down: int, up: int)
    requires Proper(spec, d) && BandOf(spec, d, down, up)
    requires 0 < Part(u.hard, d) < MaxOf(Capped(Validate(spec)), d)
    requires up != 100 && Percentage(Part(u.used, d), Part(u.hard, d)) > up
    ensures var a := Policed(Validate(spec), true, up, u, d);
            Part(Desired(spec, u, NOTHING, inf), d) == StepUp(a, RawTarget(a, inf)) > Part(u.hard, d)
  {
    var l := Validate(spec);
    var a := Policed(l, true, up, u, d);
    assert StepUp(a, RawTarget(a, inf)) > Part(u.hard, d);
    assert TargetOf(true, a, inf) == StepUp(a, RawTarget(a, inf));
    var start := Amount(u.hard.cpu, u.hard.memory, 0);
    PoliciesYield(ApplyPolicies(start, spec.scaleDown, false, l, u, inf), spec.scaleUp, true, l, u, inf, d);
  }

  /** A raise goes to the step of the capped policy, or to the minimum. */
  lemma RaisedSize(spec: ScalerSpec, u: Usage, inf: int, d: Dimension, down: int, up: int)
    requires Proper(spec, d) && BandOf(spec, d, down, up)
    requires 0 < Part(u.hard, d) < MaxOf(Capped(Validate(spec)), d)
    requires up != 100 && Percentage(Part(u.used, d), Part(u.hard, d)) > up
    ensures var a := CappedUp(spec, up, u, d);
            && StepUp(a, RawTarget(a, inf)) > Part(u.hard, d)
            && Part(NewSize(spec, u, NOTHING, inf), d)
               == Max(StepUp(a, RawTarget(a, inf)), MinOf(Validate(spec), d))
  {
    UpDecides(spec, u, inf, d, down, up);
    var a := Policed(Validate(spec), true, up, u, d);
    assert CappedUp(spec, up, u, d) == a.(quotaLimit := MaxOf(Capped(Validate(spec)), d));
    NewSizeFollowsAim(spec, u, inf, d);
  }

  /** The size of the least step up, within the capped limit and the maximal step. */
  function LeastRaise(spec: ScalerSpec, u: Usage, d: Dimension): int {
    var l, size := Capped(Validate(spec)), Part(u.hard, d);
    Min(size + MinStepOf(l, d), Min(MaxOf(l, d), size + MaxStepOf(l, d)))
  }

  /** A raise to `raised` asks to be undone: with the thresholds in order, when the usage is less than `down`
      percent of the least raise; with crossed ones, when it is at most `up` percent of the size reached. */
  predicate AsksBack(spec: ScalerSpec, u: Usage, d: Dimension, down: int, up: int, raised: int) {
    if down <= up then
      MinOf(Validate(spec), d) < LeastRaise(spec, u, d) && 100 * Part(u.used, d) < down * LeastRaise(spec, u, d)
    else
      MinOf(Validate(spec), d) < raised && Percentage(Part(u.used, d), raised) <= up
  }

  /** After a raise the next evaluation aims lower exactly when the raise asks to be undone. */
  lemma AsksBackExactly(spec: ScalerSpec, u: Usage, inf: int, d: Dimension, down: int, up: int)
    requires Proper(spec, d) && BandOf(spec, d, down, up) && down <= 100
    requires 0 < Part(u.hard, d) < MaxOf(Capped(Validate(spec)), d) && Part(u.used, d) >= 0
    requires up != 100 && Percentage(Part(u.used, d), Part(u.hard, d)) > up
    ensures var raised := u.(hard := NewSize(spec, u, NOTHING, inf));
            var r := Part(raised.hard, d);
            r > Part(u.hard, d) && (Part(Aim(spec, raised, inf), d) < r <==> AsksBack(spec, u, d, down, up, r))
  {
    RaisedSize(spec, u, inf, d, down, up);
    if down <= up {
      BelowBandExactly(spec, u, inf, d, down, up);
    }
    AimAfterRaise(spec, u.(hard := NewSize(spec, u, NOTHING, inf)), inf, d, down, up);
  }

  /** A dimension that was raised is lowered by the next evaluation at the same usage if and only if it asks
      to be undone and the other dimension does not rise then. */
  lemma RaiseAnsweredExactly(spec: ScalerSpec, u: Usage, inf: int, d: Dimension, down: int, up: int)
    requires Proper(spec, d) && BandOf(spec, d, down, up) && down <= 100
    requires 0 < Part(u.hard, d) < MaxOf(Capped(Validate(spec)), d) && Part(u.used, d) >= 0
    requires up != 100 && Percentage(Part(u.used, d), Part(u.hard, d)) > up
    ensures var raised := u.(hard := NewSize(spec, u, NOTHING, inf));
            var next, r, o := NewSize(spec, raised, NOTHING, inf), Part(raised.hard, d), Other(d);
            && r > Part(u.hard, d)
            && (Part(next, d) < r <==> AsksBack(spec, u, d, down, up, r) && Part(next, o) <= Part(raised.hard, o))
            && (Proper(spec, o) && DownAtMostFull(spec, o) ==>
                  (Part(next, d) < r <==> AsksBack(spec, u, d, down, up, r) && !Rises(spec, raised, o)))
  {
    var raised := u.(hard := NewSize(spec, u, NOTHING, inf));
    AsksBackExactly(spec, u, inf, d, down, up);
    NewSizeFollowsAim(spec, raised, inf, d);
    NewSizeFollowsAim(spec, raised, inf, Other(d));
    if Proper(spec, Other(d)) && DownAtMostFull(spec, Other(d)) {
      RisesExactly(spec, raised, inf, Other(d));
    }
  }

  /** A size within bounds is aimed lower exactly when it is above the minimum, a scale-down asks for less
      and no scale-up for more. */
  lemma AimAfterRaise(spec: ScalerSpec, u: Usage, inf: int, d: Dimension, down: int, up: int)
    requires Proper(spec, d) && BandOf(spec, d, down, up) && Part(u.used, d) >= 0
    requires WithinBounds(spec, Part(u.hard, d), d) && down <= 100 && up != 100
    ensures var size, p := Part(u.hard, d), Percentage(Part(u.used, d), Part(u.hard, d));
            Part(Aim(spec, u, inf), d) < size <==>
              MinOf(Validate(spec), d) < size && if down <= up then p < down else p <= up
  {
    AimFollowsPolicies(spec, u, inf, d);
    PercentageBelow(Part(u.used, d), Part(u.hard, d), 100);
  }

  lemma BelowBandExactly(spec: ScalerSpec, u: Usage, inf: int, d: Dimension, down: int, up: int)
    requires Proper(spec, d)
    requires 0 < Part(u.hard, d) && Part(u.used, d) >= 0
    requires down <= up != 100 && Percentage(Part(u.used, d), Part(u.hard, d)) > up
    requires StepUp(CappedUp(spec, up, u, d), RawTarget(CappedUp(spec, up, u, d), inf)) > 0
    ensures var a, min := CappedUp(spec, up, u, d), MinOf(Validate(spec), d);
            var r := Max(StepUp(a, RawTarget(a, inf)), min);
            && LeastStepUp(a) == LeastRaise(spec, u, d)
            && (min < r && Percentage(Part(u.used, d), r) < down
                <==> min < LeastRaise(spec, u, d) && 100 * Part(u.used, d) < down * LeastRaise(spec, u, d))
  {
    var a, min := CappedUp(spec, up, u, d), MinOf(Validate(spec), d);
    if down <= 0 {
      PercentageBounds(a.used, Max(StepUp(a, RawTarget(a, inf)), min));
      Scale(down, 0, Max(LeastStepUp(a), 0));
    } else {
      NoDownAfterUpExactly(a, inf, down);
      if StepUp(a, RawTarget(a, inf)) != LeastStepUp(a) {
        BeyondLeastStep(a, inf, down);
      }
    }
  }

  // ---------- A raise and its undoing, for ever ----------

  /** The usage is below the band at the least raise, and the step down from there ends where the raise
      began: at the minimum, or one maximal step down, or one minimal step down when the size computed from
      the percentage is no lower. */
  predicate SwingsBack(spec: ScalerSpec, u: Usage, d: Dimension, down: int) {
    var l, size, used, least := Validate(spec), Part(u.hard, d), Part(u.used, d), LeastRaise(spec, u, d);
    && 100 * used < down * least
    && (|| size == MinOf(l, d) || least == size + MaxStepOf(l, d)
        || (least == size + MinStepOf(l, d) && down * size <= Percentage(used, least) * least))
  }

  /** What is aimed at below the band. */
  lemma LoweredSize(spec: ScalerSpec, u: Usage, inf: int, d: Dimension, down: int, up: int)
    requires Proper(spec, d) && BandOf(spec, d, down, up) && WithinBounds(spec, Part(u.hard, d), d)
    requires down <= up && down < 100 && Percentage(Part(u.used, d), Part(u.hard, d)) < down
    ensures var a := Policed(Validate(spec), false, down, u, d);
            Part(Aim(spec, u, inf), d) == StepDown(a, RawTarget(a, inf))
  {
    var l := Validate(spec);
    var start := Amount(u.hard.cpu, u.hard.memory, 0);
    PoliciesYield(start, spec.scaleDown, false, l, u, inf, d);
    PoliciesYield(ApplyPolicies(start, spec.scaleDown, false, l, u, inf), spec.scaleUp, true, l, u, inf, d);
  }

  /** Where the step down from the least raise ends. */
  lemma StepsBackExactly(a: ActivePolicy, inf: int, size: int)
    requires Sized(a) && a.threshold >= 1 && a.minimalStep >= 1 && a.maximumStep >= 1
    requires a.quotaLimit <= size < a.currentMaximum
    requires a.currentMaximum <= size + a.minimalStep && a.currentMaximum <= size + a.maximumStep
    ensures StepDown(a, RawTarget(a, inf)) == size <==>
              || size == a.quotaLimit || a.currentMaximum == size + a.maximumStep
              || (a.currentMaximum == size + a.minimalStep
                  && a.threshold * size <= a.usagePercentage * a.currentMaximum)
  {
    var raw := RawTarget(a, inf);
    RawBounds(a, inf);
    if raw >= size {
      Scale(size, raw, a.threshold);
    } else {
      Scale(raw + 1, size, a.threshold);
      DistributeSum(raw, 1, a.threshold);
    }
  }

  /** The step back from a raised size. */
  lemma BackFrom(spec: ScalerSpec, u: Usage, inf: int, d: Dimension, down: int, up: int)
    requires Proper(spec, d) && BandOf(spec, d, down, up) && Part(u.used, d) >= 0
    requires WithinBounds(spec, Part(u.hard, d), d) && Part(u.hard, d) < MaxOf(Capped(Validate(spec)), d)
    requires down <= up && down < 100 && 100 * Part(u.used, d) < down * LeastRaise(spec, u, d)
    ensures Part(Aim(spec, WithSize(u, d, LeastRaise(spec, u, d)), inf), d) == Part(u.hard, d)
       <==> SwingsBack(spec, u, d, down)
  {
    var least := LeastRaise(spec, u, d);
    var v := WithSize(u, d, least);
    assert down >= 1 by {
      if down <= 0 {
        Scale(down, 0, least);
      }
    }
    PercentageBelow(Part(u.used, d), least, down);
    LoweredSize(spec, v, inf, d, down, up);
    StepsBackExactly(Policed(Validate(spec), false, down, v, d), inf, Part(u.hard, d));
  }

  /** The first step of a swing. */
  lemma RaisedToLeast(spec: ScalerSpec, u: Usage, inf: int, d: Dimension, down: int, up: int)
    requires Proper(spec, d) && BandOf(spec, d, down, up) && Part(u.used, d) >= 0
    requires WithinBounds(spec, Part(u.hard, d), d) && Part(u.hard, d) < MaxOf(Capped(Validate(spec)), d)
    requires down <= up != 100 && down < 100 && Percentage(Part(u.used, d), Part(u.hard, d)) > up
    ensures var r := Part(Aim(spec, u, inf), d);
            && r > Part(u.hard, d) && WithinBounds(spec, r, d)
            && (Percentage(Part(u.used, d), r) < down <==> 100 * Part(u.used, d) < down * LeastRaise(spec, u, d))
            && (Percentage(Part(u.used, d), r) < down ==> r == LeastRaise(spec, u, d))
  {
    RaisedSize(spec, u, inf, d, down, up);
    NewSizeFollowsAim(spec, u, inf, d);
    BelowBandExactly(spec, u, inf, d, down, up);
    var a := CappedUp(spec, up, u, d);
    if 100 * a.used < down * LeastStepUp(a) && StepUp(a, RawTarget(a, inf)) != LeastStepUp(a) {
      if down <= 0 {
        Scale(down, 0, LeastStepUp(a));
      } else {
        BeyondLeastStep(a, inf, down);
      }
    }
  }

  /** With one band in order and the other dimension still, two evaluations lead back to where they began
      if and only if the band and the steps swing back. */
  lemma SwingsBackExactly(ns: string, spec: ScalerSpec, u: Usage, inf: int, d: Dimension, down: int, up: int)
    requires Proper(spec, d) && BandOf(spec, d, down, up) && Still(spec, u, Other(d)) && Part(u.used, d) >= 0
    requires WithinBounds(spec, Part(u.hard, d), d) && Part(u.hard, d) < MaxOf(Capped(Validate(spec)), d)
    requires down <= up != 100 && down < 100 && Percentage(Part(u.used, d), Part(u.hard, d)) > up
    ensures var v := Applied(u, Decide(ns, spec, u, NOTHING, inf));
            && Decide(ns, spec, u, NOTHING, inf).Some?
            && (Applied(v, Decide(ns, spec, v, NOTHING, inf)) == u <==> SwingsBack(spec, u, d, down))
            && (SwingsBack(spec, u, d, down) ==> v == WithSize(u, d, LeastRaise(spec, u, d)))
  {
    var r := Part(Aim(spec, u, inf), d);
    var v := WithSize(u, d, r);
    MovesAlone(ns, spec, u, inf, d);
    MovesAlone(ns, spec, v, inf, d);
    RaisedToLeast(spec, u, inf, d, down, up);
    AimAfterRaise(spec, v, inf, d, down, up);
    if 100 * Part(u.used, d) < down * LeastRaise(spec, u, d) {
      BackFrom(spec, u, inf, d, down, up);
    }
    assert WithSize(v, d, Part(u.hard, d)) == u;
    assert Part(WithSize(v, d, Part(Aim(spec, v, inf), d)).hard, d) == Part(Aim(spec, v, inf), d);
  }

  /** In a sequence of states `v` always follows `u`. */
  ghost predicate Leads<T(!new)>(states: nat -> T, u: T, v: T) {
    forall i: nat, j: nat :: j == i + 1 && states(i) == u ==> states(j) == v
  }

  lemma {:induction false} TakenInTurn<T(!new)>(states: nat -> T, u: T, v: T, n: nat)
    requires states(0) == u && Leads(states, u, v) && Leads(states, v, u)
    ensures states(n) == if n % 2 == 0 then u else v
  {
    if n > 0 {
      TakenInTurn(states, u, v, n - 1);
    }
  }

  lemma RequestLeads(ns: string, spec: ScalerSpec, first: Usage, inf: int, u: Usage, v: Usage)
    requires Applied(u, Decide(ns, spec, u, NOTHING, inf)) == v
    ensures Leads((n: nat) => After(ns, spec, first, inf, n), u, v)
  {
  }

  /** Then the loop never settles: every evaluation sends a request, and the size is the present one and the
      least raise in turn, for ever. */
  lemma AlternatesForEver(ns: string, spec: ScalerSpec, u: Usage, inf: int, d: Dimension, down: int, up: int, n: nat)
    requires Proper(spec, d) && BandOf(spec, d, down, up) && Still(spec, u, Other(d)) && Part(u.used, d) >= 0
    requires WithinBounds(spec, Part(u.hard, d), d) && Part(u.hard, d) < MaxOf(Capped(Validate(spec)), d)
    requires down <= up != 100 && down < 100 && Percentage(Part(u.used, d), Part(u.hard, d)) > up
    requires SwingsBack(spec, u, d, down)
    ensures var v := if n % 2 == 0 then u else WithSize(u, d, LeastRaise(spec, u, d));
            After(ns, spec, u, inf, n) == v && Decide(ns, spec, v, NOTHING, inf).Some?
  {
    var v := WithSize(u, d, LeastRaise(spec, u, d));
    SwingsBackExactly(ns, spec, u, inf, d, down, up);
    RequestLeads(ns, spec, u, inf, u, v);
    RequestLeads(ns, spec, u, inf, v, u);
    TakenInTurn((k: nat) => After(ns, spec, u, inf, k), u, v, n);
    assert v != u by {
      assert Part(v.hard, d) > Part(u.hard, d);
    }
  }

  // ---------- Concrete scalers ----------

  /** One CPU policy in each direction; everything else is left to the defaults. */
  function CpuScaler(minCpu: Option<int>, maxCpuStep: Option<int>, down: int, up: int): ScalerSpec {
    ScalerSpec("quota", minCpu, None, None, maxCpuStep, None, None, None, None,
               [Policy("cpu", down)], [Policy("cpu", up)])
  }

  /** A memory of the default minimum, which no policy concerns. */
  function CpuUsage(size: int, used: int): Usage {
    Usage(Amount(size, 1000, 0), Amount(used, 0, 0))
  }

  lemma OneCpuPolicy(start: Amount, value: int, scaleUp: bool, l: Limits, u: Usage, inf: int)
    ensures ApplyPolicies(start, [Policy("cpu", value)], scaleUp, l, u, inf)
         == start.ReplacedBy(Amount(TargetOf(scaleUp, Policed(l, scaleUp, value, u, Cpu), inf), 0, 0))
  {
    var p := Policy("cpu", value);
    assert LowerCase("cpu") == "cpu";
    assert IsCpu(p) && !IsMemory(p);
    assert [p][..0] == [];
    assert ApplyPolicies(start, [], scaleUp, l, u, inf) == start;
  }

  lemma CpuScalerAim(spec: ScalerSpec, down: int, up: int, u: Usage, inf: int)
    requires spec.scaleDown == [Policy("cpu", down)] && spec.scaleUp == [Policy("cpu", up)]
    ensures var l := Validate(spec);
            var lower := TargetOf(false, Policed(l, false, down, u, Cpu), inf);
            var higher := TargetOf(true, Policed(l, true, up, u, Cpu), inf);
            Desired(spec, u, NOTHING, inf)
            == Amount(if higher != 0 then higher else if lower != 0 then lower else u.hard.cpu, u.hard.memory, 0)
  {
    var l := Validate(spec);
    var start := Amount(u.hard.cpu, u.hard.memory, 0);
    OneCpuPolicy(start, down, false, l, u, inf);
    OneCpuPolicy(ApplyPolicies(start, spec.scaleDown, false, l, u, inf), up, true, l, u, inf);
  }

  /** The scaler of the endless swing: thresholds 50 and 50, the default step of 10. */
  const SWINGING: ScalerSpec := CpuScaler(Some(1), None, 50, 50)

  lemma CpuScalerPolicies(spec: ScalerSpec, down: int, up: int)
    requires spec.scaleDown == [Policy("cpu", down)] && spec.scaleUp == [Policy("cpu", up)]
    ensures BandOf(spec, Cpu, down, up)
    ensures forall p <- spec.scaleDown + spec.scaleUp :: !Concerns(p, Memory)
  {
    assert LowerCase("cpu") == "cpu";
    assert Policy("cpu", down) in spec.scaleDown && Policy("cpu", up) in spec.scaleUp;
    assert !IsMemory(Policy("cpu", down)) && !IsMemory(Policy("cpu", up));
  }

  /** Without a margin the loop need not settle: at a fixed usage of 51 every evaluation sends a request,
      and the quota goes from 100 to 110 and back for ever. */
  lemma SwingsForEver(ns: string, inf: int, n: nat)
    ensures var u := CpuUsage(if n % 2 == 0 then 100 else 110, 51);
            && After(ns, SWINGING, CpuUsage(100, 51), inf, n) == u
            && Decide(ns, SWINGING, u, NOTHING, inf).Some?
  {
    CpuScalerPolicies(SWINGING, 50, 50);
    MemoryIsStill(SWINGING, CpuUsage(100, 51));
    AlternatesForEver(ns, SWINGING, CpuUsage(100, 51), inf, Cpu, 50, 50, n);
  }

  /** No policy concerns the memory, so it stays where it is within its bounds. */
  lemma MemoryIsStill(spec: ScalerSpec, u: Usage)
    requires Proper(spec, Memory) && WithinBounds(spec, u.hard.memory, Memory)
    requires forall p <- spec.scaleDown + spec.scaleUp :: !Concerns(p, Memory)
    ensures Still(spec, u, Memory)
  {
    forall p <- spec.scaleDown ensures !Concerns(p, Memory) {
      assert p in spec.scaleDown + spec.scaleUp;
    }
    forall q <- spec.scaleUp ensures !Concerns(q, Memory) {
      assert q in spec.scaleDown + spec.scaleUp;
    }
  }

  /** The documented scale-down of 100 under a scale-up of 70: at a usage of 1000 and the default bounds
      every evaluation sends a request, from any size, for ever. */
  lemma FullOverSeventyNeverRests(ns: string, size: int, inf: int, n: nat)
    ensures var spec := CpuScaler(None, None, 100, 70);
            Decide(ns, spec, After(ns, spec, CpuUsage(size, 1000), inf, n), NOTHING, inf).Some?
  {
    var spec := CpuScaler(None, None, 100, 70);
    CpuScalerPolicies(spec, 100, 70);
    assert Percentage(1000, 400) == 250 && Percentage(1000, 35000) == 2;
    CrossedNeverRests(ns, spec, CpuUsage(size, 1000), inf, Cpu, n);
  }

  /** A documented maximal CPU step of 100, with thresholds of 50 and 70: one request raises the CPU by 285,
      another lowers it by 9600. */
  lemma DocumentedStepIsExceeded(ns: string, inf: int)
    ensures var spec := CpuScaler(None, Some(100), 50, 70);
            var up, down := CpuUsage(1000, 900), CpuUsage(10000, 100);
            && Decide(ns, spec, up, NOTHING, inf) == Some(Request(ns, "quota", up.hard, Amount(1285, 1000, 0)))
            && Decide(ns, spec, down, NOTHING, inf) == Some(Request(ns, "quota", down.hard, Amount(400, 1000, 0)))
  {
    var spec := CpuScaler(None, Some(100), 50, 70);
    CpuScalerAim(spec, 50, 70, CpuUsage(1000, 900), inf);
    CpuScalerAim(spec, 50, 70, CpuUsage(10000, 100), inf);
  }
}
