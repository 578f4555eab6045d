/** What the percentage policies guarantee: how far one step goes, where repeated steps end, and when a
    step up is not answered by a step down. */
module ScalingLaws {
  import opened Quantities
  import opened Scaling

  /** A policy looked at with size `m` and usage `used`: percentages follow the size. */
  function At(a: ActivePolicy, m: int): ActivePolicy {
    a.(currentMaximum := m, usagePercentage := Percentage(a.used, m))
  }

  /** A policy of one dimension at a positive size, with the percentage it has there. */
  predicate Sized(a: ActivePolicy) {
    a.currentMaximum > 0 && a.used >= 0 && a.usagePercentage == Percentage(a.used, a.currentMaximum)
  }

  predicate UpActive(a: ActivePolicy) {
    a.threshold != 100 && a.usagePercentage > a.threshold
  }

  predicate DownActive(a: ActivePolicy) {
    a.threshold != 100 && a.usagePercentage < a.threshold
  }

  lemma QuotientBounds(a: int, b: int)
    requires a >= 0 && b > 0
    ensures a / b >= 0 && b * (a / b) <= a < b * (a / b) + b
  {
    var q, r := a / b, a % b;
    assert a == b * q + r;
  }

  /** Truncated quotients, without the division. */
  lemma TruncateBounds(a: int, b: int)
    requires a >= 0 && b > 0
    ensures var q := Truncate(a, b); q >= 0 && b * q <= a < b * q + b
  {
    QuotientBounds(a, b);
    assert Abs(a) == a && Abs(b) == b;
    assert Truncate(a, b) == Abs(a) / Abs(b);
  }

  /** Truncation drops the fraction, for operands of any sign: the quotient is the one whose remainder is
      smaller than the divisor and has the sign of the dividend. */
  lemma TruncatesTowardZero(a: int, b: int)
    requires b != 0
    ensures var r := a - b * Truncate(a, b);
            Abs(r) < Abs(b) && (r > 0 ==> a > 0) && (r < 0 ==> a < 0)
  {
    QuotientBounds(Abs(a), Abs(b));
    var q := Abs(a) / Abs(b);
    if (a >= 0) == (b > 0) {
      assert b * Truncate(a, b) == b * q;
      SignedProduct(b, q);
    } else {
      assert b * Truncate(a, b) == b * (-q);
      SignedProduct(b, q);
    }
  }

  lemma SignedProduct(b: int, q: int)
    ensures b * (-q) == -(b * q)
    ensures b < 0 ==> b * q == -((-b) * q)
  {
  }

  lemma PercentageBounds(used: int, m: int)
    requires used >= 0 && m > 0
    ensures var p := Percentage(used, m); p >= 0 && m * p <= 100 * used < m * p + m
  {
    TruncateBounds(used * 100, m);
  }

  /** Usage is below a percentage exactly when it is so without rounding. */
  lemma PercentageBelow(used: int, m: int, t: int)
    requires used >= 0 && m > 0
    ensures Percentage(used, m) < t <==> 100 * used < t * m
  {
    PercentageBounds(used, m);
    var p := Percentage(used, m);
    if p < t {
      Scale(p + 1, t, m);
    } else {
      Scale(t, p, m);
    }
  }

  lemma Scale(a: int, b: int, m: int)
    requires a <= b && m >= 0
    ensures a * m <= b * m
  {
  }

  lemma RawBounds(a: ActivePolicy, inf: int)
    requires Sized(a) && a.threshold >= 1
    ensures var raw := RawTarget(a, inf);
            var pm := a.usagePercentage * a.currentMaximum;
            && raw >= 0
            && a.threshold * raw <= pm < a.threshold * raw + a.threshold
            && pm <= 100 * a.used < pm + a.currentMaximum
  {
    PercentageBounds(a.used, a.currentMaximum);
    assert a.usagePercentage * a.currentMaximum >= 0;
    TruncateBounds(a.usagePercentage * a.currentMaximum, a.threshold);
  }

  // ---------- One step ----------

  /** The size of the minimal step up, cut to the limit and the maximal step. */
  function LeastStepUp(a: ActivePolicy): int {
    Min(a.currentMaximum + a.minimalStep, Min(a.quotaLimit, a.currentMaximum + a.maximumStep))
  }

  /** A step up that goes beyond the least one stops short of the raw target, so the usage covers it. */
  lemma BeyondLeastStep(a: ActivePolicy, inf: int, down: int)
    requires Sized(a) && 1 <= a.threshold && 0 <= down <= a.threshold
    requires StepUp(a, RawTarget(a, inf)) > 0 && StepUp(a, RawTarget(a, inf)) != LeastStepUp(a)
    ensures var r := StepUp(a, RawTarget(a, inf));
            LeastStepUp(a) <= r && 100 * a.used >= down * r && 100 * a.used >= down * LeastStepUp(a)
  {
    var raw := RawTarget(a, inf);
    var r, least := StepUp(a, raw), LeastStepUp(a);
    RawBounds(a, inf);
    assert least <= r <= raw;
    Scale(down, a.threshold, raw);
    Scale(r, raw, down);
    Scale(least, raw, down);
  }

  /** Non-oscillation, exactly: after an active scale-up to a positive size, a scale-down policy at or
      below its threshold stays inactive at the same usage if and only if the usage is at least that
      percentage of the size reached by the minimal step (or the limit, or the maximal step). */
  lemma NoDownAfterUpExactly(a: ActivePolicy, inf: int, down: int)
    requires Sized(a) && 1 <= a.threshold && UpActive(a) && 0 <= down <= a.threshold
    requires StepUp(a, RawTarget(a, inf)) > 0
    ensures Percentage(a.used, StepUp(a, RawTarget(a, inf))) >= down <==> 100 * a.used >= down * LeastStepUp(a)
  {
    var r := StepUp(a, RawTarget(a, inf));
    PercentageBelow(a.used, r, down);
    if r != LeastStepUp(a) {
      BeyondLeastStep(a, inf, down);
    }
  }

  /** A margin between the thresholds that rules oscillation out, whatever the usage. */
  lemma NoDownAfterUp(a: ActivePolicy, inf: int, down: int)
    requires Sized(a) && 1 <= a.threshold && UpActive(a) && 0 <= down <= a.threshold
    requires (a.threshold + 1 - down) * a.currentMaximum >= down * a.minimalStep
    requires StepUp(a, RawTarget(a, inf)) > 0
    ensures Percentage(a.used, StepUp(a, RawTarget(a, inf))) >= down
  {
    var m, s := a.currentMaximum, a.minimalStep;
    NoDownAfterUpExactly(a, inf, down);
    PercentageBounds(a.used, m);
    MarginArithmetic(m, s, a.threshold, a.usagePercentage, a.used, down, LeastStepUp(a));
  }

  lemma MarginArithmetic(m: int, s: int, t: int, p: int, used: int, down: int, least: int)
    requires m > 0 && down >= 0 && t + 1 <= p && m * p <= 100 * used
    requires (t + 1 - down) * m >= down * s && least <= m + s
    ensures 100 * used >= down * least
  {
    Scale(t + 1, p, m);
    Scale(least, m + s, down);
    assert (t + 1 - down) * m == (t + 1) * m - down * m;
    assert (m + s) * down == down * m + down * s;
  }

  /** A scale-down lands on its limit, or one maximal step down, or where the usage is at least at the
      threshold; and below the usage by less than 1/threshold of the old size and one more, unless the
      minimal step forces it further. */
  lemma DownIsTight(a: ActivePolicy, inf: int)
    requires Sized(a) && 1 <= a.threshold < 100 && DownActive(a)
    ensures var r := StepDown(a, RawTarget(a, inf));
            && (r == a.quotaLimit || r == a.currentMaximum - a.maximumStep || 100 * a.used >= a.threshold * r)
            && (a.threshold * (a.used - r) < a.currentMaximum + a.threshold
                || a.currentMaximum - a.minimalStep < RawTarget(a, inf))
  {
    var raw := RawTarget(a, inf);
    var r := StepDown(a, raw);
    RawBounds(a, inf);
    if r <= raw {
      Scale(r, raw, a.threshold);
    }
    if r >= raw {
      UndercutArithmetic(a.threshold, a.used, raw, r, a.usagePercentage * a.currentMaximum, a.currentMaximum);
    }
  }

  lemma UndercutArithmetic(t: int, used: int, raw: int, r: int, pm: int, m: int)
    requires 1 <= t <= 100 && used >= 0 && raw <= r
    requires pm < t * raw + t && 100 * used < pm + m
    ensures t * (used - r) < m + t
  {
    Scale(used - r, used - raw, t);
    Scale(t, 100, used);
    assert (used - raw) * t == t * used - t * raw;
  }

  /** At threshold 100 a scale-down never goes below the usage. */
  lemma FullDownCoversUsage(a: ActivePolicy, inf: int)
    requires a.threshold == 100 && TargetOf(false, a, inf) != 0
    ensures TargetOf(false, a, inf) >= a.used && TargetOf(false, a, inf) >= a.quotaLimit
    ensures TargetOf(false, a, inf) == a.used || TargetOf(false, a, inf) == a.quotaLimit
  {
  }

  /** A scale-down not forced by the minimal step is not answered by a scale-up, given enough distance
      between the thresholds at this usage. */
  lemma NoUpAfterDown(a: ActivePolicy, inf: int, up: int)
    requires Sized(a) && 1 <= a.threshold < 100 && DownActive(a) && a.threshold <= up
    requires RawTarget(a, inf) <= StepDown(a, RawTarget(a, inf)) && StepDown(a, RawTarget(a, inf)) > 0
    requires (up + 1 - a.threshold) * (a.usagePercentage * a.currentMaximum)
             >= a.threshold * a.currentMaximum + (up + 1) * (a.threshold - 1)
    ensures Percentage(a.used, StepDown(a, RawTarget(a, inf))) <= up
  {
    var raw := RawTarget(a, inf);
    var r := StepDown(a, raw);
    RawBounds(a, inf);
    DistanceArithmetic(a.threshold, up, raw, r, a.usagePercentage * a.currentMaximum, a.currentMaximum, a.used);
    PercentageBelow(a.used, r, up + 1);
  }

  lemma DistanceArithmetic(t: int, up: int, raw: int, r: int, pm: int, m: int, used: int)
    requires 1 <= t <= up && raw <= r && pm < t * raw + t && 100 * used < pm + m
    requires (up + 1 - t) * pm >= t * m + (up + 1) * (t - 1)
    ensures 100 * used < (up + 1) * r
  {
    ScaledRaw(t, up + 1, raw, pm);
    Distribute(up + 1, t, pm);
    DistributeSum(pm, m, t);
    CancelFactor(t, pm + m, (up + 1) * raw);
    Scale(raw, r, up + 1);
  }

  lemma DistributeSum(a: int, b: int, c: int)
    ensures c * (a + b) == c * a + c * b
  {
  }

  lemma ScaledRaw(t: int, k: int, raw: int, pm: int)
    requires pm <= t * raw + (t - 1) && k >= 0
    ensures t * (k * raw) >= k * pm - k * (t - 1)
  {
    Scale(pm - (t - 1), t * raw, k);
    Distribute(pm, t - 1, k);
    assert (t * raw) * k == t * (k * raw);
  }

  lemma Distribute(a: int, b: int, c: int)
    ensures (a - b) * c == a * c - b * c
  {
  }

  lemma CancelFactor(t: int, a: int, b: int)
    requires t >= 1 && t * b >= t * a
    ensures b >= a
  {
    assert (b + 1) * t == t * b + t;
    if b < a {
      Scale(b + 1, a, t);
    }
  }

  /** An unclamped scale-up settles in one step when the usage exceeds the threshold by enough. */
  lemma UnclampedUpSettles(a: ActivePolicy, inf: int)
    requires Sized(a) && 1 <= a.threshold && UpActive(a)
    requires RawTarget(a, inf) <= a.quotaLimit && RawTarget(a, inf) <= a.currentMaximum + a.maximumStep
    requires StepUp(a, RawTarget(a, inf)) > 0
    requires (a.usagePercentage - a.threshold) * a.currentMaximum >= a.threshold * a.threshold - 1
    ensures StepUp(a, RawTarget(a, inf)) >= RawTarget(a, inf)
    ensures Percentage(a.used, StepUp(a, RawTarget(a, inf))) <= a.threshold
  {
    var raw := RawTarget(a, inf);
    var r, t, m, p := StepUp(a, raw), a.threshold, a.currentMaximum, a.usagePercentage;
    RawBounds(a, inf);
    SettlingArithmetic(p, m, t, raw, r, a.used);
    PercentageBelow(a.used, r, t + 1);
  }

  lemma SettlingArithmetic(p: int, m: int, t: int, raw: int, r: int, used: int)
    requires t >= 1 && raw <= r && (p - t) * m >= t * t - 1
    requires p * m < t * raw + t && 100 * used < p * m + m
    ensures 100 * used < (t + 1) * r
  {
    var pm := p * m;
    ScaledRaw(t, t + 1, raw, pm);
    Distribute(p, t, m);
    DistributeSum(t, 1, pm);
    DistributeSum(pm, m, t);
    Products(t);
    CancelFactor(t, pm + m, (t + 1) * raw);
    Scale(raw, r, t + 1);
  }

  lemma Products(t: int)
    ensures (t + 1) * (t - 1) == t * t - 1
  {
  }

  /** The documented maximal CPU step is never read. A percentage policy respects it, for any scaler and
      any usage, exactly when the target of the policy and the minimal step do, or the limit is no further
      away, or the maximal step in use is no longer; that one is the minimal step when it is given, so the
      CPU then moves by exactly that, or to its limit. */
  lemma CpuStepRespectsExactly(spec: ScalerSpec, u: Usage, p: Policy, inf: int, documented: int)
    requires IsCpu(p)
    ensures var l, size := Validate(spec), u.hard.cpu;
            var up, down := ToActivePolicy(l, true, p, u), ToActivePolicy(l, false, p, u);
            var raw := RawTarget(up, inf);
            && raw == RawTarget(down, inf)
            && (StepUp(up, raw) - size <= documented <==>
                || (raw - size <= documented && l.minCpuStep <= documented)
                || l.maxCpu - size <= documented || l.maxCpuStep <= documented)
            && (size - StepDown(down, raw) <= documented <==>
                || (size - raw <= documented && l.minCpuStep <= documented)
                || size - l.minCpu <= documented || l.maxCpuStep <= documented)
            && (spec.minCpuStep.Some? ==>
                && StepUp(up, raw) == Min(size + spec.minCpuStep.value, l.maxCpu)
                && StepDown(down, raw) == Max(size - spec.minCpuStep.value, l.minCpu))
  {
    assert !IsMemory(p) by {
      assert |"cpu"| != |"memory"|;
    }
  }

  /** Where an active percentage policy leads, in the fields of scaler and quota: a scale-up at most to the
      maximum and one maximal step up, and one minimal step up unless one of these forbids it; a scale-down
      likewise. */
  lemma StepsByField(spec: ScalerSpec, u: Usage, p: Policy, inf: int)
    requires p.value != 100
    ensures var l := Validate(spec);
            SameLetters(p.resource, "cpu") ==>
              && (Percentage(u.used.cpu, u.hard.cpu) > p.value ==>
                    StepsUp(u.hard.cpu, Target(l, true, p, u, inf).cpu, l.maxCpu, l.minCpuStep, l.maxCpuStep))
              && (Percentage(u.used.cpu, u.hard.cpu) < p.value ==>
                    StepsDown(u.hard.cpu, Target(l, false, p, u, inf).cpu, l.minCpu, l.minCpuStep, l.maxCpuStep))
    ensures var l := Validate(spec);
            SameLetters(p.resource, "memory") ==>
              && (Percentage(u.used.memory, u.hard.memory) > p.value ==>
                    StepsUp(u.hard.memory, Target(l, true, p, u, inf).memory,
                            l.maxMemory, l.minMemoryStep, l.maxMemoryStep))
              && (Percentage(u.used.memory, u.hard.memory) < p.value ==>
                    StepsDown(u.hard.memory, Target(l, false, p, u, inf).memory,
                              l.minMemory, l.minMemoryStep, l.maxMemoryStep))
  {
    MethodsByName(p);
  }

  predicate StepsUp(size: int, target: int, max: int, minStep: int, maxStep: int) {
    && target <= max && target - size <= maxStep
    && (target - size >= minStep || target == max || target - size == maxStep)
  }

  predicate StepsDown(size: int, target: int, min: int, minStep: int, maxStep: int) {
    && target >= min && size - target <= maxStep
    && (size - target >= minStep || target == min || size - target == maxStep)
  }

  // ---------- Repeated steps ----------

  lemma StepUpGrows(a: ActivePolicy, raw: int)
    requires a.minimalStep >= 1 && a.maximumStep >= 1 && a.currentMaximum < a.quotaLimit
    ensures a.currentMaximum < StepUp(a, raw) <= a.quotaLimit
  {
  }

  /** The sizes a quota takes when an active scale-up is applied again and again, at fixed usage, from size
      `m` up to the limit. */
  function Sizes(a: ActivePolicy, m: int, inf: int): seq<int>
    requires a.minimalStep >= 1 && a.maximumStep >= 1 && m <= a.quotaLimit
    decreases a.quotaLimit - m
  {
    var here := At(a, m);
    if m == a.quotaLimit || !UpActive(here) then [m]
    else
      StepUpGrows(here, RawTarget(here, inf));
      [m] + Sizes(a, StepUp(here, RawTarget(here, inf)), inf)
  }

  /** Repeated scale-ups stop, at a size where the usage percentage is within the threshold or at the limit.
      Each size but the last was short of both and was left by one step up, so the sizes only grow. */
  lemma {:induction false} ScaleUpSettles(a: ActivePolicy, m: int, inf: int)
    requires a.minimalStep >= 1 && a.maximumStep >= 1 && m <= a.quotaLimit && a.threshold != 100
    ensures var sizes := Sizes(a, m, inf);
            && 1 <= |sizes| <= a.quotaLimit - m + 1 && sizes[0] == m
            && var end := sizes[|sizes| - 1];
            && end <= a.quotaLimit
            && (Percentage(a.used, end) <= a.threshold || end == a.quotaLimit)
            && forall i :: 0 <= i < |sizes| - 1 ==>
                 && sizes[i] < sizes[i + 1] && sizes[i] < a.quotaLimit
                 && Percentage(a.used, sizes[i]) > a.threshold
                 && sizes[i + 1] == StepUp(At(a, sizes[i]), RawTarget(At(a, sizes[i]), inf))
    decreases a.quotaLimit - m
  {
    var here := At(a, m);
    if m != a.quotaLimit && UpActive(here) {
      StepUpGrows(here, RawTarget(here, inf));
      ScaleUpSettles(a, StepUp(here, RawTarget(here, inf)), inf);
    }
  }
}
