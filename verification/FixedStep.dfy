/** A dimension whose minimal and maximal step are the same, such as the CPU of every scaler that gives a
    minimal CPU step: when its loop settles, exactly. */
module FixedStep {
  import opened Quantities
  import opened Scaling
  import opened ScalingLaws
  import opened Decision
  import opened ClosedLoop
  import opened Settling
  import opened Crossing
  import opened Horizon

  /** One step for both limits, and percentages below 100 for scale-downs; thresholds in any order. */
  predicate Fixed(spec: ScalerSpec, d: Dimension) {
    && Proper(spec, d) && MinStepOf(Validate(spec), d) == MaxStepOf(Validate(spec), d)
    && forall p <- spec.scaleDown :: Concerns(p, d) ==> p.value < 100
  }

  /** The nearest size within the bounds. */
  function Into(spec: ScalerSpec, size: int, d: Dimension): int {
    Max(MinOf(Validate(spec), d), Min(MaxOf(Capped(Validate(spec)), d), size))
  }

  /** The size after one evaluation. */
  function Next(spec: ScalerSpec, used: int, size: int, d: Dimension): int {
    var step := MinStepOf(Validate(spec), d);
    if RisingAt(spec, used, size, d) then Into(spec, size + step, d)
    else if FallingAt(spec, used, size, d) then Into(spec, size - step, d)
    else size
  }

  function Stepping(spec: ScalerSpec, used: int, d: Dimension): int -> int {
    size => Next(spec, used, size, d)
  }

  function Walk(spec: ScalerSpec, used: int, size: int, d: Dimension, n: nat): int {
    Iterate(Stepping(spec, used, d), size, n)
  }

  /** `k` steps up, or `-k` down, within the bounds. */
  function Grid(spec: ScalerSpec, size: int, d: Dimension, k: int): int {
    Into(spec, size + k * MinStepOf(Validate(spec), d), d)
  }

  // ---------- One evaluation is one step ----------

  lemma FixedTarget(spec: ScalerSpec, scaleUp: bool, value: int, u: Usage, inf: int, d: Dimension)
    requires Fixed(spec, d) && WithinBounds(spec, Part(u.hard, d), d) && (scaleUp || value < 100)
    ensures var l, size := Validate(spec), Part(u.hard, d);
            TargetOf(scaleUp, Policed(l, scaleUp, value, u, d), inf)
            == if !Asks(scaleUp, value, Part(u.used, d), size) then 0
               else if scaleUp then Min(size + MinStepOf(l, d), MaxOf(l, d))
               else Max(size - MinStepOf(l, d), MinOf(l, d))
  {
  }

  lemma FixedDown(spec: ScalerSpec, u: Usage, inf: int, d: Dimension)
    requires Fixed(spec, d) && WithinBounds(spec, Part(u.hard, d), d)
    ensures var l, size := Validate(spec), Part(u.hard, d);
            Part(ApplyPolicies(Amount(u.hard.cpu, u.hard.memory, 0), spec.scaleDown, false, l, u, inf), d)
            == if exists p <- spec.scaleDown :: Concerns(p, d) && Asks(false, p.value, Part(u.used, d), size) then
                 Max(size - MinStepOf(l, d), MinOf(l, d))
               else size
  {
    forall p <- spec.scaleDown | Concerns(p, d) { FixedTarget(spec, false, p.value, u, inf, d); }
    PoliciesYield(Amount(u.hard.cpu, u.hard.memory, 0), spec.scaleDown, false, Validate(spec), u, inf, d);
  }

  lemma FixedUp(start: Amount, spec: ScalerSpec, u: Usage, inf: int, d: Dimension)
    requires Fixed(spec, d) && WithinBounds(spec, Part(u.hard, d), d)
    ensures var l, size := Validate(spec), Part(u.hard, d);
            Part(ApplyPolicies(start, spec.scaleUp, true, l, u, inf), d)
            == if exists q <- spec.scaleUp :: Concerns(q, d) && Asks(true, q.value, Part(u.used, d), size) then
                 Min(size + MinStepOf(l, d), MaxOf(l, d))
               else Part(start, d)
  {
    forall q <- spec.scaleUp | Concerns(q, d) { FixedTarget(spec, true, q.value, u, inf, d); }
    PoliciesYield(start, spec.scaleUp, true, Validate(spec), u, inf, d);
  }

  lemma FixedAim(spec: ScalerSpec, u: Usage, inf: int, d: Dimension)
    requires Fixed(spec, d) && WithinBounds(spec, Part(u.hard, d), d)
    ensures Part(Aim(spec, u, inf), d) == Next(spec, Part(u.used, d), Part(u.hard, d), d)
  {
    FixedDown(spec, u, inf, d);
    var start := Amount(u.hard.cpu, u.hard.memory, 0);
    FixedUp(ApplyPolicies(start, spec.scaleDown, false, Validate(spec), u, inf), spec, u, inf, d);
  }

  lemma RestsExactly(spec: ScalerSpec, used: int, size: int, d: Dimension)
    requires Fixed(spec, d) && WithinBounds(spec, size, d)
    ensures Next(spec, used, size, d) == size <==> Rests(spec, used, size, d)
    ensures WithinBounds(spec, Next(spec, used, size, d), d)
  {
  }

  /** While the other dimension is still, one evaluation is one step, and silent where the step is none. */
  lemma EvaluationSteps(ns: string, spec: ScalerSpec, u: Usage, inf: int, d: Dimension)
    requires Fixed(spec, d) && WithinBounds(spec, Part(u.hard, d), d) && Still(spec, u, Other(d))
    ensures var next := Next(spec, Part(u.used, d), Part(u.hard, d), d);
            && Applied(u, Decide(ns, spec, u, NOTHING, inf)) == WithSize(u, d, next) && WithinBounds(spec, next, d)
            && (Decide(ns, spec, u, NOTHING, inf) == None <==> Rests(spec, Part(u.used, d), Part(u.hard, d), d))
  {
    FixedAim(spec, u, inf, d);
    MovesAlone(ns, spec, u, inf, d);
    RestsExactly(spec, Part(u.used, d), Part(u.hard, d), d);
  }

  lemma EvaluationsSimulate(ns: string, spec: ScalerSpec, u: Usage, inf: int, d: Dimension)
    requires Fixed(spec, d) && Still(spec, u, Other(d))
    ensures Simulates(Evaluation(ns, spec, inf), Stepping(spec, Part(u.used, d), d),
                      size => WithSize(u, d, size), size => WithinBounds(spec, size, d))
  {
    forall size: int | WithinBounds(spec, size, d)
      ensures var next := Next(spec, Part(u.used, d), size, d);
              && Evaluation(ns, spec, inf)(WithSize(u, d, size)) == WithSize(u, d, next)
              && WithinBounds(spec, next, d)
    {
      var v, next := WithSize(u, d, size), Next(spec, Part(u.used, d), size, d);
      EvaluationSteps(ns, spec, v, inf, d);
      assert WithSize(v, d, next) == WithSize(u, d, next);
    }
  }

  lemma EvaluationsWalk(ns: string, spec: ScalerSpec, u: Usage, inf: int, d: Dimension, n: nat)
    requires Fixed(spec, d) && WithinBounds(spec, Part(u.hard, d), d) && Still(spec, u, Other(d))
    ensures var size := Walk(spec, Part(u.used, d), Part(u.hard, d), d, n);
            After(ns, spec, u, inf, n) == WithSize(u, d, size) && WithinBounds(spec, size, d)
  {
    AfterIterates(ns, spec, u, inf, n);
    EvaluationsSimulate(ns, spec, u, inf, d);
    assert WithSize(u, d, Part(u.hard, d)) == u;
    SimulatedRun(Evaluation(ns, spec, inf), Stepping(spec, Part(u.used, d), d),
                 size => WithSize(u, d, size), size => WithinBounds(spec, size, d), Part(u.hard, d), n);
  }

  /** An evaluation on the way is silent exactly where the walk rests. */
  lemma SilentExactly(ns: string, spec: ScalerSpec, u: Usage, inf: int, d: Dimension, n: nat)
    requires Fixed(spec, d) && WithinBounds(spec, Part(u.hard, d), d) && Still(spec, u, Other(d))
    ensures Decide(ns, spec, After(ns, spec, u, inf, n), NOTHING, inf) == None
       <==> Rests(spec, Part(u.used, d), Walk(spec, Part(u.used, d), Part(u.hard, d), d, n), d)
  {
    EvaluationsWalk(ns, spec, u, inf, d, n);
    EvaluationSteps(ns, spec, WithSize(u, d, Walk(spec, Part(u.used, d), Part(u.hard, d), d, n)), inf, d);
  }

  // ---------- Where the walk ends ----------

  /** A size `k` steps away at which the policies rest is reached. */
  lemma {:induction false} WalksToRest(spec: ScalerSpec, used: int, size: int, d: Dimension, k: int) returns (n: nat)
    requires Fixed(spec, d) && used >= 0 && WithinBounds(spec, size, d)
    requires Rests(spec, used, Grid(spec, size, d, k), d)
    ensures Rests(spec, used, Walk(spec, used, size, d, n), d)
    decreases if k < 0 then -k else k
  {
    if Rests(spec, used, size, d) {
      n := 0;
    } else {
      var next, k' := Next(spec, used, size, d), if k > 0 then k - 1 else k + 1;
      StepTowards(spec, used, size, d, k);
      var m := WalksToRest(spec, used, next, d, k');
      IterateFirst(Stepping(spec, used, d), size, m);
      n := m + 1;
    }
  }

  lemma StepUpTowards(spec: ScalerSpec, used: int, size: int, d: Dimension, k: int)
    requires Fixed(spec, d) && used >= 0 && WithinBounds(spec, size, d) && k > 0
    requires Rests(spec, used, Grid(spec, size, d, k), d) && !Rests(spec, used, size, d)
    ensures Next(spec, used, size, d) == Into(spec, size + MinStepOf(Validate(spec), d), d)
  {
    Scale(1, k, MinStepOf(Validate(spec), d));
    AskingIsMonotone(spec, used, size, Grid(spec, size, d, k), d);
  }

  lemma StepDownTowards(spec: ScalerSpec, used: int, size: int, d: Dimension, k: int)
    requires Fixed(spec, d) && used >= 0 && WithinBounds(spec, size, d) && k < 0
    requires Rests(spec, used, Grid(spec, size, d, k), d) && !Rests(spec, used, size, d)
    ensures Next(spec, used, size, d) == Into(spec, size - MinStepOf(Validate(spec), d), d)
  {
    Scale(k, -1, MinStepOf(Validate(spec), d));
    AskingIsMonotone(spec, used, Grid(spec, size, d, k), size, d);
  }

  lemma StepTowards(spec: ScalerSpec, used: int, size: int, d: Dimension, k: int)
    requires Fixed(spec, d) && used >= 0 && WithinBounds(spec, size, d)
    requires Rests(spec, used, Grid(spec, size, d, k), d) && !Rests(spec, used, size, d)
    ensures k != 0 && WithinBounds(spec, Next(spec, used, size, d), d)
    ensures Rests(spec, used, Grid(spec, Next(spec, used, size, d), d, if k > 0 then k - 1 else k + 1), d)
  {
    if k > 0 {
      StepUpTowards(spec, used, size, d, k);
      GridFromNext(spec, size, d, k, 1);
    } else if k < 0 {
      StepDownTowards(spec, used, size, d, k);
      GridFromNext(spec, size, d, k, -1);
    }
  }

  /** One step nearer the same place on the grid, whether or not the bounds cut it. */
  lemma GridFromNext(spec: ScalerSpec, size: int, d: Dimension, k: int, sign: int)
    requires Proper(spec, d) && WithinBounds(spec, size, d)
    requires (sign == 1 && k > 0) || (sign == -1 && k < 0)
    ensures Grid(spec, Into(spec, size + sign * MinStepOf(Validate(spec), d), d), d, k - sign) == Grid(spec, size, d, k)
  {
    var step := MinStepOf(Validate(spec), d);
    Distribute(k, sign, step);
    if k > 0 {
      Scale(0, k - 1, step);
    } else {
      Scale(k + 1, 0, step);
    }
  }

  /** One step up and one step down face each other. */
  predicate Trapped(spec: ScalerSpec, used: int, size: int, d: Dimension) {
    var step := MinStepOf(Validate(spec), d);
    || (RisingAt(spec, used, size, d) && size < MaxOf(Capped(Validate(spec)), d)
        && FallingAt(spec, used, Into(spec, size + step, d), d))
    || (FallingAt(spec, used, size, d) && MinOf(Validate(spec), d) < size
        && RisingAt(spec, used, Into(spec, size - step, d), d))
  }

  lemma TrappedStays(spec: ScalerSpec, used: int, size: int, d: Dimension)
    requires Fixed(spec, d) && used >= 0 && WithinBounds(spec, size, d) && Trapped(spec, used, size, d)
    ensures !Rests(spec, used, size, d)
    ensures var next := Next(spec, used, size, d); WithinBounds(spec, next, d) && Trapped(spec, used, next, d)
  {
    var step, next := MinStepOf(Validate(spec), d), Next(spec, used, size, d);
    if RisingAt(spec, used, size, d) {
      AskingIsMonotone(spec, used, Into(spec, next - step, d), size, d);
    } else {
      AskingIsMonotone(spec, used, size, Into(spec, next + step, d), d);
    }
  }

  ghost predicate NoRestOnGrid(spec: ScalerSpec, used: int, size: int, d: Dimension) {
    forall k: int :: !Rests(spec, used, Grid(spec, size, d, k), d)
  }

  /** A step from a grid without rest either stays on that grid or turns into the trap. */
  lemma GridStays(spec: ScalerSpec, used: int, size: int, d: Dimension)
    requires Fixed(spec, d) && used >= 0 && WithinBounds(spec, size, d) && NoRestOnGrid(spec, used, size, d)
    ensures !Rests(spec, used, size, d)
    ensures var next := Next(spec, used, size, d);
            WithinBounds(spec, next, d) && (NoRestOnGrid(spec, used, next, d) || Trapped(spec, used, size, d))
  {
    var step, next := MinStepOf(Validate(spec), d), Next(spec, used, size, d);
    assert Grid(spec, size, d, 0) == size;
    var k := if RisingAt(spec, used, size, d) then 1 else -1;
    assert Grid(spec, size, d, k) == next;
    if !Trapped(spec, used, size, d) {
      assert next == size + k * step;
      forall j: int ensures !Rests(spec, used, Grid(spec, next, d, j), d) {
        assert (j + k) * step == j * step + k * step;
        assert Grid(spec, next, d, j) == Grid(spec, size, d, j + k);
      }
    }
  }

  lemma {:induction false} NeverRests(spec: ScalerSpec, used: int, size: int, d: Dimension, n: nat)
    requires Fixed(spec, d) && used >= 0 && WithinBounds(spec, size, d)
    requires NoRestOnGrid(spec, used, size, d) || Trapped(spec, used, size, d)
    ensures !Rests(spec, used, Walk(spec, used, size, d, n), d)
    decreases n
  {
    if Trapped(spec, used, size, d) {
      TrappedStays(spec, used, size, d);
    } else {
      GridStays(spec, used, size, d);
    }
    if n > 0 {
      NeverRests(spec, used, Next(spec, used, size, d), d, n - 1);
      IterateFirst(Stepping(spec, used, d), size, n - 1);
    }
  }

  // ---------- The loop ----------

  /** With a fixed step, whatever the percentages are, and the other dimension still: the loop settles if
      and only if the policies leave alone some size a whole number of steps away, cut to the bounds. */
  lemma FixedStepSettlesExactly(ns: string, spec: ScalerSpec, u: Usage, inf: int, d: Dimension)
    requires Fixed(spec, d) && Part(u.used, d) >= 0 && WithinBounds(spec, Part(u.hard, d), d)
    requires Still(spec, u, Other(d))
    ensures Settles(ns, spec, u, inf)
       <==> exists k: int :: Rests(spec, Part(u.used, d), Grid(spec, Part(u.hard, d), d, k), d)
  {
    var used, size := Part(u.used, d), Part(u.hard, d);
    if k: int :| Rests(spec, used, Grid(spec, size, d, k), d) {
      var n := WalksToRest(spec, used, size, d, k);
      SilentExactly(ns, spec, u, inf, d, n);
    } else {
      forall n: nat ensures Decide(ns, spec, After(ns, spec, u, inf, n), NOTHING, inf) != None {
        NeverRests(spec, used, size, d, n);
        SilentExactly(ns, spec, u, inf, d, n);
      }
    }
  }

  /** A minimal CPU step that is given is the only step, so this decides the CPU loop of its scaler. */
  lemma GivenCpuStepIsFixed(spec: ScalerSpec)
    requires spec.minCpuStep.Some? && Proper(spec, Cpu)
    requires forall p <- spec.scaleDown :: IsCpu(p) ==> p.value < 100
    ensures Fixed(spec, Cpu)
  {
  }
}
