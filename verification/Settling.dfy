/** Where a quota rests, and that repeated evaluations bring it there. */
module Settling {
  import opened Quantities
  import opened Scaling
  import opened ScalingLaws
  import opened Decision
  import opened ClosedLoop

  // ---------- The direction of one evaluation ----------

  /** The size an evaluation aims at; the request differs from it only where the fix-up keeps a dimension
      from being lowered. */
  function Aim(spec: ScalerSpec, u: Usage, inf: int): Amount {
    Clamped(Desired(spec, u, NOTHING, inf), Capped(Validate(spec)), u.hard)
  }

  function Other(d: Dimension): Dimension {
    if d.Cpu? then Memory else Cpu
  }

  /** A dimension gets what was aimed at, unless that is lower while the other dimension rises. */
  lemma NewSizeFollowsAim(spec: ScalerSpec, u: Usage, inf: int, d: Dimension)
    ensures var aim, size := Part(Aim(spec, u, inf), d), Part(u.hard, d);
            var rises := Part(Aim(spec, u, inf), Other(d)) > Part(u.hard, Other(d));
            Part(NewSize(spec, u, NOTHING, inf), d) == if aim < size && rises then size else aim
  {
  }

  /** The minimum is positive and not above the capped maximum, and steps are positive. */
  predicate Proper(spec: ScalerSpec, d: Dimension) {
    var l := Validate(spec);
    1 <= MinOf(l, d) <= MaxOf(Capped(l), d) && MinStepOf(l, d) >= 1 && MaxStepOf(l, d) >= 1
  }

  predicate WithinBounds(spec: ScalerSpec, size: int, d: Dimension) {
    MinOf(Validate(spec), d) <= size <= MaxOf(Capped(Validate(spec)), d)
  }

  predicate DownAtMostFull(spec: ScalerSpec, d: Dimension) {
    forall p <- spec.scaleDown :: Concerns(p, d) ==> p.value <= 100
  }

  /** At this usage and size some policy asks for more: a scale-up policy, or a scale-down to a usage above
      the size. */
  predicate RisingAt(spec: ScalerSpec, used: int, size: int, d: Dimension) {
    || (exists q <- spec.scaleUp :: Concerns(q, d) && Asks(true, q.value, used, size))
    || (used > size && exists p <- spec.scaleDown :: Concerns(p, d) && p.value == 100)
  }

  /** A scale-down policy asks for less, and none asks for more. */
  predicate FallingAt(spec: ScalerSpec, used: int, size: int, d: Dimension) {
    && !RisingAt(spec, used, size, d)
    && exists p <- spec.scaleDown :: Concerns(p, d) && Asks(false, p.value, used, size)
  }

  predicate Rising(spec: ScalerSpec, u: Usage, d: Dimension) {
    RisingAt(spec, Part(u.used, d), Part(u.hard, d), d)
  }

  predicate Falling(spec: ScalerSpec, u: Usage, d: Dimension) {
    FallingAt(spec, Part(u.used, d), Part(u.hard, d), d)
  }

  lemma TargetDirection(l: Limits, scaleUp: bool, value: int, u: Usage, inf: int, d: Dimension)
    requires 1 <= MinOf(l, d) <= Part(u.hard, d) <= MaxOf(l, d) && MinStepOf(l, d) >= 1 && MaxStepOf(l, d) >= 1
    ensures var target, size := TargetOf(scaleUp, Policed(l, scaleUp, value, u, d), inf), Part(u.hard, d);
            && (target != 0 <==> Asks(scaleUp, value, Part(u.used, d), size))
            && (target != 0 && scaleUp ==> size <= target && (size < MaxOf(l, d) ==> size < target))
            && (target != 0 && !scaleUp && value != 100 ==>
                  MinOf(l, d) <= target <= size && (MinOf(l, d) < size ==> target < size))
            && (target != 0 && !scaleUp && value == 100 ==> target == Max(Part(u.used, d), MinOf(l, d)))
  {
  }

  /** Usage at or above the size is at least 100 percent of it. */
  lemma FullFromUsage(used: int, size: int)
    requires used >= size >= 1
    ensures Percentage(used, size) >= 100
  {
    PercentageBelow(used, size, 100);
  }

  /** The scale-down policies alone. */
  lemma DownResult(spec: ScalerSpec, u: Usage, inf: int, d: Dimension)
    requires Proper(spec, d) && WithinBounds(spec, Part(u.hard, d), d) && DownAtMostFull(spec, d)
    ensures var l, size, used := Validate(spec), Part(u.hard, d), Part(u.used, d);
            var r := Part(ApplyPolicies(Amount(u.hard.cpu, u.hard.memory, 0), spec.scaleDown, false, l, u, inf), d);
            if exists p <- spec.scaleDown :: Concerns(p, d) && Asks(false, p.value, used, size) then
              && MinOf(l, d) <= r
              && if used > size && exists p <- spec.scaleDown :: Concerns(p, d) && p.value == 100 then r == used
                 else r <= size && (MinOf(l, d) < size ==> r < size)
            else r == size
  {
    var l, size, used := Validate(spec), Part(u.hard, d), Part(u.used, d);
    PoliciesYield(Amount(u.hard.cpu, u.hard.memory, 0), spec.scaleDown, false, l, u, inf, d);
    forall p <- spec.scaleDown { TargetDirection(l, false, p.value, u, inf, d); }
    if used >= size {
      FullFromUsage(used, size);
    }
  }

  /** The scale-up policies on top of any start. */
  lemma UpResult(start: Amount, spec: ScalerSpec, u: Usage, inf: int, d: Dimension)
    requires Proper(spec, d) && WithinBounds(spec, Part(u.hard, d), d)
    ensures var l, size := Validate(spec), Part(u.hard, d);
            var r := Part(ApplyPolicies(start, spec.scaleUp, true, l, u, inf), d);
            if exists q <- spec.scaleUp :: Concerns(q, d) && Asks(true, q.value, Part(u.used, d), size) then
              size <= r && (size < MaxOf(l, d) ==> size < r)
            else r == Part(start, d)
  {
    var l := Validate(spec);
    PoliciesYield(start, spec.scaleUp, true, l, u, inf, d);
    forall q <- spec.scaleUp { TargetDirection(l, true, q.value, u, inf, d); }
  }

  /** What the policies of both lists aim at, at a size within the bounds: more when some policy asks for
      more, less when one asks for less and none for more, as far as the bounds allow; else the size. */
  lemma AimFollowsPolicies(spec: ScalerSpec, u: Usage, inf: int, d: Dimension)
    requires Proper(spec, d) && WithinBounds(spec, Part(u.hard, d), d) && DownAtMostFull(spec, d)
    ensures var l, aim, size := Capped(Validate(spec)), Part(Aim(spec, u, inf), d), Part(u.hard, d);
            && WithinBounds(spec, aim, d)
            && (Rising(spec, u, d) ==> size < aim || size == aim == MaxOf(l, d))
            && (Falling(spec, u, d) ==> aim < size || size == aim == MinOf(l, d))
            && (!Rising(spec, u, d) && !Falling(spec, u, d) ==> aim == size)
  {
    var l := Validate(spec);
    var start := Amount(u.hard.cpu, u.hard.memory, 0);
    DownResult(spec, u, inf, d);
    UpResult(ApplyPolicies(start, spec.scaleDown, false, l, u, inf), spec, u, inf, d);
  }

  // ---------- A quota at rest ----------

  /** The bound in the direction asked for is reached, or nothing is asked for. */
  predicate Rests(spec: ScalerSpec, used: int, size: int, d: Dimension) {
    && (RisingAt(spec, used, size, d) ==> size == MaxOf(Capped(Validate(spec)), d))
    && (FallingAt(spec, used, size, d) ==> size == MinOf(Validate(spec), d))
  }

  predicate RestsAt(spec: ScalerSpec, u: Usage, d: Dimension) {
    Rests(spec, Part(u.used, d), Part(u.hard, d), d)
  }

  predicate AtBound(spec: ScalerSpec, u: Usage, d: Dimension) {
    Part(u.hard, d) == MinOf(Validate(spec), d) || Part(u.hard, d) == MaxOf(Capped(Validate(spec)), d)
  }

  /** A quota within its bounds, or at one of them, is left alone if and only if each dimension is at the
      bound in the direction its policies ask for, or they ask for nothing. */
  lemma AtRestExactly(ns: string, spec: ScalerSpec, u: Usage, inf: int)
    requires forall d: Dimension ::
               Proper(spec, d) && WithinBounds(spec, Part(u.hard, d), d) && DownAtMostFull(spec, d)
    ensures Decide(ns, spec, u, NOTHING, inf) == None <==> forall d: Dimension :: RestsAt(spec, u, d)
  {
    NoRequestExactly(ns, spec, u, inf);
    forall d: Dimension
      ensures Part(Aim(spec, u, inf), d) == Part(u.hard, d) <==> RestsAt(spec, u, d)
    {
      AimFollowsPolicies(spec, u, inf, d);
    }
  }

  lemma NoRequestExactly(ns: string, spec: ScalerSpec, u: Usage, inf: int)
    ensures Decide(ns, spec, u, NOTHING, inf) == None
       <==> forall d: Dimension :: Part(Aim(spec, u, inf), d) == Part(u.hard, d)
  {
    NewSizeFollowsAim(spec, u, inf, Cpu);
    NewSizeFollowsAim(spec, u, inf, Memory);
    assert Part(u.hard, Cpu) == u.hard.cpu && Part(u.hard, Memory) == u.hard.memory;
    var aim := Aim(spec, u, inf);
    assert Part(aim, Cpu) == aim.cpu && Part(aim, Memory) == aim.memory;
  }

  /** The next evaluation raises the dimension. */
  predicate Rises(spec: ScalerSpec, u: Usage, d: Dimension) {
    || Part(u.hard, d) < MinOf(Validate(spec), d)
    || (Rising(spec, u, d) && Part(u.hard, d) < MaxOf(Capped(Validate(spec)), d))
  }

  /** At any size, inside or outside the bounds. */
  lemma RisesExactly(spec: ScalerSpec, u: Usage, inf: int, d: Dimension)
    requires Proper(spec, d) && DownAtMostFull(spec, d)
    ensures Part(NewSize(spec, u, NOTHING, inf), d) > Part(u.hard, d) <==> Rises(spec, u, d)
  {
    NewSizeFollowsAim(spec, u, inf, d);
    if WithinBounds(spec, Part(u.hard, d), d) {
      AimFollowsPolicies(spec, u, inf, d);
    }
  }

  // ---------- One dimension moves alone ----------

  /** The evaluation leaves this dimension alone. */
  predicate Still(spec: ScalerSpec, u: Usage, d: Dimension) {
    Proper(spec, d) && WithinBounds(spec, Part(u.hard, d), d) && DownAtMostFull(spec, d) && RestsAt(spec, u, d)
  }

  function WithSize(u: Usage, d: Dimension, size: int): Usage {
    u.(hard := if d.Cpu? then u.hard.(cpu := size) else u.hard.(memory := size))
  }

  /** While one dimension is still, the other one gets the size aimed at. */
  lemma MovesAlone(ns: string, spec: ScalerSpec, u: Usage, inf: int, d: Dimension)
    requires Still(spec, u, Other(d))
    ensures Applied(u, Decide(ns, spec, u, NOTHING, inf)) == WithSize(u, d, Part(Aim(spec, u, inf), d))
    ensures Decide(ns, spec, u, NOTHING, inf) == None <==> Part(Aim(spec, u, inf), d) == Part(u.hard, d)
  {
    AimFollowsPolicies(spec, u, inf, Other(d));
    NewSizeFollowsAim(spec, u, inf, Cpu);
    NewSizeFollowsAim(spec, u, inf, Memory);
    var size, aim := NewSize(spec, u, NOTHING, inf), Aim(spec, u, inf);
    assert Part(size, Cpu) == size.cpu && Part(size, Memory) == size.memory;
    assert size == WithSize(u, d, Part(aim, d)).hard;
  }

  // ---------- Scalers whose loop settles ----------

  /** Percentages with a band that pays for the minimal step at the smallest size. */
  predicate BandPoliced(spec: ScalerSpec, d: Dimension) {
    && Banded(spec, MinOf(Validate(spec), d), d)
    && forall p <- spec.scaleDown :: Concerns(p, d) ==> p.value < 100
  }

  /** All policies of the dimension at 100, and it can go down. */
  predicate FullPoliced(spec: ScalerSpec, d: Dimension) {
    && (forall p <- spec.scaleDown + spec.scaleUp :: Concerns(p, d) ==> p.value == 100)
    && exists p <- spec.scaleDown :: Concerns(p, d)
  }

  /** The policies ask for more even at the maximum. */
  predicate DrawnUp(spec: ScalerSpec, used: int, d: Dimension) {
    RisingAt(spec, used, MaxOf(Capped(Validate(spec)), d), d)
  }

  /** The policies ask for less even at the minimum. */
  predicate DrawnDown(spec: ScalerSpec, used: int, d: Dimension) {
    FallingAt(spec, used, MinOf(Validate(spec), d), d)
  }

  /** A dimension is policed in one of the two documented ways, or a bound holds its usage. */
  predicate Steerable(spec: ScalerSpec, used: Amount, d: Dimension) {
    && Proper(spec, d) && Part(used, d) >= 0 && DownAtMostFull(spec, d)
    && (|| BandPoliced(spec, d) || FullPoliced(spec, d)
        || DrawnUp(spec, Part(used, d), d) || DrawnDown(spec, Part(used, d), d))
  }

  /** With minima and minimal steps no worse than the defaults, two percent between the thresholds are a
      wide enough band. */
  lemma TwoPercentAreEnough(spec: ScalerSpec, d: Dimension)
    requires MinOf(Validate(spec), d) >= 400 && MinStepOf(Validate(spec), d) <= 10
    requires forall p <- spec.scaleDown :: Concerns(p, d) ==> 0 <= p.value < 100
    requires forall p <- spec.scaleDown, q <- spec.scaleUp ::
               Concerns(p, d) && Concerns(q, d) ==> p.value + 2 <= q.value
    ensures BandPoliced(spec, d)
  {
    var min, step := MinOf(Validate(spec), d), MinStepOf(Validate(spec), d);
    forall p <- spec.scaleDown, q <- spec.scaleUp | Concerns(p, d) && Concerns(q, d)
      ensures Margin(p.value, q.value, min, step)
    {
      Scale(3, q.value + 1 - p.value, min);
      Scale(step, 10, p.value);
    }
  }

  predicate DownQuiet(spec: ScalerSpec, u: Usage, d: Dimension) {
    forall p <- spec.scaleDown :: Concerns(p, d) ==> Percentage(Part(u.used, d), Part(u.hard, d)) >= p.value
  }

  /** How far a dimension is from rest. It first comes within bounds. Drawn to a bound it then goes there;
      with a band it falls while a scale-down is asked for, then rises. */
  function Distance(spec: ScalerSpec, u: Usage, d: Dimension): int {
    var size, min, max := Part(u.hard, d), MinOf(Validate(spec), d), MaxOf(Capped(Validate(spec)), d);
    if FullPoliced(spec, d) then if size == Part(Goal(spec, u.used), d) then 0 else 1
    else if size < min then 2 * (max - min) + 2
    else if DrawnDown(spec, Part(u.used, d), d) then size - min
    else if size <= max && (DrawnUp(spec, Part(u.used, d), d) || DownQuiet(spec, u, d)) then max - size
    else (max - min) + 1 + (size - min)
  }

  // ---------- Upwards ----------

  /** In one dimension: the size is within bounds, thresholds are banded, and the usage is at least at
      every scale-down threshold. */
  predicate Poised(spec: ScalerSpec, u: Usage, d: Dimension) {
    var l, size := Validate(spec), Part(u.hard, d);
    && 0 < size && MinOf(l, d) <= size <= MaxOf(Capped(l), d) && Part(u.used, d) >= 0
    && MinStepOf(l, d) >= 1 && MaxStepOf(l, d) >= 1
    && Banded(spec, size, d)
    && (forall p <- spec.scaleDown :: Concerns(p, d) ==> p.value < 100 && Percentage(Part(u.used, d), size) >= p.value)
  }

  /** How much the quota can still grow. */
  function Room(spec: ScalerSpec, u: Usage): int {
    var l := Capped(Validate(spec));
    (l.maxCpu - u.hard.cpu) + (l.maxMemory - u.hard.memory)
  }

  lemma BandedAtLargerSize(spec: ScalerSpec, size: int, larger: int, d: Dimension)
    requires Banded(spec, size, d) && size <= larger
    ensures Banded(spec, larger, d)
  {
    forall p <- spec.scaleDown, q <- spec.scaleUp | Concerns(p, d) && Concerns(q, d)
      ensures Margin(p.value, q.value, larger, MinStepOf(Validate(spec), d))
    {
      MarginGrows(p.value, q.value, size, larger, MinStepOf(Validate(spec), d));
    }
  }

  lemma PoisedStaysPoised(spec: ScalerSpec, u: Usage, inf: int, d: Dimension)
    requires Poised(spec, u, d)
    ensures var v := u.(hard := NewSize(spec, u, NOTHING, inf));
            Poised(spec, v, d) && Part(v.hard, d) >= Part(u.hard, d)
  {
    var l := Validate(spec);
    var v := u.(hard := NewSize(spec, u, NOTHING, inf));
    var r := Part(v.hard, d);
    QuietDownKeepsSize(spec, u, inf, d);
    BandedAtLargerSize(spec, Part(u.hard, d), r, d);
    if r > Part(u.hard, d) {
      RaiseComesFromUpPolicy(spec, u, inf, d);
      var q :| q in spec.scaleUp && Concerns(q, d) && r <= Asked(l, true, q, u, inf, d);
      forall p <- spec.scaleDown | Concerns(p, d) ensures Percentage(Part(u.used, d), r) >= p.value {
        if p.value >= 0 {
          UpTargetCoversDown(Policed(l, true, q.value, u, d), inf, p.value, r);
        }
      }
    }
  }

  lemma {:induction false} AfterFirst(ns: string, spec: ScalerSpec, u: Usage, inf: int, n: nat)
    ensures After(ns, spec, u, inf, n + 1)
         == After(ns, spec, Applied(u, Decide(ns, spec, u, NOTHING, inf)), inf, n)
  {
    if n > 0 {
      AfterFirst(ns, spec, u, inf, n - 1);
    } else {
      assert After(ns, spec, u, inf, 0) == u;
    }
  }

  lemma AtRestUpPoliciesQuiet(ns: string, spec: ScalerSpec, u: Usage, inf: int, d: Dimension)
    requires Poised(spec, u, d) && Decide(ns, spec, u, NOTHING, inf) == None
    ensures Part(u.hard, d) == MaxOf(Capped(Validate(spec)), d)
         || forall q <- spec.scaleUp :: Concerns(q, d) ==> !Asks(true, q.value, Part(u.used, d), Part(u.hard, d))
  {
    var l := Validate(spec);
    var size := Amount(u.hard.cpu, u.hard.memory, 0);
    var down := ApplyPolicies(size, spec.scaleDown, false, l, u, inf);
    PoliciesYield(size, spec.scaleDown, false, l, u, inf, d);
    PoliciesYield(down, spec.scaleUp, true, l, u, inf, d);
  }

  /** From a poised state at fixed usage, repeated evaluations only raise the quota and stop after finitely
      many requests; in each dimension it is then at its maximum or within every scale-up threshold, and
      still not below any scale-down threshold. */
  lemma {:induction false} UpwardLoopSettles(ns: string, spec: ScalerSpec, u: Usage, inf: int) returns (n: nat)
    requires Poised(spec, u, Cpu) && Poised(spec, u, Memory)
    ensures var end := After(ns, spec, u, inf, n);
            && n <= Room(spec, u)
            && Decide(ns, spec, end, NOTHING, inf) == None
            && u.hard.Within(end.hard) && end.used == u.used
            && (forall d: Dimension :: Poised(spec, end, d)
                  && (Part(end.hard, d) == MaxOf(Capped(Validate(spec)), d) || InBand(spec, end, d)))
    decreases Room(spec, u)
  {
    var next := Applied(u, Decide(ns, spec, u, NOTHING, inf));
    if next == u {
      n := 0;
      RestIsQuiet(ns, spec, u, inf);
    } else {
      PoisedStaysPoised(spec, u, inf, Cpu);
      PoisedStaysPoised(spec, u, inf, Memory);
      var m := UpwardLoopSettles(ns, spec, next, inf);
      AfterFirst(ns, spec, u, inf, m);
      n := m + 1;
    }
  }

  lemma RestIsQuiet(ns: string, spec: ScalerSpec, u: Usage, inf: int)
    requires Poised(spec, u, Cpu) && Poised(spec, u, Memory)
    requires Applied(u, Decide(ns, spec, u, NOTHING, inf)) == u
    ensures Decide(ns, spec, u, NOTHING, inf) == None
    ensures forall d: Dimension :: Poised(spec, u, d)
              && (Part(u.hard, d) == MaxOf(Capped(Validate(spec)), d) || InBand(spec, u, d))
  {
    forall d: Dimension ensures Poised(spec, u, d)
      && (Part(u.hard, d) == MaxOf(Capped(Validate(spec)), d) || InBand(spec, u, d))
    {
      assert d == Cpu || d == Memory;
      AtRestUpPoliciesQuiet(ns, spec, u, inf, d);
    }
  }

  // ---------- From any size ----------

  lemma FullAim(spec: ScalerSpec, u: Usage, inf: int, d: Dimension)
    requires Steerable(spec, u.used, d) && FullPoliced(spec, d)
    ensures Part(Aim(spec, u, inf), d) == Part(Goal(spec, u.used), d)
  {
    var l := Validate(spec);
    var start := Amount(u.hard.cpu, u.hard.memory, 0);
    var down := ApplyPolicies(start, spec.scaleDown, false, l, u, inf);
    PoliciesYield(start, spec.scaleDown, false, l, u, inf, d);
    PoliciesYield(down, spec.scaleUp, true, l, u, inf, d);
  }

  /** Where a scale-down is asked for, the band keeps every scale-up silent. */
  lemma BandSilencesUp(spec: ScalerSpec, u: Usage, d: Dimension)
    requires BandPoliced(spec, d) && !DownQuiet(spec, u, d)
    ensures Falling(spec, u, d)
  {
  }

  predicate Drawn(spec: ScalerSpec, used: int, d: Dimension) {
    DrawnUp(spec, used, d) || DrawnDown(spec, used, d)
  }

  lemma QuietComesCloser(spec: ScalerSpec, u: Usage, inf: int, d: Dimension)
    requires Steerable(spec, u.used, d) && BandPoliced(spec, d)
    requires !FullPoliced(spec, d) && !Drawn(spec, Part(u.used, d), d)
    requires WithinBounds(spec, Part(u.hard, d), d) && DownQuiet(spec, u, d)
    ensures ComesCloser(spec, u, inf, d)
  {
    BandedAtLargerSize(spec, MinOf(Validate(spec), d), Part(u.hard, d), d);
    PoisedStaysPoised(spec, u, inf, d);
  }

  lemma FallingComesCloser(spec: ScalerSpec, u: Usage, inf: int, d: Dimension)
    requires Steerable(spec, u.used, d) && BandPoliced(spec, d)
    requires !FullPoliced(spec, d) && !Drawn(spec, Part(u.used, d), d)
    requires WithinBounds(spec, Part(u.hard, d), d) && !DownQuiet(spec, u, d)
    ensures ComesCloser(spec, u, inf, d)
  {
    BandSilencesUp(spec, u, d);
    AimFollowsPolicies(spec, u, inf, d);
    NewSizeFollowsAim(spec, u, inf, d);
  }

  lemma PercentageFalls(used: int, size: int, larger: int)
    requires used >= 0 && 1 <= size <= larger
    ensures Percentage(used, larger) <= Percentage(used, size)
  {
    var p := Percentage(used, larger);
    PercentageBelow(used, larger, p);
    PercentageBelow(used, size, p);
    PercentageBounds(used, larger);
    Scale(size, larger, p);
  }

  /** Who asks for more at a size asks for more at smaller ones, who asks for less at larger ones. */
  lemma AskingIsMonotone(spec: ScalerSpec, used: int, size: int, larger: int, d: Dimension)
    requires used >= 0 && 1 <= size <= larger
    ensures RisingAt(spec, used, larger, d) ==> RisingAt(spec, used, size, d)
    ensures FallingAt(spec, used, size, d) ==> FallingAt(spec, used, larger, d)
  {
    PercentageFalls(used, size, larger);
    if FallingAt(spec, used, size, d) {
      var p :| p in spec.scaleDown && Concerns(p, d) && Asks(false, p.value, used, size);
      assert Asks(false, p.value, used, larger);
    }
  }

  lemma DrawnComesCloser(spec: ScalerSpec, u: Usage, inf: int, d: Dimension)
    requires Steerable(spec, u.used, d) && Drawn(spec, Part(u.used, d), d) && !FullPoliced(spec, d)
    requires WithinBounds(spec, Part(u.hard, d), d)
    ensures ComesCloser(spec, u, inf, d)
  {
    AskingIsMonotone(spec, Part(u.used, d), Part(u.hard, d), MaxOf(Capped(Validate(spec)), d), d);
    AskingIsMonotone(spec, Part(u.used, d), MinOf(Validate(spec), d), Part(u.hard, d), d);
    AimFollowsPolicies(spec, u, inf, d);
    NewSizeFollowsAim(spec, u, inf, d);
  }

  /** An evaluation never takes a dimension further from rest, and closer when it changes it. */
  predicate ComesCloser(spec: ScalerSpec, u: Usage, inf: int, d: Dimension) {
    var v := u.(hard := NewSize(spec, u, NOTHING, inf));
    && 0 <= Distance(spec, v, d) <= Distance(spec, u, d)
    && (Part(v.hard, d) != Part(u.hard, d) ==> Distance(spec, v, d) < Distance(spec, u, d))
  }

  lemma EachComesCloser(spec: ScalerSpec, u: Usage, inf: int, d: Dimension)
    requires Steerable(spec, u.used, d)
    ensures ComesCloser(spec, u, inf, d)
  {
    if FullPoliced(spec, d) {
      FullAim(spec, u, inf, d);
      NewSizeFollowsAim(spec, u, inf, d);
    } else if !WithinBounds(spec, Part(u.hard, d), d) {
      NewSizeFollowsAim(spec, u, inf, d);
    } else if Drawn(spec, Part(u.used, d), d) {
      DrawnComesCloser(spec, u, inf, d);
    } else if DownQuiet(spec, u, d) {
      QuietComesCloser(spec, u, inf, d);
    } else {
      FallingComesCloser(spec, u, inf, d);
    }
  }

  /** Within bounds, and in each dimension in the band or at the bound in the direction asked for. */
  predicate Settled(spec: ScalerSpec, u: Usage) {
    forall d: Dimension ::
      WithinBounds(spec, Part(u.hard, d), d) && RestsAt(spec, u, d) && (InBand(spec, u, d) || AtBound(spec, u, d))
  }

  lemma RestIsSettled(ns: string, spec: ScalerSpec, u: Usage, inf: int)
    requires Steerable(spec, u.used, Cpu) && Steerable(spec, u.used, Memory)
    requires Decide(ns, spec, u, NOTHING, inf) == None
    ensures Settled(spec, u)
  {
    NoRequestExactly(ns, spec, u, inf);
    forall d: Dimension
      ensures Proper(spec, d) && WithinBounds(spec, Part(u.hard, d), d) && DownAtMostFull(spec, d)
    {
      assert d == Cpu || d == Memory;
      assert Part(Aim(spec, u, inf), d) == Part(u.hard, d);
    }
    AtRestExactly(ns, spec, u, inf);
  }

  function Remaining(spec: ScalerSpec, u: Usage): int {
    Distance(spec, u, Cpu) + Distance(spec, u, Memory)
  }

  lemma RequestComesCloser(ns: string, spec: ScalerSpec, u: Usage, inf: int)
    requires Steerable(spec, u.used, Cpu) && Steerable(spec, u.used, Memory)
    ensures var next := Applied(u, Decide(ns, spec, u, NOTHING, inf));
            && next.used == u.used && 0 <= Remaining(spec, next) <= Remaining(spec, u)
            && (Decide(ns, spec, u, NOTHING, inf) != None ==> Remaining(spec, next) < Remaining(spec, u))
  {
    EachComesCloser(spec, u, inf, Cpu);
    EachComesCloser(spec, u, inf, Memory);
    var size := NewSize(spec, u, NOTHING, inf);
    assert size.SameSize(u.hard)
      <==> Part(size, Cpu) == Part(u.hard, Cpu) && Part(size, Memory) == Part(u.hard, Memory);
    if size.SameSize(u.hard) {
      assert u.(hard := size).hard.cpu == u.hard.cpu && u.(hard := size).hard.memory == u.hard.memory;
    }
  }

  lemma {:induction false} AfterKeepsUsage(ns: string, spec: ScalerSpec, u: Usage, inf: int, n: nat)
    ensures After(ns, spec, u, inf, n).used == u.used
  {
    if n > 0 {
      AfterKeepsUsage(ns, spec, u, inf, n - 1);
    }
  }

  /** A rank that falls with each step until it is done. */
  ghost predicate Falls(rank: nat -> int, done: nat -> bool) {
    forall i: nat, j: nat :: j == i + 1 && !done(i) ==> 0 <= rank(j) < rank(i)
  }

  lemma {:induction false} IsDoneOnce(rank: nat -> int, done: nat -> bool, start: nat) returns (n: nat)
    requires Falls(rank, done) && rank(start) >= 0
    ensures done(n) && start <= n <= start + rank(start)
    decreases rank(start)
  {
    if done(start) {
      n := start;
    } else {
      n := IsDoneOnce(rank, done, start + 1);
    }
  }

  lemma RemainingFalls(ns: string, spec: ScalerSpec, u: Usage, inf: int)
    requires Steerable(spec, u.used, Cpu) && Steerable(spec, u.used, Memory)
    ensures Falls((n: nat) => Remaining(spec, After(ns, spec, u, inf, n)),
                  (n: nat) => Decide(ns, spec, After(ns, spec, u, inf, n), NOTHING, inf) == None)
  {
    forall i: nat ensures
      var v := After(ns, spec, u, inf, i);
      Decide(ns, spec, v, NOTHING, inf) != None ==>
        0 <= Remaining(spec, After(ns, spec, u, inf, i + 1)) < Remaining(spec, v)
    {
      AfterKeepsUsage(ns, spec, u, inf, i);
      RequestComesCloser(ns, spec, After(ns, spec, u, inf, i), inf);
    }
  }

  /** The loop settles: from any size at all, inside or outside the bounds, at fixed usage and without
      events, repeated evaluations send finitely many requests. The quota then rests within its bounds,
      and each dimension is in the band, or at the bound in the direction its policies ask for. */
  lemma LoopSettles(ns: string, spec: ScalerSpec, u: Usage, inf: int) returns (n: nat)
    requires Steerable(spec, u.used, Cpu) && Steerable(spec, u.used, Memory)
    ensures var end := After(ns, spec, u, inf, n);
            && n <= Remaining(spec, u)
            && Decide(ns, spec, end, NOTHING, inf) == None
            && end.used == u.used && Settled(spec, end)
  {
    RequestComesCloser(ns, spec, u, inf);
    RemainingFalls(ns, spec, u, inf);
    n := IsDoneOnce((k: nat) => Remaining(spec, After(ns, spec, u, inf, k)),
                    (k: nat) => Decide(ns, spec, After(ns, spec, u, inf, k), NOTHING, inf) == None, 0);
    AfterKeepsUsage(ns, spec, u, inf, n);
    RestIsSettled(ns, spec, After(ns, spec, u, inf, n), inf);
  }
}
