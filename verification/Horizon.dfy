/** For every scaler: how many evaluations it takes to know whether the loop ever rests. */
module Horizon {
  import opened Quantities
  import opened Scaling
  import opened ScalingLaws
  import opened Decision
  import opened ClosedLoop
  import opened Settling
  import opened Crossing

  /** No evaluation goes below this size. */
  function Lowest(spec: ScalerSpec, size: int, d: Dimension): int {
    Min(size, Min(MinOf(Validate(spec), d), MaxOf(Capped(Validate(spec)), d)))
  }

  function Highest(spec: ScalerSpec, size: int, d: Dimension): int {
    Max(size, MaxOf(Capped(Validate(spec)), d))
  }

  /** How many sizes a dimension can take. */
  function Width(spec: ScalerSpec, size: int, d: Dimension): nat {
    Highest(spec, size, d) - Lowest(spec, size, d) + 1
  }

  /** How many sizes a quota can take. */
  function StateCount(spec: ScalerSpec, u: Usage): nat {
    Width(spec, u.hard.cpu, Cpu) * Width(spec, u.hard.memory, Memory)
  }

  /** The states reachable from `u`: usage and storage stay, sizes within the extremes. */
  predicate Reachable(spec: ScalerSpec, u: Usage, v: Usage) {
    && v.used == u.used && v.hard.storage == u.hard.storage
    && forall d: Dimension ::
         Lowest(spec, Part(u.hard, d), d) <= Part(v.hard, d) <= Highest(spec, Part(u.hard, d), d)
  }

  lemma ReachableNext(spec: ScalerSpec, u: Usage, v: Usage, inf: int)
    requires Reachable(spec, u, v)
    ensures Reachable(spec, u, v.(hard := NewSize(spec, v, NOTHING, inf)))
  {
    var r := NewSize(spec, v, NOTHING, inf);
    BoundedKeepsBounds(Desired(spec, v, NOTHING, inf), Capped(Validate(spec)), v.hard);
    assert Lowest(spec, Part(u.hard, Cpu), Cpu) <= Part(v.hard, Cpu) <= Highest(spec, Part(u.hard, Cpu), Cpu);
    assert Lowest(spec, Part(u.hard, Memory), Memory) <= Part(v.hard, Memory)
           <= Highest(spec, Part(u.hard, Memory), Memory);
    forall d: Dimension
      ensures Lowest(spec, Part(u.hard, d), d) <= Part(r, d) <= Highest(spec, Part(u.hard, d), d)
    {
      assert d == Cpu || d == Memory;
    }
  }

  /** One evaluation, as a function of the state. */
  function Evaluation(ns: string, spec: ScalerSpec, inf: int): Usage -> Usage {
    (v: Usage) => Applied(v, Decide(ns, spec, v, NOTHING, inf))
  }

  function Silent(ns: string, spec: ScalerSpec, inf: int): Usage -> bool {
    (v: Usage) => Decide(ns, spec, v, NOTHING, inf) == None
  }

  function Iterate<T>(f: T -> T, x: T, n: nat): T {
    if n == 0 then x else f(Iterate(f, x, n - 1))
  }

  /** Each state is the image of the one before. */
  ghost predicate Follows<T(!new)>(states: nat -> T, f: T -> T) {
    forall i: nat, j: nat :: j == i + 1 ==> states(j) == f(states(i))
  }

  lemma {:induction false} FollowingIterates<T(!new)>(states: nat -> T, f: T -> T, n: nat)
    requires Follows(states, f)
    ensures states(n) == Iterate(f, states(0), n)
    decreases n
  {
    if n > 0 {
      FollowingIterates(states, f, n - 1);
    }
  }

  lemma EvaluationsFollow(ns: string, spec: ScalerSpec, u: Usage, inf: int)
    ensures Follows((k: nat) => After(ns, spec, u, inf, k), Evaluation(ns, spec, inf))
  {
  }

  lemma {:induction false} IterateFirst<T>(f: T -> T, x: T, n: nat)
    ensures Iterate(f, x, n + 1) == Iterate(f, f(x), n)
    decreases n
  {
    if n > 0 {
      IterateFirst(f, x, n - 1);
    }
  }

  /** `f` does on embedded values what `g` does, as long as they are allowed. */
  ghost predicate Simulates<T(!new)>(f: T -> T, g: int -> int, embed: int -> T, allowed: int -> bool) {
    forall x: int :: allowed(x) ==> f(embed(x)) == embed(g(x)) && allowed(g(x))
  }

  lemma {:induction false} SimulatedRun<T(!new)>(
      f: T -> T, g: int -> int, embed: int -> T, allowed: int -> bool, x: int, n: nat)
    requires Simulates(f, g, embed, allowed) && allowed(x)
    ensures Iterate(f, embed(x), n) == embed(Iterate(g, x, n)) && allowed(Iterate(g, x, n))
    decreases n
  {
    if n > 0 {
      SimulatedRun(f, g, embed, allowed, x, n - 1);
      var before := Iterate(g, x, n - 1);
      assert f(embed(before)) == embed(g(before)) && allowed(g(before));
    }
  }

  lemma AfterIterates(ns: string, spec: ScalerSpec, u: Usage, inf: int, n: nat)
    ensures After(ns, spec, u, inf, n) == Iterate(Evaluation(ns, spec, inf), u, n)
  {
    EvaluationsFollow(ns, spec, u, inf);
    FollowingIterates((k: nat) => After(ns, spec, u, inf, k), Evaluation(ns, spec, inf), n);
  }

  ghost predicate Keeps<T(!new)>(f: T -> T, holds: T -> bool) {
    forall x: T :: holds(x) ==> holds(f(x))
  }

  lemma {:induction false} AlwaysHolds<T(!new)>(f: T -> T, holds: T -> bool, x: T, n: nat)
    requires Keeps(f, holds) && holds(x)
    ensures holds(Iterate(f, x, n))
    decreases n
  {
    if n > 0 {
      AlwaysHolds(f, holds, x, n - 1);
    }
  }

  lemma EvaluationKeepsReachable(ns: string, spec: ScalerSpec, u: Usage, inf: int)
    ensures Keeps(Evaluation(ns, spec, inf), (v: Usage) => Reachable(spec, u, v))
  {
    forall v: Usage | Reachable(spec, u, v) ensures Reachable(spec, u, Evaluation(ns, spec, inf)(v)) {
      ReachableNext(spec, u, v, inf);
    }
  }

  lemma StaysReachable(ns: string, spec: ScalerSpec, u: Usage, inf: int, n: nat)
    ensures After(ns, spec, u, inf, n) == Iterate(Evaluation(ns, spec, inf), u, n)
    ensures Reachable(spec, u, After(ns, spec, u, inf, n))
  {
    AfterIterates(ns, spec, u, inf, n);
    EvaluationKeepsReachable(ns, spec, u, inf);
    AlwaysHolds(Evaluation(ns, spec, inf), (v: Usage) => Reachable(spec, u, v), u, n);
  }

  // ---------- Numbering the states ----------

  function Number(spec: ScalerSpec, u: Usage, v: Usage): int {
    (v.hard.cpu - Lowest(spec, u.hard.cpu, Cpu)) * Width(spec, u.hard.memory, Memory)
    + (v.hard.memory - Lowest(spec, u.hard.memory, Memory))
  }

  lemma RowsAreApart(a: int, b: int, width: int, x: int, y: int)
    requires 0 <= x < width && 0 <= y < width && a < b
    ensures a * width + x < b * width + y
  {
    Scale(a + 1, b, width);
    DistributeSum(a, 1, width);
  }

  lemma NumberInRange(spec: ScalerSpec, u: Usage, v: Usage)
    requires Reachable(spec, u, v)
    ensures 0 <= Number(spec, u, v) < StateCount(spec, u)
  {
    var row, column := Part(v.hard, Cpu) - Lowest(spec, u.hard.cpu, Cpu), Part(v.hard, Memory);
    var width := Width(spec, u.hard.memory, Memory);
    Scale(0, row, width);
    RowsAreApart(row, Width(spec, u.hard.cpu, Cpu), width, column - Lowest(spec, u.hard.memory, Memory), 0);
  }

  lemma NumberDetermines(spec: ScalerSpec, u: Usage, v: Usage, w: Usage)
    requires Reachable(spec, u, v) && Reachable(spec, u, w) && Number(spec, u, v) == Number(spec, u, w)
    ensures v == w
  {
    var low, width := Lowest(spec, u.hard.cpu, Cpu), Width(spec, u.hard.memory, Memory);
    var x := Part(v.hard, Memory) - Lowest(spec, u.hard.memory, Memory);
    var y := Part(w.hard, Memory) - Lowest(spec, u.hard.memory, Memory);
    if v.hard.cpu < w.hard.cpu {
      RowsAreApart(v.hard.cpu - low, w.hard.cpu - low, width, x, y);
    } else if w.hard.cpu < v.hard.cpu {
      RowsAreApart(w.hard.cpu - low, v.hard.cpu - low, width, y, x);
    }
  }

  // ---------- A state comes back ----------

  /** More numbers below `bound` than there are: two are equal. */
  lemma {:induction false} Repetition(numbers: seq<int>, bound: nat) returns (i: nat, j: nat)
    requires |numbers| > bound && forall x <- numbers :: 0 <= x < bound
    ensures i < j < |numbers| && numbers[i] == numbers[j]
    decreases bound
  {
    assert numbers[0] in numbers;
    assert 0 <= numbers[0] < bound;
    if i', j' :| 0 <= i' < j' < |numbers| && numbers[i'] == numbers[j'] == bound - 1 {
      i, j := i', j';
    } else if k :| 0 <= k < |numbers| && numbers[k] == bound - 1 {
      var rest := numbers[..k] + numbers[k + 1..];
      forall x <- rest ensures 0 <= x < bound - 1 {
        var at :| 0 <= at < |rest| && rest[at] == x;
        if at < k {
          assert rest[at] == numbers[at] && numbers[at] in numbers;
        } else {
          assert rest[at] == numbers[at + 1] && numbers[at + 1] in numbers;
        }
      }
      i, j := Repetition(rest, bound - 1);
      i, j := if i < k then i else i + 1, if j < k then j else j + 1;
    } else {
      forall x <- numbers ensures 0 <= x < bound - 1 {
        var at :| 0 <= at < |numbers| && numbers[at] == x;
      }
      i, j := Repetition(numbers, bound - 1);
    }
  }

  lemma StateComesBack(ns: string, spec: ScalerSpec, u: Usage, inf: int) returns (i: nat, j: nat)
    ensures var f := Evaluation(ns, spec, inf); i < j <= StateCount(spec, u) && Iterate(f, u, i) == Iterate(f, u, j)
  {
    var f, n := Evaluation(ns, spec, inf), StateCount(spec, u);
    var numbers := seq(n + 1, k requires 0 <= k <= n => Number(spec, u, Iterate(f, u, k)));
    forall x <- numbers ensures 0 <= x < n {
      var k :| 0 <= k <= n && numbers[k] == x;
      StaysReachable(ns, spec, u, inf, k);
      NumberInRange(spec, u, Iterate(f, u, k));
    }
    i, j := Repetition(numbers, n);
    StaysReachable(ns, spec, u, inf, i);
    StaysReachable(ns, spec, u, inf, j);
    NumberDetermines(spec, u, Iterate(f, u, i), Iterate(f, u, j));
  }

  lemma {:induction false} SameFuture<T>(f: T -> T, x: T, i: nat, j: nat, n: nat)
    requires Iterate(f, x, i) == Iterate(f, x, j)
    ensures Iterate(f, x, i + n) == Iterate(f, x, j + n)
    decreases n
  {
    if n > 0 {
      SameFuture(f, x, i, j, n - 1);
    }
  }

  /** Once a state has come back, what holds of a later state holds of an earlier one. */
  lemma {:induction false} HoldsEarlier<T>(f: T -> T, x: T, holds: T -> bool, i: nat, j: nat, n: nat)
    returns (m: nat)
    requires i < j && Iterate(f, x, i) == Iterate(f, x, j) && holds(Iterate(f, x, n))
    ensures m < j && holds(Iterate(f, x, m))
    decreases n
  {
    if n < j {
      m := n;
    } else {
      SameFuture(f, x, i, j, n - j);
      m := HoldsEarlier(f, x, holds, i, j, i + (n - j));
    }
  }

  /** For any scaler, any size and any usage: the loop settles if and only if one of as many evaluations as
      there are sizes sends nothing. If none does, requests go on for ever. */
  lemma SettlesSoonOrNever(ns: string, spec: ScalerSpec, u: Usage, inf: int)
    ensures Settles(ns, spec, u, inf) <==>
              exists n: nat ::
                n < StateCount(spec, u) && Decide(ns, spec, After(ns, spec, u, inf, n), NOTHING, inf) == None
  {
    if n: nat :| Decide(ns, spec, After(ns, spec, u, inf, n), NOTHING, inf) == None {
      AfterIterates(ns, spec, u, inf, n);
      var i, j := StateComesBack(ns, spec, u, inf);
      var m := HoldsEarlier(Evaluation(ns, spec, inf), u, Silent(ns, spec, inf), i, j, n);
      AfterIterates(ns, spec, u, inf, m);
    }
  }
}
