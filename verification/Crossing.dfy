/** Scalers with a scale-down value above a scale-up value: they rest at a bound or never. */
module Crossing {
  import opened Quantities
  import opened Scaling
  import opened ScalingLaws
  import opened Decision
  import opened ClosedLoop
  import opened Settling

  /** Some scale-down value of the dimension exceeds some scale-up value. */
  predicate Crossed(spec: ScalerSpec, d: Dimension) {
    && DownAtMostFull(spec, d)
    && exists p <- spec.scaleDown, q <- spec.scaleUp :: Concerns(p, d) && Concerns(q, d) && q.value < p.value
  }

  /** Crossed thresholds leave no size alone. */
  lemma CrossedAlwaysAsks(spec: ScalerSpec, used: int, size: int, d: Dimension)
    requires Crossed(spec, d) && size >= 1
    ensures RisingAt(spec, used, size, d) || FallingAt(spec, used, size, d)
  {
    var p, q :| p in spec.scaleDown && q in spec.scaleUp && Concerns(p, d) && Concerns(q, d) && q.value < p.value;
    if used == size {
      FullFromUsage(used, size);
    }
    assert Asks(false, p.value, used, size) || Asks(true, q.value, used, size);
  }

  /** A crossed dimension rests only at the bound its policies draw it to, whatever the other policies and
      the other dimension are. */
  lemma CrossedRestsAtBound(ns: string, spec: ScalerSpec, u: Usage, inf: int, d: Dimension)
    requires Proper(spec, d) && Crossed(spec, d) && Decide(ns, spec, u, NOTHING, inf) == None
    ensures Drawn(spec, Part(u.used, d), d) && AtBound(spec, u, d)
  {
    NoRequestExactly(ns, spec, u, inf);
    assert Part(Aim(spec, u, inf), d) == Part(u.hard, d);
    AimFollowsPolicies(spec, u, inf, d);
    CrossedAlwaysAsks(spec, Part(u.used, d), Part(u.hard, d), d);
  }

  /** If neither bound holds its usage, a crossed dimension makes every evaluation send a request: from any
      size, for ever, whatever the other dimension does. */
  lemma CrossedNeverRests(ns: string, spec: ScalerSpec, u: Usage, inf: int, d: Dimension, n: nat)
    requires Proper(spec, d) && Crossed(spec, d) && !Drawn(spec, Part(u.used, d), d)
    ensures Decide(ns, spec, After(ns, spec, u, inf, n), NOTHING, inf).Some?
  {
    var v := After(ns, spec, u, inf, n);
    AfterKeepsUsage(ns, spec, u, inf, n);
    if Decide(ns, spec, v, NOTHING, inf) == None {
      CrossedRestsAtBound(ns, spec, v, inf, d);
    }
  }

  /** At fixed usage the loop comes to rest after `n` evaluations for some `n`. */
  ghost predicate Settles(ns: string, spec: ScalerSpec, u: Usage, inf: int) {
    exists n: nat :: Decide(ns, spec, After(ns, spec, u, inf, n), NOTHING, inf) == None
  }

  /** For scalers whose dimensions have a wide enough band, are at 100, or are crossed: the loop settles,
      from any size, if and only if each crossed dimension has its usage held by a bound. */
  lemma SettlesExactly(ns: string, spec: ScalerSpec, u: Usage, inf: int)
    requires forall d: Dimension ::
               && Proper(spec, d) && Part(u.used, d) >= 0
               && (BandPoliced(spec, d) || FullPoliced(spec, d) || Crossed(spec, d))
    ensures Settles(ns, spec, u, inf)
       <==> forall d: Dimension :: Crossed(spec, d) ==> Drawn(spec, Part(u.used, d), d)
  {
    if d: Dimension :| Crossed(spec, d) && !Drawn(spec, Part(u.used, d), d) {
      forall n: nat ensures Decide(ns, spec, After(ns, spec, u, inf, n), NOTHING, inf) != None {
        CrossedNeverRests(ns, spec, u, inf, d, n);
      }
    } else {
      forall d: Dimension ensures Steerable(spec, u.used, d) {
        assert Proper(spec, d);
        if !Crossed(spec, d) {
          KeptAtMostFull(spec, d);
        }
      }
      var n := LoopSettles(ns, spec, u, inf);
    }
  }

  lemma KeptAtMostFull(spec: ScalerSpec, d: Dimension)
    requires BandPoliced(spec, d) || FullPoliced(spec, d)
    ensures DownAtMostFull(spec, d)
  {
    if FullPoliced(spec, d) {
      forall p <- spec.scaleDown | Concerns(p, d) ensures p.value == 100 {
        assert p in spec.scaleDown + spec.scaleUp;
      }
    }
  }
}
