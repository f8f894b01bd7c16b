/** The autoscaler's arithmetic: desired replicas per metric, and the deadband. */
module Hpa {
  import opened Arithmetic
  import opened Decimal

  /** Observed average of one metric and its target; a zero target is inactive. */
  datatype MetricSignal = MetricSignal(avg: nat, target: nat)

  const DEADBAND_PERCENT: nat := 10

  function Clamp(x: nat, min: nat, max: nat): nat
    requires min <= max
  {
    if x < min then min else if x > max then max else x
  }

  /** `compute_desired_for_metric`: ceil(current * avg / target), saturated to u32, clamped. */
  function DesiredForMetric(current: nat, s: MetricSignal, min: nat, max: nat): Option<nat>
    requires min <= max <= U32_MAX
  {
    if current == 0 || s.target == 0 then None
    else
      var raw := (current * s.avg + s.target - 1) / s.target;
      Some(Clamp(if raw > U32_MAX then U32_MAX else raw, min, max))
  }

  /** `n` replicas carry the observed load of a metric at its target. */
  predicate Suffices(n: nat, current: nat, s: MetricSignal) {
    n * s.target >= current * s.avg
  }

  lemma CeilIsLeast(load: nat, target: nat, n: nat)
    requires target >= 1
    ensures n * target >= load <==> n >= (load + target - 1) / target
  {
    var q := (load + target - 1) / target;
    var r := (load + target - 1) % target;
    assert load + target - 1 == q * target + r;
    if n >= q {
      MulOrder(q, n, target);
    } else {
      MulOrder(n + 1, q, target);
      assert (n + 1) * target == n * target + target;
    }
  }

  /** One metric's desired count is the least in range that suffices, or the maximum. */
  lemma DesiredForMetricIsLeast(current: nat, s: MetricSignal, min: nat, max: nat)
    requires min <= max <= U32_MAX && current > 0 && s.target > 0
    ensures var n := DesiredForMetric(current, s, min, max).value;
            && min <= n <= max
            && (n < max ==> Suffices(n, current, s))
            && (forall m :: min <= m < n ==> !Suffices(m, current, s))
  {
    var n := DesiredForMetric(current, s, min, max).value;
    CeilIsLeast(current * s.avg, s.target, n);
    forall m | min <= m < n
      ensures !Suffices(m, current, s)
    {
      CeilIsLeast(current * s.avg, s.target, m);
    }
  }

  function Larger(a: Option<nat>, b: Option<nat>): Option<nat> {
    if a.None? then b
    else if b.None? then a
    else Some(if a.value >= b.value then a.value else b.value)
  }

  /** The largest desired count over the active metrics. */
  function DesiredTotal(current: nat, signals: seq<MetricSignal>, min: nat, max: nat): Option<nat>
    requires min <= max <= U32_MAX
  {
    if signals == [] then None
    else
      Larger(DesiredTotal(current, signals[..|signals| - 1], min, max),
             DesiredForMetric(current, signals[|signals| - 1], min, max))
  }

  /** `compute_desired_total`. */
  method ComputeDesiredTotal(current: nat, signals: seq<MetricSignal>, min: nat, max: nat) returns (best: Option<nat>)
    requires min <= max <= U32_MAX
    ensures best == DesiredTotal(current, signals, min, max)
  {
    best := None;
    for i := 0 to |signals|
      invariant best == DesiredTotal(current, signals[..i], min, max)
    {
      assert signals[..i + 1][..i] == signals[..i];
      var desired := DesiredForMetric(current, signals[i], min, max);
      if desired.Some? {
        best := Some(if best.None? then desired.value
                     else if best.value >= desired.value then best.value else desired.value);
      }
    }
    assert signals[..|signals|] == signals;
  }

  ghost predicate Active(signals: seq<MetricSignal>, s: MetricSignal) {
    s in signals && s.target > 0
  }

  ghost predicate AllSuffice(n: nat, current: nat, signals: seq<MetricSignal>) {
    forall s :: Active(signals, s) ==> Suffices(n, current, s)
  }

  /** `n` is the least count in [min, max] that suffices for every active metric, max if none does. */
  ghost predicate LeastSufficient(n: nat, current: nat, signals: seq<MetricSignal>, min: nat, max: nat) {
    && min <= n <= max
    && (n < max ==> AllSuffice(n, current, signals))
    && (forall m :: min <= m < n ==> !AllSuffice(m, current, signals))
  }

  lemma SufficesMonotone(m: nat, n: nat, current: nat, s: MetricSignal)
    requires m <= n && Suffices(m, current, s)
    ensures Suffices(n, current, s)
  {
    MulOrder(m, n, s.target);
  }

  /** `compute_desired_total` returns the least sufficient count, and nothing exactly when the workload
  is stopped or no metric is active. */
  lemma {:induction false} DesiredTotalIsLeast(current: nat, signals: seq<MetricSignal>, min: nat, max: nat)
    requires min <= max <= U32_MAX
    ensures DesiredTotal(current, signals, min, max).None? <==> current == 0 || forall s :: !Active(signals, s)
    ensures DesiredTotal(current, signals, min, max).Some? ==>
              LeastSufficient(DesiredTotal(current, signals, min, max).value, current, signals, min, max)
  {
    if signals != [] {
      var init, last := signals[..|signals| - 1], signals[|signals| - 1];
      DesiredTotalIsLeast(current, init, min, max);
      ActiveSnoc(init, last, signals);
      var a, b := DesiredTotal(current, init, min, max), DesiredForMetric(current, last, min, max);
      if b.Some? {
        DesiredForMetricIsLeast(current, last, min, max);
        assert Active(signals, last);
        LargerIsLeast(current, init, last, signals, min, max, a, b.value);
      } else if a.Some? {
        SameActive(a.value, current, init, signals, min, max);
      }
    }
  }

  lemma ActiveSnoc(init: seq<MetricSignal>, last: MetricSignal, signals: seq<MetricSignal>)
    requires signals != [] && init == signals[..|signals| - 1] && last == signals[|signals| - 1]
    ensures signals == init + [last]
    ensures forall s :: Active(signals, s) <==> Active(init, s) || (s == last && s.target > 0)
  {
  }

  lemma SameActive(n: nat, current: nat, a: seq<MetricSignal>, b: seq<MetricSignal>, min: nat, max: nat)
    requires forall s :: Active(a, s) <==> Active(b, s)
    requires LeastSufficient(n, current, a, min, max)
    ensures LeastSufficient(n, current, b, min, max)
  {
    forall m
      ensures AllSuffice(m, current, a) <==> AllSuffice(m, current, b)
    {
    }
  }

  lemma LargerIsLeast(current: nat, init: seq<MetricSignal>, last: MetricSignal, signals: seq<MetricSignal>,
                      min: nat, max: nat, a: Option<nat>, b: nat)
    requires signals == init + [last] && last.target > 0
    requires forall s :: Active(signals, s) <==> Active(init, s) || s == last
    requires a.None? ==> forall s :: !Active(init, s)
    requires a.Some? ==> LeastSufficient(a.value, current, init, min, max)
    requires min <= b <= max && (b < max ==> Suffices(b, current, last))
    requires forall m :: min <= m < b ==> !Suffices(m, current, last)
    ensures LeastSufficient(Larger(a, Some(b)).value, current, signals, min, max)
  {
    var n := Larger(a, Some(b)).value;
    if n < max {
      forall s | Active(signals, s)
        ensures Suffices(n, current, s)
      {
        if s == last {
          SufficesMonotone(b, n, current, s);
        } else {
          SufficesMonotone(a.value, n, current, s);
        }
      }
    }
    forall m | min <= m < n
      ensures !AllSuffice(m, current, signals)
    {
      if m < b {
        assert Active(signals, last);
      } else {
        assert !AllSuffice(m, current, init);
      }
    }
  }

  /** The order and repetition of metrics do not matter. */
  lemma DesiredTotalOrderIndependent(current: nat, a: seq<MetricSignal>, b: seq<MetricSignal>, min: nat, max: nat)
    requires min <= max <= U32_MAX
    requires forall s :: Active(a, s) <==> Active(b, s)
    ensures DesiredTotal(current, a, min, max) == DesiredTotal(current, b, min, max)
  {
    DesiredTotalIsLeast(current, a, min, max);
    DesiredTotalIsLeast(current, b, min, max);
    var x, y := DesiredTotal(current, a, min, max), DesiredTotal(current, b, min, max);
    if x.Some? && y.Some? {
      assert AllSuffice(x.value, current, a) <==> AllSuffice(x.value, current, b);
      assert AllSuffice(y.value, current, a) <==> AllSuffice(y.value, current, b);
    }
  }

  /** The load of a metric, spread over the new replica count, has not grown. */
  ghost predicate LoadNotGrown(current: nat, before: seq<MetricSignal>, n: nat, after: seq<MetricSignal>) {
    && |before| == |after|
    && forall i :: 0 <= i < |before| ==>
         before[i].target == after[i].target && n * after[i].avg <= current * before[i].avg
  }

  /** Scaling converges: re-evaluating after scaling, with the load unchanged or lower, never asks for
  more replicas. */
  lemma RescalingAsksForNoMore(current: nat, before: seq<MetricSignal>, after: seq<MetricSignal>, min: nat, max: nat)
    requires 1 <= min <= max <= U32_MAX
    requires DesiredTotal(current, before, min, max).Some?
    requires LoadNotGrown(current, before, DesiredTotal(current, before, min, max).value, after)
    ensures var n := DesiredTotal(current, before, min, max).value;
            && DesiredTotal(n, after, min, max).Some?
            && DesiredTotal(n, after, min, max).value <= n
  {
    var n := DesiredTotal(current, before, min, max).value;
    DesiredTotalIsLeast(current, before, min, max);
    DesiredTotalIsLeast(n, after, min, max);
    var s :| Active(before, s);
    var i :| 0 <= i < |before| && before[i] == s;
    assert Active(after, after[i]);
    if DesiredTotal(n, after, min, max).value > n {
      assert n < max;
      forall t | Active(after, t)
        ensures Suffices(n, n, t)
      {
        var j :| 0 <= j < |after| && after[j] == t;
        assert Active(before, before[j]);
        assert Suffices(n, current, before[j]);
      }
      assert AllSuffice(n, n, after);
      assert false;
    }
  }

  /** `within_deadband`: the change is at most ten percent of the current total. */
  predicate WithinDeadband(current: nat, desired: nat) {
    if current == 0 then false
    else
      var diff := if desired > current then desired - current else current - desired;
      diff * 100 <= current * DEADBAND_PERCENT
  }

  /** A change is ignored exactly when the desired total lies between nine and eleven tenths of the current one. */
  lemma DeadbandMeans(current: nat, desired: nat)
    ensures WithinDeadband(current, desired) <==> current > 0 && 9 * current <= 10 * desired <= 11 * current
  {
  }
}
