/** The autoscaler's decision and its stabilisation window: scaling down waits until the pressure has
lasted, asks the disruption guard for every role it shrinks, and scaling up does neither. */
module Autoscaler {
  import opened Decimal
  import opened Records
  import opened Storage
  import opened Commands
  import opened PlacementTable
  import opened Disruption
  import opened Hpa
  import opened Apportion

  /** A workload: (tenant, workload). */
  type Key = (string, string)

  /** Average load of the qualifying pods, per metric. */
  datatype Load = Load(cpu: nat, memory: nat, netRx: nat, netTx: nat)

  /** What an evaluation that reached the decision saw. */
  datatype Pressure = Steady | Down | Up

  /** An evaluation of one workload that reached the decision, or a new leader starting with no markers. */
  datatype Event =
    | LeaderChange
    | Decided(key: Key, now: int, window: nat, pressure: Pressure, scaled: bool)

  function PressureOf(current: nat, desired: nat): Pressure {
    if WithinDeadband(current, desired) then Steady
    else if desired < current then Down
    else Up
  }

  /** One signal per metric with a target. */
  function Signals(policy: AutoscalingPolicy, load: Load): seq<MetricSignal> {
    (if policy.targetCpu == 0 then [] else [MetricSignal(load.cpu, policy.targetCpu)])
    + (if policy.targetMemory == 0 then [] else [MetricSignal(load.memory, policy.targetMemory)])
    + (if policy.targetNetRx == 0 then [] else [MetricSignal(load.netRx, policy.targetNetRx)])
    + (if policy.targetNetTx == 0 then [] else [MetricSignal(load.netTx, policy.targetNetTx)])
  }

  /** The bounds of a policy that can be acted on; the counts are 32-bit. */
  function Bounds(policy: AutoscalingPolicy): Option<(nat, nat)> {
    var min := if policy.minReplicas < 1 then 1 else policy.minReplicas;
    if !policy.enabled || policy.maxReplicas == 0 || min > policy.maxReplicas || policy.maxReplicas > U32_MAX then None
    else Some((min, policy.maxReplicas))
  }

  /** The total an evaluation asks for; `None` when it ends before the decision. `load` is absent when no
  placed pod of the workload has enough metric windows. */
  function DesiredFor(spec: WorkloadSpec, load: Option<Load>): Option<nat> {
    if spec.autoscaling.None? || load.None? then None
    else
      var policy := spec.autoscaling.value;
      match Bounds(policy)
      case None => None
      case Some((min, max)) => DesiredTotal(Total(spec.replicas), Signals(policy, load.value), min, max)
  }

  /** A decision is only taken for a running workload with a target, and asks for a total in range. */
  lemma DesiredInRange(spec: WorkloadSpec, load: Option<Load>)
    requires DesiredFor(spec, load).Some?
    ensures Total(spec.replicas) > 0
    ensures Bounds(spec.autoscaling.value).Some?
    ensures var bounds := Bounds(spec.autoscaling.value).value;
            bounds.0 <= DesiredFor(spec, load).value <= bounds.1
    ensures exists m :: Hpa.Active(Signals(spec.autoscaling.value, load.value), m)
  {
    var (min, max) := Bounds(spec.autoscaling.value).value;
    DesiredTotalIsLeast(Total(spec.replicas), Signals(spec.autoscaling.value, load.value), min, max);
  }

  /** `n` replicas carry the observed load of every metric the policy targets. */
  predicate CarriesLoad(policy: AutoscalingPolicy, load: Load, current: nat, n: nat) {
    && (policy.targetCpu > 0 ==> n * policy.targetCpu >= current * load.cpu)
    && (policy.targetMemory > 0 ==> n * policy.targetMemory >= current * load.memory)
    && (policy.targetNetRx > 0 ==> n * policy.targetNetRx >= current * load.netRx)
    && (policy.targetNetTx > 0 ==> n * policy.targetNetTx >= current * load.netTx)
  }

  lemma SignalsCarry(policy: AutoscalingPolicy, load: Load, current: nat, n: nat)
    ensures AllSuffice(n, current, Signals(policy, load)) <==> CarriesLoad(policy, load, current, n)
  {
    var signals := Signals(policy, load);
    var cpu, memory := MetricSignal(load.cpu, policy.targetCpu), MetricSignal(load.memory, policy.targetMemory);
    var rx, tx := MetricSignal(load.netRx, policy.targetNetRx), MetricSignal(load.netTx, policy.targetNetTx);
    assert forall s :: Hpa.Active(signals, s) <==> s.target > 0 && (s == cpu || s == memory || s == rx || s == tx) by {
      SignalsAre(policy, load, cpu, memory, rx, tx);
    }
    if AllSuffice(n, current, signals) {
      assert cpu.target > 0 ==> Hpa.Active(signals, cpu) && Suffices(n, current, cpu);
      assert memory.target > 0 ==> Hpa.Active(signals, memory) && Suffices(n, current, memory);
      assert rx.target > 0 ==> Hpa.Active(signals, rx) && Suffices(n, current, rx);
      assert tx.target > 0 ==> Hpa.Active(signals, tx) && Suffices(n, current, tx);
    }
  }

  lemma SignalsAre(policy: AutoscalingPolicy, load: Load, cpu: MetricSignal, memory: MetricSignal, rx: MetricSignal,
                   tx: MetricSignal)
    requires cpu == MetricSignal(load.cpu, policy.targetCpu) && memory == MetricSignal(load.memory, policy.targetMemory)
    requires rx == MetricSignal(load.netRx, policy.targetNetRx) && tx == MetricSignal(load.netTx, policy.targetNetTx)
    ensures forall s :: Hpa.Active(Signals(policy, load), s) <==>
              s.target > 0 && (s == cpu || s == memory || s == rx || s == tx)
  {
    var a := if policy.targetCpu == 0 then [] else [cpu];
    var b := if policy.targetMemory == 0 then [] else [memory];
    var c := if policy.targetNetRx == 0 then [] else [rx];
    var d := if policy.targetNetTx == 0 then [] else [tx];
    assert Signals(policy, load) == a + b + c + d;
    forall s
      ensures s in a + b + c + d <==> s in a || s in b || s in c || s in d
    {
    }
  }

  /** A decision asks for the least total in the policy's range that carries the load of every targeted
  metric, or for the maximum if none does. */
  lemma DecisionCarriesLoad(spec: WorkloadSpec, load: Option<Load>)
    requires DesiredFor(spec, load).Some?
    ensures Bounds(spec.autoscaling.value).Some?
    ensures var (min, max) := Bounds(spec.autoscaling.value).value;
            var n, current := DesiredFor(spec, load).value, Total(spec.replicas);
            && min <= n <= max
            && (n < max ==> CarriesLoad(spec.autoscaling.value, load.value, current, n))
            && forall m: nat :: min <= m < n ==> !CarriesLoad(spec.autoscaling.value, load.value, current, m)
  {
    hide Signals, CarriesLoad, Total, DesiredTotal;
    var policy := spec.autoscaling.value;
    var (min, max) := Bounds(policy).value;
    var n, current := DesiredFor(spec, load).value, Total(spec.replicas);
    DesiredTotalIsLeast(current, Signals(policy, load.value), min, max);
    SignalsCarry(policy, load.value, current, n);
    forall m: nat | min <= m < n
      ensures !CarriesLoad(policy, load.value, current, m)
    {
      SignalsCarry(policy, load.value, current, m);
    }
  }

  /** An evaluation presses down below nine tenths of the current total and up above eleven tenths. */
  lemma PressureMeans(current: nat, desired: nat)
    requires current > 0
    ensures PressureOf(current, desired) == Down <==> 10 * desired < 9 * current
    ensures PressureOf(current, desired) == Up <==> 10 * desired > 11 * current
  {
    DeadbandMeans(current, desired);
  }

  /** When an evaluation decides, in the policy's own terms. */
  predicate Decides(spec: WorkloadSpec, load: Option<Load>) {
    && load.Some? && Total(spec.replicas) > 0 && spec.autoscaling.Some?
    && var policy := spec.autoscaling.value;
       && policy.enabled && policy.maxReplicas > 0 && policy.minReplicas <= policy.maxReplicas
       && (policy.targetCpu > 0 || policy.targetMemory > 0 || policy.targetNetRx > 0 || policy.targetNetTx > 0)
  }

  lemma DecidesIff(spec: WorkloadSpec, load: Option<Load>)
    requires spec.autoscaling.Some? ==> spec.autoscaling.value.maxReplicas <= U32_MAX
    ensures DesiredFor(spec, load).Some? <==> Decides(spec, load)
  {
    hide Signals, DesiredTotal, Total;
    if spec.autoscaling.Some? && load.Some? && Bounds(spec.autoscaling.value).Some? {
      var policy, l := spec.autoscaling.value, load.value;
      var (min, max) := Bounds(policy).value;
      DesiredTotalIsLeast(Total(spec.replicas), Signals(policy, l), min, max);
      var cpu, memory := MetricSignal(l.cpu, policy.targetCpu), MetricSignal(l.memory, policy.targetMemory);
      var rx, tx := MetricSignal(l.netRx, policy.targetNetRx), MetricSignal(l.netTx, policy.targetNetTx);
      SignalsAre(policy, l, cpu, memory, rx, tx);
      assert Decides(spec, load) && Total(spec.replicas) > 0 ==> exists s :: Hpa.Active(Signals(policy, l), s) by {
        assert policy.targetCpu > 0 ==> Hpa.Active(Signals(policy, l), cpu);
        assert policy.targetMemory > 0 ==> Hpa.Active(Signals(policy, l), memory);
        assert policy.targetNetRx > 0 ==> Hpa.Active(Signals(policy, l), rx);
        assert policy.targetNetTx > 0 ==> Hpa.Active(Signals(policy, l), tx);
      }
    }
  }

  /** In the policy's own terms: an evaluation decides exactly when the policy is enabled and has a range and a target,
  there is a load and the workload is running; and then it asks for the least total from the larger of the policy's
  minimum and 1 up to its maximum that carries the load, or for the maximum. The counts are 32-bit. */
  lemma DecisionIsLeastInPolicy(spec: WorkloadSpec, load: Option<Load>)
    requires spec.autoscaling.Some? ==> spec.autoscaling.value.maxReplicas <= U32_MAX
    ensures DesiredFor(spec, load).Some? <==> Decides(spec, load)
    ensures DesiredFor(spec, load).Some? ==>
              var policy, n, current := spec.autoscaling.value, DesiredFor(spec, load).value, Total(spec.replicas);
              && policy.minReplicas <= n <= policy.maxReplicas && 1 <= n
              && (n < policy.maxReplicas ==> CarriesLoad(policy, load.value, current, n))
              && forall m: nat :: 1 <= m < n && policy.minReplicas <= m ==> !CarriesLoad(policy, load.value, current, m)
  {
    hide DesiredFor, CarriesLoad, Total;
    DecidesIff(spec, load);
    if DesiredFor(spec, load).Some? {
      DecisionCarriesLoad(spec, load);
    }
  }

  // ----- markers -----

  function Since(markers: map<Key, int>, key: Key, now: int): int {
    if key in markers then markers[key] else now
  }

  /** What an event does to the markers. */
  function Next(markers: map<Key, int>, e: Event): map<Key, int> {
    match e
    case LeaderChange => map[]
    case Decided(key, now, _, pressure, scaled) =>
      if pressure.Down? && !scaled then markers[key := Since(markers, key, now)] else markers - {key}
  }

  /** Scaling down is open to an event only once its marker is a window old. */
  predicate Open(markers: map<Key, int>, e: Event) {
    e.Decided? && e.pressure.Down? && e.scaled ==> e.now - Since(markers, e.key, e.now) >= e.window
  }

  class HpaController {
    /** When sustained scale-down pressure on a workload was first seen. */
    var scaleDownSince: map<Key, int>

    constructor ()
      ensures scaleDownSince == map[]
    {
      scaleDownSince := map[];
    }

    /** `evaluate_workload` from the desired total on. `accept` is whether the proposal succeeds. The
    result is the event and, when a scale was proposed, the record. */
    method EvaluateWorkload(typed: (string, string) -> bool, workloads: Table, placements: Table,
                            record: WorkloadRecord, load: Option<Load>, now: int, accept: bool)
      returns (e: Option<Event>, proposed: Option<WorkloadRecord>)
      modifies this
      ensures e.None? <==> record.spec.None? || DesiredFor(record.spec.value, load).None?
      ensures e.None? ==> scaleDownSince == old(scaleDownSince) && proposed.None?
      ensures e.Some? ==> EventOf(e.value, record.spec.value, load, now)
      ensures e.Some? ==> Open(old(scaleDownSince), e.value) && scaleDownSince == Next(old(scaleDownSince), e.value)
      ensures e.Some? ==> (proposed.Some? <==>
                            Warranted(typed, workloads, placements, record.spec.value, load, old(scaleDownSince), now))
      ensures e.Some? ==> e.value.scaled == (proposed.Some? && accept)
      ensures proposed.Some? ==>
                e.Some? && Proposal(typed, workloads, placements, record, load, e.value, proposed.value)
    {
      hide Apportioned, GuardConsented, AllowDisruption, Signals, DesiredTotal, Total, Bounds;
      hide ShrinkAllowed, RolesAllowed;
      e, proposed := None, None;
      if record.spec.None? || DesiredFor(record.spec.value, load).None? {
        return;
      }
      var spec := record.spec.value;
      DesiredInRange(spec, load);
      var desired := DesiredFor(spec, load).value;
      var current := Total(spec.replicas);
      var key := (spec.tenantId, spec.workloadId);
      var window := spec.autoscaling.value.stabilizationWindow;
      if WithinDeadband(current, desired) {
        scaleDownSince := scaleDownSince - {key};
        return Some(Decided(key, now, window, Steady, false)), None;
      }
      if desired < current {
        if key !in scaleDownSince {
          scaleDownSince := scaleDownSince[key := now];
        }
        if now - scaleDownSince[key] < window {
          return Some(Decided(key, now, window, Down, false)), None;
        }
        var replicas := DistributeReplicas(spec.replicas, desired);
        var allowed := GuardShrunkRoles(typed, workloads, placements, spec, replicas);
        ShrinkDecided(typed, workloads, placements, spec, desired, replicas);
        if !allowed {
          return Some(Decided(key, now, window, Down, false)), None;
        }
        proposed := Some(Scaled(record, replicas));
        if accept {
          scaleDownSince := scaleDownSince - {key};
        }
        return Some(Decided(key, now, window, Down, accept)), proposed;
      }
      scaleDownSince := scaleDownSince - {key};
      var replicas := DistributeReplicas(spec.replicas, desired);
      proposed := Some(Scaled(record, replicas));
      return Some(Decided(key, now, window, Up, accept)), proposed;
    }
  }

  /** Every role that would shrink can be typed and may lose that many pods. */
  ghost predicate RolesAllowed(typed: (string, string) -> bool, workloads: Table, placements: Table, spec: WorkloadSpec,
                               after: Counts)
    requires after.Keys == spec.replicas.Keys
  {
    forall r :: r in after && after[r] < spec.replicas[r] ==>
      RoleAllowed(typed, workloads, placements, spec, r, spec.replicas[r] - after[r])
  }

  /** The guard lets the workload shrink to `desired` in all. */
  ghost predicate ShrinkAllowed(typed: (string, string) -> bool, workloads: Table, placements: Table,
                                spec: WorkloadSpec, desired: nat)
  {
    exists after ::
      Apportioned(spec.replicas, desired, after) && RolesAllowed(typed, workloads, placements, spec, after)
  }

  /** When an evaluation has to propose: at once under pressure to grow, and under pressure to shrink once it
  has lasted for the window and the guard allows it. */
  ghost predicate Warranted(typed: (string, string) -> bool, workloads: Table, placements: Table, spec: WorkloadSpec,
                            load: Option<Load>, markers: map<Key, int>, now: int)
  {
    && DesiredFor(spec, load).Some?
    && var desired := DesiredFor(spec, load).value;
       match PressureOf(Total(spec.replicas), desired)
       case Steady => false
       case Up => true
       case Down =>
         && now - Since(markers, (spec.tenantId, spec.workloadId), now) >= spec.autoscaling.value.stabilizationWindow
         && ShrinkAllowed(typed, workloads, placements, spec, desired)
  }

  /** There is one way to shrink, so the guard's answers for it decide. */
  lemma ShrinkDecided(typed: (string, string) -> bool, workloads: Table, placements: Table, spec: WorkloadSpec,
                      desired: nat, after: Counts)
    requires Apportioned(spec.replicas, desired, after) && after.Keys == spec.replicas.Keys
    ensures ShrinkAllowed(typed, workloads, placements, spec, desired)
            <==> RolesAllowed(typed, workloads, placements, spec, after)
  {
    hide RolesAllowed;
    if other :| Apportioned(spec.replicas, desired, other) && RolesAllowed(typed, workloads, placements, spec, other) {
      ApportionedUnique(spec.replicas, desired, after, other);
    }
  }

  /** The record `propose_scale` sends. */
  function Scaled(record: WorkloadRecord, replicas: Counts): WorkloadRecord
    requires record.spec.Some?
  {
    WorkloadRecord(record.tenantId, record.workloadId, Some(record.spec.value.(replicas := replicas)), "")
  }

  ghost predicate EventOf(e: Event, spec: WorkloadSpec, load: Option<Load>, now: int) {
    && DesiredFor(spec, load).Some? && e.Decided?
    && e.key == (spec.tenantId, spec.workloadId) && e.now == now
    && e.window == spec.autoscaling.value.stabilizationWindow
    && e.pressure == PressureOf(Total(spec.replicas), DesiredFor(spec, load).value)
  }

  /** What a proposal promises: the desired total apportioned over the roles, in the direction of the
  pressure, and approved by the guard if it shrinks anything. */
  ghost predicate Proposal(typed: (string, string) -> bool, workloads: Table, placements: Table, record: WorkloadRecord,
                           load: Option<Load>, e: Event, proposed: WorkloadRecord)
  {
    && record.spec.Some? && e.Decided? && DesiredFor(record.spec.value, load).Some?
    && var spec := record.spec.value;
       exists replicas ::
         && proposed == Scaled(record, replicas)
         && Apportioned(spec.replicas, DesiredFor(spec, load).value, replicas)
         && !e.pressure.Steady?
         && (e.pressure.Down? ==>
              GuardConsented(workloads, placements, spec.tenantId, spec.workloadId, spec.replicas, replicas))
  }

  /** A proposal asks for nothing but other replica counts, which add up to the desired total. */
  lemma ProposalChangesReplicas(typed: (string, string) -> bool, workloads: Table, placements: Table,
                                record: WorkloadRecord, load: Option<Load>, e: Event, proposed: WorkloadRecord)
    requires Proposal(typed, workloads, placements, record, load, e, proposed)
    ensures proposed.tenantId == record.tenantId && proposed.workloadId == record.workloadId
    ensures proposed.lastApplied == ""
    ensures proposed.spec.Some? && record.spec.Some?
    ensures proposed.spec.value == record.spec.value.(replicas := proposed.spec.value.replicas)
    ensures Total(proposed.spec.value.replicas) == DesiredFor(record.spec.value, load).value
  {
    hide DesiredFor, GuardConsented, Total;
  }

  /** Ask the guard about every role that would shrink; a tenant or role that cannot be typed blocks. */
  method GuardShrunkRoles(typed: (string, string) -> bool, workloads: Table, placements: Table, spec: WorkloadSpec,
                          after: Counts) returns (allowed: bool)
    requires after.Keys == spec.replicas.Keys
    ensures allowed <==> RolesAllowed(typed, workloads, placements, spec, after)
    ensures allowed ==> GuardConsented(workloads, placements, spec.tenantId, spec.workloadId, spec.replicas, after)
  {
    hide AllowDisruption;
    var todo := after.Keys;
    while todo != {}
      invariant todo <= after.Keys
      invariant forall r :: r in after && r !in todo && after[r] < spec.replicas[r] ==>
                  RoleAllowed(typed, workloads, placements, spec, r, spec.replicas[r] - after[r])
      decreases todo
    {
      var r :| r in todo;
      if after[r] < spec.replicas[r]
         && !RoleAllowed(typed, workloads, placements, spec, r, spec.replicas[r] - after[r]) {
        return false;
      }
      todo := todo - {r};
    }
    return true;
  }

  predicate RoleAllowed(typed: (string, string) -> bool, workloads: Table, placements: Table, spec: WorkloadSpec,
                        role: string, count: nat)
  {
    && typed(spec.tenantId, role)
    && AllowDisruption(workloads, placements, Group(spec.tenantId, spec.workloadId, role), count) == Allowed
  }

  // ----- runs -----

  /** The markers after a history. */
  function Markers(h: seq<Event>): map<Key, int> {
    if h == [] then map[] else Next(Markers(h[..|h| - 1]), h[|h| - 1])
  }

  /** A history the controller can produce. */
  ghost predicate History(h: seq<Event>) {
    forall i :: 0 <= i < |h| ==> Open(Markers(h[..i]), h[i])
  }

  /** From `i` up to `n` every evaluation of the workload saw scale-down pressure, and none scaled. */
  ghost predicate PressureSince(h: seq<Event>, key: Key, i: nat, n: nat)
    requires n <= |h|
  {
    && i < n && h[i].Decided? && h[i].key == key
    && forall j :: i <= j < n ==> h[j].Decided? && (h[j].key == key ==> h[j].pressure.Down? && !h[j].scaled)
  }

  /** A marker records the start of a stretch of uninterrupted pressure. */
  lemma {:induction false} MarkerMeans(h: seq<Event>, key: Key)
    requires key in Markers(h)
    ensures exists i: nat :: PressureSince(h, key, i, |h|) && h[i].now == Markers(h)[key]
  {
    var init, e := h[..|h| - 1], h[|h| - 1];
    if e.Decided? && e.key == key && key !in Markers(init) {
      assert PressureSince(h, key, |h| - 1, |h|);
    } else {
      MarkerMeans(init, key);
      var i: nat :| PressureSince(init, key, i, |init|) && init[i].now == Markers(init)[key];
      assert PressureSince(h, key, i, |h|);
    }
  }

  lemma PressureInPrefix(h: seq<Event>, key: Key, i: nat, n: nat)
    requires n <= |h| && PressureSince(h[..n], key, i, n)
    ensures PressureSince(h, key, i, n)
  {
    forall j | i <= j < n
      ensures h[j].Decided? && (h[j].key == key ==> h[j].pressure.Down? && !h[j].scaled)
    {
      assert h[..n][j] == h[j];
    }
  }

  /** The pressure behind the scale-down at `n` was first seen at `i`, a window or more earlier. */
  ghost predicate Sustained(h: seq<Event>, n: nat, i: nat)
    requires n < |h| && h[n].Decided?
  {
    && (i == n || PressureSince(h, h[n].key, i, n))
    && h[i].now <= h[n].now - h[n].window
  }

  /** A scale-down at `now` was preceded, a whole window earlier, by an evaluation that saw scale-down
  pressure, and every evaluation of the workload since then saw it too. */
  lemma ScaleDownWasSustained(h: seq<Event>, n: nat)
    requires History(h) && n < |h| && h[n].Decided? && h[n].pressure.Down? && h[n].scaled
    ensures exists i: nat :: Sustained(h, n, i)
  {
    var markers, key := Markers(h[..n]), h[n].key;
    assert Open(markers, h[n]);
    if key in markers {
      MarkerMeans(h[..n], key);
      var i: nat :| PressureSince(h[..n], key, i, n) && h[..n][i].now == markers[key];
      PressureInPrefix(h, key, i, n);
      assert Sustained(h, n, i);
    } else {
      assert Sustained(h, n, n);
    }
  }

  ghost predicate MonotoneClock(h: seq<Event>) {
    forall i, j :: 0 <= i < j < |h| && h[i].Decided? && h[j].Decided? ==> h[i].now <= h[j].now
  }

  /** With a monotone clock, scale-downs of one workload are at least a window apart. */
  lemma ScaleDownsAreSpaced(h: seq<Event>, m: nat, n: nat)
    requires History(h) && MonotoneClock(h) && m < n < |h|
    requires h[m].Decided? && h[m].pressure.Down? && h[m].scaled
    requires h[n].Decided? && h[n].pressure.Down? && h[n].scaled && h[n].key == h[m].key
    ensures h[n].now - h[m].now >= h[n].window
  {
    ScaleDownWasSustained(h, n);
    var i: nat :| Sustained(h, n, i);
    assert m < i;
  }

  // ----- what a proposal does once applied -----

  /** An approved scale-down, applied to the state it was decided on, keeps the budget of every role. */
  lemma AutoscalerKeepsBudget(typed: (string, string) -> bool, s: Store, record: WorkloadRecord, load: Option<Load>,
                              e: Event, proposed: WorkloadRecord, r: string)
    requires KeyedByPod(s.At(Placements)) && OnePerSlot(s.At(Placements))
    requires Proposal(typed, s.At(Workloads), s.At(Placements), record, load, e, proposed) && e.pressure.Down?
    requires var spec := record.spec.value;
             && LookupSpec(s.At(Workloads), record.tenantId, record.workloadId) == Found(spec)
             && spec.tenantId == record.tenantId && spec.workloadId == record.workloadId
             && BelowCounts(s.At(Placements), spec.tenantId, spec.workloadId, spec.replicas)
             && r in spec.replicas
    ensures proposed.spec.Some? && r in proposed.spec.value.replicas
    ensures BudgetKept(s.At(Placements), Commit(s, ScaleBatch(s.At(Placements), proposed)).At(Placements),
                       Group(record.tenantId, record.workloadId, r), record.spec.value.replicas[r],
                       proposed.spec.value.replicas[r], RoleMinimum(record.spec.value, r))
  {
    hide GuardConsented, BudgetKept, LookupSpec, BelowCounts, OnePerSlot, KeyedByPod, DesiredFor, RoleMinimum,
      ScaleBatch, Commit;
    var spec := record.spec.value;
    var replicas :| proposed == Scaled(record, replicas)
                    && Apportioned(spec.replicas, DesiredFor(spec, load).value, replicas)
                    && GuardConsented(s.At(Workloads), s.At(Placements), spec.tenantId, spec.workloadId, spec.replicas,
                                      replicas);
    ScaleDownKeepsBudget(s, proposed, spec, replicas, r);
  }

  /** Scaling up removes no placement at all, which is why it may skip the guard. */
  lemma ScaleUpRemovesNothing(s: Store, record: WorkloadRecord, desired: nat, replicas: Counts)
    requires KeyedByPod(s.At(Placements)) && record.spec.Some?
    requires Apportioned(record.spec.value.replicas, desired, replicas) && desired >= Total(record.spec.value.replicas)
    requires BelowCounts(s.At(Placements), record.tenantId, record.workloadId, record.spec.value.replicas)
    ensures Commit(s, ScaleBatch(s.At(Placements), Scaled(record, replicas))).At(Placements) == s.At(Placements)
  {
    hide Commit, ScaleBatch, Apportioned;
    var t := s.At(Placements);
    ScalePrunes(s, Scaled(record, replicas));
    forall r | r in record.spec.value.replicas
      ensures r in replicas && replicas[r] >= record.spec.value.replicas[r]
    {
      ApportionedMonotone(record.spec.value.replicas, desired, replicas, r);
      ApportionedRoles(record.spec.value.replicas, desired, replicas);
    }
    assert Selected(t, BeyondReplicas(record.tenantId, record.workloadId, replicas)) == {};
  }

  lemma ApportionedRoles(m: Counts, desired: nat, out: Counts)
    requires Apportioned(m, desired, out)
    ensures out.Keys == m.Keys
  {
  }
}
