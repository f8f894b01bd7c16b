/** What the disruption guard protects, in a budget's own terms: the value a workload declares for a role, the replicas
it asks for and the pods that are placed. */
module Budgets {
  import opened Decimal
  import opened Records
  import opened Keys
  import opened Storage
  import opened Commands
  import opened PlacementTable
  import opened Disruption
  import opened Drain
  import opened NodeEviction
  import opened Apportion
  import opened Autoscaler
  import opened Scheduler
  import opened Preemption
  import opened PlacementRuns
  import opened PreemptionBudgets

  // ----- in a budget's own terms -----

  /** The workload's stored spec. */
  ghost predicate Declares(workloads: Table, tenant: string, workload: string, spec: WorkloadSpec) {
    var key := WorkloadKey(tenant, workload);
    key in workloads && workloads[key].WorkloadV? && workloads[key].workload.spec == Some(spec)
  }

  /** The role has a budget with a value that means something. */
  predicate Budgeted(spec: WorkloadSpec, role: string) {
    && role in spec.budgets
    && match spec.budgets[role]
       case MinAvailable(Some(v)) => Resolvable(v)
       case MaxUnavailable(Some(v)) => Resolvable(v)
       case _ => false
  }

  /** `left` pods honour the role's budget against the replicas asked for: enough are there, or few enough are
  missing. */
  predicate Honours(spec: WorkloadSpec, role: string, left: nat) {
    var desired := if role in spec.replicas then spec.replicas[role] else 0;
    role in spec.budgets ==>
      match spec.budgets[role]
      case MinAvailable(Some(v)) => Suits(v, desired, left)
      case MaxUnavailable(Some(v)) => left >= desired || Tolerated(v, desired, desired - left)
      case _ => true
  }

  /** The keys of a role's pods. */
  function RolePods(t: Table, tenant: string, workload: string, role: string): set<string> {
    set k | k in t && t[k].PlacementV? && t[k].placement.tenantId == tenant && t[k].placement.service == workload
            && t[k].placement.role == role
  }

  /** A role may lose pods: nothing is known of its workload, or what is known can be read, and there is no budget or
  what is left honours it. */
  ghost predicate MayLose(workloads: Table, t: Table, tenant: string, workload: string, role: string, count: nat) {
    var key := WorkloadKey(tenant, workload);
    key in workloads ==>
      && workloads[key].WorkloadV? && workloads[key].workload.spec.Some?
      && var spec := workloads[key].workload.spec.value;
         var had := |RolePods(t, tenant, workload, role)|;
         || role !in spec.budgets || spec.budgets[role] == NoPolicy
         || (Budgeted(spec, role) && Honours(spec, role, if had >= count then had - count else 0))
  }

  lemma SuitsMore(v: BudgetValue, desired: nat, a: nat, b: nat)
    requires Suits(v, desired, a) && a <= b
    ensures Suits(v, desired, b)
  {
  }

  lemma ToleratesFewer(v: BudgetValue, desired: nat, a: nat, b: nat)
    requires Tolerated(v, desired, a) && b <= a
    ensures Tolerated(v, desired, b)
  {
  }

  lemma {:induction false} MinAvailableHonours(v: BudgetValue, desired: nat, min: nat, k: nat)
    requires MinAvailableOf(MinAvailable(Some(v)), desired) == Some(min)
    ensures k >= min <==> Suits(v, desired, k)
  {
    hide MinAvailableOf;
    MinAvailableIsLeast(v, desired);
    if k >= min {
      SuitsMore(v, desired, min, k);
    }
  }

  lemma MaxUnavailableHonours(v: BudgetValue, desired: nat, min: nat, k: nat)
    requires MinAvailableOf(MaxUnavailable(Some(v)), desired) == Some(min)
    ensures k >= min <==> k >= desired || Tolerated(v, desired, desired - k)
  {
    hide MinAvailableOf;
    MaxUnavailableIsGreatest(v, desired);
    if min <= k < desired {
      ToleratesFewer(v, desired, desired - min, desired - k);
    }
  }

  /** The guard's minimum is the number from which on a role's pods honour its budget. */
  lemma MinimumMeans(spec: WorkloadSpec, role: string)
    ensures RoleMinimum(spec, role).Some? <==> Budgeted(spec, role)
    ensures RoleMinimum(spec, role).Some? ==>
              forall k: nat :: k >= RoleMinimum(spec, role).value <==> Honours(spec, role, k)
  {
    hide Suits, Tolerated;
    if role in spec.budgets {
      var desired := if role in spec.replicas then spec.replicas[role] else 0;
      match spec.budgets[role]
      case MinAvailable(Some(v)) =>
        MinAvailableIsLeast(v, desired);
        if Resolvable(v) {
          var min := MinAvailableOf(MinAvailable(Some(v)), desired).value;
          forall k: nat
            ensures k >= min <==> Honours(spec, role, k)
          {
            MinAvailableHonours(v, desired, min, k);
          }
        }
      case MaxUnavailable(Some(v)) =>
        MaxUnavailableIsGreatest(v, desired);
        if Resolvable(v) {
          var min := MinAvailableOf(MaxUnavailable(Some(v)), desired).value;
          forall k: nat
            ensures k >= min <==> Honours(spec, role, k)
          {
            MaxUnavailableHonours(v, desired, min, k);
          }
        }
      case _ =>
    }
  }

  lemma RolePodsAre(t: Table, g: Group)
    ensures Placed(t, g) == RolePods(t, g.tenant, g.workload, g.role)
  {
  }

  /** The guard allows a disruption exactly when the role may lose the pods; a denial means the loss would break its
  budget, or that the spec or the budget cannot be read. */
  lemma GuardMeans(workloads: Table, placements: Table, g: Group, count: nat)
    ensures AllowDisruption(workloads, placements, g, count) == Allowed
            <==> MayLose(workloads, placements, g.tenant, g.workload, g.role, count)
  {
    hide RoleMinimum, AllowDisruption, Budgeted, Honours, Placed, RolePods;
    GuardIsExact(workloads, placements, g, count);
    RolePodsAre(placements, g);
    match LookupSpec(workloads, g.tenant, g.workload)
    case Found(spec) => MinimumMeans(spec, g.role);
    case _ =>
  }

  // ----- evicting a node -----

  lemma FoundIs(workloads: Table, tenant: string, workload: string, spec: WorkloadSpec)
    ensures LookupSpec(workloads, tenant, workload) == Found(spec) <==> Declares(workloads, tenant, workload, spec)
  {
    hide WorkloadKey;
  }

  /** The pods of a role on one node. */
  function RolePodsOn(t: Table, node: string, tenant: string, workload: string, role: string): set<string> {
    set k | k in RolePods(t, tenant, workload, role) && t[k].placement.nodeId == node
  }

  /** When `evict_node` takes everything off a node without being forced: exactly when the role of every pod there can
  be typed and may lose all its pods there. */
  lemma EvictionIsAcceptedIff(typed: (string, string) -> bool, workloads: Table, t: Table, node: string)
    ensures AllAllowed(typed, workloads, t, node, GroupsOn(t, node)) <==>
              forall k :: k in t && t[k].PlacementV? && t[k].placement.nodeId == node ==>
                var p := t[k].placement;
                && typed(p.tenantId, p.role)
                && MayLose(workloads, t, p.tenantId, p.service, p.role,
                           |RolePodsOn(t, node, p.tenantId, p.service, p.role)|)
  {
    hide MayLose, RolePodsOn;
    forall k | k in t && t[k].PlacementV? && t[k].placement.nodeId == node
      ensures var p := t[k].placement;
              GroupAllowed(typed, workloads, t, node, GroupOf(p)) <==>
                typed(p.tenantId, p.role)
                && MayLose(workloads, t, p.tenantId, p.service, p.role,
                           |RolePodsOn(t, node, p.tenantId, p.service, p.role)|)
    {
      GroupMayGo(typed, workloads, t, node, GroupOf(t[k].placement));
    }
    GroupsOfPods(typed, workloads, t, node);
  }

  lemma GroupMayGo(typed: (string, string) -> bool, workloads: Table, t: Table, node: string, g: Group)
    ensures GroupAllowed(typed, workloads, t, node, g) <==>
              typed(g.tenant, g.role)
              && MayLose(workloads, t, g.tenant, g.workload, g.role,
                         |RolePodsOn(t, node, g.tenant, g.workload, g.role)|)
  {
    hide AllowDisruption, MayLose;
    assert OnNodeKeys(t, node, g) == RolePodsOn(t, node, g.tenant, g.workload, g.role);
    GuardMeans(workloads, t, g, |OnNodeKeys(t, node, g)|);
  }

  lemma GroupsOfPods(typed: (string, string) -> bool, workloads: Table, t: Table, node: string)
    ensures AllAllowed(typed, workloads, t, node, GroupsOn(t, node)) <==>
              forall k :: k in t && t[k].PlacementV? && t[k].placement.nodeId == node ==>
                GroupAllowed(typed, workloads, t, node, GroupOf(t[k].placement))
  {
    hide GroupAllowed;
    if AllAllowed(typed, workloads, t, node, GroupsOn(t, node)) {
      forall k | k in t && t[k].PlacementV? && t[k].placement.nodeId == node
        ensures GroupAllowed(typed, workloads, t, node, GroupOf(t[k].placement))
      {
        assert GroupOf(t[k].placement) in GroupsOn(t, node);
      }
    }
  }

  /** However a non-forced `evict_node` ends, and wherever its proposals stop, a budgeted role has lost nothing, or
  what is left of it honours its budget. */
  lemma EvictNodeHonoursBudgets(spiffe: string -> bool, typed: (string, string) -> bool, s: Store, node: string,
                                expiresAt: int, accepted: bool, cmds: seq<Command>, victims: seq<Placement>, n: nat,
                                end: Store, tenant: string, workload: string, role: string, spec: WorkloadSpec)
    requires KeyedByPod(s.At(Placements)) && Proposes(typed, s, node, expiresAt, accepted, cmds, victims)
    requires n <= |cmds| && Steps(spiffe, s, cmds[..n]) == Ok(end)
    requires Declares(s.At(Workloads), tenant, workload, spec) && Budgeted(spec, role)
    ensures var had := RolePods(s.At(Placements), tenant, workload, role);
            var left := RolePods(end.At(Placements), tenant, workload, role);
            left <= had && (left == had || Honours(spec, role, |left|))
  {
    hide KeyedByPod, Steps, Proposes, RoleMinimum, Budgeted, Honours, LookupSpec, Declares, Placed, RolePods;
    var g := Group(tenant, workload, role);
    FoundIs(s.At(Workloads), tenant, workload, spec);
    MinimumMeans(spec, role);
    var min := RoleMinimum(spec, role).value;
    EvictNodeKeepsBudgets(spiffe, typed, s, node, expiresAt, accepted, cmds, victims, n, end, g, spec, min);
    EvictNodeOnlyRemoves(spiffe, typed, s, node, expiresAt, accepted, cmds, victims, n, end);
    FewerPlaced(s.At(Placements), end.At(Placements), g);
    RolePodsAre(s.At(Placements), g);
    RolePodsAre(end.At(Placements), g);
    SameSize(Placed(end.At(Placements), g), Placed(s.At(Placements), g));
  }

  lemma SameSize(a: set<string>, b: set<string>)
    requires a <= b
    ensures |a| <= |b| && (|a| == |b| ==> a == b)
  {
    CardinalMinus(b, a);
    if |a| == |b| {
      assert b - a == {};
    }
  }

  lemma FewerPlaced(t: Table, t': Table, g: Group)
    requires exists ids :: t' == t - ids
    ensures Placed(t', g) <= Placed(t, g)
  {
  }

  lemma EvictNodeOnlyRemoves(spiffe: string -> bool, typed: (string, string) -> bool, s: Store, node: string,
                             expiresAt: int, accepted: bool, cmds: seq<Command>, victims: seq<Placement>, n: nat,
                             end: Store)
    requires KeyedByPod(s.At(Placements)) && Proposes(typed, s, node, expiresAt, accepted, cmds, victims)
    requires n <= |cmds| && Steps(spiffe, s, cmds[..n]) == Ok(end)
    ensures exists ids :: end.At(Placements) == s.At(Placements) - ids
  {
    hide KeyedByPod, GroupsOn, AllAllowed, Planned, PodIds, Selected, Step;
    var t := s.At(Placements);
    if !accepted {
      PartialPrefix(spiffe, s, node, victims, n);
      assert end.At(Placements) == t - PodIds(victims[..n / 2]);
    } else if n == 0 {
      assert t - {} == t;
    } else {
      assert cmds[..n] == [EvictNode(node, expiresAt)] + [];
      assert Step(spiffe, s, EvictNode(node, expiresAt)).Ok?;
      StepsHead(spiffe, s, EvictNode(node, expiresAt), [], Step(spiffe, s, EvictNode(node, expiresAt)).value);
      EvictStepRemoves(spiffe, s, node, expiresAt);
      assert end.At(Placements) == t - Selected(t, OnNode(node));
    }
  }

  lemma EvictStepRemoves(spiffe: string -> bool, s: Store, node: string, expiresAt: int)
    requires KeyedByPod(s.At(Placements)) && Step(spiffe, s, EvictNode(node, expiresAt)).Ok?
    ensures Step(spiffe, s, EvictNode(node, expiresAt)).value.At(Placements)
         == s.At(Placements) - Selected(s.At(Placements), OnNode(node))
  {
    hide EvictBatch, Commit, Selected, KeyedByPod;
    EvictRemoves(spiffe, s, node, expiresAt, Batch(spiffe, Reads(s), EvictNode(node, expiresAt)).value);
  }

  /** A partial drain takes as many of a role's pods as its budget lets go: once complete, a role that may not lose all
  its pods on the node has lost nothing if it was short already, and otherwise honours its budget with none to spare. */
  lemma DrainStopsAtBudget(spiffe: string -> bool, typed: (string, string) -> bool, s: Store, node: string,
                           victims: seq<Placement>, end: Store, tenant: string, workload: string, role: string,
                           spec: WorkloadSpec)
    requires KeyedByPod(s.At(Placements)) && Steps(spiffe, s, PartialDrain(node, victims)) == Ok(end)
    requires Planned(typed, s.At(Workloads), s.At(Placements), node, GroupsOn(s.At(Placements), node), false, victims)
    requires Declares(s.At(Workloads), tenant, workload, spec) && Budgeted(spec, role) && typed(tenant, role)
    requires RolePodsOn(s.At(Placements), node, tenant, workload, role) != {}
    requires !MayLose(s.At(Workloads), s.At(Placements), tenant, workload, role,
                      |RolePodsOn(s.At(Placements), node, tenant, workload, role)|)
    ensures var had := RolePods(s.At(Placements), tenant, workload, role);
            var left := RolePods(end.At(Placements), tenant, workload, role);
            && left <= had
            && (!Honours(spec, role, |had|) ==> left == had)
            && (Honours(spec, role, |had|) ==>
                  Honours(spec, role, |left|) && (|left| > 0 ==> !Honours(spec, role, |left| - 1)))
  {
    hide KeyedByPod, Steps, Planned, RoleMinimum, Budgeted, Honours, LookupSpec, Declares, Placed, RolePods, MayLose;
    hide PartialDrain;
    var g, t := Group(tenant, workload, role), s.At(Placements);
    FoundIs(s.At(Workloads), tenant, workload, spec);
    MinimumMeans(spec, role);
    var min, n := RoleMinimum(spec, role).value, |PartialDrain(node, victims)|;
    assert PartialDrain(node, victims)[..n] == PartialDrain(node, victims);
    PartialDrainKeepsBudget(spiffe, typed, s, node, victims, n, g, spec, min);
    PartialPrefix(spiffe, s, node, victims, n);
    FewerPlaced(t, end.At(Placements), g);
    RolePodsAre(t, g);
    RolePodsAre(end.At(Placements), g);
    SameSize(Placed(end.At(Placements), g), Placed(t, g));
    if |Placed(t, g)| >= min {
      IsDenied(typed, s, node, g, min);
    }
  }

  lemma IsDenied(typed: (string, string) -> bool, s: Store, node: string, g: Group, min: nat)
    requires typed(g.tenant, g.role) && |Placed(s.At(Placements), g)| >= min
    requires RolePodsOn(s.At(Placements), node, g.tenant, g.workload, g.role) != {}
    requires !MayLose(s.At(Workloads), s.At(Placements), g.tenant, g.workload, g.role,
                      |RolePodsOn(s.At(Placements), node, g.tenant, g.workload, g.role)|)
    ensures DeniedWithRoom(typed, s, node, g, min)
  {
    hide MayLose, GroupAllowed;
    GroupMayGo(typed, s.At(Workloads), s.At(Placements), node, g);
    var k :| k in RolePodsOn(s.At(Placements), node, g.tenant, g.workload, g.role);
    assert GroupOf(s.At(Placements)[k].placement) == g;
  }

  // ----- scaling down -----

  /** A scale-down whose shrunk roles may lose the difference leaves each of them honouring its budget, and every other
  role as it was. */
  lemma ScaleDownHonoursBudgets(s: Store, w: WorkloadRecord, spec: WorkloadSpec, after: map<string, nat>, r: string)
    requires KeyedByPod(s.At(Placements)) && OnePerSlot(s.At(Placements))
    requires Declares(s.At(Workloads), w.tenantId, w.workloadId, spec)
    requires w.spec == Some(spec.(replicas := after)) && after.Keys == spec.replicas.Keys && r in spec.replicas
    requires BelowCounts(s.At(Placements), w.tenantId, w.workloadId, spec.replicas)
    requires forall q :: q in after && after[q] < spec.replicas[q] ==>
               MayLose(s.At(Workloads), s.At(Placements), w.tenantId, w.workloadId, q, spec.replicas[q] - after[q])
    ensures var had := RolePods(s.At(Placements), w.tenantId, w.workloadId, r);
            var end := Commit(s, ScaleBatch(s.At(Placements), w));
            var left := RolePods(end.At(Placements), w.tenantId, w.workloadId, r);
            && left <= had
            && (after[r] >= spec.replicas[r] ==> left == had)
            && (after[r] < spec.replicas[r] && Budgeted(spec, r) ==> Honours(spec, r, |left|))
  {
    hide KeyedByPod, OnePerSlot, BelowCounts, Commit, ScaleBatch, MayLose, Budgeted, Honours, RoleMinimum, LookupSpec;
    hide AllowDisruption, Declares, Placed, RolePods;
    var g := Group(w.tenantId, w.workloadId, r);
    FoundIs(s.At(Workloads), w.tenantId, w.workloadId, spec);
    forall q | q in spec.replicas && after[q] < spec.replicas[q]
      ensures AllowDisruption(s.At(Workloads), s.At(Placements), Group(w.tenantId, w.workloadId, q),
                              spec.replicas[q] - after[q]) == Allowed
    {
      GuardMeans(s.At(Workloads), s.At(Placements), Group(w.tenantId, w.workloadId, q), spec.replicas[q] - after[q]);
    }
    ScaleDownKeepsBudget(s, w, spec, after, r);
    MinimumMeans(spec, r);
    RolePodsAre(s.At(Placements), g);
    RolePodsAre(Commit(s, ScaleBatch(s.At(Placements), w)).At(Placements), g);
  }

  /** Every role that would shrink can be typed and may lose the difference. */
  ghost predicate RolesMayShrink(typed: (string, string) -> bool, workloads: Table, placements: Table,
                                 spec: WorkloadSpec, after: Counts)
    requires after.Keys == spec.replicas.Keys
  {
    forall r :: r in after && after[r] < spec.replicas[r] ==>
      typed(spec.tenantId, r)
      && MayLose(workloads, placements, spec.tenantId, spec.workloadId, r, spec.replicas[r] - after[r])
  }

  lemma RolesAllowedIff(typed: (string, string) -> bool, workloads: Table, placements: Table, spec: WorkloadSpec,
                        after: Counts)
    requires after.Keys == spec.replicas.Keys
    ensures RolesAllowed(typed, workloads, placements, spec, after)
            <==> RolesMayShrink(typed, workloads, placements, spec, after)
  {
    hide MayLose, AllowDisruption;
    forall r | r in after && after[r] < spec.replicas[r]
      ensures RoleAllowed(typed, workloads, placements, spec, r, spec.replicas[r] - after[r]) <==>
                typed(spec.tenantId, r)
                && MayLose(workloads, placements, spec.tenantId, spec.workloadId, r, spec.replicas[r] - after[r])
    {
      GuardMeans(workloads, placements, Group(spec.tenantId, spec.workloadId, r), spec.replicas[r] - after[r]);
    }
  }

  /** The autoscaler proposes a scale-down exactly when the pressure has lasted for the window and every role that
  would shrink can be typed and may lose the difference. */
  lemma ShrinkIsWarrantedIff(typed: (string, string) -> bool, workloads: Table, placements: Table, spec: WorkloadSpec,
                             load: Option<Load>, markers: map<Key, int>, now: int, after: Counts)
    requires DesiredFor(spec, load).Some? && PressureOf(Total(spec.replicas), DesiredFor(spec, load).value) == Down
    requires Apportioned(spec.replicas, DesiredFor(spec, load).value, after) && after.Keys == spec.replicas.Keys
    ensures Warranted(typed, workloads, placements, spec, load, markers, now) <==>
              var key, window := (spec.tenantId, spec.workloadId), spec.autoscaling.value.stabilizationWindow;
              && (if key in markers then now - markers[key] >= window else window == 0)
              && RolesMayShrink(typed, workloads, placements, spec, after)
  {
    assert spec.autoscaling.Some?;
    hide DesiredFor, PressureOf, Apportioned, RolesAllowed, RolesMayShrink, ShrinkAllowed;
    ShrinkDecided(typed, workloads, placements, spec, DesiredFor(spec, load).value, after);
    RolesAllowedIff(typed, workloads, placements, spec, after);
  }

  // ----- preempting -----

  /** A preemption, which does not ask the guard, leaves a budgeted role other than its pod's own honouring its budget
  exactly when the role might have lost what it loses. */
  lemma PreemptionHonoursBudgetIff(spiffe: string -> bool, prio: Priority, s: Store, s': Store, pod: PendingPod,
                                   plan: Plan, tenant: string, workload: string, role: string, spec: WorkloadSpec)
    requires Preempted(spiffe, prio, s, s', pod, plan)
    requires pod.tenantId != tenant || pod.service != workload || pod.role != role
    requires Declares(s.At(Workloads), tenant, workload, spec) && Budgeted(spec, role)
    ensures var had := RolePods(s.At(Placements), tenant, workload, role);
            Honours(spec, role, |RolePods(s'.At(Placements), tenant, workload, role)|) <==>
              MayLose(s.At(Workloads), s.At(Placements), tenant, workload, role,
                      |had * (PodIds(plan.victims) + {pod.podId})|)
  {
    hide Preempted, MayLose, Budgeted, Honours, RoleMinimum, LookupSpec, AllowDisruption, Declares, Placed, RolePods;
    hide PodIds;
    var g := Group(tenant, workload, role);
    FoundIs(s.At(Workloads), tenant, workload, spec);
    MinimumMeans(spec, role);
    PreemptionKeepsBudgetIff(spiffe, prio, s, s', pod, plan, g, spec, RoleMinimum(spec, role).value);
    RolePodsAre(s.At(Placements), g);
    RolePodsAre(s'.At(Placements), g);
    GuardMeans(s.At(Workloads), s.At(Placements), g, |Lost(s.At(Placements), pod, plan, g)|);
  }
}
