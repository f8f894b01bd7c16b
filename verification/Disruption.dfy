/** Disruption budgets: the guard, and what survives of its promise once a scale-down or a node drain
is applied to the table of placements. */
module Disruption {
  import opened Decimal
  import opened Records
  import opened Keys
  import opened Storage
  import opened Commands
  import opened PlacementTable

  // ----- budgets -----

  /** `resolve_min_available`: percentages round up for the minimum kept and down for the maximum lost;
  `None` when the budget cannot be resolved. */
  function MinAvailableOf(b: Budget, desired: nat): Option<nat> {
    match b
    case NoPolicy => None
    case MinAvailable(None) => None
    case MinAvailable(Some(Count(c))) => Some(c)
    case MinAvailable(Some(Percent(p))) => if p > 100 then None else Some((desired * p + 99) / 100)
    case MaxUnavailable(None) => None
    case MaxUnavailable(Some(Count(c))) => Some(if desired >= c then desired - c else 0)
    case MaxUnavailable(Some(Percent(p))) =>
      if p > 100 then None else PercentAtMost(desired, p); Some(desired - (desired * p) / 100)
  }

  lemma PercentAtMost(desired: nat, p: nat)
    requires p <= 100
    ensures desired * p <= desired * 100
  {
  }

  /** Rounding keeps the two forms of a percentage budget complementary: losing at most p percent is
  keeping at least 100 - p percent. */
  lemma PercentDuality(desired: nat, p: nat)
    requires p <= 100
    ensures MinAvailableOf(MaxUnavailable(Some(Percent(p))), desired)
         == MinAvailableOf(MinAvailable(Some(Percent(100 - p))), desired)
  {
    PercentAtMost(desired, p);
    var x := desired * p;
    assert desired * (100 - p) == desired * 100 - x;
  }

  /** `k` pods meet a minimum-available value. */
  predicate Suits(v: BudgetValue, desired: nat, k: nat) {
    match v
    case Count(c) => k >= c
    case Percent(p) => k * 100 >= desired * p
  }

  /** Losing `k` pods stays within a maximum-unavailable value. */
  predicate Tolerated(v: BudgetValue, desired: nat, k: nat) {
    match v
    case Count(c) => k <= c
    case Percent(p) => k * 100 <= desired * p
  }

  predicate Resolvable(v: BudgetValue) {
    v.Percent? ==> v.percent <= 100
  }

  /** A minimum-available budget resolves to the least number of pods that meets it. */
  lemma MinAvailableIsLeast(v: BudgetValue, desired: nat)
    ensures MinAvailableOf(MinAvailable(Some(v)), desired).Some? <==> Resolvable(v)
    ensures MinAvailableOf(MinAvailable(Some(v)), desired).Some? ==>
              var min := MinAvailableOf(MinAvailable(Some(v)), desired).value;
              Suits(v, desired, min) && forall k: nat :: Suits(v, desired, k) ==> min <= k
  {
    if v.Percent? {
      var x := desired * v.percent;
      assert (x + 99) / 100 * 100 >= x;
    }
  }

  /** A maximum-unavailable budget resolves so that the pods that may be lost are as many as it allows. */
  lemma MaxUnavailableIsGreatest(v: BudgetValue, desired: nat)
    ensures MinAvailableOf(MaxUnavailable(Some(v)), desired).Some? <==> Resolvable(v)
    ensures MinAvailableOf(MaxUnavailable(Some(v)), desired).Some? ==>
              var min := MinAvailableOf(MaxUnavailable(Some(v)), desired).value;
              && min <= desired && Tolerated(v, desired, desired - min)
              && forall k: nat :: k <= desired && Tolerated(v, desired, k) ==> k <= desired - min
  {
    if v.Percent? && v.percent <= 100 {
      PercentAtMost(desired, v.percent);
    }
  }

  // ----- the guard -----

  /** A (tenant, workload, role). */
  datatype Group = Group(tenant: string, workload: string, role: string)

  predicate InGroup(g: Group, p: Placement) {
    p.tenantId == g.tenant && p.service == g.workload && p.role == g.role
  }

  /** The keys of a group's placements. */
  function Placed(t: Table, g: Group): set<string> {
    set k | k in t && t[k].PlacementV? && InGroup(g, t[k].placement)
  }

  datatype Verdict = Allowed | Denied(minAvailable: nat, healthy: nat, requested: nat)

  /** What the guard finds when it loads a workload's spec. */
  datatype Lookup = Missing | Broken | Found(spec: WorkloadSpec)

  function LookupSpec(workloads: Table, tenant: string, workload: string): Lookup {
    var key := WorkloadKey(tenant, workload);
    if key !in workloads then Missing
    else match workloads[key]
      case WorkloadV(w) => if w.spec.Some? then Found(w.spec.value) else Broken
      case _ => Broken
  }

  /** The role's minimum, when the workload declares a budget for it that can be resolved. */
  function RoleMinimum(spec: WorkloadSpec, role: string): Option<nat> {
    if role in spec.budgets then
      MinAvailableOf(spec.budgets[role], if role in spec.replicas then spec.replicas[role] else 0)
    else None
  }

  /** `allow_disruption`: may `count` pods of the group be disrupted? */
  function AllowDisruption(workloads: Table, placements: Table, g: Group, count: nat): Verdict {
    match LookupSpec(workloads, g.tenant, g.workload)
    case Missing => Allowed
    case Broken => Denied(0, 0, count)
    case Found(spec) =>
      if g.role !in spec.budgets || spec.budgets[g.role].NoPolicy? then Allowed
      else match RoleMinimum(spec, g.role)
        case None => Denied(0, 0, count)
        case Some(min) =>
          var healthy := |Placed(placements, g)|;
          var left := if healthy >= count then healthy - count else 0;
          if left < min then Denied(min, healthy, count) else Allowed
  }

  /** The guard answers exactly by the budget: a workload it does not know and a role without a policy may
  be disrupted at will, an unreadable spec or an unresolvable budget never, and otherwise a disruption is
  allowed exactly when it leaves the minimum. */
  lemma GuardIsExact(workloads: Table, placements: Table, g: Group, count: nat)
    ensures var allowed := AllowDisruption(workloads, placements, g, count) == Allowed;
            match LookupSpec(workloads, g.tenant, g.workload)
            case Missing => allowed
            case Broken => !allowed
            case Found(spec) =>
              if g.role !in spec.budgets || spec.budgets[g.role] == NoPolicy then allowed
              else allowed <==> RoleMinimum(spec, g.role).Some?
                                && (RoleMinimum(spec, g.role).value == 0
                                    || |Placed(placements, g)| >= count + RoleMinimum(spec, g.role).value)
  {
  }

  /** An allowed disruption of a budgeted role leaves at least the minimum. */
  lemma AllowedLeavesMinimum(workloads: Table, placements: Table, g: Group, count: nat, spec: WorkloadSpec, min: nat)
    requires LookupSpec(workloads, g.tenant, g.workload) == Found(spec) && RoleMinimum(spec, g.role) == Some(min)
    requires AllowDisruption(workloads, placements, g, count) == Allowed
    ensures min == 0 || |Placed(placements, g)| >= count + min
  {
    hide AllowDisruption;
    GuardIsExact(workloads, placements, g, count);
  }

  // ----- counting -----

  lemma CardinalMinus(a: set<string>, b: set<string>)
    requires b <= a
    ensures |a - b| == |a| - |b|
  {
    assert a == (a - b) + b;
  }

  /** Distinct ordinals in a range are at most as many as the range is long. */
  lemma {:induction false} OrdinalsInRange(t: Table, ks: set<string>, lo: nat, hi: nat)
    requires lo <= hi
    requires forall k :: k in ks ==> k in t && t[k].PlacementV? && lo <= t[k].placement.ordinal < hi
    requires forall k, l :: k in ks && l in ks && k != l ==> t[k].placement.ordinal != t[l].placement.ordinal
    ensures |ks| <= hi - lo
    decreases hi - lo
  {
    if lo == hi {
      assert ks == {};
    } else if k :| k in ks && t[k].placement.ordinal == hi - 1 {
      OrdinalsInRange(t, ks - {k}, lo, hi - 1);
    } else {
      OrdinalsInRange(t, ks, lo, hi - 1);
    }
  }

  lemma PlacedAfter(t: Table, ids: set<string>, g: Group)
    ensures Placed(t - ids, g) == Placed(t, g) - ids
  {
  }

  // ----- scaling down -----

  /** At most one placement holds a slot. */
  ghost predicate OnePerSlot(t: Table) {
    forall k, l :: k in t && l in t && k != l && t[k].PlacementV? && t[l].PlacementV? ==>
      !Occupies(t[k].placement, t[l].placement.tenantId, t[l].placement.service, t[l].placement.role,
                t[l].placement.ordinal)
  }

  /** A workload's placements lie below its stored replica counts. */
  ghost predicate BelowCounts(t: Table, tenant: string, workload: string, replicas: map<string, nat>) {
    forall k :: k in t && t[k].PlacementV? && t[k].placement.tenantId == tenant && t[k].placement.service == workload
                ==> t[k].placement.role in replicas && t[k].placement.ordinal < replicas[t[k].placement.role]
  }

  /** Scaling from `before` to `after` prunes at most the difference from each role and nothing from a
  role that does not shrink. */
  lemma PrunedAtMost(t: Table, tenant: string, workload: string, before: map<string, nat>, after: map<string, nat>,
                     r: string)
    requires OnePerSlot(t) && BelowCounts(t, tenant, workload, before)
    requires after.Keys == before.Keys && r in before
    ensures var pruned := Placed(t, Group(tenant, workload, r)) * Selected(t, BeyondReplicas(tenant, workload, after));
            |pruned| <= if after[r] < before[r] then before[r] - after[r] else 0
  {
    var g := Group(tenant, workload, r);
    var pruned := Placed(t, g) * Selected(t, BeyondReplicas(tenant, workload, after));
    forall k | k in pruned
      ensures after[r] <= t[k].placement.ordinal < before[r]
    {
      assert t[k].placement.role == r;
    }
    forall k, l | k in pruned && l in pruned && k != l
      ensures t[k].placement.ordinal != t[l].placement.ordinal
    {
      assert !Occupies(t[k].placement, t[l].placement.tenantId, t[l].placement.service, t[l].placement.role,
                       t[l].placement.ordinal);
    }
    if after[r] < before[r] {
      OrdinalsInRange(t, pruned, after[r], before[r]);
    } else {
      assert pruned == {};
    }
  }

  /** Applying a scale leaves every placement of the workload in a kept role and below its new count. */
  lemma ScaleLeavesBelowCounts(s: Store, w: WorkloadRecord)
    requires KeyedByPod(s.At(Placements))
    ensures BelowCounts(Commit(s, ScaleBatch(s.At(Placements), w)).At(Placements), w.tenantId, w.workloadId,
                        Replicas(w))
  {
    hide Commit, ScaleBatch, Replicas;
    ScalePrunes(s, w);
  }

  /** What the guard was asked before a scale-down, and answered. */
  ghost predicate GuardConsented(workloads: Table, placements: Table, tenant: string, workload: string,
                                 before: map<string, nat>, after: map<string, nat>)
    requires after.Keys == before.Keys
  {
    forall r :: r in before && after[r] < before[r] ==>
      AllowDisruption(workloads, placements, Group(tenant, workload, r), before[r] - after[r]) == Allowed
  }

  /** Pods lost per role when a table is pruned to new counts. */
  lemma ScaledTable(t: Table, tenant: string, workload: string, before: map<string, nat>, after: map<string, nat>,
                    r: string)
    requires OnePerSlot(t) && BelowCounts(t, tenant, workload, before)
    requires after.Keys == before.Keys && r in before
    ensures var g := Group(tenant, workload, r);
            var left := Placed(t - Selected(t, BeyondReplicas(tenant, workload, after)), g);
            && left <= Placed(t, g)
            && (after[r] >= before[r] ==> left == Placed(t, g))
            && (after[r] < before[r] ==> |left| + (before[r] - after[r]) >= |Placed(t, g)|)
  {
    hide OnePerSlot, BelowCounts, Selected, Placed;
    var g := Group(tenant, workload, r);
    var gone := Selected(t, BeyondReplicas(tenant, workload, after));
    PrunedAtMost(t, tenant, workload, before, after, r);
    PlacedAfter(t, gone, g);
    var pruned := Placed(t, g) * gone;
    assert Placed(t, g) - gone == Placed(t, g) - pruned;
    CardinalMinus(Placed(t, g), pruned);
  }

  /** A scale-down the guard approved, once applied, leaves every shrunk role with a resolvable budget at
  least its minimum, prunes no more than was approved, and leaves every other role as it was. */
  lemma ScaleDownKeepsBudget(s: Store, w: WorkloadRecord, spec: WorkloadSpec, after: map<string, nat>, r: string)
    requires KeyedByPod(s.At(Placements)) && OnePerSlot(s.At(Placements))
    requires LookupSpec(s.At(Workloads), w.tenantId, w.workloadId) == Found(spec)
    requires w.spec == Some(spec.(replicas := after)) && after.Keys == spec.replicas.Keys && r in spec.replicas
    requires BelowCounts(s.At(Placements), w.tenantId, w.workloadId, spec.replicas)
    requires GuardConsented(s.At(Workloads), s.At(Placements), w.tenantId, w.workloadId, spec.replicas, after)
    ensures BudgetKept(s.At(Placements), Commit(s, ScaleBatch(s.At(Placements), w)).At(Placements),
                       Group(w.tenantId, w.workloadId, r), spec.replicas[r], after[r], RoleMinimum(spec, r))
  {
    var t := s.At(Placements);
    var g := Group(w.tenantId, w.workloadId, r);
    ScalePrunes(s, w);
    ScaledTable(t, w.tenantId, w.workloadId, spec.replicas, after, r);
    if after[r] < spec.replicas[r] && RoleMinimum(spec, r).Some? {
      AllowedLeavesMinimum(s.At(Workloads), t, g, spec.replicas[r] - after[r], spec, RoleMinimum(spec, r).value);
    }
  }

  /** What a scale-down of one role from `from` to `to` owes its budget. */
  ghost predicate BudgetKept(t: Table, t': Table, g: Group, from: nat, to: nat, minimum: Option<nat>) {
    && Placed(t', g) <= Placed(t, g)
    && (to >= from ==> Placed(t', g) == Placed(t, g))
    && (to < from ==> |Placed(t', g)| + (from - to) >= |Placed(t, g)|)
    && (to < from && minimum.Some? ==> |Placed(t', g)| >= minimum.value)
  }
}
