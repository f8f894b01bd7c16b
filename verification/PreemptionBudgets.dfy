/** What a preemption does to disruption budgets. Preemption does not ask the guard; it keeps a group's minimum
exactly when the guard would have allowed the loss. */
module PreemptionBudgets {
  import opened Decimal
  import opened Records
  import opened Storage
  import opened Commands
  import opened PlacementTable
  import opened TableSums
  import opened Disruption
  import opened Drain
  import opened Cluster
  import opened Scheduler
  import opened Preemption
  import opened PlacementRuns

  /** The placements a group loses: victims, and one whose name the new pod takes. */
  function Lost(t: Table, pod: PendingPod, plan: Plan, g: Group): set<string> {
    Placed(t, g) * (PodIds(plan.victims) + {pod.podId})
  }

  predicate Gains(pod: PendingPod, plan: Plan, g: Group) {
    InGroup(g, PlacementFor(pod, plan.nodeId))
  }

  lemma PlacedAfterSwap(t: Table, pod: PendingPod, plan: Plan, g: Group)
    ensures var after := (t - PodIds(plan.victims))[pod.podId := PlacementV(PlacementFor(pod, plan.nodeId))];
            |Placed(after, g)| == |Placed(t, g)| - |Lost(t, pod, plan, g)| + if Gains(pod, plan, g) then 1 else 0
  {
    hide PodIds, Placed;
    var ids, name := PodIds(plan.victims), pod.podId;
    PlacedAfter(t, ids, g);
    PlacedAfterPut(t - ids, PlacementFor(pod, plan.nodeId), g);
    CardinalMinus(Placed(t, g), Lost(t, pod, plan, g));
    assert Placed(t, g) - ids - {name} == Placed(t, g) - Lost(t, pod, plan, g);
  }

  lemma PlacedAfterPut(t: Table, p: Placement, g: Group)
    ensures Placed(t[p.podId := PlacementV(p)], g) == Placed(t, g) - {p.podId} + if InGroup(g, p) then {p.podId} else {}
  {
  }

  /** A preemption leaves a group a minimum exactly when the group loses no more than it has to spare, its own new
  pod counted in. */
  lemma PreemptionKeepsMinimumIff(spiffe: string -> bool, prio: Priority, s: Store, s': Store, pod: PendingPod,
                                  plan: Plan, g: Group, min: nat)
    requires Preempted(spiffe, prio, s, s', pod, plan)
    ensures |Placed(s'.At(Placements), g)| >= min <==>
              |Lost(s.At(Placements), pod, plan, g)|
                <= |Placed(s.At(Placements), g)| + (if Gains(pod, plan, g) then 1 else 0) - min
  {
    hide Steps, Cheapest, Placed, Lost;
    PreemptEffect(spiffe, s, pod, plan);
    PlacedAfterSwap(s.At(Placements), pod, plan, g);
  }

  /** A preemption leaves another group than its pod's own its budgeted minimum exactly when the guard, had it been
  asked, would have allowed the loss. */
  lemma PreemptionKeepsBudgetIff(spiffe: string -> bool, prio: Priority, s: Store, s': Store, pod: PendingPod,
                                 plan: Plan, g: Group, spec: WorkloadSpec, min: nat)
    requires Preempted(spiffe, prio, s, s', pod, plan) && !Gains(pod, plan, g)
    requires LookupSpec(s.At(Workloads), g.tenant, g.workload) == Found(spec) && RoleMinimum(spec, g.role) == Some(min)
    ensures |Placed(s'.At(Placements), g)| >= min <==>
              AllowDisruption(s.At(Workloads), s.At(Placements), g, |Lost(s.At(Placements), pod, plan, g)|) == Allowed
  {
    hide Preempted, Placed, Lost, AllowDisruption;
    PreemptionKeepsMinimumIff(spiffe, prio, s, s', pod, plan, g, min);
    GuardIsExact(s.At(Workloads), s.At(Placements), g, |Lost(s.At(Placements), pod, plan, g)|);
  }

  lemma {:induction false} MembersAre(ps: seq<Placement>, g: Group)
    requires DistinctPods(ps)
    ensures DistinctPods(Members(ps, g))
    ensures forall p :: p in Members(ps, g) <==> p in ps && InGroup(g, p)
  {
    if ps != [] {
      var init, last := ps[..|ps| - 1], ps[|ps| - 1];
      assert ps == init + [last];
      MembersAre(init, g);
      forall i | 0 <= i < |Members(init, g)|
        ensures Members(init, g)[i].podId != last.podId
      {
        assert Members(init, g)[i] in init;
      }
    }
  }

  /** Where the pod's name is new, the group loses as many placements as it has victims. */
  lemma LostAreVictims(spiffe: string -> bool, prio: Priority, s: Store, s': Store, pod: PendingPod, plan: Plan,
                       g: Group)
    requires KeyedByPod(s.At(Placements)) && Preempted(spiffe, prio, s, s', pod, plan) && pod.podId !in s.At(Placements)
    ensures |Lost(s.At(Placements), pod, plan, g)| == |Members(plan.victims, g)|
  {
    hide Steps, PlanOf, Cheaper, ListPlacements, ListNodes, Views;
    var t, members := s.At(Placements), Members(plan.victims, g);
    var node :| node in ViewOf(spiffe, s).nodes && PlanOf(prio, pod, ViewOf(spiffe, s).placements, node, plan);
    VictimsStoredOnce(spiffe, prio, s, pod, node, plan);
    LostIds(t, pod, plan, g);
    PodCount(members);
  }

  lemma LostIds(t: Table, pod: PendingPod, plan: Plan, g: Group)
    requires StoredOnce(t, plan.victims) && pod.podId !in t
    ensures DistinctPods(Members(plan.victims, g)) && Lost(t, pod, plan, g) == PodIds(Members(plan.victims, g))
  {
    var members := Members(plan.victims, g);
    MembersAre(plan.victims, g);
    forall k
      ensures k in Lost(t, pod, plan, g) <==> k in PodIds(members)
    {
      if k in Lost(t, pod, plan, g) {
        var i :| 0 <= i < |plan.victims| && plan.victims[i].podId == k;
        assert plan.victims[i] in members;
      }
      if k in PodIds(members) {
        var i :| 0 <= i < |members| && members[i].podId == k;
        assert members[i] in plan.victims;
      }
    }
  }
}
