/** Concrete passes over the specs of two tenants, in which pods share a name or a budget is not asked. */
module NameExamples {
  import opened Decimal
  import opened Records
  import opened Keys
  import opened Storage
  import opened Commands
  import opened TableSums
  import opened PlacementTable
  import opened Disruption
  import opened Cluster
  import opened Scheduler
  import opened Preemption
  import opened PlacementRuns
  import opened Slots
  import opened Pods
  import opened Passes
  import opened Swaps
  import opened Reconcile
  import opened PassExamples

  const WEB := Slot("web", 0)

  /** A workload called db of each of two tenants; the second must keep one pod. */
  const MINE := WorkloadSpec("acme", "db", "", map["web" := 1], None, 0, None, map[], "")
  const THEIRS := WorkloadSpec("zeta", "db", "", map["web" := 1], None, 0, None,
                               map["web" := MinAvailable(Some(Count(1)))], "")

  /** A workload that ranks above both and asks for a whole node. */
  const CACHE := WorkloadSpec("acme", "cache", "", map["web" := 1],
                              Some(PodSpec(Some(PodResources(1, 1024)), map[], map[], 5, [], "")), 0, None, map[], "")

  lemma SameName()
    ensures PodFor(MINE, WEB).podId == PodFor(THEIRS, WEB).podId
    ensures PodFor(CACHE, WEB).podId != PodFor(THEIRS, WEB).podId
  {
    assert PodFor(CACHE, WEB).podId[0] == 'c' && PodFor(THEIRS, WEB).podId[0] == 'd';
  }

  // ----- two pods of one name -----

  lemma IsPendingWhenIdle(spec: WorkloadSpec)
    requires spec.replicas == map["web" := 1]
    ensures PassSchedules(spec, map[], [WEB])
  {
    hide RecordKey;
    forall x: Slot
      ensures x in [WEB] <==> IsPending(spec, map[], x)
    {
      if x == WEB {
        assert [WEB][0] == x;
      }
    }
  }

  /** A concrete pass that loses a pod it has placed: the pods of both tenants are called db-web-0, so the second is
  stored in place of the first. */
  lemma PassCanLosePod() returns (ds: seq<Decision>)
    ensures PassSchedules(MINE, Idle(TWO_PODS).At(Ordinals), [WEB])
    ensures PassSchedules(THEIRS, Idle(TWO_PODS).At(Ordinals), [WEB])
    ensures |ds| == 2 && ds[0].pod == PodFor(MINE, WEB) && ds[1].pod == PodFor(THEIRS, WEB)
    ensures forall i :: 0 <= i < 2 ==> Best(DEFAULT, ds[i].pod, ViewOf(Any(), Idle(TWO_PODS)), ds[i].node)
    ensures Steps(Any(), Idle(TWO_PODS), ReconcileCommands(ds, [])).Ok?
    ensures var end := Steps(Any(), Idle(TWO_PODS), ReconcileCommands(ds, [])).value;
            !IsStored(end.At(Placements), PlacementFor(ds[0].pod, ds[0].node.nodeId))
  {
    hide Best, ViewOf, PassSchedules, Steps, ReconcileCommands, PodName, SwapAll, PutAll, Survivors, Touched;
    var s := Idle(TWO_PODS);
    assert s.At(Ordinals) == map[];
    IsPendingWhenIdle(MINE);
    IsPendingWhenIdle(THEIRS);
    var m := IdleNodeIsBest(TWO_PODS, PodFor(MINE, WEB));
    var n := IdleNodeIsBest(TWO_PODS, PodFor(THEIRS, WEB));
    ds := [Decision(PodFor(MINE, WEB), m), Decision(PodFor(THEIRS, WEB), n)];
    SameName();
    ReconcileEffect(Any(), s, ds, []);
    var ws := InTurn(ds, []);
    PodIsKeptIff(s.At(Placements), ws, 0);
    assert ws[0].pod.podId in TouchedBy(ws[1]) && PlacementOf(ws[1]) != PlacementOf(ws[0]);
  }

  // ----- a victim of the same name -----

  function Held(): Placement {
    PlacementFor(PodFor(THEIRS, WEB), AGENT)
  }

  function HeldOrdinal(): OrdinalAssignment {
    OrdinalAssignment("zeta", "db", "web", 0, Some(Held().podId), Some(AGENT))
  }

  /** One node with room for two pods holds the other tenant's. */
  function Hosted(): Store {
    Store(map[Nodes := map[AGENT := NodeV(Agent(TWO_PODS))],
              Placements := map[Held().podId := PlacementV(Held())],
              Ordinals := map[OrdinalKey("zeta", "db", "web", 0) := OrdinalV(HeldOrdinal())],
              Workloads := map[WorkloadKey("zeta", "db") := WorkloadV(WorkloadRecord("zeta", "db", Some(THEIRS), ""))]])
  }

  function Ranking(): Priority {
    PriorityOf([MINE, CACHE, THEIRS])
  }

  lemma RankingIs()
    ensures Ranking()(Held()) == 0 && PodFor(CACHE, WEB).priority == 5
  {
    PriorityOfMember([MINE, CACHE, THEIRS], 2, Held());
  }

  lemma IsPendingBeside(spec: WorkloadSpec)
    requires spec.replicas == map["web" := 1] && spec.tenantId == "acme"
    ensures PassSchedules(spec, Hosted().At(Ordinals), [WEB])
  {
    hide PodName;
    assert RecordKey(spec, WEB)[0] == 'a' && OrdinalKey("zeta", "db", "web", 0)[0] == 'z';
    forall x: Slot
      ensures x in [WEB] <==> IsPending(spec, Hosted().At(Ordinals), x)
    {
      if x == WEB {
        assert [WEB][0] == x;
      }
    }
  }

  lemma HostedUses()
    ensures Used(ListPlacements(Hosted().At(Placements)), AGENT) == ONE_POD
  {
    hide ListPlacements, PodName;
    var none: Table := map[];
    EmptyList();
    assert PutAll(none, [Held()]) == none[Held().podId := PlacementV(Held())] by {
      assert [Held()][..0] == [];
    }
    UsedAfterAll(none, [Held()], AGENT);
  }

  lemma HostedIsSound()
    ensures Sound(Hosted())
  {
    hide ListPlacements, PodName, Used;
    HostedUses();
  }

  lemma HostedNode() returns (node: NodeInfo)
    ensures node in ViewOf(Any(), Hosted()).nodes && node.nodeId == AGENT && node.available == ONE_POD
    ensures node.schedulable && node.taints == []
  {
    hide ListNodes, Views, Used, ListPlacements, PodName;
    HostedUses();
    node := NodeView(Agent(TWO_PODS), ListPlacements(Hosted().At(Placements)), TaintMap(Hosted().At(NodeTaints)));
    NodeInView(Any(), Hosted(), AGENT);
  }

  lemma MineIsTaken() returns (node: NodeInfo)
    ensures Best(DEFAULT, PodFor(MINE, WEB), ViewOf(Any(), Hosted()), node) && node.nodeId == AGENT
  {
    hide ViewOf, PodName, Rank;
    node := HostedNode();
    assert Candidate(DEFAULT, PodFor(MINE, WEB), node, ViewOf(Any(), Hosted()));
    OnlyNodeIsBest(DEFAULT, PodFor(MINE, WEB), Hosted(), node);
  }

  lemma CacheIsRefused(n: NodeInfo)
    requires n in ViewOf(Any(), Hosted()).nodes
    ensures !Candidate(DEFAULT, PodFor(CACHE, WEB), n, ViewOf(Any(), Hosted()))
  {
    hide ListNodes, Views, ListPlacements, PodName, Used;
    HostedUses();
    NodeOfView(Any(), Hosted(), n);
  }

  lemma HeldIsListed(p: Placement)
    ensures p in ViewOf(Any(), Hosted()).placements <==> p == Held()
  {
    hide ListPlacements, Views, PodName;
    Listed(Hosted().At(Placements), p);
    assert Hosted().At(Placements)[Held().podId] == PlacementV(Held());
  }

  /** Room for the cache is made by evicting the other tenant's pod. */
  lemma CacheHasPlan() returns (plan: Plan)
    ensures plan.nodeId == AGENT && Held() in plan.victims
    ensures Cheapest(Ranking(), PodFor(CACHE, WEB), ViewOf(Any(), Hosted()), plan)
  {
    hide ViewOf, PlanOf, PodName, PriorityOf, Cheapest;
    var pod := PodFor(CACHE, WEB);
    var node := HostedNode();
    RankingIs();
    HeldIsListed(Held());
    var ps := ViewOf(Any(), Hosted()).placements;
    SumAtLeast(ps, Held(), LowerOn(Ranking(), pod, AGENT, Cpu));
    SumAtLeast(ps, Held(), LowerOn(Ranking(), pod, AGENT, Memory));
    PlanExists(Ranking(), pod, ps, node);
    plan :| PlanOf(Ranking(), pod, ps, node, plan);
    PlanNodeId(Ranking(), pod, ps, node, plan);
    NeedsVictim(Ranking(), pod, ps, node, plan);
    VictimsAreLower(Ranking(), pod, ps, node, plan, plan.victims[0]);
    HeldIsListed(plan.victims[0]);
    OnlyPlanIsCheapest(Any(), Ranking(), Hosted(), AGENT, pod, node, plan);
  }

  lemma NeedsVictim(prio: Priority, pod: PendingPod, ps: seq<Placement>, node: NodeInfo, plan: Plan)
    requires PlanOf(prio, pod, ps, node, plan) && !FitsWithin(pod.resources, node.available)
    ensures plan.victims != []
  {
    hide Eligible;
  }

  /** A concrete pass that deletes a pod it has just placed: the cache evicts the other tenant's db-web-0, and by then
  that is the name of the pod of this tenant's. */
  lemma PassCanRemoveOwnPod() returns (d: Decision, w: Swap)
    ensures Sound(Hosted()) && d.pod == PodFor(MINE, WEB) && w.pod == PodFor(CACHE, WEB)
    ensures forall spec :: spec in {MINE, CACHE} ==> PassSchedules(spec, Hosted().At(Ordinals), [WEB])
    ensures DecidedOn(Any(), DEFAULT, Ranking(), Hosted(), [d], [w])
    ensures forall n :: n in ViewOf(Any(), Hosted()).nodes ==> !Candidate(DEFAULT, w.pod, n, ViewOf(Any(), Hosted()))
    ensures Steps(Any(), Hosted(), ReconcileCommands([d], [w])).Ok?
    ensures var end := Steps(Any(), Hosted(), ReconcileCommands([d], [w])).value;
            d.pod.podId !in end.At(Placements)
  {
    hide Best, Cheapest, ViewOf, PassSchedules, Steps, ReconcileCommands, PodName, Candidate, Sound, PriorityOf;
    HostedIsSound();
    IsPendingBeside(MINE);
    IsPendingBeside(CACHE);
    SameName();
    var node := MineIsTaken();
    var plan := CacheHasPlan();
    d, w := Decision(PodFor(MINE, WEB), node), Swap(PodFor(CACHE, WEB), plan);
    forall n | n in ViewOf(Any(), Hosted()).nodes
      ensures !Candidate(DEFAULT, w.pod, n, ViewOf(Any(), Hosted()))
    {
      CacheIsRefused(n);
    }
    ReconcileEffect(Any(), Hosted(), [d], [w]);
    SwapIsLast(Hosted().At(Placements), d, w);
    assert Held().podId in PodIds(plan.victims);
  }

  lemma SwapIsLast(t: Table, d: Decision, w: Swap)
    ensures SwapAll(t, InTurn([d], [w]))
         == (SwapAll(t, Outright([d])) - PodIds(w.plan.victims))[w.pod.podId := PlacementV(PlacementOf(w))]
  {
    hide PodIds;
    assert InTurn([d], [w])[..1] == Outright([d]);
  }

  // ----- a budget that is not asked -----

  /** A concrete preemption that breaks a budget the guard would have kept. */
  lemma PreemptionCanBreakBudget() returns (s': Store, plan: Plan)
    ensures Sound(Hosted()) && Preempted(Any(), Ranking(), Hosted(), s', PodFor(CACHE, WEB), plan)
    ensures LookupSpec(Hosted().At(Workloads), "zeta", "db") == Found(THEIRS) && RoleMinimum(THEIRS, "web") == Some(1)
    ensures |Placed(Hosted().At(Placements), Group("zeta", "db", "web"))| == 1
    ensures |Placed(s'.At(Placements), Group("zeta", "db", "web"))| == 0
    ensures AllowDisruption(Hosted().At(Workloads), Hosted().At(Placements), Group("zeta", "db", "web"), 1) != Allowed
  {
    hide Cheapest, ViewOf, Steps, PreemptCommands, PodName, Sound, PriorityOf;
    var g, pod := Group("zeta", "db", "web"), PodFor(CACHE, WEB);
    HostedIsSound();
    plan := CacheHasPlan();
    PreemptEffect(Any(), Hosted(), pod, plan);
    s' := Steps(Any(), Hosted(), PreemptCommands(pod, plan)).value;
    assert Placed(Hosted().At(Placements), g) == {Held().podId};
    assert Held().podId in PodIds(plan.victims);
    assert Placed(s'.At(Placements), g) == {};
  }
}
