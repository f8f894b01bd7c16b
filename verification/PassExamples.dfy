/** Concrete inputs on which a reconciliation pass exceeds a node's capacity, puts siblings together, or does so by
preemption. Pods are the ones a pass builds from its specs. */
module PassExamples {
  import opened Decimal
  import opened Records
  import opened Bytes
  import opened Storage
  import opened Commands
  import opened Sums
  import opened TableSums
  import opened PlacementTable
  import opened Cluster
  import opened Scheduler
  import opened Preemption
  import opened PlacementRuns
  import opened Slots
  import opened Pods
  import opened Passes

  const AGENT := "spiffe://fleet.example.internal/ns/system/node/agent-1"
  const ONE_POD := Resources(500, 512 * 1024 * 1024)
  const TWO_PODS := Resources(1000, 1024 * 1024 * 1024)

  function Any(): string -> bool {
    (id: string) => true
  }

  function Agent(capacity: Resources): NodeRecord {
    NodeRecord(AGENT, 0, Active, true, 0, 0, capacity, "zone-a")
  }

  /** A fleet of one node that hosts nothing yet. */
  function Idle(capacity: Resources): Store {
    Store(map[Nodes := map[AGENT := NodeV(Agent(capacity))]])
  }

  /** A workload of two replicas in one role, with default requests. */
  function Pair(role: string): WorkloadSpec {
    WorkloadSpec("acme", "db", "", map[role := 2], None, 0, None, map[], "")
  }

  function PairSlots(role: string): seq<Slot> {
    [Slot(role, 0), Slot(role, 1)]
  }

  /** Both slots are pending on the idle fleet. */
  lemma PairIsPending(role: string, capacity: Resources)
    ensures PassSchedules(Pair(role), Idle(capacity).At(Ordinals), PairSlots(role))
  {
    hide RecordKey;
    assert Idle(capacity).At(Ordinals) == map[];
    var slots := PairSlots(role);
    forall x: Slot
      ensures x in slots <==> IsPending(Pair(role), map[], x)
    {
      if x.role == role && x.ordinal < 2 {
        assert x == slots[x.ordinal];
      }
    }
  }

  lemma EmptyList()
    ensures ListPlacements(map[]) == []
  {
    AscendingElements({});
  }

  lemma IdleIsSound(capacity: Resources)
    ensures Sound(Idle(capacity)) && ListPlacements(Idle(capacity).At(Placements)) == []
  {
    hide ListPlacements;
    EmptyList();
  }

  /** A candidate that is the only node of the view is the best one. */
  lemma OnlyNodeIsBest(cfg: Config, pod: PendingPod, s: Store, node: NodeInfo)
    requires KeyedByNode(s.At(Nodes)) && forall k :: IsNode(s.At(Nodes), k) ==> k == AGENT
    requires node in ViewOf(Any(), s).nodes && Candidate(cfg, pod, node, ViewOf(Any(), s))
    ensures Best(cfg, pod, ViewOf(Any(), s), node)
  {
    hide ListPlacements, ListNodes, Views, Rank, Candidate;
    NodeOfView(Any(), s, node);
    forall n | n in ViewOf(Any(), s).nodes
      ensures n == node
    {
      NodeOfView(Any(), s, n);
    }
  }

  lemma IdleNodeIsBest(capacity: Resources, pod: PendingPod) returns (node: NodeInfo)
    requires FitsWithin(pod.resources, capacity) && pod.tolerations == []
    ensures node.nodeId == AGENT && node.available == capacity
    ensures node in ViewOf(Any(), Idle(capacity)).nodes && Best(DEFAULT, pod, ViewOf(Any(), Idle(capacity)), node)
  {
    hide ListPlacements, ListNodes, Views, Rank;
    IdleIsSound(capacity);
    var s := Idle(capacity);
    node := NodeView(Agent(capacity), [], TaintMap(s.At(NodeTaints)));
    NodeInView(Any(), s, AGENT);
    assert Candidate(DEFAULT, pod, node, ViewOf(Any(), s));
    OnlyNodeIsBest(DEFAULT, pod, s, node);
  }

  /** The pass over the pair: both pods are the scheduler's choice on the view of the idle fleet. */
  lemma PairPass(role: string, capacity: Resources) returns (ds: seq<Decision>)
    requires FitsWithin(ONE_POD, capacity)
    ensures |ds| == 2 && forall i :: 0 <= i < 2 ==> ds[i].pod == PodFor(Pair(role), PairSlots(role)[i])
    ensures forall i :: 0 <= i < 2 ==>
              ds[i].node.nodeId == AGENT && ds[i].node.available == capacity
              && ds[i].node in ViewOf(Any(), Idle(capacity)).nodes
              && Best(DEFAULT, ds[i].pod, ViewOf(Any(), Idle(capacity)), ds[i].node)
    ensures NewPods(Idle(capacity).At(Placements), Placing(ds))
  {
    hide Best, ViewOf, PodName;
    var a, b := PodFor(Pair(role), Slot(role, 0)), PodFor(Pair(role), Slot(role, 1));
    var m := IdleNodeIsBest(capacity, a);
    var n := IdleNodeIsBest(capacity, b);
    ds := [Decision(a, m), Decision(b, n)];
    NamesCollideIff("db", role, 0, "db", role, 1);
  }

  lemma PairUses(role: string, ps: seq<Placement>, d: Dimension)
    requires |ps| == 2
    requires forall i :: 0 <= i < 2 ==> ps[i] == PlacementFor(PodFor(Pair(role), PairSlots(role)[i]), AGENT)
    ensures Usage(ps, AGENT, d) == Amount(d, TWO_PODS)
  {
    hide PodName;
    assert ps == [ps[0]] + [ps[1]];
    SumAppend([ps[0]], [ps[1]], On(AGENT, d));
  }

  /** A concrete pass that exceeds capacity: on a node with room for one pod, both pods of a workload are chosen on
  the view taken before either was committed. */
  lemma PassCanOverfill() returns (ds: seq<Decision>)
    ensures Sound(Idle(ONE_POD)) && PassSchedules(Pair("web"), Idle(ONE_POD).At(Ordinals), PairSlots("web"))
    ensures |ds| == 2 && forall i :: 0 <= i < 2 ==>
              ds[i].pod == PodFor(Pair("web"), PairSlots("web")[i])
              && Best(DEFAULT, ds[i].pod, ViewOf(Any(), Idle(ONE_POD)), ds[i].node)
    ensures Steps(Any(), Idle(ONE_POD), PassCommands(ds)).Ok?
    ensures !Sound(Steps(Any(), Idle(ONE_POD), PassCommands(ds)).value)
  {
    hide Steps, Best, ViewOf, CapacityHeld, NewPods, PassSchedules, PassCommands, Used;
    PairIsPending("web", ONE_POD);
    IdleIsSound(ONE_POD);
    ds := PairPass("web", ONE_POD);
    NewNamesKeepCapacityIff(Any(), Idle(ONE_POD), ds);
    UsedByPair(ds);
    assert !FitsWithin(Used(Placing(ds), ds[0].node.nodeId), ds[0].node.available);
  }

  lemma UsedByPair(ds: seq<Decision>)
    requires |ds| == 2 && forall i :: 0 <= i < 2 ==>
               ds[i].pod == PodFor(Pair("web"), PairSlots("web")[i]) && ds[i].node.nodeId == AGENT
    ensures Used(Placing(ds), AGENT) == TWO_PODS
  {
    PairUses("web", Placing(ds), Cpu);
    PairUses("web", Placing(ds), Memory);
  }

  /** A concrete pass that joins siblings: both replicas of an enforced role are chosen for the same node, because
  the view shows neither. */
  lemma PassCanJoinSiblings() returns (ds: seq<Decision>)
    ensures Sound(Idle(TWO_PODS)) && SpreadOut(DEFAULT, Any(), Idle(TWO_PODS))
    ensures PassSchedules(Pair("replica"), Idle(TWO_PODS).At(Ordinals), PairSlots("replica"))
    ensures |ds| == 2 && forall i :: 0 <= i < 2 ==>
              ds[i].pod == PodFor(Pair("replica"), PairSlots("replica")[i])
              && Best(DEFAULT, ds[i].pod, ViewOf(Any(), Idle(TWO_PODS)), ds[i].node)
    ensures Steps(Any(), Idle(TWO_PODS), PassCommands(ds)).Ok?
    ensures !SpreadOut(DEFAULT, Any(), Steps(Any(), Idle(TWO_PODS), PassCommands(ds)).value)
  {
    hide Steps, Best, ViewOf, CapacityHeld, NewPods, PassSchedules, PassCommands;
    PairIsPending("replica", TWO_PODS);
    IdleIsSound(TWO_PODS);
    assert Idle(TWO_PODS).At(Placements) == map[];
    ds := PairPass("replica", TWO_PODS);
    NewNamesKeepSpreadIff(Any(), DEFAULT, Idle(TWO_PODS), ds);
    var ps := Placing(ds);
    assert Siblings(DEFAULT, ps[0], ps[1]) && ps[0].nodeId == ps[1].nodeId;
  }

  // ----- preemption -----

  /** A database whose replicas must be apart, ranked above a batch job that asks for nothing in particular. */
  const DB := WorkloadSpec("acme", "db", "", map["replica" := 2],
                           Some(PodSpec(None, map[], map[], 5, [], "")), 0, None, map[], "")
  const JOB := WorkloadSpec("acme", "job", "", map["batch" := 1], None, 0, None, map[], "")

  function Kept(): Placement {
    PlacementFor(PodFor(DB, Slot("replica", 0)), AGENT)
  }

  function Victim(): Placement {
    PlacementFor(PodFor(JOB, Slot("batch", 0)), AGENT)
  }

  function Second(): PendingPod {
    PodFor(DB, Slot("replica", 1))
  }

  function OnePlaced(): Table {
    map[Kept().podId := PlacementV(Kept())]
  }

  /** The node holds one replica and the job, and has room for no more. */
  function Crowded(): Store {
    Store(map[Nodes := map[AGENT := NodeV(Agent(TWO_PODS))],
              Placements := OnePlaced()[Victim().podId := PlacementV(Victim())]])
  }

  function Ranks(): Priority {
    PriorityOf([DB, JOB])
  }

  lemma NamesDiffer()
    ensures Kept().podId != Victim().podId && Kept().podId != Second().podId && Victim().podId != Second().podId
  {
    NamesCollideIff("db", "replica", 0, "db", "replica", 1);
    assert Kept().podId[0] == 'd' && Victim().podId[0] == 'j' && Second().podId[0] == 'd';
  }

  lemma RanksAre()
    ensures Ranks()(Kept()) == 5 && Ranks()(Victim()) == 0
  {
    PriorityOfMember([DB, JOB], 0, Kept());
    PriorityOfMember([DB, JOB], 1, Victim());
  }

  lemma CrowdedIsSound()
    ensures Sound(Crowded()) && SpreadOut(DEFAULT, Any(), Crowded())
  {
    hide ListPlacements, PodName, Used;
    NamesDiffer();
    var nodes := Crowded().At(Nodes);
    var none: Table := map[];
    EmptyList();
    assert Used([], AGENT) == Resources(0, 0) by {
      UnusedNode([], AGENT);
    }
    assert CapacityHeld(nodes, none);
    CapacityAfterPut(nodes, none, Kept());
    assert OnePlaced() == none[Kept().podId := PlacementV(Kept())];
    UsedAfterPut(none, Kept(), AGENT);
    CapacityAfterPut(nodes, OnePlaced(), Victim());
  }

  lemma CrowdedNode() returns (node: NodeInfo)
    ensures node in ViewOf(Any(), Crowded()).nodes && node.nodeId == AGENT && node.schedulable && node.taints == []
  {
    hide ListNodes, Views, Used, ListPlacements, PodName;
    node := NodeView(Agent(TWO_PODS), ListPlacements(Crowded().At(Placements)), TaintMap(Crowded().At(NodeTaints)));
    NodeInView(Any(), Crowded(), AGENT);
  }

  lemma CrowdedLists()
    ensures Kept() in ViewOf(Any(), Crowded()).placements && Victim() in ViewOf(Any(), Crowded()).placements
  {
    hide ListPlacements, Views, PodName;
    NamesDiffer();
    var t := Crowded().At(Placements);
    assert t[Kept().podId] == PlacementV(Kept()) && t[Victim().podId] == PlacementV(Victim());
    Listed(t, Kept());
    Listed(t, Victim());
  }

  /** Scheduling refuses the second replica, as it should: the only node hosts its sibling. */
  lemma SecondIsRefused(n: NodeInfo)
    requires n in ViewOf(Any(), Crowded()).nodes
    ensures !Candidate(DEFAULT, Second(), n, ViewOf(Any(), Crowded()))
  {
    hide ListNodes, Views, ListPlacements, PodName, Used;
    var view := ViewOf(Any(), Crowded());
    NodeOfView(Any(), Crowded(), n);
    CrowdedLists();
    var i :| 0 <= i < |view.placements| && view.placements[i] == Kept();
    assert !Apart(DEFAULT, view.nodes, view.placements[i], n);
  }

  lemma CrowdedHasPlan() returns (node: NodeInfo, plan: Plan)
    ensures node in ViewOf(Any(), Crowded()).nodes && node.nodeId == AGENT
    ensures PlanOf(Ranks(), Second(), ViewOf(Any(), Crowded()).placements, node, plan)
  {
    hide ViewOf, PlanOf, PodName, PriorityOf;
    node := CrowdedNode();
    CrowdedLists();
    RanksAre();
    var ps := ViewOf(Any(), Crowded()).placements;
    SumAtLeast(ps, Victim(), LowerOn(Ranks(), Second(), AGENT, Cpu));
    SumAtLeast(ps, Victim(), LowerOn(Ranks(), Second(), AGENT, Memory));
    PlanExists(Ranks(), Second(), ps, node);
    plan :| PlanOf(Ranks(), Second(), ps, node, plan);
  }

  /** A concrete preemption that breaks anti-affinity: the second replica, refused by the scheduler, evicts the job from
  the only node and joins the first replica there. */
  lemma PreemptionCanBreakSpread() returns (s': Store, plan: Plan)
    ensures Sound(Crowded()) && SpreadOut(DEFAULT, Any(), Crowded())
    ensures forall n :: n in ViewOf(Any(), Crowded()).nodes ==>
              !Candidate(DEFAULT, Second(), n, ViewOf(Any(), Crowded()))
    ensures Second().priority > 0 && Preempted(Any(), Ranks(), Crowded(), s', Second(), plan)
    ensures !SpreadOut(DEFAULT, Any(), s')
  {
    hide PlanOf, Cheapest, Steps, ViewOf, CapacityHeld, Spread, PreemptCommands, PodIds, PodName, PriorityOf, Candidate;
    CrowdedIsSound();
    NamesDiffer();
    RanksAre();
    forall n | n in ViewOf(Any(), Crowded()).nodes
      ensures !Candidate(DEFAULT, Second(), n, ViewOf(Any(), Crowded()))
    {
      SecondIsRefused(n);
    }
    var node;
    node, plan := CrowdedHasPlan();
    OnlyPlanIsCheapest(Any(), Ranks(), Crowded(), AGENT, Second(), node, plan);
    PreemptEffect(Any(), Crowded(), Second(), plan);
    s' := Steps(Any(), Crowded(), PreemptCommands(Second(), plan)).value;
    PlanNodeId(Ranks(), Second(), ViewOf(Any(), Crowded()).placements, node, plan);
    PreemptionJoinsSibling(Any(), DEFAULT, Ranks(), Crowded(), s', Second(), plan, Kept());
  }

  // ----- names -----

  /** Another tenant's workload of the same name. */
  const OTHER := WorkloadSpec("zeta", "db", "", map["web" := 1], None, 0, None, map[], "")

  function Theirs(): Placement {
    PlacementFor(PodFor(Pair("web"), Slot("web", 0)), AGENT)
  }

  function Shared(): Store {
    Store(map[Placements := map[Theirs().podId := PlacementV(Theirs())]])
  }

  /** A concrete commit that takes another tenant's placement: both pods are called db-web-0. */
  lemma CommitCanDisplaceTenant()
    ensures Named(Shared().At(Placements)) && PodFor(OTHER, Slot("web", 0)).podId == Theirs().podId
    ensures Steps(Any(), Shared(), CommitCommands(PodFor(OTHER, Slot("web", 0)), AGENT)).Ok?
    ensures !OthersKept(Shared().At(Placements),
                        Steps(Any(), Shared(),
                              CommitCommands(PodFor(OTHER, Slot("web", 0)), AGENT)).value.At(Placements),
                        PodFor(OTHER, Slot("web", 0)))
  {
    hide Steps, PodName, CommitCommands;
    assert Named(Shared().At(Placements));
    CommitKeepsOthersIff(Any(), Shared(), OTHER, Slot("web", 0), AGENT);
    assert Shadows(Shared().At(Placements), PodFor(OTHER, Slot("web", 0)), Theirs().podId);
  }
}
