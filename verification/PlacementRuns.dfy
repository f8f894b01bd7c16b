/** Whole runs of placing pods: capacity and anti-affinity hold at every state when each decision is
taken on a fresh view. */
module PlacementRuns {
  import opened Decimal
  import opened Records
  import opened Storage
  import opened Commands
  import opened Keys
  import opened StoredRecords
  import opened Sums
  import opened PlacementTable
  import opened TableSums
  import opened Taints
  import opened Cluster
  import opened Scheduler
  import opened Preemption
  import opened NodeEviction

  // ----- the view of a store -----

  function TaintMap(t: Table): map<string, seq<NodeTaint>> {
    map k | k in t && t[k].TaintsV? :: t[k].taints
  }

  /** `build_cluster_state`. */
  function ViewOf(spiffe: string -> bool, s: Store): ClusterState {
    var ps := ListPlacements(s.At(Placements));
    ClusterState(Views(spiffe, ListNodes(s.At(Nodes)), ps, TaintMap(s.At(NodeTaints))), ps)
  }

  predicate IsNode(nodes: Table, id: string) {
    id in nodes && nodes[id].NodeV?
  }

  /** A node of the view is the stored record under its id. */
  lemma NodeOfView(spiffe: string -> bool, s: Store, n: NodeInfo)
    requires KeyedByNode(s.At(Nodes)) && n in ViewOf(spiffe, s).nodes
    ensures spiffe(n.nodeId) && IsNode(s.At(Nodes), n.nodeId)
    ensures n == NodeView(s.At(Nodes)[n.nodeId].node, ListPlacements(s.At(Placements)), TaintMap(s.At(NodeTaints)))
  {
    var ps, taints := ListPlacements(s.At(Placements)), TaintMap(s.At(NodeTaints));
    ViewsOf(spiffe, ListNodes(s.At(Nodes)), ps, taints);
    var r :| r in ListNodes(s.At(Nodes)) && spiffe(r.nodeId) && n == NodeView(r, ps, taints);
    ListedNode(s.At(Nodes), r);
  }

  /** Every stored record whose id parses is in the view. */
  lemma NodeInView(spiffe: string -> bool, s: Store, id: string)
    requires KeyedByNode(s.At(Nodes)) && spiffe(id) && IsNode(s.At(Nodes), id)
    ensures NodeView(s.At(Nodes)[id].node, ListPlacements(s.At(Placements)), TaintMap(s.At(NodeTaints)))
         in ViewOf(spiffe, s).nodes
  {
    ViewsOf(spiffe, ListNodes(s.At(Nodes)), ListPlacements(s.At(Placements)), TaintMap(s.At(NodeTaints)));
    ListedNode(s.At(Nodes), s.At(Nodes)[id].node);
  }

  /** The view, record by record: a node takes pods when it is active and marked schedulable, has left what its
  placements do not use, and shows their number and the taints stored for it. */
  lemma ViewMeans(spiffe: string -> bool, s: Store, n: NodeInfo)
    requires KeyedByNode(s.At(Nodes)) && n in ViewOf(spiffe, s).nodes
    ensures IsNode(s.At(Nodes), n.nodeId) && spiffe(n.nodeId)
    ensures var r := s.At(Nodes)[n.nodeId].node;
            && n.capacity == r.capacity && n.failureDomain == r.failureDomain
            && (n.schedulable <==> r.schedulable && r.status == Active)
            && (n.taints == if n.nodeId in s.At(NodeTaints) && s.At(NodeTaints)[n.nodeId].TaintsV?
                            then s.At(NodeTaints)[n.nodeId].taints else [])
    ensures var r, ps := s.At(Nodes)[n.nodeId].node, ListPlacements(s.At(Placements));
            var cpu := Sum(ps, (p: Placement) => if p.nodeId == n.nodeId then p.resources.cpu else 0);
            var memory := Sum(ps, (p: Placement) => if p.nodeId == n.nodeId then p.resources.memory else 0);
            && n.available.cpu == (if r.capacity.cpu >= cpu then r.capacity.cpu - cpu else 0)
            && n.available.memory == (if r.capacity.memory >= memory then r.capacity.memory - memory else 0)
            && n.podCount == Sum(ps, (p: Placement) => if p.nodeId == n.nodeId then 1 else 0)
  {
    hide ListPlacements, ListNodes, Views, Sum;
    NodeOfView(spiffe, s, n);
    var ps := ListPlacements(s.At(Placements));
    SumCongruence(ps, (p: Placement) => if p.nodeId == n.nodeId then p.resources.cpu else 0, On(n.nodeId, Cpu));
    SumCongruence(ps, (p: Placement) => if p.nodeId == n.nodeId then p.resources.memory else 0, On(n.nodeId, Memory));
    SumCongruence(ps, (p: Placement) => if p.nodeId == n.nodeId then 1 else 0, Hosts(n.nodeId));
  }

  lemma ViewDistinct(spiffe: string -> bool, s: Store)
    requires KeyedByNode(s.At(Nodes))
    ensures DistinctIds(ViewOf(spiffe, s).nodes)
  {
    ListUniqueNodes(s.At(Nodes));
    ViewsDistinct(spiffe, ListNodes(s.At(Nodes)), ListPlacements(s.At(Placements)), TaintMap(s.At(NodeTaints)));
  }

  // ----- capacity -----

  /** No node's placed resources exceed its capacity. */
  ghost predicate CapacityHeld(nodes: Table, placements: Table) {
    forall k :: IsNode(nodes, k) ==> FitsWithin(Used(ListPlacements(placements), k), nodes[k].node.capacity)
  }

  /** Capacity in plain sums: on every node the placed cpu and the placed memory are within what it has. */
  lemma CapacityMeans(nodes: Table, placements: Table)
    ensures CapacityHeld(nodes, placements) <==>
              forall k :: IsNode(nodes, k) ==>
                var ps := ListPlacements(placements);
                && Sum(ps, (p: Placement) => if p.nodeId == k then p.resources.cpu else 0) <= nodes[k].node.capacity.cpu
                && Sum(ps, (p: Placement) => if p.nodeId == k then p.resources.memory else 0)
                   <= nodes[k].node.capacity.memory
  {
    hide ListPlacements, Sum;
    var ps := ListPlacements(placements);
    forall k | IsNode(nodes, k)
      ensures Used(ps, k).cpu == Sum(ps, (p: Placement) => if p.nodeId == k then p.resources.cpu else 0)
      ensures Used(ps, k).memory == Sum(ps, (p: Placement) => if p.nodeId == k then p.resources.memory else 0)
    {
      SumCongruence(ps, (p: Placement) => if p.nodeId == k then p.resources.cpu else 0, On(k, Cpu));
      SumCongruence(ps, (p: Placement) => if p.nodeId == k then p.resources.memory else 0, On(k, Memory));
    }
  }

  lemma UsedAfterPut(t: Table, p: Placement, node: string)
    ensures var used, used' := Used(ListPlacements(t), node), Used(ListPlacements(t[p.podId := PlacementV(p)]), node);
            FitsWithin(used', if p.nodeId == node then Add(used, p.resources) else used)
  {
    hide ListPlacements, Sum;
    PutKey(t, p.podId, p, On(node, Cpu));
    PutKey(t, p.podId, p, On(node, Memory));
  }

  /** A placement that fits what its node has left keeps every node within capacity. */
  lemma CapacityAfterPut(nodes: Table, t: Table, p: Placement)
    requires CapacityHeld(nodes, t) && IsNode(nodes, p.nodeId)
    requires FitsWithin(p.resources, Subtract(nodes[p.nodeId].node.capacity, Used(ListPlacements(t), p.nodeId)))
    ensures CapacityHeld(nodes, t[p.podId := PlacementV(p)])
  {
    hide ListPlacements, Used;
    forall k | IsNode(nodes, k)
      ensures FitsWithin(Used(ListPlacements(t[p.podId := PlacementV(p)]), k), nodes[k].node.capacity)
    {
      UsedAfterPut(t, p, k);
    }
  }

  lemma UsedWithin(t: Table, t': Table, node: string)
    requires Within(t', t)
    ensures FitsWithin(Used(ListPlacements(t'), node), Used(ListPlacements(t), node))
  {
    FewerRows(t, t', On(node, Cpu));
    FewerRows(t, t', On(node, Memory));
  }

  // ----- anti-affinity -----

  predicate Siblings(cfg: Config, p: Placement, q: Placement) {
    p.service == q.service && p.role == q.role && p.role in cfg.enforcedRoles
  }

  /** Two hosts are different nodes and, across zones, of different failure domains. */
  predicate FarApart(cfg: Config, spiffe: string -> bool, nodes: Table, m: string, n: string) {
    && m != n
    && (cfg.crossZone && spiffe(m) && spiffe(n) && IsNode(nodes, m) && IsNode(nodes, n) ==>
          nodes[m].node.failureDomain != nodes[n].node.failureDomain)
  }

  /** No two placements of an enforced (service, role) share a node or a failure domain. */
  ghost predicate Spread(cfg: Config, spiffe: string -> bool, nodes: Table, t: Table) {
    forall k, l :: k in t && l in t && k != l && t[k].PlacementV? && t[l].PlacementV?
                   && Siblings(cfg, t[k].placement, t[l].placement)
                   ==> FarApart(cfg, spiffe, nodes, t[k].placement.nodeId, t[l].placement.nodeId)
  }

  /** The scheduler's check on a view keeps a new placement apart from every stored sibling. */
  lemma SiblingApart(spiffe: string -> bool, cfg: Config, s: Store, pod: PendingPod, n: NodeInfo, q: Placement,
                     k: string)
    requires KeyedByNode(s.At(Nodes)) && n in ViewOf(spiffe, s).nodes && AntiAffine(cfg, pod, n, ViewOf(spiffe, s))
    requires k in s.At(Placements) && s.At(Placements)[k] == PlacementV(q)
    requires q.service == pod.service && q.role == pod.role && pod.role in cfg.enforcedRoles
    ensures FarApart(cfg, spiffe, s.At(Nodes), q.nodeId, n.nodeId)
  {
    hide Views, ListNodes, ListPlacements, KeyedByNode;
    var view := ViewOf(spiffe, s);
    Listed(s.At(Placements), q);
    var i :| 0 <= i < |view.placements| && view.placements[i] == q;
    assert Apart(cfg, view.nodes, view.placements[i], n);
    NodeOfView(spiffe, s, n);
    ViewDistinct(spiffe, s);
    if spiffe(q.nodeId) && IsNode(s.At(Nodes), q.nodeId) {
      HostFound(spiffe, s, q.nodeId);
    }
  }

  lemma HostFound(spiffe: string -> bool, s: Store, id: string)
    requires KeyedByNode(s.At(Nodes)) && spiffe(id) && IsNode(s.At(Nodes), id)
    ensures FindNode(ViewOf(spiffe, s).nodes, id).Some?
    ensures FindNode(ViewOf(spiffe, s).nodes, id).value.failureDomain == s.At(Nodes)[id].node.failureDomain
  {
    hide Views, ListNodes, ListPlacements, Used;
    var n := NodeView(s.At(Nodes)[id].node, ListPlacements(s.At(Placements)), TaintMap(s.At(NodeTaints)));
    NodeInView(spiffe, s, id);
    ViewDistinct(spiffe, s);
    FindNodeFinds(ViewOf(spiffe, s).nodes, id);
    assert n.nodeId == id;
  }

  /** On the view of a store a placement is apart from a node exactly when the stored hosts are. */
  lemma ApartIff(spiffe: string -> bool, cfg: Config, s: Store, n: NodeInfo, q: Placement)
    requires KeyedByNode(s.At(Nodes)) && n in ViewOf(spiffe, s).nodes
    ensures Apart(cfg, ViewOf(spiffe, s).nodes, q, n) <==> FarApart(cfg, spiffe, s.At(Nodes), q.nodeId, n.nodeId)
  {
    hide Views, ListNodes, ListPlacements, KeyedByNode;
    var view := ViewOf(spiffe, s);
    NodeOfView(spiffe, s, n);
    ViewDistinct(spiffe, s);
    FindNodeFinds(view.nodes, q.nodeId);
    if spiffe(q.nodeId) && IsNode(s.At(Nodes), q.nodeId) {
      HostFound(spiffe, s, q.nodeId);
    } else if FindNode(view.nodes, q.nodeId).Some? {
      NodeOfView(spiffe, s, FindNode(view.nodes, q.nodeId).value);
    }
  }

  /** Which nodes of a store's view can take a pod, in stored terms: the open ones with room for both resources, away
  from every stored sibling where the role asks for it, and without an untolerated hard taint. */
  lemma CandidateMeans(spiffe: string -> bool, cfg: Config, s: Store, pod: PendingPod, n: NodeInfo)
    requires KeyedByNode(s.At(Nodes)) && n in ViewOf(spiffe, s).nodes
    ensures var t := s.At(Placements);
            Candidate(cfg, pod, n, ViewOf(spiffe, s)) <==>
              && n.schedulable
              && pod.resources.cpu <= n.available.cpu && pod.resources.memory <= n.available.memory
              && (pod.role in cfg.enforcedRoles ==>
                    forall k :: k in t && t[k].PlacementV? && t[k].placement.service == pod.service
                                && t[k].placement.role == pod.role
                                ==> FarApart(cfg, spiffe, s.At(Nodes), t[k].placement.nodeId, n.nodeId))
              && (forall i :: 0 <= i < |n.taints| && n.taints[i].effect in {"NoSchedule", "NoExecute"} ==>
                    IsTolerated(pod.tolerations, n.taints[i]))
  {
    hide Views, ListNodes, ListPlacements, KeyedByNode, Apart, FarApart, IsTolerated;
    var t, view := s.At(Placements), ViewOf(spiffe, s);
    forall q: Placement
      ensures q in view.placements <==> exists k :: k in t && t[k] == PlacementV(q)
      ensures Apart(cfg, view.nodes, q, n) <==> FarApart(cfg, spiffe, s.At(Nodes), q.nodeId, n.nodeId)
    {
      Listed(t, q);
      ApartIff(spiffe, cfg, s, n, q);
    }
    if AntiAffine(cfg, pod, n, view) && pod.role in cfg.enforcedRoles {
      forall k | k in t && t[k].PlacementV? && t[k].placement.service == pod.service && t[k].placement.role == pod.role
        ensures FarApart(cfg, spiffe, s.At(Nodes), t[k].placement.nodeId, n.nodeId)
      {
        assert t[k].placement in view.placements;
      }
    }
  }

  // ----- steps -----

  function PlacementFor(pod: PendingPod, node: string): Placement {
    Placement(pod.podId, pod.tenantId, pod.service, pod.role, pod.ordinal, node, pod.resources)
  }

  /** `commit_scheduling`. */
  function CommitCommands(pod: PendingPod, node: string): seq<Command> {
    [RecordOrdinalAssignment(
       OrdinalAssignment(pod.tenantId, pod.service, pod.role, pod.ordinal, Some(pod.podId), Some(node))),
     CommitPlacement(PlacementFor(pod, node))]
  }

  /** `apply_preemption`. */
  function PreemptCommands(pod: PendingPod, plan: Plan): seq<Command> {
    DrainCommands(plan.victims) + CommitCommands(pod, plan.nodeId)
  }

  lemma {:induction false} StepsConcat(spiffe: string -> bool, s: Store, a: seq<Command>, b: seq<Command>)
    requires Steps(spiffe, s, a).Ok?
    ensures Steps(spiffe, s, a + b) == Steps(spiffe, Steps(spiffe, s, a).value, b)
    decreases |a|
  {
    hide Step;
    if a == [] {
      assert a + b == b;
    } else {
      var next := Step(spiffe, s, a[0]).value;
      StepsConcat(spiffe, next, a[1..], b);
      assert a + b == [a[0]] + (a[1..] + b);
      StepsHead(spiffe, s, a[0], a[1..] + b, next);
    }
  }

  /** A table that none of the commands may write is left as it was. */
  lemma {:induction false} StepsFrame(spiffe: string -> bool, s: Store, cmds: seq<Command>, ks: Keyspace)
    requires Steps(spiffe, s, cmds).Ok? && forall i :: 0 <= i < |cmds| ==> !MayWrite(cmds[i], ks)
    ensures Steps(spiffe, s, cmds).value.At(ks) == s.At(ks)
    decreases |cmds|
  {
    hide Step, MayWrite;
    if cmds != [] {
      StepFrame(spiffe, s, cmds[0], ks);
      StepsFrame(spiffe, Step(spiffe, s, cmds[0]).value, cmds[1..], ks);
    }
  }

  lemma CommitStep(spiffe: string -> bool, s: Store, p: Placement)
    ensures Step(spiffe, s, CommitPlacement(p)).Ok?
    ensures Step(spiffe, s, CommitPlacement(p)).value.At(Placements) == s.At(Placements)[p.podId := PlacementV(p)]
  {
    CommitOne(s, Put(Placements, p.podId, PlacementV(p)));
  }

  lemma CommitEffect(spiffe: string -> bool, s: Store, pod: PendingPod, node: string)
    ensures Steps(spiffe, s, CommitCommands(pod, node)).Ok?
    ensures var s' := Steps(spiffe, s, CommitCommands(pod, node)).value;
            && s'.At(Placements) == s.At(Placements)[pod.podId := PlacementV(PlacementFor(pod, node))]
            && s'.At(Nodes) == s.At(Nodes)
  {
    hide Step;
    var o := OrdinalAssignment(pod.tenantId, pod.service, pod.role, pod.ordinal, Some(pod.podId), Some(node));
    var p := PlacementFor(pod, node);
    RecordStep(spiffe, s, o);
    var s1 := Step(spiffe, s, RecordOrdinalAssignment(o)).value;
    CommitStep(spiffe, s1, p);
    var s2 := Step(spiffe, s1, CommitPlacement(p)).value;
    StepsHead(spiffe, s, RecordOrdinalAssignment(o), [CommitPlacement(p)], s1);
    StepsHead(spiffe, s1, CommitPlacement(p), [], s2);
    assert CommitCommands(pod, node) == [RecordOrdinalAssignment(o)] + ([CommitPlacement(p)] + []);
    StepsFrame(spiffe, s, CommitCommands(pod, node), Nodes);
  }

  /** A committed pod is stored with its own fields on its node, and its slot records both. */
  lemma CommitStores(spiffe: string -> bool, s: Store, pod: PendingPod, node: string)
    ensures Steps(spiffe, s, CommitCommands(pod, node)).Ok?
    ensures var s' := Steps(spiffe, s, CommitCommands(pod, node)).value;
            && s'.At(Placements)
               == s.At(Placements)[pod.podId := PlacementV(Placement(pod.podId, pod.tenantId, pod.service, pod.role,
                                                                     pod.ordinal, node, pod.resources))]
            && s'.At(Ordinals)
               == s.At(Ordinals)[OrdinalKey(pod.tenantId, pod.service, pod.role, pod.ordinal) :=
                                   OrdinalV(OrdinalAssignment(pod.tenantId, pod.service, pod.role, pod.ordinal,
                                                              Some(pod.podId), Some(node)))]
  {
    hide Step, OrdinalKey;
    CommitEffect(spiffe, s, pod, node);
    var record := CommitCommands(pod, node)[0];
    var place := CommitCommands(pod, node)[1];
    PlacementRecords(spiffe, s, record);
    var mid := Step(spiffe, s, record).value;
    PlacementRecords(spiffe, mid, place);
    StepFrame(spiffe, mid, place, Ordinals);
    StepsHead(spiffe, s, record, [place], mid);
    StepsHead(spiffe, mid, place, [], Step(spiffe, mid, place).value);
    assert CommitCommands(pod, node) == [record] + ([place] + []) && [record] + [place] == [record] + ([place] + []);
  }

  lemma {:induction false} DrainSparesNodes(victims: seq<Placement>)
    ensures forall i :: 0 <= i < |DrainCommands(victims)| ==> !MayWrite(DrainCommands(victims)[i], Nodes)
  {
    if victims != [] {
      DrainSparesNodes(victims[1..]);
    }
  }

  lemma PreemptEffect(spiffe: string -> bool, s: Store, pod: PendingPod, plan: Plan)
    ensures Steps(spiffe, s, PreemptCommands(pod, plan)).Ok?
    ensures var s' := Steps(spiffe, s, PreemptCommands(pod, plan)).value;
            && s'.At(Placements)
               == (s.At(Placements) - PodIds(plan.victims))[pod.podId := PlacementV(PlacementFor(pod, plan.nodeId))]
            && s'.At(Nodes) == s.At(Nodes)
  {
    hide Step, Steps, MayWrite;
    var drain := DrainCommands(plan.victims);
    DrainLength(plan.victims);
    DrainPrefix(spiffe, s, plan.victims, |drain|);
    assert drain[..|drain|] == drain && plan.victims[..|plan.victims|] == plan.victims;
    DrainSparesNodes(plan.victims);
    StepsFrame(spiffe, s, drain, Nodes);
    var mid := Steps(spiffe, s, drain).value;
    CommitEffect(spiffe, mid, pod, plan.nodeId);
    StepsConcat(spiffe, s, drain, CommitCommands(pod, plan.nodeId));
  }

  // ----- runs -----

  /** A pod scheduled on the view of the state and committed to it. */
  ghost predicate Scheduled(spiffe: string -> bool, cfg: Config, s: Store, s': Store, pod: PendingPod, n: NodeInfo) {
    Best(cfg, pod, ViewOf(spiffe, s), n) && Steps(spiffe, s, CommitCommands(pod, n.nodeId)) == Ok(s')
  }

  /** A preemption planned on the view of the state and applied to it. */
  ghost predicate Preempted(spiffe: string -> bool, prio: Priority, s: Store, s': Store, pod: PendingPod, plan: Plan) {
    Cheapest(prio, pod, ViewOf(spiffe, s), plan) && Steps(spiffe, s, PreemptCommands(pod, plan)) == Ok(s')
  }

  /** The same nodes, up to their status, heartbeat and readiness, and perhaps new ones that host nothing. */
  ghost predicate SameHosts(nodes: Table, nodes': Table, t: Table) {
    && (forall k :: IsNode(nodes, k) ==> IsNode(nodes', k) && SameHost(nodes[k].node, nodes'[k].node))
    && (forall k :: IsNode(nodes', k) && !IsNode(nodes, k) ==> nodes'[k].node.nodeId == k && HostsNothing(t, k))
  }

  ghost predicate HostsNothing(t: Table, node: string) {
    forall k :: k in t && t[k].PlacementV? ==> t[k].placement.nodeId != node
  }

  predicate SameHost(r: NodeRecord, r': NodeRecord) {
    r'.nodeId == r.nodeId && r'.capacity == r.capacity && r'.failureDomain == r.failureDomain
  }

  /** Anything that only removes placements and leaves capacities and domains as they were. */
  ghost predicate Reduced(s: Store, s': Store) {
    SameHosts(s.At(Nodes), s'.At(Nodes), s'.At(Placements)) && Within(s'.At(Placements), s.At(Placements))
  }

  /** What holds at every state of a run. */
  ghost predicate Sound(s: Store) {
    KeyedByNode(s.At(Nodes)) && KeyedByPod(s.At(Placements)) && CapacityHeld(s.At(Nodes), s.At(Placements))
  }

  ghost predicate SpreadOut(cfg: Config, spiffe: string -> bool, s: Store) {
    Spread(cfg, spiffe, s.At(Nodes), s.At(Placements))
  }

  lemma ScheduledKeepsSound(spiffe: string -> bool, cfg: Config, s: Store, s': Store, pod: PendingPod, n: NodeInfo)
    requires Sound(s) && Scheduled(spiffe, cfg, s, s', pod, n)
    ensures Sound(s')
  {
    hide Steps, Rank, AntiAffine, PassesFilter, Used, CapacityHeld, ListPlacements, ListNodes, Views;
    CommitEffect(spiffe, s, pod, n.nodeId);
    NodeOfView(spiffe, s, n);
    CapacityAfterPut(s.At(Nodes), s.At(Placements), PlacementFor(pod, n.nodeId));
  }

  lemma ScheduledKeepsSpread(spiffe: string -> bool, cfg: Config, s: Store, s': Store, pod: PendingPod, n: NodeInfo)
    requires Sound(s) && SpreadOut(cfg, spiffe, s) && Scheduled(spiffe, cfg, s, s', pod, n)
    ensures SpreadOut(cfg, spiffe, s')
  {
    hide Steps, Rank, AntiAffine, PassesFilter, Used, CapacityHeld, ListPlacements, ListNodes, Views, KeyedByPod;
    CommitEffect(spiffe, s, pod, n.nodeId);
    SpreadAfterPut(spiffe, cfg, s, pod, n);
  }

  lemma SpreadAfterPut(spiffe: string -> bool, cfg: Config, s: Store, pod: PendingPod, n: NodeInfo)
    requires KeyedByNode(s.At(Nodes)) && SpreadOut(cfg, spiffe, s)
    requires n in ViewOf(spiffe, s).nodes && AntiAffine(cfg, pod, n, ViewOf(spiffe, s))
    ensures Spread(cfg, spiffe, s.At(Nodes), s.At(Placements)[pod.podId := PlacementV(PlacementFor(pod, n.nodeId))])
  {
    hide AntiAffine, Views, ListNodes, ListPlacements, KeyedByNode, ViewOf;
    var t := s.At(Placements);
    var p := PlacementFor(pod, n.nodeId);
    var t' := t[pod.podId := PlacementV(p)];
    forall k, l | k in t' && l in t' && k != l && t'[k].PlacementV? && t'[l].PlacementV?
                  && Siblings(cfg, t'[k].placement, t'[l].placement)
      ensures FarApart(cfg, spiffe, s.At(Nodes), t'[k].placement.nodeId, t'[l].placement.nodeId)
    {
      if k == pod.podId {
        SiblingApart(spiffe, cfg, s, pod, n, t[l].placement, l);
      } else if l == pod.podId {
        SiblingApart(spiffe, cfg, s, pod, n, t[k].placement, k);
      } else {
        assert Siblings(cfg, t[k].placement, t[l].placement);
      }
    }
  }

  lemma ReducedKeepsSound(s: Store, s': Store)
    requires Sound(s) && Reduced(s, s')
    ensures Sound(s')
  {
    hide Used, ListPlacements;
    forall k | IsNode(s'.At(Nodes), k)
      ensures s'.At(Nodes)[k].node.nodeId == k
      ensures FitsWithin(Used(ListPlacements(s'.At(Placements)), k), s'.At(Nodes)[k].node.capacity)
    {
      if IsNode(s.At(Nodes), k) {
        UsedWithin(s.At(Placements), s'.At(Placements), k);
      } else {
        NothingUsed(s'.At(Placements), k);
      }
    }
  }

  lemma {:induction false} UnusedNode(ps: seq<Placement>, node: string)
    requires forall i :: 0 <= i < |ps| ==> ps[i].nodeId != node
    ensures Used(ps, node) == Resources(0, 0)
  {
    if ps != [] {
      UnusedNode(ps[1..], node);
    }
  }

  lemma NothingUsed(t: Table, node: string)
    requires HostsNothing(t, node)
    ensures Used(ListPlacements(t), node) == Resources(0, 0)
  {
    hide ListPlacements, Used;
    var ps := ListPlacements(t);
    forall i | 0 <= i < |ps|
      ensures ps[i].nodeId != node
    {
      Listed(t, ps[i]);
    }
    UnusedNode(ps, node);
  }

  lemma ReducedKeepsSpread(cfg: Config, spiffe: string -> bool, s: Store, s': Store)
    requires SpreadOut(cfg, spiffe, s) && Reduced(s, s')
    ensures SpreadOut(cfg, spiffe, s')
  {
    var t, t' := s.At(Placements), s'.At(Placements);
    forall k, l | k in t' && l in t' && k != l && t'[k].PlacementV? && t'[l].PlacementV?
                  && Siblings(cfg, t'[k].placement, t'[l].placement)
      ensures FarApart(cfg, spiffe, s'.At(Nodes), t'[k].placement.nodeId, t'[l].placement.nodeId)
    {
      assert Siblings(cfg, t[k].placement, t[l].placement);
      var m, n := t[k].placement.nodeId, t[l].placement.nodeId;
      assert !HostsNothing(t', m) && !HostsNothing(t', n);
    }
  }

  /** The victims of a plan are stored placements. */
  lemma VictimsStoredOnce(spiffe: string -> bool, prio: Priority, s: Store, pod: PendingPod, node: NodeInfo, plan: Plan)
    requires KeyedByPod(s.At(Placements)) && PlanOf(prio, pod, ListPlacements(s.At(Placements)), node, plan)
    ensures StoredOnce(s.At(Placements), plan.victims)
  {
    hide PlanOf, ListPlacements;
    var ps := ListPlacements(s.At(Placements));
    ListUnique(s.At(Placements));
    VictimsDistinct(prio, pod, ps, node, plan);
    forall i | 0 <= i < |plan.victims|
      ensures plan.victims[i].podId in s.At(Placements)
      ensures s.At(Placements)[plan.victims[i].podId] == PlacementV(plan.victims[i])
    {
      VictimsAreLower(prio, pod, ps, node, plan, plan.victims[i]);
      Listed(s.At(Placements), plan.victims[i]);
    }
  }

  lemma TakeIsOn(victims: seq<Placement>, node: string, d: Dimension)
    requires forall i :: 0 <= i < |victims| ==> victims[i].nodeId == node
    ensures Sum(victims, On(node, d)) == Sum(victims, Take(d))
  {
    SumCongruence(victims, On(node, d), Take(d));
  }

  /** What the swap leaves on the chosen node has room for the pod. */
  lemma RoomAfterEviction(spiffe: string -> bool, prio: Priority, s: Store, pod: PendingPod, node: NodeInfo, plan: Plan)
    requires Sound(s) && node in ViewOf(spiffe, s).nodes
    requires PlanOf(prio, pod, ListPlacements(s.At(Placements)), node, plan)
    ensures var left := s.At(Placements) - PodIds(plan.victims);
            IsNode(s.At(Nodes), node.nodeId)
            && FitsWithin(pod.resources,
                          Subtract(s.At(Nodes)[node.nodeId].node.capacity, Used(ListPlacements(left), node.nodeId)))
  {
    hide PlanOf, ListPlacements, ListNodes, Views, Sum, PodIds;
    var t := s.At(Placements);
    var ps, id := ListPlacements(t), node.nodeId;
    NodeOfView(spiffe, s, node);
    VictimsStoredOnce(spiffe, prio, s, pod, node, plan);
    RoomInDimension(prio, pod, t, node, plan, Cpu);
    RoomInDimension(prio, pod, t, node, plan, Memory);
  }

  lemma RoomInDimension(prio: Priority, pod: PendingPod, t: Table, node: NodeInfo, plan: Plan, d: Dimension)
    requires StoredOnce(t, plan.victims) && PlanOf(prio, pod, ListPlacements(t), node, plan)
    requires WithinCapacity(node, ListPlacements(t))
    ensures Usage(ListPlacements(t - PodIds(plan.victims)), node.nodeId, d) + Amount(d, pod.resources)
         <= Amount(d, node.capacity)
  {
    hide PlanOf, ListPlacements, Sum, PodIds;
    var ps := ListPlacements(t);
    SwapStaysWithinCapacity(prio, pod, ps, node, plan, d);
    forall i | 0 <= i < |plan.victims|
      ensures plan.victims[i].nodeId == node.nodeId
    {
      VictimsAreLower(prio, pod, ps, node, plan, plan.victims[i]);
      PlanNodeId(prio, pod, ps, node, plan);
    }
    TakeIsOn(plan.victims, node.nodeId, d);
    RemoveAll(t, plan.victims, On(node.nodeId, d));
  }

  lemma PlanNodeId(prio: Priority, pod: PendingPod, ps: seq<Placement>, node: NodeInfo, plan: Plan)
    requires PlanOf(prio, pod, ps, node, plan)
    ensures plan.nodeId == node.nodeId
  {
  }

  /** A preemption keeps every node within capacity. */
  lemma PreemptedKeepsSound(spiffe: string -> bool, prio: Priority, s: Store, s': Store, pod: PendingPod, plan: Plan)
    requires Sound(s) && Preempted(spiffe, prio, s, s', pod, plan)
    ensures Sound(s')
  {
    hide Steps, PlanOf, Cheaper, ListPlacements, ListNodes, Views, Used, PodIds;
    var node :| node in ViewOf(spiffe, s).nodes && PlanOf(prio, pod, ViewOf(spiffe, s).placements, node, plan);
    PlanNodeId(prio, pod, ViewOf(spiffe, s).placements, node, plan);
    PreemptEffect(spiffe, s, pod, plan);
    RoomAfterEviction(spiffe, prio, s, pod, node, plan);
    var left := s.At(Placements) - PodIds(plan.victims);
    CapacityAfterRemoval(s.At(Nodes), s.At(Placements), left);
    CapacityAfterPut(s.At(Nodes), left, PlacementFor(pod, plan.nodeId));
  }

  lemma CapacityAfterRemoval(nodes: Table, t: Table, t': Table)
    requires CapacityHeld(nodes, t) && Within(t', t)
    ensures CapacityHeld(nodes, t')
  {
    hide Used, ListPlacements;
    forall k | IsNode(nodes, k)
      ensures FitsWithin(Used(ListPlacements(t'), k), nodes[k].node.capacity)
    {
      UsedWithin(t, t', k);
    }
  }

  // ----- preemption and anti-affinity -----

  /** Every sibling of the pod that the preemption leaves in place is far from the chosen node. */
  ghost predicate SiblingsFar(cfg: Config, spiffe: string -> bool, nodes: Table, t: Table, pod: PendingPod,
                              node: string) {
    pod.role in cfg.enforcedRoles ==>
      forall k :: k in t && k != pod.podId && t[k].PlacementV?
                  && t[k].placement.service == pod.service && t[k].placement.role == pod.role
                  ==> FarApart(cfg, spiffe, nodes, t[k].placement.nodeId, node)
  }

  lemma FarApartSymmetric(cfg: Config, spiffe: string -> bool, nodes: Table, m: string, n: string)
    ensures FarApart(cfg, spiffe, nodes, m, n) <==> FarApart(cfg, spiffe, nodes, n, m)
  {
  }

  /** Storing a placement keeps the spread exactly when its siblings are far from its node. */
  lemma SpreadAfterPutIff(cfg: Config, spiffe: string -> bool, nodes: Table, t: Table, pod: PendingPod, node: string)
    requires Spread(cfg, spiffe, nodes, t)
    ensures Spread(cfg, spiffe, nodes, t[pod.podId := PlacementV(PlacementFor(pod, node))])
            <==> SiblingsFar(cfg, spiffe, nodes, t, pod, node)
  {
    hide FarApart;
    var p := PlacementFor(pod, node);
    var t' := t[pod.podId := PlacementV(p)];
    if SiblingsFar(cfg, spiffe, nodes, t, pod, node) {
      forall k, l | k in t' && l in t' && k != l && t'[k].PlacementV? && t'[l].PlacementV?
                    && Siblings(cfg, t'[k].placement, t'[l].placement)
        ensures FarApart(cfg, spiffe, nodes, t'[k].placement.nodeId, t'[l].placement.nodeId)
      {
        if k == pod.podId {
          FarApartSymmetric(cfg, spiffe, nodes, t[l].placement.nodeId, node);
        } else if l != pod.podId {
          assert Siblings(cfg, t[k].placement, t[l].placement);
        }
      }
    }
    if Spread(cfg, spiffe, nodes, t') && pod.role in cfg.enforcedRoles {
      forall k | k in t && k != pod.podId && t[k].PlacementV?
                 && t[k].placement.service == pod.service && t[k].placement.role == pod.role
        ensures FarApart(cfg, spiffe, nodes, t[k].placement.nodeId, node)
      {
        assert Siblings(cfg, t'[k].placement, t'[pod.podId].placement);
      }
    }
  }

  lemma SpreadOfFewer(cfg: Config, spiffe: string -> bool, nodes: Table, t: Table, t': Table)
    requires Spread(cfg, spiffe, nodes, t) && Within(t', t)
    ensures Spread(cfg, spiffe, nodes, t')
  {
    hide FarApart;
    forall k, l | k in t' && l in t' && k != l && t'[k].PlacementV? && t'[l].PlacementV?
                  && Siblings(cfg, t'[k].placement, t'[l].placement)
      ensures FarApart(cfg, spiffe, nodes, t'[k].placement.nodeId, t'[l].placement.nodeId)
    {
      assert Siblings(cfg, t[k].placement, t[l].placement);
    }
  }

  /** Preemption does not check anti-affinity: it keeps the spread exactly when every sibling it leaves in
  place happens to be far from the chosen node. */
  lemma PreemptionKeepsSpreadIff(spiffe: string -> bool, cfg: Config, prio: Priority, s: Store, s': Store,
                                 pod: PendingPod, plan: Plan)
    requires SpreadOut(cfg, spiffe, s) && Preempted(spiffe, prio, s, s', pod, plan)
    ensures SpreadOut(cfg, spiffe, s') <==>
              SiblingsFar(cfg, spiffe, s.At(Nodes), s.At(Placements) - PodIds(plan.victims), pod, plan.nodeId)
  {
    hide Steps, Cheapest, Spread, SiblingsFar, PodIds;
    PreemptEffect(spiffe, s, pod, plan);
    var left := s.At(Placements) - PodIds(plan.victims);
    WithinMinus(s.At(Placements), PodIds(plan.victims));
    SpreadOfFewer(cfg, spiffe, s.At(Nodes), s.At(Placements), left);
    SpreadAfterPutIff(cfg, spiffe, s.At(Nodes), left, pod, plan.nodeId);
  }

  /** A preemption onto a node that hosts a sibling it may not evict puts the two together. */
  lemma PreemptionJoinsSibling(spiffe: string -> bool, cfg: Config, prio: Priority, s: Store, s': Store,
                               pod: PendingPod, plan: Plan, sibling: Placement)
    requires KeyedByPod(s.At(Placements)) && SpreadOut(cfg, spiffe, s) && Preempted(spiffe, prio, s, s', pod, plan)
    requires sibling.podId in s.At(Placements) && s.At(Placements)[sibling.podId] == PlacementV(sibling)
    requires sibling.podId != pod.podId && sibling.service == pod.service && sibling.role == pod.role
    requires pod.role in cfg.enforcedRoles && sibling.nodeId == plan.nodeId && prio(sibling) >= pod.priority
    ensures !SpreadOut(cfg, spiffe, s')
  {
    hide Steps, PlanOf, Spread, ListPlacements, Views;
    PreemptionKeepsSpreadIff(spiffe, cfg, prio, s, s', pod, plan);
    var node :| node in ViewOf(spiffe, s).nodes && PlanOf(prio, pod, ViewOf(spiffe, s).placements, node, plan);
    var left := s.At(Placements) - PodIds(plan.victims);
    VictimsStoredOnce(spiffe, prio, s, pod, node, plan);
    assert sibling.podId !in PodIds(plan.victims) by {
      forall i | 0 <= i < |plan.victims|
        ensures plan.victims[i].podId != sibling.podId
      {
        VictimsAreLower(prio, pod, ListPlacements(s.At(Placements)), node, plan, plan.victims[i]);
      }
    }
    assert sibling.podId in left && !FarApart(cfg, spiffe, s.At(Nodes), sibling.nodeId, plan.nodeId);
  }

  // ----- the theorems -----

  /** One step of a run: a pod scheduled, a pod placed by preemption, or placements removed. */
  datatype Move = Schedule(pod: PendingPod, node: NodeInfo) | Preempt(pod: PendingPod, plan: Plan) | Reduce

  ghost predicate Moves(spiffe: string -> bool, cfg: Config, prio: Priority, s: Store, s': Store, move: Move) {
    match move
    case Schedule(pod, n) => Scheduled(spiffe, cfg, s, s', pod, n)
    case Preempt(pod, plan) => Preempted(spiffe, prio, s, s', pod, plan)
    case Reduce => Reduced(s, s')
  }

  ghost predicate Run(spiffe: string -> bool, cfg: Config, prio: Priority, states: seq<Store>, moves: seq<Move>) {
    && |states| == |moves| + 1
    && forall i :: 0 <= i < |moves| ==> Moves(spiffe, cfg, prio, states[i], states[i + 1], moves[i])
  }

  /** In every run no node ever holds more than its capacity. */
  lemma {:induction false} CapacityHoldsInEveryRun(spiffe: string -> bool, cfg: Config, prio: Priority,
                                                   states: seq<Store>, moves: seq<Move>, n: nat)
    requires Run(spiffe, cfg, prio, states, moves) && n < |states| && Sound(states[0])
    ensures Sound(states[n])
  {
    hide Scheduled, Preempted, Reduced, Sound;
    if n > 0 {
      CapacityHoldsInEveryRun(spiffe, cfg, prio, states, moves, n - 1);
      var s, s' := states[n - 1], states[n];
      assert Moves(spiffe, cfg, prio, states[n - 1], states[n - 1 + 1], moves[n - 1]);
      match moves[n - 1]
      case Schedule(pod, node) => ScheduledKeepsSound(spiffe, cfg, s, s', pod, node);
      case Preempt(pod, plan) => PreemptedKeepsSound(spiffe, prio, s, s', pod, plan);
      case Reduce => ReducedKeepsSound(s, s');
    }
  }

  /** Every preemption of the first `n` moves leaves its pod's remaining siblings far from the node it takes. */
  ghost predicate PreemptionsKeepAway(cfg: Config, spiffe: string -> bool, states: seq<Store>, moves: seq<Move>, n: nat)
    requires n <= |moves| <= |states|
  {
    forall i :: 0 <= i < n && moves[i].Preempt? ==>
      SiblingsFar(cfg, spiffe, states[i].At(Nodes), states[i].At(Placements) - PodIds(moves[i].plan.victims),
                  moves[i].pod, moves[i].plan.nodeId)
  }

  /** In every run whose preemptions, if any, keep away from siblings, no two placements of an enforced
  (service, role) ever share a node or a failure domain. */
  lemma {:induction false} SpreadHoldsInEveryRun(spiffe: string -> bool, cfg: Config, prio: Priority,
                                                 states: seq<Store>, moves: seq<Move>, n: nat)
    requires Run(spiffe, cfg, prio, states, moves) && n < |states|
    requires Sound(states[0]) && SpreadOut(cfg, spiffe, states[0])
    requires PreemptionsKeepAway(cfg, spiffe, states, moves, n)
    ensures SpreadOut(cfg, spiffe, states[n])
  {
    hide Scheduled, Preempted, Reduced, Sound, SpreadOut, SiblingsFar;
    if n > 0 {
      SpreadHoldsInEveryRun(spiffe, cfg, prio, states, moves, n - 1);
      CapacityHoldsInEveryRun(spiffe, cfg, prio, states, moves, n - 1);
      var s, s' := states[n - 1], states[n];
      assert Moves(spiffe, cfg, prio, states[n - 1], states[n - 1 + 1], moves[n - 1]);
      match moves[n - 1]
      case Schedule(pod, node) => ScheduledKeepsSpread(spiffe, cfg, s, s', pod, node);
      case Preempt(pod, plan) => PreemptionKeepsSpreadIff(spiffe, cfg, prio, s, s', pod, plan);
      case Reduce => ReducedKeepsSpread(cfg, spiffe, s, s');
    }
  }

  /** Removing a placement, a heartbeat, and cordoning or uncordoning a node that is registered or hosts nothing are
  reductions. */
  lemma CommandsThatReduce(spiffe: string -> bool, s: Store, s': Store, cmd: Command)
    requires Step(spiffe, s, cmd) == Ok(s')
    requires || cmd.RemovePlacement? || cmd.NodeHeartbeat?
             || (cmd.SetNodeSchedulable?
                 && (IsNode(s.At(Nodes), cmd.nodeId) || HostsNothing(s.At(Placements), cmd.nodeId)))
    ensures Reduced(s, s')
  {
    if cmd.RemovePlacement? {
      StepFrame(spiffe, s, cmd, Nodes);
      RemoveStep(spiffe, s, cmd.podId);
    } else {
      StepFrame(spiffe, s, cmd, Placements);
      NodeUpdateReduces(spiffe, s, s', cmd);
    }
  }

  lemma NodeUpdateReduces(spiffe: string -> bool, s: Store, s': Store, cmd: Command)
    requires Step(spiffe, s, cmd) == Ok(s')
    requires || cmd.NodeHeartbeat?
             || (cmd.SetNodeSchedulable?
                 && (IsNode(s.At(Nodes), cmd.nodeId) || HostsNothing(s.At(Placements), cmd.nodeId)))
    ensures SameHosts(s.At(Nodes), s'.At(Nodes), s.At(Placements))
  {
    hide SameHosts, Commit, SchedulableBatch, HeartbeatBatch;
    var nodes := s.At(Nodes);
    var batch := Batch(spiffe, Reads(s), cmd).value;
    if cmd.NodeHeartbeat? {
      HeartbeatHosts(nodes, s.At(Placements), cmd.nodeId, cmd.lastHeartbeat, batch);
    } else {
      SchedulableHosts(nodes, s.At(Placements), cmd.nodeId, cmd.schedulable, batch);
    }
    if batch != [] {
      CommitOne(s, batch[0]);
      assert batch == [batch[0]];
    } else {
      CommitNothing(s);
    }
  }

  lemma HeartbeatHosts(nodes: Table, t: Table, n: string, at: int, batch: seq<Op>)
    requires HeartbeatBatch(nodes, n, at) == Ok(batch)
    ensures SameHosts(nodes, nodes, t) && |batch| <= 1
    ensures batch != [] ==>
              batch[0].Put? && batch[0].ks == Nodes && SameHosts(nodes, nodes[batch[0].key := batch[0].value], t)
  {
  }

  lemma SchedulableHosts(nodes: Table, t: Table, n: string, schedulable: bool, batch: seq<Op>)
    requires SchedulableBatch(nodes, n, schedulable) == Ok(batch) && (IsNode(nodes, n) || HostsNothing(t, n))
    ensures |batch| == 1 && batch[0].Put? && batch[0].ks == Nodes
    ensures SameHosts(nodes, nodes[batch[0].key := batch[0].value], t)
  {
    hide HostsNothing;
  }

  lemma WithinMinus(t: Table, ids: set<string>)
    ensures Within(t - ids, t)
  {
  }

  /** Scaling a workload is a reduction too. */
  lemma ScaleReduces(spiffe: string -> bool, s: Store, s': Store, w: WorkloadRecord)
    requires KeyedByPod(s.At(Placements)) && Step(spiffe, s, ScaleWorkload(w)) == Ok(s')
    ensures Reduced(s, s')
  {
    hide Commit, ScaleBatch;
    StepFrame(spiffe, s, ScaleWorkload(w), Nodes);
    ScalePrunes(s, w);
    WithinMinus(s.At(Placements), Selected(s.At(Placements), BeyondReplicas(w.tenantId, w.workloadId, Replicas(w))));
  }

  // ----- stores with a single node -----

  lemma {:induction false} SumAtLeast<T>(xs: seq<T>, x: T, f: T -> nat)
    requires x in xs
    ensures Sum(xs, f) >= f(x)
  {
    if xs[0] != x {
      SumAtLeast(xs[1..], x, f);
    }
  }

  /** On a store with a single node, its plan is the cheapest. */
  lemma OnlyPlanIsCheapest(spiffe: string -> bool, prio: Priority, s: Store, id: string, pod: PendingPod,
                           node: NodeInfo, plan: Plan)
    requires KeyedByNode(s.At(Nodes)) && forall k :: IsNode(s.At(Nodes), k) ==> k == id
    requires node in ViewOf(spiffe, s).nodes && PlanOf(prio, pod, ViewOf(spiffe, s).placements, node, plan)
    ensures Cheapest(prio, pod, ViewOf(spiffe, s), plan)
  {
    hide PlanOf, Cheaper, ListPlacements, ListNodes, Views;
    NodeOfView(spiffe, s, node);
    forall n, other | n in ViewOf(spiffe, s).nodes && PlanOf(prio, pod, ViewOf(spiffe, s).placements, n, other)
      ensures !Cheaper(prio, other, plan)
    {
      NodeOfView(spiffe, s, n);
      PlanOfUnique(prio, pod, ViewOf(spiffe, s).placements, node, plan, other);
      CheaperIrreflexive(prio, plan);
    }
  }
}
