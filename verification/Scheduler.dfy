/** Filter, score and select: which node a pending pod goes to, and why the answer does not depend on
the order in which nodes and placements are listed. */
module Scheduler {
  import opened Decimal
  import opened Records
  import opened Bytes
  import opened Sums
  import opened Sorting
  import opened Taints
  import opened Cluster

  datatype PendingPod = PendingPod(
    podId: string,
    tenantId: string,
    service: string,
    role: string,
    ordinal: nat,
    resources: Resources,
    priority: int,
    tolerations: seq<Toleration>)

  datatype Packing = MostAllocated | LeastAllocated

  datatype Config = Config(
    crossZone: bool,
    enforcedRoles: seq<string>,
    tenantWeight: real,
    podWeight: real,
    packing: Packing)

  /** `DefaultScheduler::new`. */
  const DEFAULT := Config(true, ["replica"], 1.0, 0.5, MostAllocated)

  // ----- filters -----

  function FindNode(nodes: seq<NodeInfo>, id: string): Option<NodeInfo> {
    if nodes == [] then None
    else if nodes[0].nodeId == id then Some(nodes[0])
    else FindNode(nodes[1..], id)
  }

  /** A placement keeps its distance from a node: another node and, across zones, another domain. */
  predicate Apart(cfg: Config, nodes: seq<NodeInfo>, p: Placement, node: NodeInfo) {
    && p.nodeId != node.nodeId
    && (cfg.crossZone ==>
          var host := FindNode(nodes, p.nodeId);
          host.Some? ==> host.value.failureDomain != node.failureDomain)
  }

  /** `check_anti_affinity`: siblings are the placements of the same service and role, whatever their tenant. */
  predicate AntiAffine(cfg: Config, pod: PendingPod, node: NodeInfo, state: ClusterState) {
    pod.role in cfg.enforcedRoles ==>
      forall i :: 0 <= i < |state.placements|
                  && state.placements[i].service == pod.service && state.placements[i].role == pod.role
                  ==> Apart(cfg, state.nodes, state.placements[i], node)
  }

  predicate Candidate(cfg: Config, pod: PendingPod, node: NodeInfo, state: ClusterState) {
    && node.schedulable
    && FitsWithin(pod.resources, node.available)
    && AntiAffine(cfg, pod, node, state)
    && PassesFilter(pod.tolerations, node.taints)
  }

  // ----- scores -----

  function OfTenant(tenant: string): Placement -> nat {
    (p: Placement) => if p.tenantId == tenant then 1 else 0
  }

  function OfTenantOn(tenant: string, node: string): Placement -> nat {
    (p: Placement) => if p.nodeId == node && p.tenantId == tenant then 1 else 0
  }

  function MaxPods(nodes: seq<NodeInfo>): nat {
    if nodes == [] then 0
    else
      var rest := MaxPods(nodes[1..]);
      if nodes[0].podCount > rest then nodes[0].podCount else rest
  }

  function TenantScore(onNode: nat, total: nat, nodes: nat): real
    requires nodes > 0
  {
    var ideal := total as real / nodes as real;
    if onNode as real <= ideal then 1.0
    else
      var score := 1.0 - (onNode as real - ideal) / (ideal + 1.0);
      if score > 0.0 then score else 0.0
  }

  function PodScore(podCount: nat, maxPods: nat): real {
    if maxPods > 0 then 1.0 - podCount as real / maxPods as real else 1.0
  }

  /** `score_topology_spread`. */
  function TopologyScore(cfg: Config, pod: PendingPod, node: NodeInfo, state: ClusterState): real {
    var nodes := if |state.nodes| == 0 then 1 else |state.nodes|;
    var maxPods := if |state.nodes| == 0 then 1 else MaxPods(state.nodes);
    var tenant := TenantScore(Sum(state.placements, OfTenantOn(pod.tenantId, node.nodeId)),
                              Sum(state.placements, OfTenant(pod.tenantId)), nodes);
    Weighted(tenant, PodScore(node.podCount, maxPods), cfg.tenantWeight, cfg.podWeight)
  }

  function Weighted(x: real, y: real, u: real, v: real): real {
    if u + v > 0.0 then (x * u + y * v) / (u + v) else 0.0
  }

  function Minus(a: nat, b: nat): nat {
    if a >= b then a - b else 0
  }

  function Utilization(capacity: nat, available: nat, requested: nat): real {
    if capacity > 0 then Minus(capacity, Minus(available, requested)) as real / capacity as real else 0.0
  }

  /** `score_binpack`. */
  function BinpackScore(cfg: Config, requested: Resources, node: NodeInfo): real {
    var cpu := Utilization(node.capacity.cpu, node.available.cpu, requested.cpu);
    var memory := Utilization(node.capacity.memory, node.available.memory, requested.memory);
    var combined := (cpu + memory) / 2.0;
    match cfg.packing
    case MostAllocated => combined
    case LeastAllocated => 1.0 - combined
  }

  const PREFER_NO_SCHEDULE_PENALTY := 0.25

  function Rank(cfg: Config, pod: PendingPod, node: NodeInfo, state: ClusterState): real {
    var penalty := Penalties(pod.tolerations, node.taints) as real * PREFER_NO_SCHEDULE_PENALTY;
    (TopologyScore(cfg, pod, node, state) - penalty) * 1000.0 + BinpackScore(cfg, pod.resources, node)
  }

  lemma Ratio(a: real, b: real)
    requires 0.0 <= a <= b && b > 0.0
    ensures 0.0 <= a / b <= 1.0
  {
  }

  lemma TenantScoreInRange(onNode: nat, total: nat, nodes: nat)
    requires nodes > 0
    ensures 0.0 <= TenantScore(onNode, total, nodes) <= 1.0
  {
    var ideal := total as real / nodes as real;
    assert ideal >= 0.0;
    if onNode as real > ideal {
      assert (onNode as real - ideal) / (ideal + 1.0) >= 0.0;
    }
  }

  lemma {:induction false} MaxPodsBound(nodes: seq<NodeInfo>)
    ensures forall n :: n in nodes ==> n.podCount <= MaxPods(nodes)
    ensures nodes != [] ==> exists n :: n in nodes && n.podCount == MaxPods(nodes)
  {
    if nodes != [] {
      MaxPodsBound(nodes[1..]);
      assert nodes == [nodes[0]] + nodes[1..];
      assert nodes[0] in nodes;
    }
  }

  lemma WeightedInRange(x: real, y: real, u: real, v: real)
    requires 0.0 <= x <= 1.0 && 0.0 <= y <= 1.0 && 0.0 <= u && 0.0 <= v
    ensures 0.0 <= Weighted(x, y, u, v) <= 1.0
  {
    if u + v > 0.0 {
      var p, q := x * u, y * v;
      Scale(x, u, p);
      Scale(y, v, q);
      Ratio(p + q, u + v);
    }
  }

  lemma PodScoreInRange(podCount: nat, maxPods: nat)
    requires podCount <= maxPods
    ensures 0.0 <= PodScore(podCount, maxPods) <= 1.0
  {
    if maxPods > 0 {
      Ratio(podCount as real, maxPods as real);
    }
  }

  lemma Scale(x: real, u: real, p: real)
    requires 0.0 <= x <= 1.0 && 0.0 <= u && p == x * u
    ensures 0.0 <= p <= u
  {
    NonNegative(x, u);
    NonNegative(1.0 - x, u);
    assert (1.0 - x) * u == u - x * u;
  }

  lemma NonNegative(a: real, b: real)
    requires a >= 0.0 && b >= 0.0
    ensures a * b >= 0.0
  {
  }

  /** Both scores are normalised: they lie between 0 and 1. */
  lemma ScoresInRange(cfg: Config, pod: PendingPod, node: NodeInfo, state: ClusterState)
    requires node in state.nodes && cfg.tenantWeight >= 0.0 && cfg.podWeight >= 0.0
    ensures 0.0 <= TopologyScore(cfg, pod, node, state) <= 1.0
    ensures 0.0 <= BinpackScore(cfg, pod.resources, node) <= 1.0
  {
    TopologyInRange(cfg, pod, node, state);
    UtilizationInRange(node.capacity.cpu, node.available.cpu, pod.resources.cpu);
    UtilizationInRange(node.capacity.memory, node.available.memory, pod.resources.memory);
  }

  lemma TopologyInRange(cfg: Config, pod: PendingPod, node: NodeInfo, state: ClusterState)
    requires node in state.nodes && cfg.tenantWeight >= 0.0 && cfg.podWeight >= 0.0
    ensures 0.0 <= TopologyScore(cfg, pod, node, state) <= 1.0
  {
    hide Sum, TenantScore, PodScore, Weighted, MaxPods;
    MaxPodsBound(state.nodes);
    var onNode := Sum(state.placements, OfTenantOn(pod.tenantId, node.nodeId));
    var total := Sum(state.placements, OfTenant(pod.tenantId));
    TenantScoreInRange(onNode, total, |state.nodes|);
    PodScoreInRange(node.podCount, MaxPods(state.nodes));
    WeightedInRange(TenantScore(onNode, total, |state.nodes|), PodScore(node.podCount, MaxPods(state.nodes)),
                    cfg.tenantWeight, cfg.podWeight);
  }

  lemma UtilizationInRange(capacity: nat, available: nat, requested: nat)
    ensures 0.0 <= Utilization(capacity, available, requested) <= 1.0
  {
    if capacity > 0 {
      Ratio(Minus(capacity, Minus(available, requested)) as real, capacity as real);
    }
  }

  // ----- selection -----

  /** Higher rank first, then the lower node id. */
  predicate Ahead(a: (real, NodeInfo), b: (real, NodeInfo)) {
    a.0 > b.0 || (a.0 == b.0 && AtMost(a.1.nodeId, b.1.nodeId))
  }

  lemma AheadIsTotalPreorder()
    ensures TotalPreorder(Ahead)
  {
    AtMostIsTotalPreorder();
  }

  /** The node is a candidate and no other candidate is ahead of it. */
  ghost predicate Best(cfg: Config, pod: PendingPod, state: ClusterState, node: NodeInfo) {
    && node in state.nodes && Candidate(cfg, pod, node, state)
    && forall n :: n in state.nodes && Candidate(cfg, pod, n, state) ==>
         Ahead((Rank(cfg, pod, node, state), node), (Rank(cfg, pod, n, state), n))
  }

  /** `filter_nodes`. */
  method FilterNodes(cfg: Config, pod: PendingPod, state: ClusterState) returns (candidates: seq<NodeInfo>)
    ensures forall n :: n in candidates <==> n in state.nodes && Candidate(cfg, pod, n, state)
  {
    hide AntiAffine, PassesFilter;
    candidates := [];
    for i := 0 to |state.nodes|
      invariant forall n :: n in candidates <==> n in state.nodes[..i] && Candidate(cfg, pod, n, state)
    {
      var node := state.nodes[i];
      if !node.schedulable {
        continue;
      }
      if !FitsWithin(pod.resources, node.available) {
        continue;
      }
      if !AntiAffine(cfg, pod, node, state) {
        continue;
      }
      if !PassesFilter(pod.tolerations, node.taints) {
        continue;
      }
      candidates := candidates + [node];
    }
    assert state.nodes[..|state.nodes|] == state.nodes;
  }

  /** `score_nodes`: every candidate with its rank, best first. */
  method ScoreNodes(cfg: Config, pod: PendingPod, candidates: seq<NodeInfo>, state: ClusterState)
    returns (scored: seq<(real, NodeInfo)>)
    ensures Sorted(scored, Ahead) && |scored| == |candidates|
    ensures forall x :: x in scored <==> x.1 in candidates && x.0 == Rank(cfg, pod, x.1, state)
  {
    hide Rank;
    var list: seq<(real, NodeInfo)> := [];
    for i := 0 to |candidates|
      invariant |list| == i
      invariant forall x :: x in list <==> x.1 in candidates[..i] && x.0 == Rank(cfg, pod, x.1, state)
    {
      list := list + [(Rank(cfg, pod, candidates[i], state), candidates[i])];
    }
    assert candidates[..|candidates|] == candidates;
    AheadIsTotalPreorder();
    SortPermutes(list, Ahead);
    SortSorted(list, Ahead);
    scored := Sort(list, Ahead);
  }

  /** `schedule`: the best candidate, and nothing exactly when no node passes the filters. */
  method Schedule(cfg: Config, pod: PendingPod, state: ClusterState) returns (chosen: Option<NodeInfo>)
    ensures chosen.None? <==> forall n :: n in state.nodes ==> !Candidate(cfg, pod, n, state)
    ensures chosen.Some? ==> Best(cfg, pod, state, chosen.value)
  {
    hide Rank, Candidate;
    var candidates := FilterNodes(cfg, pod, state);
    if candidates == [] {
      return None;
    }
    assert candidates[0] in candidates;
    var scored := ScoreNodes(cfg, pod, candidates, state);
    var best := scored[0].1;
    assert scored[0] in scored;
    forall n | n in state.nodes && Candidate(cfg, pod, n, state)
      ensures Ahead((Rank(cfg, pod, best, state), best), (Rank(cfg, pod, n, state), n))
    {
      var x := (Rank(cfg, pod, n, state), n);
      assert n in candidates && x in scored;
      var i :| 0 <= i < |scored| && scored[i] == x;
      if i == 0 {
        assert AtMost(n.nodeId, n.nodeId);
      }
    }
    return Some(best);
  }

  // ----- the order of the lists does not matter -----

  lemma {:induction false} FindNodeFinds(nodes: seq<NodeInfo>, id: string)
    requires DistinctIds(nodes)
    ensures FindNode(nodes, id).None? <==> forall n :: n in nodes ==> n.nodeId != id
    ensures forall n :: n in nodes && n.nodeId == id ==> FindNode(nodes, id) == Some(n)
  {
    if nodes != [] {
      FindNodeFinds(nodes[1..], id);
      assert nodes == [nodes[0]] + nodes[1..];
      forall n | n in nodes[1..]
        ensures n.nodeId != nodes[0].nodeId
      {
        var j :| 0 <= j < |nodes[1..]| && nodes[1..][j] == n;
        assert nodes[0].nodeId != nodes[j + 1].nodeId;
      }
    }
  }

  lemma FindNodeSame(a: ClusterState, b: ClusterState, id: string)
    requires SameView(a, b) && DistinctIds(a.nodes) && DistinctIds(b.nodes)
    ensures FindNode(a.nodes, id) == FindNode(b.nodes, id)
  {
    SameElements(a.nodes, b.nodes);
    FindNodeFinds(a.nodes, id);
    FindNodeFinds(b.nodes, id);
  }

  lemma AntiAffineSame(cfg: Config, pod: PendingPod, node: NodeInfo, a: ClusterState, b: ClusterState)
    requires SameView(a, b) && DistinctIds(a.nodes) && DistinctIds(b.nodes)
    requires AntiAffine(cfg, pod, node, a)
    ensures AntiAffine(cfg, pod, node, b)
  {
    SameElements(a.placements, b.placements);
    if pod.role in cfg.enforcedRoles {
      forall j | 0 <= j < |b.placements| && b.placements[j].service == pod.service && b.placements[j].role == pod.role
        ensures Apart(cfg, b.nodes, b.placements[j], node)
      {
        assert b.placements[j] in a.placements;
        var i :| 0 <= i < |a.placements| && a.placements[i] == b.placements[j];
        assert Apart(cfg, a.nodes, a.placements[i], node);
        FindNodeSame(a, b, b.placements[j].nodeId);
      }
    }
  }

  lemma MaxPodsSame(a: seq<NodeInfo>, b: seq<NodeInfo>)
    requires multiset(a) == multiset(b)
    ensures MaxPods(a) == MaxPods(b)
  {
    SameElements(a, b);
    MaxPodsBound(a);
    MaxPodsBound(b);
  }

  lemma RankSame(cfg: Config, pod: PendingPod, node: NodeInfo, a: ClusterState, b: ClusterState)
    requires SameView(a, b)
    ensures Rank(cfg, pod, node, a) == Rank(cfg, pod, node, b)
  {
    hide TenantScore, PodScore, Weighted, BinpackScore, MaxPods, Penalties, Sum;
    SameElements(a.nodes, b.nodes);
    MaxPodsSame(a.nodes, b.nodes);
    SumPermutation(a.placements, b.placements, OfTenant(pod.tenantId));
    SumPermutation(a.placements, b.placements, OfTenantOn(pod.tenantId, node.nodeId));
  }

  lemma BestCarriesOver(cfg: Config, pod: PendingPod, a: ClusterState, b: ClusterState, node: NodeInfo)
    requires SameView(a, b) && DistinctIds(a.nodes) && DistinctIds(b.nodes)
    requires Best(cfg, pod, a, node)
    ensures Best(cfg, pod, b, node)
  {
    hide Rank, AntiAffine, PassesFilter, SameView, DistinctIds;
    SameViewNodes(a, b);
    AntiAffineSame(cfg, pod, node, a, b);
    RankSame(cfg, pod, node, a, b);
    forall n | n in b.nodes && Candidate(cfg, pod, n, b)
      ensures Ahead((Rank(cfg, pod, node, b), node), (Rank(cfg, pod, n, b), n))
    {
      SameViewFlip(a, b);
      AntiAffineSame(cfg, pod, n, b, a);
      RankSame(cfg, pod, n, a, b);
      assert Candidate(cfg, pod, n, a);
    }
  }

  lemma SameViewNodes(a: ClusterState, b: ClusterState)
    requires SameView(a, b)
    ensures forall n :: n in a.nodes <==> n in b.nodes
  {
    SameElements(a.nodes, b.nodes);
  }

  lemma SameViewFlip(a: ClusterState, b: ClusterState)
    requires SameView(a, b)
    ensures SameView(b, a)
  {
  }

  /** No candidate ranks above the best one, and none that ranks equal has a lower id. */
  lemma BestRanksHighest(cfg: Config, pod: PendingPod, state: ClusterState, best: NodeInfo, n: NodeInfo)
    requires Best(cfg, pod, state, best) && n in state.nodes && Candidate(cfg, pod, n, state)
    ensures Rank(cfg, pod, n, state) <= Rank(cfg, pod, best, state)
    ensures Rank(cfg, pod, n, state) == Rank(cfg, pod, best, state) ==>
              best.nodeId == n.nodeId || Less(best.nodeId, n.nodeId)
  {
    hide Rank, Candidate;
  }

  /** There is at most one best node. */
  lemma BestIsUnique(cfg: Config, pod: PendingPod, state: ClusterState, m: NodeInfo, n: NodeInfo)
    requires DistinctIds(state.nodes) && Best(cfg, pod, state, m) && Best(cfg, pod, state, n)
    ensures m == n
  {
    hide Rank, Candidate;
    BestRanksHighest(cfg, pod, state, m, n);
    BestRanksHighest(cfg, pod, state, n, m);
    if m.nodeId != n.nodeId {
      LessAsymmetric(m.nodeId, n.nodeId);
    }
    FindNodeFinds(state.nodes, m.nodeId);
  }

  /** Scheduling the same pod on the same nodes and placements, listed in any order, chooses the same
  node. */
  lemma ChoiceIsOrderIndependent(cfg: Config, pod: PendingPod, a: ClusterState, b: ClusterState, m: NodeInfo,
                                 n: NodeInfo)
    requires SameView(a, b) && DistinctIds(a.nodes) && DistinctIds(b.nodes)
    requires Best(cfg, pod, a, m) && Best(cfg, pod, b, n)
    ensures m == n
  {
    BestCarriesOver(cfg, pod, a, b, m);
    BestIsUnique(cfg, pod, b, m, n);
  }

  /** Whether any node passes the filters does not depend on the order either. */
  lemma RefusalIsOrderIndependent(cfg: Config, pod: PendingPod, a: ClusterState, b: ClusterState)
    requires SameView(a, b) && DistinctIds(a.nodes) && DistinctIds(b.nodes)
    requires forall n :: n in a.nodes ==> !Candidate(cfg, pod, n, a)
    ensures forall n :: n in b.nodes ==> !Candidate(cfg, pod, n, b)
  {
    hide AntiAffine, PassesFilter, SameView, DistinctIds;
    SameViewNodes(a, b);
    SameViewFlip(a, b);
    forall n | n in b.nodes
      ensures !Candidate(cfg, pod, n, b)
    {
      if AntiAffine(cfg, pod, n, b) {
        AntiAffineSame(cfg, pod, n, b, a);
      }
      assert !Candidate(cfg, pod, n, a);
    }
  }

  /** The whole decision, from the stored records and placements listed in any order. */
  lemma DecisionIsOrderIndependent(spiffe: string -> bool, cfg: Config, pod: PendingPod, a: seq<NodeRecord>,
                                   b: seq<NodeRecord>, ps: seq<Placement>, qs: seq<Placement>,
                                   taints: map<string, seq<NodeTaint>>, m: NodeInfo, n: NodeInfo)
    requires multiset(a) == multiset(b) && multiset(ps) == multiset(qs) && DistinctRecords(a) && DistinctRecords(b)
    requires Best(cfg, pod, ClusterState(Views(spiffe, a, ps, taints), ps), m)
    requires Best(cfg, pod, ClusterState(Views(spiffe, b, qs, taints), qs), n)
    ensures m == n
  {
    hide Best, Views;
    BuildOrderIndependent(spiffe, a, b, ps, qs, taints);
    ViewsDistinct(spiffe, a, ps, taints);
    ViewsDistinct(spiffe, b, qs, taints);
    ChoiceIsOrderIndependent(cfg, pod, ClusterState(Views(spiffe, a, ps, taints), ps),
                             ClusterState(Views(spiffe, b, qs, taints), qs), m, n);
  }
}
