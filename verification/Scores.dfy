/** What the scheduler's scores measure, and which of them decides. */
module Scores {
  import opened Records
  import opened Sums
  import opened Taints
  import opened Cluster
  import opened Scheduler

  // ----- what is measured -----

  /** A node with no more than the even share of the tenant's pods scores 1, one with a pod or more over twice the
  share scores 0, and in between the score falls evenly. */
  lemma TenantScoreMeans(onNode: nat, total: nat, nodes: nat)
    requires nodes > 0
    ensures var share, score := total as real / nodes as real, TenantScore(onNode, total, nodes);
            && (score == 1.0 <==> onNode as real <= share)
            && (score == 0.0 <==> onNode as real >= 2.0 * share + 1.0)
            && (share <= onNode as real <= 2.0 * share + 1.0 ==>
                  (1.0 - score) * (share + 1.0) == onNode as real - share)
  {
    var share := total as real / nodes as real;
    assert share >= 0.0;
    Quotient(onNode as real - share, share + 1.0);
  }

  lemma Quotient(a: real, b: real)
    requires b >= 1.0
    ensures a / b * b == a
    ensures a / b >= 1.0 <==> a >= b
    ensures a / b > 0.0 <==> a > 0.0
  {
    var q := a / b;
    assert q * b == a;
    if q >= 1.0 {
      assert (q - 1.0) * b >= 0.0;
    } else {
      assert (1.0 - q) * b > 0.0;
    }
  }

  /** The emptier a node next to the fullest one, the higher it scores. */
  lemma PodScoreMeans(podCount: nat, maxPods: nat)
    ensures PodScore(podCount, maxPods) * maxPods as real
         == if maxPods > 0 then (maxPods as real - podCount as real) else 0.0
    ensures maxPods == 0 ==> PodScore(podCount, maxPods) == 1.0
  {
    if maxPods > 0 {
      assert podCount as real / maxPods as real * maxPods as real == podCount as real;
    }
  }

  /** The topology score is the weighted mean of the tenant's spread over the nodes and the spread of all pods. */
  lemma TopologyMeans(cfg: Config, pod: PendingPod, node: NodeInfo, state: ClusterState)
    requires node in state.nodes && cfg.tenantWeight + cfg.podWeight > 0.0
    ensures var here := (p: Placement) => if p.tenantId == pod.tenantId && p.nodeId == node.nodeId then 1 else 0;
            var all := (p: Placement) => if p.tenantId == pod.tenantId then 1 else 0;
            TopologyScore(cfg, pod, node, state) * (cfg.tenantWeight + cfg.podWeight)
            == TenantScore(Sum(state.placements, here), Sum(state.placements, all), |state.nodes|) * cfg.tenantWeight
               + PodScore(node.podCount, MaxPods(state.nodes)) * cfg.podWeight
  {
    hide TenantScore, PodScore, MaxPods, Sum;
    var here := (p: Placement) => if p.tenantId == pod.tenantId && p.nodeId == node.nodeId then 1 else 0;
    var all := (p: Placement) => if p.tenantId == pod.tenantId then 1 else 0;
    SumCongruence(state.placements, here, OfTenantOn(pod.tenantId, node.nodeId));
    SumCongruence(state.placements, all, OfTenant(pod.tenantId));
    var x := TenantScore(Sum(state.placements, here), Sum(state.placements, all), |state.nodes|);
    var y := PodScore(node.podCount, MaxPods(state.nodes));
    WeightedMeans(x, y, cfg.tenantWeight, cfg.podWeight);
  }

  lemma WeightedMeans(x: real, y: real, u: real, v: real)
    requires u + v > 0.0
    ensures Weighted(x, y, u, v) * (u + v) == x * u + y * v
  {
  }

  /** By default the tenant's spread counts twice as much as the spread of all pods. */
  lemma DefaultWeights(x: real, y: real)
    ensures Weighted(x, y, DEFAULT.tenantWeight, DEFAULT.podWeight) * 3.0 == 2.0 * x + y
    ensures DEFAULT.crossZone && DEFAULT.enforcedRoles == ["replica"] && DEFAULT.packing == MostAllocated
  {
  }

  /** The share of a node's capacity in use once the request is granted. */
  lemma UtilizationMeans(capacity: nat, available: nat, requested: nat)
    requires available <= capacity
    ensures capacity == 0 ==> Utilization(capacity, available, requested) == 0.0
    ensures requested <= available && capacity > 0 ==>
              Utilization(capacity, available, requested) * capacity as real
              == (capacity - available + requested) as real
    ensures requested > available && capacity > 0 ==> Utilization(capacity, available, requested) == 1.0
  {
    if capacity > 0 {
      var used := Minus(capacity, Minus(available, requested));
      assert used as real / capacity as real * capacity as real == used as real;
    }
  }

  /** Packing takes the mean of both shares, as it is or reversed. */
  lemma BinpackMeans(cfg: Config, requested: Resources, node: NodeInfo)
    ensures var cpu := Utilization(node.capacity.cpu, node.available.cpu, requested.cpu);
            var memory := Utilization(node.capacity.memory, node.available.memory, requested.memory);
            && (cfg.packing == MostAllocated ==> BinpackScore(cfg, requested, node) * 2.0 == cpu + memory)
            && (cfg.packing == LeastAllocated ==> BinpackScore(cfg, requested, node) * 2.0 == 2.0 - cpu - memory)
  {
  }

  // ----- penalties -----

  /** Penalties add up over the taints. */
  lemma {:induction false} PenaltiesConcat(tolerations: seq<Toleration>, a: seq<NodeTaint>, b: seq<NodeTaint>)
    ensures Penalties(tolerations, a + b) == Penalties(tolerations, a) + Penalties(tolerations, b)
  {
    if a == [] {
      assert a + b == b;
    } else {
      assert (a + b)[1..] == a[1..] + b;
      PenaltiesConcat(tolerations, a[1..], b);
    }
  }

  lemma PenaltyOne(tolerations: seq<Toleration>, taint: NodeTaint)
    ensures Penalties(tolerations, [taint])
         == if taint.effect == "PreferNoSchedule" && !IsTolerated(tolerations, taint) then 1 else 0
  {
    assert [taint][1..] == [];
  }

  /** One more untolerated soft taint costs a node a quarter of the topology score; a tolerated one, or one of another
  effect, costs nothing. */
  lemma SoftTaintCosts(cfg: Config, pod: PendingPod, node: NodeInfo, state: ClusterState, taint: NodeTaint)
    requires node in state.nodes
    ensures var tainted := node.(taints := node.taints + [taint]);
            Rank(cfg, pod, tainted, state)
            == Rank(cfg, pod, node, state)
               - if taint.effect == "PreferNoSchedule" && !IsTolerated(pod.tolerations, taint) then 250.0 else 0.0
  {
    hide Penalties, IsTolerated;
    PenaltiesConcat(pod.tolerations, node.taints, [taint]);
    PenaltyOne(pod.tolerations, taint);
    var tainted := node.(taints := node.taints + [taint]);
    assert TopologyScore(cfg, pod, tainted, state) == TopologyScore(cfg, pod, node, state);
    assert BinpackScore(cfg, pod.resources, tainted) == BinpackScore(cfg, pod.resources, node);
  }

  // ----- what decides -----

  /** What comes before packing: the spread, less the soft taints. */
  function Standing(cfg: Config, pod: PendingPod, node: NodeInfo, state: ClusterState): real {
    TopologyScore(cfg, pod, node, state) - Penalties(pod.tolerations, node.taints) as real / 4.0
  }

  /** Spread and soft taints decide when they differ by a thousandth or more, and packing decides between equals. */
  lemma SpreadDecides(cfg: Config, pod: PendingPod, a: NodeInfo, b: NodeInfo, state: ClusterState)
    requires a in state.nodes && b in state.nodes
    ensures Standing(cfg, pod, a, state) - Standing(cfg, pod, b, state) > 0.001 ==>
              Rank(cfg, pod, a, state) > Rank(cfg, pod, b, state)
    ensures Standing(cfg, pod, a, state) == Standing(cfg, pod, b, state) ==>
              (Rank(cfg, pod, a, state) > Rank(cfg, pod, b, state)
               <==> BinpackScore(cfg, pod.resources, a) > BinpackScore(cfg, pod.resources, b))
  {
    hide TopologyScore, Penalties, BinpackScore;
    BinpackInRange(cfg, pod.resources, a);
    BinpackInRange(cfg, pod.resources, b);
  }

  lemma BinpackInRange(cfg: Config, requested: Resources, node: NodeInfo)
    ensures 0.0 <= BinpackScore(cfg, requested, node) <= 1.0
  {
    UtilizationInRange(node.capacity.cpu, node.available.cpu, requested.cpu);
    UtilizationInRange(node.capacity.memory, node.available.memory, requested.memory);
  }

  /** A node that stands lower by more than a thousandth than another candidate is not chosen. */
  lemma LowerStandingIsNotBest(cfg: Config, pod: PendingPod, state: ClusterState, node: NodeInfo, other: NodeInfo)
    requires other in state.nodes && Candidate(cfg, pod, other, state)
    requires Standing(cfg, pod, other, state) - Standing(cfg, pod, node, state) > 0.001
    ensures !Best(cfg, pod, state, node)
  {
    hide Candidate, Standing, Rank;
    if Best(cfg, pod, state, node) {
      SpreadDecides(cfg, pod, other, node, state);
    }
  }
}
