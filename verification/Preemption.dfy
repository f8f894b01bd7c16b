/** `find_preemption_plan`: which lower-priority pods to evict so that a pod fits. */
module Preemption {
  import opened Decimal
  import opened Records
  import opened Bytes
  import opened Sums
  import opened Sorting
  import opened Taints
  import opened Cluster
  import opened Scheduler

  type Priority = Placement -> int

  datatype Plan = Plan(nodeId: string, victims: seq<Placement>)

  /** Lower priority first, then the lower pod id. */
  function Sooner(prio: Priority): (Placement, Placement) -> bool {
    (a: Placement, b: Placement) => prio(a) < prio(b) || (prio(a) == prio(b) && AtMost(a.podId, b.podId))
  }

  predicate Evictable(prio: Priority, pod: PendingPod, node: string, p: Placement) {
    p.nodeId == node && prio(p) < pod.priority
  }

  function Filtered(prio: Priority, pod: PendingPod, node: string, ps: seq<Placement>): seq<Placement> {
    if ps == [] then []
    else
      var init, last := Filtered(prio, pod, node, ps[..|ps| - 1]), ps[|ps| - 1];
      if Evictable(prio, pod, node, last) then init + [last] else init
  }

  /** The pods on a node that may be evicted for the pod, in the order they are tried. */
  function Eligible(prio: Priority, pod: PendingPod, node: string, ps: seq<Placement>): seq<Placement> {
    Sort(Filtered(prio, pod, node, ps), Sooner(prio))
  }

  function Take(d: Dimension): Placement -> nat {
    (p: Placement) => Amount(d, p.resources)
  }

  /** What is available once the given pods are gone. */
  function After(available: Resources, victims: seq<Placement>): Resources {
    Resources(available.cpu + Sum(victims, Take(Cpu)), available.memory + Sum(victims, Take(Memory)))
  }

  /** The shortest prefix of the list whose eviction makes room: `n` pods, none fewer enough. */
  ghost predicate Enough(need: Resources, available: Resources, list: seq<Placement>, n: nat) {
    && n <= |list|
    && FitsWithin(need, After(available, list[..n]))
    && forall m :: 0 <= m < n ==> !FitsWithin(need, After(available, list[..m]))
  }

  /** The plan for one node, if it has one: schedulable, tolerated, and fitting after evictions. */
  ghost predicate PlanOf(prio: Priority, pod: PendingPod, ps: seq<Placement>, node: NodeInfo, plan: Plan) {
    && node.schedulable && PassesFilter(pod.tolerations, node.taints)
    && plan.nodeId == node.nodeId
    && var list := Eligible(prio, pod, node.nodeId, ps);
       Enough(pod.resources, node.available, list, |plan.victims|) && plan.victims == list[..|plan.victims|]
  }

  function Cost(prio: Priority, victims: seq<Placement>): int {
    if victims == [] then 0 else Cost(prio, victims[..|victims| - 1]) + prio(victims[|victims| - 1])
  }

  /** Fewer victims, then a lower priority sum, then the lower node id. */
  predicate Cheaper(prio: Priority, a: Plan, b: Plan) {
    || |a.victims| < |b.victims|
    || (|a.victims| == |b.victims|
        && (|| Cost(prio, a.victims) < Cost(prio, b.victims)
            || (Cost(prio, a.victims) == Cost(prio, b.victims) && Less(a.nodeId, b.nodeId))))
  }

  /** The plan of some node, with no node's plan cheaper. */
  ghost predicate Cheapest(prio: Priority, pod: PendingPod, state: ClusterState, plan: Plan) {
    && (exists node :: node in state.nodes && PlanOf(prio, pod, state.placements, node, plan))
    && forall node, other :: node in state.nodes && PlanOf(prio, pod, state.placements, node, other) ==>
         !Cheaper(prio, other, plan)
  }

  // ----- the search -----

  method FilterEvictable(prio: Priority, pod: PendingPod, node: string, ps: seq<Placement>)
    returns (list: seq<Placement>)
    ensures list == Filtered(prio, pod, node, ps)
  {
    list := [];
    for i := 0 to |ps|
      invariant list == Filtered(prio, pod, node, ps[..i])
    {
      assert ps[..i + 1][..i] == ps[..i];
      if Evictable(prio, pod, node, ps[i]) {
        list := list + [ps[i]];
      }
    }
    assert ps[..|ps|] == ps;
  }

  /** Evict from the front of the list until the pod fits. */
  method Greedy(need: Resources, available: Resources, list: seq<Placement>)
    returns (victims: seq<Placement>, fits: bool)
    ensures fits ==> Enough(need, available, list, |victims|) && victims == list[..|victims|]
    ensures !fits ==> forall m :: 0 <= m <= |list| ==> !FitsWithin(need, After(available, list[..m]))
  {
    var left := available;
    victims := [];
    assert left == After(available, []);
    for i := 0 to |list|
      invariant victims == list[..i] && left == After(available, list[..i])
      invariant forall m :: 0 <= m < i ==> !FitsWithin(need, After(available, list[..m]))
    {
      if FitsWithin(need, left) {
        break;
      }
      SumSnoc(list, i, Take(Cpu));
      SumSnoc(list, i, Take(Memory));
      left := Add(left, list[i].resources);
      victims := victims + [list[i]];
    }
    fits := FitsWithin(need, left);
  }

  /** The plan of one node. */
  method PlanNode(prio: Priority, pod: PendingPod, ps: seq<Placement>, node: NodeInfo) returns (plan: Option<Plan>)
    requires node.schedulable && PassesFilter(pod.tolerations, node.taints)
    ensures plan.Some? ==> PlanOf(prio, pod, ps, node, plan.value)
    ensures plan.None? ==> forall other :: !PlanOf(prio, pod, ps, node, other)
  {
    var list := FilterEvictable(prio, pod, node.nodeId, ps);
    list := Sort(list, Sooner(prio));
    var victims, fits := Greedy(pod.resources, node.available, list);
    if !fits {
      return None;
    }
    return Some(Plan(node.nodeId, victims));
  }

  lemma CheaperIrreflexive(prio: Priority, a: Plan)
    ensures !Cheaper(prio, a, a)
  {
    LessIrreflexive(a.nodeId);
  }

  lemma CheaperNegatedTransitive(prio: Priority, a: Plan, b: Plan, c: Plan)
    requires !Cheaper(prio, b, a) && !Cheaper(prio, c, b)
    ensures !Cheaper(prio, c, a)
  {
    if Cheaper(prio, c, a) && |a.victims| == |b.victims| == |c.victims|
       && Cost(prio, a.victims) == Cost(prio, b.victims) == Cost(prio, c.victims) {
      LessTotal(a.nodeId, b.nodeId);
      LessTotal(b.nodeId, c.nodeId);
      LessAsymmetric(c.nodeId, a.nodeId);
      if Less(a.nodeId, b.nodeId) && Less(b.nodeId, c.nodeId) {
        LessTransitive(a.nodeId, b.nodeId, c.nodeId);
      }
    }
  }

  /** A node has one plan at most. */
  lemma PlanOfUnique(prio: Priority, pod: PendingPod, ps: seq<Placement>, node: NodeInfo, a: Plan, b: Plan)
    requires PlanOf(prio, pod, ps, node, a) && PlanOf(prio, pod, ps, node, b)
    ensures a == b
  {
    var list := Eligible(prio, pod, node.nodeId, ps);
    assert |a.victims| == |b.victims|;
  }

  ghost predicate CheapestOf(prio: Priority, pod: PendingPod, ps: seq<Placement>, nodes: seq<NodeInfo>,
                             best: Option<Plan>) {
    && (best.None? ==> forall node, other :: node in nodes ==> !PlanOf(prio, pod, ps, node, other))
    && (best.Some? ==> Cheapest(prio, pod, ClusterState(nodes, ps), best.value))
  }

  lemma CheapestSkip(prio: Priority, pod: PendingPod, ps: seq<Placement>, nodes: seq<NodeInfo>, node: NodeInfo,
                     best: Option<Plan>)
    requires CheapestOf(prio, pod, ps, nodes, best)
    requires forall other :: !PlanOf(prio, pod, ps, node, other)
    ensures CheapestOf(prio, pod, ps, nodes + [node], best)
  {
    if best.Some? {
      var host :| host in nodes && PlanOf(prio, pod, ps, host, best.value);
      assert host in nodes + [node];
    }
  }

  /** Adding a node: its plan replaces the best so far exactly when it is cheaper. */
  lemma CheapestStep(prio: Priority, pod: PendingPod, ps: seq<Placement>, nodes: seq<NodeInfo>, node: NodeInfo,
                     best: Option<Plan>, plan: Plan, better: bool)
    requires CheapestOf(prio, pod, ps, nodes, best) && PlanOf(prio, pod, ps, node, plan)
    requires better <==> best.None? || Cheaper(prio, plan, best.value)
    ensures CheapestOf(prio, pod, ps, nodes + [node], if better then Some(plan) else best)
  {
    hide PlanOf, Cheaper;
    var chosen := if better then plan else best.value;
    var all := nodes + [node];
    if better {
      assert node in all;
    } else {
      var host :| host in nodes && PlanOf(prio, pod, ps, host, chosen);
      assert host in all;
    }
    forall n, other | n in all && PlanOf(prio, pod, ps, n, other)
      ensures !Cheaper(prio, other, chosen)
    {
      CheaperIrreflexive(prio, plan);
      if n in nodes {
        if better && best.Some? {
          CheaperAsymmetric(prio, plan, best.value);
          CheaperNegatedTransitive(prio, plan, best.value, other);
        }
      } else {
        PlanOfUnique(prio, pod, ps, node, plan, other);
      }
    }
  }

  lemma CheaperAsymmetric(prio: Priority, a: Plan, b: Plan)
    requires Cheaper(prio, a, b)
    ensures !Cheaper(prio, b, a)
  {
    if Less(a.nodeId, b.nodeId) {
      LessAsymmetric(a.nodeId, b.nodeId);
    }
  }

  /** `find_preemption_plan`: the cheapest plan, and nothing exactly when no node has one. */
  method FindPreemptionPlan(prio: Priority, pod: PendingPod, state: ClusterState) returns (best: Option<Plan>)
    ensures best.None? <==>
              forall node, plan :: node in state.nodes ==> !PlanOf(prio, pod, state.placements, node, plan)
    ensures best.Some? ==> Cheapest(prio, pod, state, best.value)
  {
    hide Cheaper, PassesFilter, Cheapest;
    best := None;
    for i := 0 to |state.nodes|
      invariant CheapestOf(prio, pod, state.placements, state.nodes[..i], best)
    {
      var node := state.nodes[i];
      assert state.nodes[..i + 1] == state.nodes[..i] + [node];
      if !node.schedulable || !PassesFilter(pod.tolerations, node.taints) {
        CheapestSkip(prio, pod, state.placements, state.nodes[..i], node, best);
        continue;
      }
      var plan := PlanNode(prio, pod, state.placements, node);
      if plan.None? {
        CheapestSkip(prio, pod, state.placements, state.nodes[..i], node, best);
        continue;
      }
      var better := best.None? || Cheaper(prio, plan.value, best.value);
      CheapestStep(prio, pod, state.placements, state.nodes[..i], node, best, plan.value, better);
      if better {
        best := plan;
      }
    }
    assert state.nodes[..|state.nodes|] == state.nodes;
    if best.Some? {
      CheapestHasPlan(prio, pod, state, best.value);
    }
  }

  lemma CheapestHasPlan(prio: Priority, pod: PendingPod, state: ClusterState, plan: Plan)
    requires Cheapest(prio, pod, state, plan)
    ensures exists node :: node in state.nodes && PlanOf(prio, pod, state.placements, node, plan)
  {
  }

  // ----- soundness -----

  lemma {:induction false} FilteredMembers(prio: Priority, pod: PendingPod, node: string, ps: seq<Placement>)
    ensures forall p :: p in Filtered(prio, pod, node, ps) <==> p in ps && Evictable(prio, pod, node, p)
  {
    if ps != [] {
      var init := ps[..|ps| - 1];
      FilteredMembers(prio, pod, node, init);
      assert ps == init + [ps[|ps| - 1]];
    }
  }

  lemma EligibleMembers(prio: Priority, pod: PendingPod, node: string, ps: seq<Placement>)
    ensures forall p :: p in Eligible(prio, pod, node, ps) <==> p in ps && Evictable(prio, pod, node, p)
  {
    FilteredMembers(prio, pod, node, ps);
    SortPermutes(Filtered(prio, pod, node, ps), Sooner(prio));
  }

  /** Every victim is a listed pod of the chosen node with a strictly lower priority. */
  lemma VictimsAreLower(prio: Priority, pod: PendingPod, ps: seq<Placement>, node: NodeInfo, plan: Plan, v: Placement)
    requires PlanOf(prio, pod, ps, node, plan) && v in plan.victims
    ensures v in ps && v.nodeId == plan.nodeId && prio(v) < pod.priority
  {
    EligibleMembers(prio, pod, node.nodeId, ps);
    assert v in Eligible(prio, pod, node.nodeId, ps);
  }

  /** The victims are the lowest in priority: no pod left in place could have gone before one of them. */
  lemma VictimsGoInOrder(prio: Priority, pod: PendingPod, ps: seq<Placement>, node: NodeInfo, plan: Plan, v: Placement,
                         w: Placement)
    requires PlanOf(prio, pod, ps, node, plan) && v in plan.victims
    requires w in ps && w.nodeId == node.nodeId && prio(w) < pod.priority && w !in plan.victims
    ensures prio(v) < prio(w) || (prio(v) == prio(w) && (v.podId == w.podId || Less(v.podId, w.podId)))
  {
    var list := Eligible(prio, pod, node.nodeId, ps);
    EligibleMembers(prio, pod, node.nodeId, ps);
    SoonerIsTotalPreorder(prio);
    SortSorted(Filtered(prio, pod, node.nodeId, ps), Sooner(prio));
    var i :| 0 <= i < |plan.victims| && plan.victims[i] == v;
    var j :| 0 <= j < |list| && list[j] == w;
    InPrefix(list, |plan.victims|, j);
    assert list[i] == v && Sooner(prio)(list[i], list[j]);
  }

  lemma InPrefix<T>(xs: seq<T>, k: nat, j: nat)
    requires k <= |xs| && j < |xs|
    ensures j < k ==> xs[j] in xs[..k]
  {
    if j < k {
      assert xs[..k][j] == xs[j];
    }
  }

  /** What the pods that may be evicted hold on the node. */
  function LowerOn(prio: Priority, pod: PendingPod, node: string, d: Dimension): Placement -> nat {
    (p: Placement) => if Evictable(prio, pod, node, p) then Amount(d, p.resources) else 0
  }

  lemma {:induction false} FilteredSum(prio: Priority, pod: PendingPod, node: string, ps: seq<Placement>, d: Dimension)
    ensures Sum(Filtered(prio, pod, node, ps), Take(d)) == Sum(ps, LowerOn(prio, pod, node, d))
  {
    if ps != [] {
      var init, last := ps[..|ps| - 1], ps[|ps| - 1];
      FilteredSum(prio, pod, node, init, d);
      assert ps == init + [last];
      SumAppend(init, [last], LowerOn(prio, pod, node, d));
      SumAppend(Filtered(prio, pod, node, init), [last], Take(d));
    }
  }

  lemma EligibleSum(prio: Priority, pod: PendingPod, node: string, ps: seq<Placement>, d: Dimension)
    ensures Sum(Eligible(prio, pod, node, ps), Take(d)) == Sum(ps, LowerOn(prio, pod, node, d))
    ensures Sum(ps, LowerOn(prio, pod, node, d)) <= Usage(ps, node, d)
  {
    FilteredSum(prio, pod, node, ps, d);
    SortPermutes(Filtered(prio, pod, node, ps), Sooner(prio));
    SumPermutation(Eligible(prio, pod, node, ps), Filtered(prio, pod, node, ps), Take(d));
    SumMonotone(ps, LowerOn(prio, pod, node, d), On(node, d));
  }

  lemma PrefixSum(list: seq<Placement>, n: nat, d: Dimension)
    requires n <= |list|
    ensures Sum(list[..n], Take(d)) <= Sum(list, Take(d))
  {
    assert list == list[..n] + list[n..];
    SumAppend(list[..n], list[n..], Take(d));
  }

  /** The node is within capacity in every dimension and the view says what it has left. */
  ghost predicate WithinCapacity(node: NodeInfo, ps: seq<Placement>) {
    && FitsWithin(Used(ps, node.nodeId), node.capacity)
    && node.available == Subtract(node.capacity, Used(ps, node.nodeId))
  }

  /** A node within capacity stays within it when the pod takes the place of the victims. */
  lemma SwapStaysWithinCapacity(prio: Priority, pod: PendingPod, ps: seq<Placement>, node: NodeInfo, plan: Plan,
                                d: Dimension)
    requires PlanOf(prio, pod, ps, node, plan) && WithinCapacity(node, ps)
    ensures Sum(plan.victims, Take(d)) <= Usage(ps, node.nodeId, d)
    ensures Usage(ps, node.nodeId, d) - Sum(plan.victims, Take(d)) + Amount(d, pod.resources)
         <= Amount(d, node.capacity)
  {
    hide Sum, PassesFilter, Eligible;
    EligibleSum(prio, pod, node.nodeId, ps, d);
    PrefixSum(Eligible(prio, pod, node.nodeId, ps), |plan.victims|, d);
  }

  // ----- completeness -----

  /** Everything that evicting all lower-priority pods of the node would make available. */
  function Reclaimable(prio: Priority, pod: PendingPod, node: NodeInfo, ps: seq<Placement>): Resources {
    Resources(node.available.cpu + Sum(ps, LowerOn(prio, pod, node.nodeId, Cpu)),
              node.available.memory + Sum(ps, LowerOn(prio, pod, node.nodeId, Memory)))
  }

  lemma {:induction false} ShortestPrefix(need: Resources, available: Resources, list: seq<Placement>, n: nat)
    returns (m: nat)
    requires n <= |list| && FitsWithin(need, After(available, list[..n]))
    ensures m <= n && Enough(need, available, list, m)
  {
    if k :| 0 <= k < n && FitsWithin(need, After(available, list[..k])) {
      m := ShortestPrefix(need, available, list, k);
    } else {
      m := n;
    }
  }

  /** A node has a plan exactly when it is schedulable, tolerated, and large enough once all its
  lower-priority pods are gone. */
  lemma PlanExists(prio: Priority, pod: PendingPod, ps: seq<Placement>, node: NodeInfo)
    ensures (exists plan :: PlanOf(prio, pod, ps, node, plan)) <==>
              node.schedulable && PassesFilter(pod.tolerations, node.taints)
              && FitsWithin(pod.resources, Reclaimable(prio, pod, node, ps))
  {
    hide Sum, PassesFilter, Eligible;
    var list := Eligible(prio, pod, node.nodeId, ps);
    EligibleSum(prio, pod, node.nodeId, ps, Cpu);
    EligibleSum(prio, pod, node.nodeId, ps, Memory);
    assert list[..|list|] == list;
    if plan :| PlanOf(prio, pod, ps, node, plan) {
      PrefixSum(list, |plan.victims|, Cpu);
      PrefixSum(list, |plan.victims|, Memory);
    }
    if node.schedulable && PassesFilter(pod.tolerations, node.taints)
       && FitsWithin(pod.resources, Reclaimable(prio, pod, node, ps)) {
      var m := ShortestPrefix(pod.resources, node.available, list, |list|);
      assert PlanOf(prio, pod, ps, node, Plan(node.nodeId, list[..m]));
    }
  }

  // ----- the order of the lists does not matter -----

  lemma {:induction false} FilteredCount(prio: Priority, pod: PendingPod, node: string, ps: seq<Placement>,
                                         p: Placement)
    ensures multiset(Filtered(prio, pod, node, ps))[p] == if Evictable(prio, pod, node, p) then multiset(ps)[p] else 0
  {
    if ps != [] {
      var init := ps[..|ps| - 1];
      FilteredCount(prio, pod, node, init, p);
      assert ps == init + [ps[|ps| - 1]];
    }
  }

  lemma FilteredPermuted(prio: Priority, pod: PendingPod, node: string, ps: seq<Placement>, qs: seq<Placement>)
    requires multiset(ps) == multiset(qs)
    ensures multiset(Filtered(prio, pod, node, ps)) == multiset(Filtered(prio, pod, node, qs))
  {
    forall p
      ensures multiset(Filtered(prio, pod, node, ps))[p] == multiset(Filtered(prio, pod, node, qs))[p]
    {
      FilteredCount(prio, pod, node, ps, p);
      FilteredCount(prio, pod, node, qs, p);
    }
  }

  lemma SoonerIsTotalPreorder(prio: Priority)
    ensures TotalPreorder(Sooner(prio))
  {
    var le := Sooner(prio);
    AtMostIsTotalPreorder();
    forall a, b
      ensures le(a, b) || le(b, a)
    {
      assert AtMost(a.podId, b.podId) || AtMost(b.podId, a.podId);
    }
    forall a, b, c | le(a, b) && le(b, c)
      ensures le(a, c)
    {
      if AtMost(a.podId, b.podId) && AtMost(b.podId, c.podId) {
        assert AtMost(a.podId, c.podId);
      }
    }
  }

  lemma SamePod(ps: seq<Placement>, a: Placement, b: Placement)
    requires DistinctPods(ps) && a in ps && b in ps && a.podId == b.podId
    ensures a == b
  {
    var i :| 0 <= i < |ps| && ps[i] == a;
    var j :| 0 <= j < |ps| && ps[j] == b;
    assert i == j;
  }

  lemma NoTiesAmongPods(prio: Priority, pod: PendingPod, node: string, ps: seq<Placement>)
    requires DistinctPods(ps)
    ensures NoTies(Filtered(prio, pod, node, ps), Sooner(prio))
  {
    var list := Filtered(prio, pod, node, ps);
    FilteredMembers(prio, pod, node, ps);
    forall i, j | 0 <= i < |list| && 0 <= j < |list| && Sooner(prio)(list[i], list[j]) && Sooner(prio)(list[j], list[i])
      ensures list[i] == list[j]
    {
      if list[i].podId != list[j].podId {
        LessAsymmetric(list[i].podId, list[j].podId);
      }
      assert list[i] in list && list[j] in list;
      SamePod(ps, list[i], list[j]);
    }
  }

  lemma EligiblePermuted(prio: Priority, pod: PendingPod, node: string, ps: seq<Placement>, qs: seq<Placement>)
    requires multiset(ps) == multiset(qs) && DistinctPods(ps)
    ensures Eligible(prio, pod, node, ps) == Eligible(prio, pod, node, qs)
  {
    FilteredPermuted(prio, pod, node, ps, qs);
    SoonerIsTotalPreorder(prio);
    NoTiesAmongPods(prio, pod, node, ps);
    SortCanonical(Filtered(prio, pod, node, ps), Filtered(prio, pod, node, qs), Sooner(prio));
  }

  lemma CheapestCarriesOver(prio: Priority, pod: PendingPod, a: ClusterState, b: ClusterState, plan: Plan)
    requires SameView(a, b) && DistinctPods(a.placements) && Cheapest(prio, pod, a, plan)
    ensures Cheapest(prio, pod, b, plan)
  {
    hide Cheaper, PassesFilter, Eligible, DistinctPods;
    SameElements(a.nodes, b.nodes);
    forall node: NodeInfo, other: Plan
      ensures PlanOf(prio, pod, a.placements, node, other) <==> PlanOf(prio, pod, b.placements, node, other)
    {
      EligiblePermuted(prio, pod, node.nodeId, a.placements, b.placements);
    }
    var host :| host in a.nodes && PlanOf(prio, pod, a.placements, host, plan);
    assert host in b.nodes && PlanOf(prio, pod, b.placements, host, plan);
  }

  lemma NotCheaperEitherWay(prio: Priority, p: Plan, q: Plan)
    requires !Cheaper(prio, p, q) && !Cheaper(prio, q, p)
    ensures p.nodeId == q.nodeId
  {
    LessTotal(p.nodeId, q.nodeId);
  }

  /** The chosen plan has the fewest victims, among those the lowest priority sum, among those the lowest
  node id. */
  lemma CheapestIsLexicographicallyLeast(prio: Priority, pod: PendingPod, state: ClusterState, plan: Plan,
                                         node: NodeInfo, other: Plan)
    requires Cheapest(prio, pod, state, plan) && node in state.nodes && PlanOf(prio, pod, state.placements, node, other)
    ensures |plan.victims| <= |other.victims|
    ensures |plan.victims| == |other.victims| ==> Cost(prio, plan.victims) <= Cost(prio, other.victims)
    ensures |plan.victims| == |other.victims| && Cost(prio, plan.victims) == Cost(prio, other.victims) ==>
              plan.nodeId == other.nodeId || Less(plan.nodeId, other.nodeId)
  {
    hide PlanOf;
    LessTotal(plan.nodeId, other.nodeId);
  }

  // ----- what the cost is -----

  lemma CostOne(prio: Priority, v: Placement)
    ensures Cost(prio, [v]) == prio(v)
  {
    assert [v][..0] == [];
  }

  /** The cost of victims adds up, so it is the sum of their priorities. */
  lemma {:induction false} CostConcat(prio: Priority, a: seq<Placement>, b: seq<Placement>)
    ensures Cost(prio, a + b) == Cost(prio, a) + Cost(prio, b)
  {
    if b == [] {
      assert a + b == a;
    } else {
      var n := |b| - 1;
      CostConcat(prio, a, b[..n]);
      assert (a + b)[..|a + b| - 1] == a + b[..n];
    }
  }

  /** Nowhere higher in priority, and somewhere lower. */
  ghost predicate Dominates(prio: Priority, a: seq<Placement>, b: seq<Placement>) {
    && |a| == |b|
    && (forall i :: 0 <= i < |a| ==> prio(a[i]) <= prio(b[i]))
    && exists i :: 0 <= i < |a| && prio(a[i]) < prio(b[i])
  }

  lemma {:induction false} CostMonotone(prio: Priority, a: seq<Placement>, b: seq<Placement>)
    requires |a| == |b| && forall i :: 0 <= i < |a| ==> prio(a[i]) <= prio(b[i])
    ensures Cost(prio, a) <= Cost(prio, b)
    ensures (exists i :: 0 <= i < |a| && prio(a[i]) < prio(b[i])) ==> Cost(prio, a) < Cost(prio, b)
  {
    if a != [] {
      var n := |a| - 1;
      CostMonotone(prio, a[..n], b[..n]);
      CostOne(prio, a[n]);
      CostOne(prio, b[n]);
      CostConcat(prio, a[..n], [a[n]]);
      CostConcat(prio, b[..n], [b[n]]);
      assert a == a[..n] + [a[n]] && b == b[..n] + [b[n]];
      if i :| 0 <= i < |a| && prio(a[i]) < prio(b[i]) && i < n {
        assert prio(a[..n][i]) < prio(b[..n][i]);
      }
    }
  }

  /** A plan that evicts as many pods as another, none of them lower in priority and one higher, is not chosen. */
  lemma DominatedIsNotCheapest(prio: Priority, pod: PendingPod, state: ClusterState, plan: Plan, node: NodeInfo,
                               other: Plan)
    requires node in state.nodes && PlanOf(prio, pod, state.placements, node, other)
    requires Dominates(prio, other.victims, plan.victims)
    ensures !Cheapest(prio, pod, state, plan)
  {
    hide PlanOf, Cost;
    CostMonotone(prio, other.victims, plan.victims);
  }

  /** The same nodes and placements, listed in any order, give the same plan. */
  lemma PlanIsOrderIndependent(prio: Priority, pod: PendingPod, a: ClusterState, b: ClusterState, p: Plan, q: Plan)
    requires SameView(a, b) && DistinctPods(a.placements) && DistinctIds(b.nodes)
    requires Cheapest(prio, pod, a, p) && Cheapest(prio, pod, b, q)
    ensures p == q
  {
    hide Cheaper, PassesFilter, Eligible, SameView, DistinctPods, Enough;
    CheapestCarriesOver(prio, pod, a, b, p);
    var m :| m in b.nodes && PlanOf(prio, pod, b.placements, m, p);
    var n :| n in b.nodes && PlanOf(prio, pod, b.placements, n, q);
    NotCheaperEitherWay(prio, p, q);
    FindNodeFinds(b.nodes, p.nodeId);
    PlanOfUnique(prio, pod, b.placements, m, p, q);
  }

  // ----- victims are distinct -----

  lemma {:induction false} FilteredDistinct(prio: Priority, pod: PendingPod, node: string, ps: seq<Placement>)
    requires DistinctPods(ps)
    ensures DistinctPods(Filtered(prio, pod, node, ps))
  {
    if ps != [] {
      var init, last := ps[..|ps| - 1], ps[|ps| - 1];
      FilteredDistinct(prio, pod, node, init);
      FilteredMembers(prio, pod, node, init);
      var list := Filtered(prio, pod, node, init);
      forall i | 0 <= i < |list|
        ensures list[i].podId != last.podId
      {
        assert list[i] in init;
        var j :| 0 <= j < |init| && init[j] == list[i];
        assert ps[j].podId != ps[|ps| - 1].podId;
      }
    }
  }

  /** Distinct pods survive reordering. */
  lemma DistinctPodsPermuted(xs: seq<Placement>, ys: seq<Placement>)
    requires DistinctPods(xs) && multiset(xs) == multiset(ys)
    ensures DistinctPods(ys)
  {
    forall i, j | 0 <= i < j < |ys|
      ensures ys[i].podId != ys[j].podId
    {
      if ys[i].podId == ys[j].podId {
        assert ys[i] in multiset(xs) && ys[j] in multiset(xs);
        SamePod(xs, ys[i], ys[j]);
        var a :| 0 <= a < |xs| && xs[a] == ys[i];
        TwiceInMultiset(ys, i, j);
        OnceInMultiset(xs, a);
      }
    }
  }

  lemma VictimsDistinct(prio: Priority, pod: PendingPod, ps: seq<Placement>, node: NodeInfo, plan: Plan)
    requires DistinctPods(ps) && PlanOf(prio, pod, ps, node, plan)
    ensures DistinctPods(plan.victims)
  {
    FilteredDistinct(prio, pod, node.nodeId, ps);
    SortPermutes(Filtered(prio, pod, node.nodeId, ps), Sooner(prio));
    DistinctPodsPermuted(Filtered(prio, pod, node.nodeId, ps), Eligible(prio, pod, node.nodeId, ps));
  }

  /** Whether there is a plan at all does not depend on the order either. */
  lemma NoPlanIsOrderIndependent(prio: Priority, pod: PendingPod, a: ClusterState, b: ClusterState)
    requires SameView(a, b) && DistinctPods(a.placements)
    requires forall node, plan :: node in a.nodes ==> !PlanOf(prio, pod, a.placements, node, plan)
    ensures forall node, plan :: node in b.nodes ==> !PlanOf(prio, pod, b.placements, node, plan)
  {
    hide PassesFilter, Eligible, DistinctPods;
    SameElements(a.nodes, b.nodes);
    forall node, plan | node in b.nodes
      ensures !PlanOf(prio, pod, b.placements, node, plan)
    {
      EligiblePermuted(prio, pod, node.nodeId, a.placements, b.placements);
      assert !PlanOf(prio, pod, a.placements, node, plan);
    }
  }
}
