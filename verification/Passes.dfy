/** A reconciliation pass schedules all its pods on one view and commits them one after another. When that keeps
capacity and anti-affinity is told before the first commit; neither is in general. Here pods have new names; Swaps
and Reconcile have the general case. */
module Passes {
  import opened Records
  import opened Storage
  import opened Commands
  import opened Sums
  import opened TableSums
  import opened PlacementTable
  import opened Taints
  import opened Cluster
  import opened Scheduler
  import opened PlacementRuns

  // ----- the pass -----

  datatype Decision = Decision(pod: PendingPod, node: NodeInfo)

  function PodsOf(ds: seq<Decision>): seq<PendingPod> {
    seq(|ds|, i requires 0 <= i < |ds| => ds[i].pod)
  }

  /** The pods that meet a condition, in order. */
  ghost function Chosen(pods: seq<PendingPod>, want: PendingPod -> bool): seq<PendingPod> {
    if pods == [] then []
    else Chosen(pods[..|pods| - 1], want) + if want(pods[|pods| - 1]) then [pods[|pods| - 1]] else []
  }

  lemma ChosenSnoc(pods: seq<PendingPod>, p: PendingPod, want: PendingPod -> bool)
    ensures Chosen(pods + [p], want) == Chosen(pods, want) + if want(p) then [p] else []
  {
    assert (pods + [p])[..|pods|] == pods;
  }

  /** The pods some node of the view can take. */
  ghost function Placeable(cfg: Config, view: ClusterState): PendingPod -> bool {
    (p: PendingPod) => exists n :: n in view.nodes && Candidate(cfg, p, n, view)
  }

  ghost function Unplaceable(cfg: Config, view: ClusterState): PendingPod -> bool {
    (p: PendingPod) => !Placeable(cfg, view)(p)
  }

  /** The third step of `reconcile_all`: every pod in order on the same view. */
  method SchedulePass(cfg: Config, pods: seq<PendingPod>, view: ClusterState)
    returns (ds: seq<Decision>, unscheduled: seq<PendingPod>)
    ensures PodsOf(ds) == Chosen(pods, Placeable(cfg, view))
    ensures unscheduled == Chosen(pods, Unplaceable(cfg, view))
    ensures forall i :: 0 <= i < |ds| ==> Best(cfg, ds[i].pod, view, ds[i].node)
  {
    hide Best, Candidate;
    ds, unscheduled := [], [];
    for i := 0 to |pods|
      invariant PodsOf(ds) == Chosen(pods[..i], Placeable(cfg, view))
      invariant unscheduled == Chosen(pods[..i], Unplaceable(cfg, view))
      invariant forall j :: 0 <= j < |ds| ==> Best(cfg, ds[j].pod, view, ds[j].node)
    {
      assert pods[..i + 1] == pods[..i] + [pods[i]];
      ChosenSnoc(pods[..i], pods[i], Placeable(cfg, view));
      ChosenSnoc(pods[..i], pods[i], Unplaceable(cfg, view));
      var chosen := Scheduler.Schedule(cfg, pods[i], view);
      match chosen {
        case Some(node) =>
          BestIsPlaceable(cfg, pods[i], view, node);
          assert PodsOf(ds + [Decision(pods[i], node)]) == PodsOf(ds) + [pods[i]];
          ds := ds + [Decision(pods[i], node)];
        case None => unscheduled := unscheduled + [pods[i]];
      }
    }
    assert pods[..|pods|] == pods;
  }

  lemma BestIsPlaceable(cfg: Config, pod: PendingPod, view: ClusterState, node: NodeInfo)
    requires Best(cfg, pod, view, node)
    ensures Placeable(cfg, view)(pod)
  {
    hide Candidate, Rank;
  }

  /** The placements of a pass, in the order they are committed. */
  function Placing(ds: seq<Decision>): (ps: seq<Placement>)
    ensures |ps| == |ds|
  {
    seq(|ds|, i requires 0 <= i < |ds| => PlacementFor(ds[i].pod, ds[i].node.nodeId))
  }

  function PassCommands(ds: seq<Decision>): seq<Command> {
    if ds == [] then []
    else
      var d := ds[|ds| - 1];
      PassCommands(ds[..|ds| - 1]) + CommitCommands(d.pod, d.node.nodeId)
  }

  /** The table once the placements are stored in order. */
  function PutAll(t: Table, ps: seq<Placement>): Table {
    if ps == [] then t
    else PutAll(t, ps[..|ps| - 1])[ps[|ps| - 1].podId := PlacementV(ps[|ps| - 1])]
  }

  /** A pass stores exactly its placements and leaves nodes alone. */
  lemma {:induction false} PassEffect(spiffe: string -> bool, s: Store, ds: seq<Decision>)
    ensures Steps(spiffe, s, PassCommands(ds)).Ok?
    ensures var end := Steps(spiffe, s, PassCommands(ds)).value;
            end.At(Placements) == PutAll(s.At(Placements), Placing(ds)) && end.At(Nodes) == s.At(Nodes)
  {
    hide Steps, CommitCommands;
    if ds == [] {
      StepsNothing(spiffe, s);
    } else {
      var init, d := ds[..|ds| - 1], ds[|ds| - 1];
      PassEffect(spiffe, s, init);
      CommitEffect(spiffe, Steps(spiffe, s, PassCommands(init)).value, d.pod, d.node.nodeId);
      StepsConcat(spiffe, s, PassCommands(init), CommitCommands(d.pod, d.node.nodeId));
      var ps := Placing(ds);
      assert ps[..|ps| - 1] == Placing(init);
    }
  }

  lemma StepsNothing(spiffe: string -> bool, s: Store)
    ensures Steps(spiffe, s, []) == Ok(s)
  {
  }

  /** Pods of a pass that nothing stored goes by the name of, each with a name of its own. */
  ghost predicate NewPods(t: Table, ps: seq<Placement>) {
    DistinctPods(ps) && forall i :: 0 <= i < |ps| ==> ps[i].podId !in t
  }

  lemma NewPodsInit(t: Table, ps: seq<Placement>)
    requires NewPods(t, ps) && ps != []
    ensures NewPods(t, ps[..|ps| - 1])
  {
  }

  /** What is stored under a key after all puts. */
  lemma {:induction false} PutAllAt(t: Table, ps: seq<Placement>, k: string)
    requires NewPods(t, ps)
    ensures k in PutAll(t, ps) <==> k in t || exists i :: 0 <= i < |ps| && ps[i].podId == k
    ensures k in t ==> PutAll(t, ps)[k] == t[k]
    ensures forall i :: 0 <= i < |ps| && ps[i].podId == k ==>
              k in PutAll(t, ps) && PutAll(t, ps)[k] == PlacementV(ps[i])
  {
    if ps != [] {
      var init, last := ps[..|ps| - 1], ps[|ps| - 1];
      NewPodsInit(t, ps);
      PutAllAt(t, init, k);
      if k == last.podId {
        assert ps[|ps| - 1].podId == k;
      }
      if i :| 0 <= i < |init| && init[i].podId == k {
        assert ps[i].podId == k;
      }
    }
  }

  // ----- capacity -----

  lemma {:induction false} SumAfterAll(t: Table, ps: seq<Placement>, f: Placement -> nat)
    requires NewPods(t, ps)
    ensures Sum(ListPlacements(PutAll(t, ps)), f) == Sum(ListPlacements(t), f) + Sum(ps, f)
  {
    hide ListPlacements;
    if ps != [] {
      var init, last := ps[..|ps| - 1], ps[|ps| - 1];
      NewPodsInit(t, ps);
      SumAfterAll(t, init, f);
      PutAllAt(t, init, last.podId);
      var before := PutAll(t, init);
      assert forall i :: 0 <= i < |init| ==> init[i].podId != last.podId;
      RemoveKey(PutAll(t, ps), last.podId, f);
      assert PutAll(t, ps) - {last.podId} == before;
      assert ps == init + [last];
      SumAppend(init, [last], f);
    }
  }

  lemma UsedAfterAll(t: Table, ps: seq<Placement>, node: string)
    requires NewPods(t, ps)
    ensures Used(ListPlacements(PutAll(t, ps)), node) == Add(Used(ListPlacements(t), node), Used(ps, node))
  {
    hide ListPlacements, Sum, PutAll;
    SumAfterAll(t, ps, On(node, Cpu));
    SumAfterAll(t, ps, On(node, Memory));
  }

  /** Storing new placements keeps every node within capacity exactly when, node by node, all of them together
  fit what the node had left before the first was stored. */
  lemma PutAllKeepsCapacityIff(nodes: Table, t: Table, ps: seq<Placement>)
    requires CapacityHeld(nodes, t) && NewPods(t, ps)
    ensures CapacityHeld(nodes, PutAll(t, ps)) <==>
              forall k :: IsNode(nodes, k) ==>
                FitsWithin(Used(ps, k), Subtract(nodes[k].node.capacity, Used(ListPlacements(t), k)))
  {
    hide ListPlacements, Used, PutAll, NewPods;
    forall k | IsNode(nodes, k)
      ensures FitsWithin(Used(ListPlacements(PutAll(t, ps)), k), nodes[k].node.capacity) <==>
                FitsWithin(Used(ps, k), Subtract(nodes[k].node.capacity, Used(ListPlacements(t), k)))
    {
      UsedAfterAll(t, ps, k);
    }
  }

  /** No node is asked for more than the shared view offers. */
  ghost predicate WithinView(view: ClusterState, ps: seq<Placement>) {
    forall n :: n in view.nodes ==> FitsWithin(Used(ps, n.nodeId), n.available)
  }

  /** Where names are new, scheduling on one view keeps every node within capacity exactly when the pods sent to
  each node fit, taken together, what the view offers there. */
  lemma NewNamesKeepCapacityIff(spiffe: string -> bool, s: Store, ds: seq<Decision>)
    requires Sound(s) && NewPods(s.At(Placements), Placing(ds))
    requires forall i :: 0 <= i < |ds| ==> ds[i].node in ViewOf(spiffe, s).nodes
    ensures Steps(spiffe, s, PassCommands(ds)).Ok?
    ensures var end := Steps(spiffe, s, PassCommands(ds)).value;
            CapacityHeld(end.At(Nodes), end.At(Placements)) <==> WithinView(ViewOf(spiffe, s), Placing(ds))
  {
    hide Steps, CapacityHeld, PutAll, NewPods, Used, ListPlacements, ListNodes, Views, KeyedByNode, KeyedByPod;
    PassEffect(spiffe, s, ds);
    var nodes, t, ps := s.At(Nodes), s.At(Placements), Placing(ds);
    PutAllKeepsCapacityIff(nodes, t, ps);
    if WithinView(ViewOf(spiffe, s), ps) {
      forall k | IsNode(nodes, k)
        ensures FitsWithin(Used(ps, k), Subtract(nodes[k].node.capacity, Used(ListPlacements(t), k)))
      {
        if spiffe(k) {
          NodeInView(spiffe, s, k);
          NodeId(s, k);
        } else {
          NeverSentTo(spiffe, s, ds, k);
        }
      }
    }
    if forall k :: IsNode(nodes, k) ==>
         FitsWithin(Used(ps, k), Subtract(nodes[k].node.capacity, Used(ListPlacements(t), k))) {
      forall n | n in ViewOf(spiffe, s).nodes
        ensures FitsWithin(Used(ps, n.nodeId), n.available)
      {
        NodeOfView(spiffe, s, n);
        NodeId(s, n.nodeId);
      }
    }
  }

  lemma NodeId(s: Store, k: string)
    requires KeyedByNode(s.At(Nodes)) && IsNode(s.At(Nodes), k)
    ensures s.At(Nodes)[k].node.nodeId == k
  {
  }

  lemma NeverSentTo(spiffe: string -> bool, s: Store, ds: seq<Decision>, k: string)
    requires KeyedByNode(s.At(Nodes)) && !spiffe(k)
    requires forall i :: 0 <= i < |ds| ==> ds[i].node in ViewOf(spiffe, s).nodes
    ensures Used(Placing(ds), k) == Resources(0, 0)
  {
    hide ListPlacements, ListNodes, Views, Used;
    forall i | 0 <= i < |ds|
      ensures Placing(ds)[i].nodeId != k
    {
      NodeOfView(spiffe, s, ds[i].node);
    }
    UnusedNode(Placing(ds), k);
  }

  // ----- anti-affinity -----

  /** The placements of a pass keep away from each other. */
  ghost predicate ApartAmongThemselves(cfg: Config, spiffe: string -> bool, nodes: Table, ps: seq<Placement>) {
    forall i, j :: 0 <= i < j < |ps| && Siblings(cfg, ps[i], ps[j]) ==>
      FarApart(cfg, spiffe, nodes, ps[i].nodeId, ps[j].nodeId)
  }

  /** A placement keeps away from the stored ones. */
  ghost predicate ApartFromStored(cfg: Config, spiffe: string -> bool, nodes: Table, t: Table, p: Placement) {
    forall k :: k in t && t[k].PlacementV? && Siblings(cfg, t[k].placement, p) ==>
      FarApart(cfg, spiffe, nodes, t[k].placement.nodeId, p.nodeId)
  }

  lemma PutAllSpreads(cfg: Config, spiffe: string -> bool, nodes: Table, t: Table, ps: seq<Placement>)
    requires Spread(cfg, spiffe, nodes, t) && NewPods(t, ps) && ApartAmongThemselves(cfg, spiffe, nodes, ps)
    requires forall i :: 0 <= i < |ps| ==> ApartFromStored(cfg, spiffe, nodes, t, ps[i])
    ensures Spread(cfg, spiffe, nodes, PutAll(t, ps))
  {
    hide FarApart, PutAll;
    var t' := PutAll(t, ps);
    forall k, l | k in t' && l in t' && k != l && t'[k].PlacementV? && t'[l].PlacementV?
                  && Siblings(cfg, t'[k].placement, t'[l].placement)
      ensures FarApart(cfg, spiffe, nodes, t'[k].placement.nodeId, t'[l].placement.nodeId)
    {
      PutAllAt(t, ps, k);
      PutAllAt(t, ps, l);
      PairApart(cfg, spiffe, nodes, t, ps, t', k, l);
    }
  }

  lemma PairApart(cfg: Config, spiffe: string -> bool, nodes: Table, t: Table, ps: seq<Placement>, t': Table, k: string,
                  l: string)
    requires Spread(cfg, spiffe, nodes, t) && ApartAmongThemselves(cfg, spiffe, nodes, ps)
    requires forall i :: 0 <= i < |ps| ==> ApartFromStored(cfg, spiffe, nodes, t, ps[i])
    requires k in t' && l in t' && k != l && t'[k].PlacementV? && t'[l].PlacementV?
    requires Siblings(cfg, t'[k].placement, t'[l].placement)
    requires k in t || exists i :: 0 <= i < |ps| && ps[i].podId == k
    requires l in t || exists i :: 0 <= i < |ps| && ps[i].podId == l
    requires (k in t ==> t'[k] == t[k]) && (l in t ==> t'[l] == t[l])
    requires forall i :: 0 <= i < |ps| && ps[i].podId == k ==> t'[k] == PlacementV(ps[i])
    requires forall i :: 0 <= i < |ps| && ps[i].podId == l ==> t'[l] == PlacementV(ps[i])
    ensures FarApart(cfg, spiffe, nodes, t'[k].placement.nodeId, t'[l].placement.nodeId)
  {
    hide FarApart;
    if k in t && l in t {
    } else if k in t {
      var j :| 0 <= j < |ps| && ps[j].podId == l;
      assert ApartFromStored(cfg, spiffe, nodes, t, ps[j]);
    } else if l in t {
      var i :| 0 <= i < |ps| && ps[i].podId == k;
      assert ApartFromStored(cfg, spiffe, nodes, t, ps[i]);
      FarApartSymmetric(cfg, spiffe, nodes, t[l].placement.nodeId, ps[i].nodeId);
    } else {
      var i :| 0 <= i < |ps| && ps[i].podId == k;
      var j :| 0 <= j < |ps| && ps[j].podId == l;
      FarApartSymmetric(cfg, spiffe, nodes, ps[i].nodeId, ps[j].nodeId);
    }
  }

  lemma SpreadSeparates(cfg: Config, spiffe: string -> bool, nodes: Table, t: Table, ps: seq<Placement>)
    requires NewPods(t, ps) && Spread(cfg, spiffe, nodes, PutAll(t, ps))
    ensures ApartAmongThemselves(cfg, spiffe, nodes, ps)
  {
    hide FarApart, PutAll;
    forall i, j | 0 <= i < j < |ps| && Siblings(cfg, ps[i], ps[j])
      ensures FarApart(cfg, spiffe, nodes, ps[i].nodeId, ps[j].nodeId)
    {
      PutAllAt(t, ps, ps[i].podId);
      PutAllAt(t, ps, ps[j].podId);
      assert PutAll(t, ps)[ps[i].podId] == PlacementV(ps[i]) && PutAll(t, ps)[ps[j].podId] == PlacementV(ps[j]);
    }
  }

  lemma DecisionsApartFromStored(spiffe: string -> bool, cfg: Config, s: Store, d: Decision)
    requires KeyedByNode(s.At(Nodes)) && d.node in ViewOf(spiffe, s).nodes
             && AntiAffine(cfg, d.pod, d.node, ViewOf(spiffe, s))
    ensures ApartFromStored(cfg, spiffe, s.At(Nodes), s.At(Placements), PlacementFor(d.pod, d.node.nodeId))
  {
    hide AntiAffine, ViewOf, KeyedByNode, FarApart;
    var t := s.At(Placements);
    forall k | k in t && t[k].PlacementV? && Siblings(cfg, t[k].placement, PlacementFor(d.pod, d.node.nodeId))
      ensures FarApart(cfg, spiffe, s.At(Nodes), t[k].placement.nodeId, d.node.nodeId)
    {
      SiblingApart(spiffe, cfg, s, d.pod, d.node, t[k].placement, k);
    }
  }

  /** Where names are new, scheduling on one view keeps siblings apart exactly when the siblings it places itself are
  sent far from each other, which the view cannot show it. */
  lemma NewNamesKeepSpreadIff(spiffe: string -> bool, cfg: Config, s: Store, ds: seq<Decision>)
    requires Sound(s) && SpreadOut(cfg, spiffe, s) && NewPods(s.At(Placements), Placing(ds))
    requires forall i :: 0 <= i < |ds| ==> Best(cfg, ds[i].pod, ViewOf(spiffe, s), ds[i].node)
    ensures Steps(spiffe, s, PassCommands(ds)).Ok?
    ensures SpreadOut(cfg, spiffe, Steps(spiffe, s, PassCommands(ds)).value)
            <==> ApartAmongThemselves(cfg, spiffe, s.At(Nodes), Placing(ds))
  {
    hide Steps, CapacityHeld, Spread, PutAll, NewPods, Rank, AntiAffine, PassesFilter, ViewOf;
    hide ApartAmongThemselves, ApartFromStored;
    PassEffect(spiffe, s, ds);
    var nodes, t, ps := s.At(Nodes), s.At(Placements), Placing(ds);
    forall i | 0 <= i < |ps|
      ensures ApartFromStored(cfg, spiffe, nodes, t, ps[i])
    {
      assert Best(cfg, ds[i].pod, ViewOf(spiffe, s), ds[i].node);
      DecisionsApartFromStored(spiffe, cfg, s, ds[i]);
    }
    if ApartAmongThemselves(cfg, spiffe, nodes, ps) {
      PutAllSpreads(cfg, spiffe, nodes, t, ps);
    }
    if Spread(cfg, spiffe, nodes, PutAll(t, ps)) {
      SpreadSeparates(cfg, spiffe, nodes, t, ps);
    }
  }
}
