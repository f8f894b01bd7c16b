/** What a list of decisions taken on one view does to the placements, whatever pods share names. A decision stores
its pod and takes away its victims; the names it touches may be those of pods placed a moment before. */
module Swaps {
  import opened Records
  import opened Storage
  import opened Commands
  import opened Sums
  import opened PlacementTable
  import opened TableSums
  import opened Cluster
  import opened Scheduler
  import opened Preemption
  import opened PlacementRuns
  import opened Passes

  // ----- swaps -----

  /** A pod and the plan that places it; the plan of a pod that is scheduled outright has no victims. */
  datatype Swap = Swap(pod: PendingPod, plan: Plan)

  function PlacementOf(w: Swap): Placement {
    PlacementFor(w.pod, w.plan.nodeId)
  }

  function SwapCommands(ws: seq<Swap>): seq<Command> {
    if ws == [] then []
    else
      var w := ws[|ws| - 1];
      SwapCommands(ws[..|ws| - 1]) + PreemptCommands(w.pod, w.plan)
  }

  /** The table after the swaps, one after another. */
  function SwapAll(t: Table, ws: seq<Swap>): Table {
    if ws == [] then t
    else
      var w := ws[|ws| - 1];
      (SwapAll(t, ws[..|ws| - 1]) - PodIds(w.plan.victims))[w.pod.podId := PlacementV(PlacementOf(w))]
  }

  lemma {:induction false} SwapEffect(spiffe: string -> bool, s: Store, ws: seq<Swap>)
    ensures Steps(spiffe, s, SwapCommands(ws)).Ok?
    ensures var end := Steps(spiffe, s, SwapCommands(ws)).value;
            end.At(Placements) == SwapAll(s.At(Placements), ws) && end.At(Nodes) == s.At(Nodes)
  {
    hide Steps, PreemptCommands, PodIds;
    if ws == [] {
      StepsNothing(spiffe, s);
    } else {
      var init, w := ws[..|ws| - 1], ws[|ws| - 1];
      SwapEffect(spiffe, s, init);
      PreemptEffect(spiffe, Steps(spiffe, s, SwapCommands(init)).value, w.pod, w.plan);
      StepsConcat(spiffe, s, SwapCommands(init), PreemptCommands(w.pod, w.plan));
    }
  }

  // ----- what is left of them -----

  /** The names a swap stores or removes. */
  function TouchedBy(w: Swap): set<string> {
    PodIds(w.plan.victims) + {w.pod.podId}
  }

  function Touched(ws: seq<Swap>): set<string> {
    if ws == [] then {} else Touched(ws[..|ws| - 1]) + TouchedBy(ws[|ws| - 1])
  }

  function Without(ps: seq<Placement>, names: set<string>): seq<Placement> {
    if ps == [] then []
    else Without(ps[..|ps| - 1], names) + if ps[|ps| - 1].podId in names then [] else [ps[|ps| - 1]]
  }

  /** The placements whose names no later swap touches. */
  function Survivors(ws: seq<Swap>): seq<Placement> {
    if ws == [] then []
    else Without(Survivors(ws[..|ws| - 1]), TouchedBy(ws[|ws| - 1])) + [PlacementOf(ws[|ws| - 1])]
  }

  /** No later swap stores or removes the pod's name. */
  ghost predicate Survives(ws: seq<Swap>, i: nat)
    requires i < |ws|
  {
    forall j :: i < j < |ws| ==> ws[i].pod.podId !in TouchedBy(ws[j])
  }

  lemma {:induction false} WithoutMembers(ps: seq<Placement>, names: set<string>)
    ensures forall p :: p in Without(ps, names) <==> p in ps && p.podId !in names
  {
    if ps != [] {
      WithoutMembers(ps[..|ps| - 1], names);
      assert ps == ps[..|ps| - 1] + [ps[|ps| - 1]];
    }
  }

  lemma {:induction false} WithoutDistinct(ps: seq<Placement>, names: set<string>)
    requires DistinctPods(ps)
    ensures DistinctPods(Without(ps, names))
  {
    if ps != [] {
      var init, last := ps[..|ps| - 1], ps[|ps| - 1];
      WithoutDistinct(init, names);
      WithoutMembers(init, names);
      forall i | 0 <= i < |Without(init, names)|
        ensures Without(init, names)[i].podId != last.podId
      {
        assert Without(init, names)[i] in init;
      }
    }
  }

  lemma {:induction false} PutAllMinus(t: Table, ps: seq<Placement>, names: set<string>)
    ensures PutAll(t, ps) - names == PutAll(t - names, Without(ps, names))
  {
    if ps != [] {
      var init, last := ps[..|ps| - 1], ps[|ps| - 1];
      PutAllMinus(t, init, names);
      MinusAfterPut(PutAll(t, init), names, last.podId, PlacementV(last));
      if last.podId in names {
        assert Without(ps, names) == Without(init, names);
      } else {
        hide PutAll;
        PutAllSnoc(t - names, Without(init, names), last);
      }
    }
  }

  lemma MinusAfterPut(t: Table, names: set<string>, k: string, v: Value)
    ensures t[k := v] - names == if k in names then t - names else (t - names)[k := v]
  {
  }

  lemma PutAllSnoc(t: Table, ps: seq<Placement>, p: Placement)
    ensures PutAll(t, ps + [p]) == PutAll(t, ps)[p.podId := PlacementV(p)]
  {
    assert (ps + [p])[..|ps|] == ps;
  }

  /** The swaps leave what was stored under names they do not touch, and their own placements whose names are not
  touched again. */
  lemma {:induction false} SwapAllIs(t: Table, ws: seq<Swap>)
    ensures SwapAll(t, ws) == PutAll(t - Touched(ws), Survivors(ws))
    ensures NewPods(t - Touched(ws), Survivors(ws))
  {
    if ws == [] {
      assert t - {} == t;
    } else {
      hide PutAll, PodIds, Without;
      var init, w := ws[..|ws| - 1], ws[|ws| - 1];
      var p, names := PlacementOf(w), TouchedBy(w);
      SwapAllIs(t, init);
      PutAllMinus(t - Touched(init), Survivors(init), names);
      assert (t - Touched(init)) - names == t - Touched(ws);
      PutAllSnoc(t - Touched(ws), Without(Survivors(init), names), p);
      PutOver(SwapAll(t, init), PodIds(w.plan.victims), p.podId, PlacementV(p));
      SurvivorsAreNew(t, init, w);
    }
  }

  lemma PutOver(t: Table, gone: set<string>, k: string, v: Value)
    ensures (t - gone)[k := v] == (t - (gone + {k}))[k := v]
  {
  }

  lemma SurvivorsAreNew(t: Table, init: seq<Swap>, w: Swap)
    requires NewPods(t - Touched(init), Survivors(init))
    ensures var ps := Without(Survivors(init), TouchedBy(w)) + [PlacementOf(w)];
            NewPods(t - (Touched(init) + TouchedBy(w)), ps)
  {
    hide Without, PodIds;
    WithoutDistinct(Survivors(init), TouchedBy(w));
    WithoutMembers(Survivors(init), TouchedBy(w));
    var rest := Without(Survivors(init), TouchedBy(w));
    forall i | 0 <= i < |rest|
      ensures rest[i].podId !in t - Touched(init) && rest[i].podId != w.pod.podId
    {
      assert rest[i] in rest;
      var j :| 0 <= j < |Survivors(init)| && Survivors(init)[j] == rest[i];
    }
  }

  /** The survivors are the placements of the swaps that survive. */
  lemma SurvivorsAre(ws: seq<Swap>, p: Placement)
    ensures p in Survivors(ws) <==> exists i :: 0 <= i < |ws| && Survives(ws, i) && PlacementOf(ws[i]) == p
  {
    hide Survives, Survivors;
    if p in Survivors(ws) {
      var i := SurvivorIsPlaced(ws, p);
    }
    if i :| 0 <= i < |ws| && Survives(ws, i) && PlacementOf(ws[i]) == p {
      SurvivorIsListed(ws, i);
    }
  }

  lemma {:induction false} SurvivorIsPlaced(ws: seq<Swap>, p: Placement) returns (i: nat)
    requires p in Survivors(ws)
    ensures i < |ws| && Survives(ws, i) && PlacementOf(ws[i]) == p
  {
    hide Without, TouchedBy, Survives;
    i := |ws| - 1;
    LastSurvives(ws);
    if PlacementOf(ws[i]) != p {
      WithoutMembers(Survivors(ws[..i]), TouchedBy(ws[i]));
      i := SurvivorIsPlaced(ws[..i], p);
      SurvivesOne(ws, i);
    }
  }

  lemma {:induction false} SurvivorIsListed(ws: seq<Swap>, i: nat)
    requires i < |ws| && Survives(ws, i)
    ensures PlacementOf(ws[i]) in Survivors(ws)
  {
    hide Without, TouchedBy, Survives;
    var n := |ws| - 1;
    if i < n {
      SurvivesOne(ws, i);
      SurvivorIsListed(ws[..n], i);
      WithoutMembers(Survivors(ws[..n]), TouchedBy(ws[n]));
    }
  }

  lemma LastSurvives(ws: seq<Swap>)
    requires ws != []
    ensures Survives(ws, |ws| - 1)
  {
  }

  lemma SurvivesOne(ws: seq<Swap>, i: nat)
    requires i < |ws| - 1
    ensures Survives(ws, i) <==> Survives(ws[..|ws| - 1], i) && ws[i].pod.podId !in TouchedBy(ws[|ws| - 1])
  {
    hide TouchedBy;
    var init := ws[..|ws| - 1];
    if Survives(init, i) && ws[i].pod.podId !in TouchedBy(ws[|ws| - 1]) {
      forall j | i < j < |ws|
        ensures ws[i].pod.podId !in TouchedBy(ws[j])
      {
        if j < |init| {
          assert init[j] == ws[j];
        }
      }
    }
    if Survives(ws, i) {
      forall j | i < j < |init|
        ensures init[i].pod.podId !in TouchedBy(init[j])
      {
        assert init[j] == ws[j];
      }
    }
  }

  // ----- keeping its own pods -----

  ghost predicate IsStored(t: Table, p: Placement) {
    p.podId in t && t[p.podId] == PlacementV(p)
  }

  /** A placed pod is there at the end exactly when no later swap touches its name, or the last that does places
  the same again. */
  lemma PodIsKeptIff(t: Table, ws: seq<Swap>, i: nat)
    requires i < |ws|
    ensures IsStored(SwapAll(t, ws), PlacementOf(ws[i])) <==>
              exists j :: i <= j < |ws| && Survives(ws, j) && PlacementOf(ws[j]) == PlacementOf(ws[i])
  {
    hide SwapAll, PutAll, Survivors, Touched, PodIds, NewPods;
    var p := PlacementOf(ws[i]);
    SwapAllIs(t, ws);
    PutAllAt(t - Touched(ws), Survivors(ws), p.podId);
    NameTouched(ws, i);
    SurvivorsAre(ws, p);
    if IsStored(SwapAll(t, ws), p) {
      var n :| 0 <= n < |Survivors(ws)| && Survivors(ws)[n].podId == p.podId;
      assert Survivors(ws)[n] == p;
      var j :| 0 <= j < |ws| && Survives(ws, j) && PlacementOf(ws[j]) == p;
    }
    if j :| i <= j < |ws| && Survives(ws, j) && PlacementOf(ws[j]) == p {
      var n :| 0 <= n < |Survivors(ws)| && Survivors(ws)[n] == p;
    }
  }

  lemma {:induction false} NameTouched(ws: seq<Swap>, i: nat)
    requires i < |ws|
    ensures ws[i].pod.podId in Touched(ws)
  {
    hide PodIds;
    if i < |ws| - 1 {
      NameTouched(ws[..|ws| - 1], i);
    }
  }

  // ----- capacity -----

  /** Swaps keep every node within capacity exactly when, node by node, the pods that survive fit what is left once
  everything under a touched name is gone. */
  lemma SwapsKeepCapacityIff(nodes: Table, t: Table, ws: seq<Swap>)
    requires CapacityHeld(nodes, t)
    ensures CapacityHeld(nodes, SwapAll(t, ws)) <==>
              forall k :: IsNode(nodes, k) ==>
                FitsWithin(Used(Survivors(ws), k),
                           Subtract(nodes[k].node.capacity, Used(ListPlacements(t - Touched(ws)), k)))
  {
    hide CapacityHeld, SwapAll, PutAll, NewPods, Touched, Survivors, ListPlacements, Used;
    SwapAllIs(t, ws);
    WithinMinus(t, Touched(ws));
    CapacityAfterRemoval(nodes, t, t - Touched(ws));
    PutAllKeepsCapacityIff(nodes, t - Touched(ws), Survivors(ws));
  }

  // ----- anti-affinity -----

  lemma SpreadFromStored(cfg: Config, spiffe: string -> bool, nodes: Table, t: Table, ps: seq<Placement>, i: nat)
    requires NewPods(t, ps) && Spread(cfg, spiffe, nodes, PutAll(t, ps)) && i < |ps|
    ensures ApartFromStored(cfg, spiffe, nodes, t, ps[i])
  {
    hide FarApart, PutAll, Siblings;
    var t', p := PutAll(t, ps), ps[i];
    PutAllAt(t, ps, p.podId);
    forall k | k in t && t[k].PlacementV? && Siblings(cfg, t[k].placement, p)
      ensures FarApart(cfg, spiffe, nodes, t[k].placement.nodeId, p.nodeId)
    {
      PutAllAt(t, ps, k);
      assert t'[k] == t[k] && t'[p.podId] == PlacementV(p);
    }
  }

  /** Swaps keep siblings apart exactly when the pods that survive are far from each other and from the stored
  siblings under names the swaps do not touch. */
  lemma SwapsKeepSpreadIff(cfg: Config, spiffe: string -> bool, nodes: Table, t: Table, ws: seq<Swap>)
    requires Spread(cfg, spiffe, nodes, t)
    ensures Spread(cfg, spiffe, nodes, SwapAll(t, ws)) <==>
              && ApartAmongThemselves(cfg, spiffe, nodes, Survivors(ws))
              && forall i :: 0 <= i < |Survivors(ws)| ==>
                   ApartFromStored(cfg, spiffe, nodes, t - Touched(ws), Survivors(ws)[i])
  {
    hide Spread, SwapAll, PutAll, NewPods, Touched, Survivors, ApartAmongThemselves, ApartFromStored;
    var left, ps := t - Touched(ws), Survivors(ws);
    SwapAllIs(t, ws);
    WithinMinus(t, Touched(ws));
    SpreadOfFewer(cfg, spiffe, nodes, t, left);
    if Spread(cfg, spiffe, nodes, PutAll(left, ps)) {
      SpreadSeparates(cfg, spiffe, nodes, left, ps);
      forall i | 0 <= i < |ps|
        ensures ApartFromStored(cfg, spiffe, nodes, left, ps[i])
      {
        SpreadFromStored(cfg, spiffe, nodes, left, ps, i);
      }
    } else if && ApartAmongThemselves(cfg, spiffe, nodes, ps)
              && forall i :: 0 <= i < |ps| ==> ApartFromStored(cfg, spiffe, nodes, left, ps[i]) {
      PutAllSpreads(cfg, spiffe, nodes, left, ps);
    }
  }

  // ----- as the view shows it -----

  function Among(ps: seq<Placement>, names: set<string>): seq<Placement> {
    if ps == [] then []
    else Among(ps[..|ps| - 1], names) + if ps[|ps| - 1].podId in names then [ps[|ps| - 1]] else []
  }

  function Only(names: set<string>, f: Placement -> nat): Placement -> nat {
    (p: Placement) => if p.podId in names then f(p) else 0
  }

  lemma {:induction false} AmongSum(ps: seq<Placement>, names: set<string>, f: Placement -> nat)
    ensures Sum(Among(ps, names), f) == Sum(ps, Only(names, f))
  {
    if ps != [] {
      var init, last := ps[..|ps| - 1], ps[|ps| - 1];
      AmongSum(init, names, f);
      assert ps == init + [last];
      SumAppend(init, [last], Only(names, f));
      SumAppend(Among(init, names), [last], f);
      if last.podId !in names {
        assert Among(ps, names) == Among(init, names);
      }
    }
  }

  /** A total splits into what is stored under the names and what is left without them. */
  lemma {:induction false} SplitByNames(t: Table, names: set<string>, f: Placement -> nat)
    requires KeyedByPod(t)
    ensures Sum(ListPlacements(t), f) == Sum(ListPlacements(t), Only(names, f)) + Sum(ListPlacements(t - names), f)
    decreases |names|
  {
    hide ListPlacements, Sum;
    if names == {} {
      assert t - names == t;
      NoneSums(ListPlacements(t), Only(names, f));
    } else {
      var k :| k in names;
      var rest := names - {k};
      var fewer := t - {k};
      KeyedAfterRemoval(t, {k});
      SplitByNames(fewer, rest, f);
      assert fewer - rest == t - names;
      OnlyOthers(fewer, names, k, f);
      if k in t {
        RemoveKey(t, k, f);
        RemoveKey(t, k, Only(names, f));
      } else {
        assert fewer == t;
      }
    }
  }

  lemma {:induction false} NoneSums(ps: seq<Placement>, f: Placement -> nat)
    requires forall p :: f(p) == 0
    ensures Sum(ps, f) == 0
  {
    if ps != [] {
      NoneSums(ps[1..], f);
    }
  }

  lemma OnlyOthers(t: Table, names: set<string>, k: string, f: Placement -> nat)
    requires KeyedByPod(t) && k !in t
    ensures Sum(ListPlacements(t), Only(names - {k}, f)) == Sum(ListPlacements(t), Only(names, f))
  {
    hide ListPlacements, Sum;
    var ps := ListPlacements(t);
    forall i | 0 <= i < |ps|
      ensures Only(names - {k}, f)(ps[i]) == Only(names, f)(ps[i])
    {
      Listed(t, ps[i]);
    }
    SumCongruence(ps, Only(names - {k}, f), Only(names, f));
  }

  lemma UsedSplits(t: Table, names: set<string>, node: string)
    requires KeyedByPod(t)
    ensures Used(ListPlacements(t), node)
         == Add(Used(ListPlacements(t - names), node), Used(Among(ListPlacements(t), names), node))
  {
    hide ListPlacements, Sum, Among, Only, KeyedByPod;
    SplitByNames(t, names, On(node, Cpu));
    SplitByNames(t, names, On(node, Memory));
    AmongSum(ListPlacements(t), names, On(node, Cpu));
    AmongSum(ListPlacements(t), names, On(node, Memory));
  }

  /** Every swap goes to a node of the view. */
  ghost predicate SentWithin(view: ClusterState, ws: seq<Swap>) {
    forall i :: 0 <= i < |ws| ==> Offers(view, ws[i].plan.nodeId)
  }

  ghost predicate Offers(view: ClusterState, node: string) {
    exists n :: n in view.nodes && n.nodeId == node
  }

  /** On every node of the view the pods that survive fit what it offers and what the pods under touched names
  held there. */
  ghost predicate WithinOffer(view: ClusterState, ws: seq<Swap>) {
    forall n :: n in view.nodes ==>
      FitsWithin(Used(Survivors(ws), n.nodeId), Add(n.available, Used(Among(view.placements, Touched(ws)), n.nodeId)))
  }

  /** Whatever is decided on one view keeps capacity exactly when it stays within what the view offers. */
  lemma PassKeepsCapacityIff(spiffe: string -> bool, s: Store, ws: seq<Swap>)
    requires Sound(s) && SentWithin(ViewOf(spiffe, s), ws)
    ensures Steps(spiffe, s, SwapCommands(ws)).Ok?
    ensures var end := Steps(spiffe, s, SwapCommands(ws)).value;
            CapacityHeld(end.At(Nodes), end.At(Placements)) <==> WithinOffer(ViewOf(spiffe, s), ws)
  {
    hide Steps, CapacityHeld, SwapAll, Touched, Survivors, Used, Among, ListPlacements, ListNodes, Views;
    hide KeyedByNode, KeyedByPod, SentWithin;
    SwapEffect(spiffe, s, ws);
    var nodes, t := s.At(Nodes), s.At(Placements);
    SwapsKeepCapacityIff(nodes, t, ws);
    forall k | IsNode(nodes, k) && spiffe(k)
      ensures NodeView(nodes[k].node, ListPlacements(t), TaintMap(s.At(NodeTaints))) in ViewOf(spiffe, s).nodes
      ensures nodes[k].node.nodeId == k
      ensures Subtract(nodes[k].node.capacity, Used(ListPlacements(t - Touched(ws)), k))
           == Add(Subtract(nodes[k].node.capacity, Used(ListPlacements(t), k)),
                  Used(Among(ListPlacements(t), Touched(ws)), k))
    {
      NodeInView(spiffe, s, k);
      NodeId(s, k);
      RoomSplits(nodes, t, Touched(ws), k);
    }
    forall k | IsNode(nodes, k) && !spiffe(k)
      ensures Used(Survivors(ws), k) == Resources(0, 0)
    {
      NeverReached(spiffe, s, ws, k);
    }
    forall n | n in ViewOf(spiffe, s).nodes
      ensures IsNode(nodes, n.nodeId) && spiffe(n.nodeId)
      ensures n == NodeView(nodes[n.nodeId].node, ListPlacements(t), TaintMap(s.At(NodeTaints)))
    {
      NodeOfView(spiffe, s, n);
    }
  }

  lemma RoomSplits(nodes: Table, t: Table, names: set<string>, k: string)
    requires KeyedByPod(t) && CapacityHeld(nodes, t) && IsNode(nodes, k)
    ensures var capacity := nodes[k].node.capacity;
            Subtract(capacity, Used(ListPlacements(t - names), k))
              == Add(Subtract(capacity, Used(ListPlacements(t), k)), Used(Among(ListPlacements(t), names), k))
  {
    hide Used, Among, ListPlacements, KeyedByPod;
    UsedSplits(t, names, k);
  }

  lemma NeverReached(spiffe: string -> bool, s: Store, ws: seq<Swap>, k: string)
    requires KeyedByNode(s.At(Nodes)) && !spiffe(k) && SentWithin(ViewOf(spiffe, s), ws)
    ensures Used(Survivors(ws), k) == Resources(0, 0)
  {
    hide Survivors, Survives, ListPlacements, ListNodes, Views, Used;
    forall i | 0 <= i < |Survivors(ws)|
      ensures Survivors(ws)[i].nodeId != k
    {
      var p := Survivors(ws)[i];
      SurvivorsAre(ws, p);
      var j :| 0 <= j < |ws| && Survives(ws, j) && PlacementOf(ws[j]) == p;
      assert Offers(ViewOf(spiffe, s), ws[j].plan.nodeId);
      var n :| n in ViewOf(spiffe, s).nodes && n.nodeId == ws[j].plan.nodeId;
      NodeOfView(spiffe, s, n);
    }
    UnusedNode(Survivors(ws), k);
  }
}
