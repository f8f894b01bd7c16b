/** The whole of a reconciliation pass: pods in priority order, scheduled on one view, and preemptions planned on
that same view for those left over. When all of it keeps capacity, anti-affinity and the pods it places is told
before the first command. */
module Reconcile {
  import opened Records
  import opened Storage
  import opened Commands
  import opened Sorting
  import opened Cluster
  import opened Scheduler
  import opened Preemption
  import opened TableSums
  import opened PlacementRuns
  import opened Slots
  import opened Pods
  import opened Passes
  import opened Swaps

  // ----- the pass -----

  function Swapped(swaps: seq<Swap>): seq<PendingPod> {
    seq(|swaps|, i requires 0 <= i < |swaps| => swaps[i].pod)
  }

  /** The pods for which room can be made on some node of the view. */
  ghost function Preempting(prio: Priority, view: ClusterState): PendingPod -> bool {
    (p: PendingPod) => p.priority > 0
                       && exists node, plan :: node in view.nodes && PlanOf(prio, p, view.placements, node, plan)
  }

  /** The fourth step of `reconcile_all`: the cheapest plan on the view for every pod of positive priority that has
  one. */
  method PreemptPass(prio: Priority, unscheduled: seq<PendingPod>, view: ClusterState) returns (swaps: seq<Swap>)
    ensures Swapped(swaps) == Chosen(unscheduled, Preempting(prio, view))
    ensures forall i :: 0 <= i < |swaps| ==> Cheapest(prio, swaps[i].pod, view, swaps[i].plan)
  {
    hide Cheapest, PlanOf;
    swaps := [];
    for i := 0 to |unscheduled|
      invariant Swapped(swaps) == Chosen(unscheduled[..i], Preempting(prio, view))
      invariant forall j :: 0 <= j < |swaps| ==> Cheapest(prio, swaps[j].pod, view, swaps[j].plan)
    {
      var pod := unscheduled[i];
      assert unscheduled[..i + 1] == unscheduled[..i] + [pod];
      ChosenSnoc(unscheduled[..i], pod, Preempting(prio, view));
      if pod.priority > 0 {
        var plan := FindPreemptionPlan(prio, pod, view);
        if plan.Some? {
          assert Swapped(swaps + [Swap(pod, plan.value)]) == Swapped(swaps) + [pod];
          swaps := swaps + [Swap(pod, plan.value)];
        }
      }
    }
    assert unscheduled[..|unscheduled|] == unscheduled;
  }

  /** The pods no node can take as they are but one can after evictions. */
  ghost function Rescued(cfg: Config, prio: Priority, view: ClusterState): PendingPod -> bool {
    (p: PendingPod) => Unplaceable(cfg, view)(p) && Preempting(prio, view)(p)
  }

  lemma {:induction false} ChosenTwice(pods: seq<PendingPod>, f: PendingPod -> bool, g: PendingPod -> bool,
                                       both: PendingPod -> bool)
    requires forall p :: both(p) <==> f(p) && g(p)
    ensures Chosen(Chosen(pods, f), g) == Chosen(pods, both)
  {
    if pods != [] {
      var init, p := pods[..|pods| - 1], pods[|pods| - 1];
      ChosenTwice(init, f, g, both);
      if f(p) {
        ChosenSnoc(Chosen(init, f), p, g);
      } else {
        assert Chosen(pods, f) == Chosen(init, f);
      }
    }
  }

  /** What a pass decides: in order of priority, exactly the pods a node can take are scheduled, each on its best
  node, and exactly those that need and have a preemption get the cheapest. */
  ghost predicate Decided(cfg: Config, prio: Priority, pods: seq<PendingPod>, view: ClusterState, ds: seq<Decision>,
                          swaps: seq<Swap>) {
    && PodsOf(ds) == Chosen(Sort(pods, First), Placeable(cfg, view))
    && Swapped(swaps) == Chosen(Sort(pods, First), Rescued(cfg, prio, view))
    && (forall i :: 0 <= i < |ds| ==> Best(cfg, ds[i].pod, view, ds[i].node))
    && (forall i :: 0 <= i < |swaps| ==> Cheapest(prio, swaps[i].pod, view, swaps[i].plan))
  }

  /** `reconcile_all` up to the addresses it allocates at its end: it decides for the pending pods of its specs,
  ranked by those specs, or fails on an ordinal record that cannot be read. */
  ghost predicate Reconciled(cfg: Config, specs: seq<WorkloadSpec>, ordinals: Table, view: ClusterState,
                             ds: seq<Decision>, swaps: seq<Swap>) {
    exists pods :: Collected(specs, ordinals, pods) && Decided(cfg, PriorityOf(specs), pods, view, ds, swaps)
  }

  method ReconcileAll(cfg: Config, specs: seq<WorkloadSpec>, ordinals: Table, view: ClusterState)
    returns (r: Result<(seq<Decision>, seq<Swap>)>)
    ensures r.Err? <==> exists i, x ::
              0 <= i < |specs| && Asked(specs[i], x) && !Readable(ordinals, RecordKey(specs[i], x))
    ensures r.Ok? ==> Reconciled(cfg, specs, ordinals, view, r.value.0, r.value.1)
  {
    hide Best, Candidate, Cheapest, PlanOf, Collected, Asked, Readable, RecordKey, PriorityOf;
    if specs == [] {
      NothingPending(cfg, ordinals, view);
      return Ok(([], []));
    }
    var pods := CollectPending(specs, ordinals, view.placements);
    if pods.Err? {
      return Err;
    }
    var prio := PriorityOf(specs);
    var ordered := OrderPending(pods.value);
    var ds, unscheduled := SchedulePass(cfg, ordered, view);
    var swaps := PreemptPass(prio, unscheduled, view);
    ChosenTwice(ordered, Unplaceable(cfg, view), Preempting(prio, view), Rescued(cfg, prio, view));
    assert Decided(cfg, prio, pods.value, view, ds, swaps);
    return Ok((ds, swaps));
  }

  lemma {:induction false} ChosenAre(pods: seq<PendingPod>, want: PendingPod -> bool, p: PendingPod)
    ensures p in Chosen(pods, want) <==> p in pods && want(p)
  {
    if pods != [] {
      var init, last := pods[..|pods| - 1], pods[|pods| - 1];
      assert pods == init + [last];
      ChosenAre(init, want, p);
    }
  }

  lemma RescuedIff(cfg: Config, prio: Priority, view: ClusterState, p: PendingPod)
    ensures Placeable(cfg, view)(p) <==> exists n :: n in view.nodes && Candidate(cfg, p, n, view)
    ensures Rescued(cfg, prio, view)(p) <==> Unplaceable(cfg, view)(p) && Preempting(prio, view)(p)
    ensures Unplaceable(cfg, view)(p) <==> !Placeable(cfg, view)(p)
  {
    hide Candidate, PlanOf;
    assert Unplaceable(cfg, view)(p) <==> !Placeable(cfg, view)(p);
  }

  /** What a pass does with each of its pods: it schedules the pod exactly when some node can take it as the view
  stands, and otherwise preempts for it exactly when its priority is positive and some node has a plan. */
  lemma DecidedMeans(cfg: Config, prio: Priority, pods: seq<PendingPod>, view: ClusterState, ds: seq<Decision>,
                     swaps: seq<Swap>, p: PendingPod)
    requires Decided(cfg, prio, pods, view, ds, swaps) && p in pods
    ensures p in PodsOf(ds) <==> exists n :: n in view.nodes && Candidate(cfg, p, n, view)
    ensures p in Swapped(swaps) <==>
              && (forall n :: n in view.nodes ==> !Candidate(cfg, p, n, view))
              && p.priority > 0
              && exists n, plan :: n in view.nodes && PlanOf(prio, p, view.placements, n, plan)
  {
    hide Candidate, PlanOf;
    SortPermutes(pods, First);
    RescuedIff(cfg, prio, view, p);
    ChosenAre(Sort(pods, First), Placeable(cfg, view), p);
    ChosenAre(Sort(pods, First), Rescued(cfg, prio, view), p);
  }

  lemma NothingPending(cfg: Config, ordinals: Table, view: ClusterState)
    ensures Reconciled(cfg, [], ordinals, view, [], [])
  {
    assert Collected([], ordinals, []);
    assert Decided(cfg, PriorityOf([]), [], view, [], []);
  }

  // ----- its pods -----

  lemma {:induction false} ChosenParts(pods: seq<PendingPod>, f: PendingPod -> bool, g: PendingPod -> bool)
    requires forall p :: !(f(p) && g(p))
    ensures multiset(Chosen(pods, f)) + multiset(Chosen(pods, g)) <= multiset(pods)
  {
    if pods != [] {
      var init, p := pods[..|pods| - 1], pods[|pods| - 1];
      ChosenParts(init, f, g);
      assert pods == init + [p];
    }
  }

  lemma PartOfDistinctSlots(pods: seq<PendingPod>, part: seq<PendingPod>)
    requires DistinctSlots(pods) && multiset(part) <= multiset(pods)
    ensures DistinctSlots(part)
  {
    forall i, j | 0 <= i < j < |part|
      ensures !OneSlot(part[i], part[j])
    {
      assert part[i] in multiset(pods) && part[j] in multiset(pods);
      var a :| 0 <= a < |pods| && pods[a] == part[i];
      var b :| 0 <= b < |pods| && pods[b] == part[j];
      if a == b {
        TwiceInMultiset(part, i, j);
        OnceInMultiset(pods, a);
      }
    }
  }

  /** A pass decides once for each slot at most. */
  lemma DecidedSlotsDiffer(cfg: Config, prio: Priority, pods: seq<PendingPod>, view: ClusterState, ds: seq<Decision>,
                           swaps: seq<Swap>)
    requires DistinctSlots(pods) && Decided(cfg, prio, pods, view, ds, swaps)
    ensures DistinctSlots(PodsOf(ds) + Swapped(swaps))
  {
    hide Best, Cheapest, PlanOf, Candidate, DistinctSlots;
    SortPermutes(pods, First);
    forall p
      ensures !(Placeable(cfg, view)(p) && Rescued(cfg, prio, view)(p))
    {
      assert Rescued(cfg, prio, view)(p) ==> Unplaceable(cfg, view)(p);
    }
    ChosenParts(Sort(pods, First), Placeable(cfg, view), Rescued(cfg, prio, view));
    PartOfDistinctSlots(pods, PodsOf(ds) + Swapped(swaps));
  }

  // ----- its commands -----

  /** Everything a pass proposes about placements, in order. */
  function ReconcileCommands(ds: seq<Decision>, swaps: seq<Swap>): seq<Command> {
    PassCommands(ds) + SwapCommands(swaps)
  }

  /** Scheduling as swaps without victims. */
  function Outright(ds: seq<Decision>): (ws: seq<Swap>)
    ensures |ws| == |ds|
  {
    seq(|ds|, i requires 0 <= i < |ds| => Swap(ds[i].pod, Plan(ds[i].node.nodeId, [])))
  }

  /** All decisions of a pass, in the order they are carried out. */
  function InTurn(ds: seq<Decision>, swaps: seq<Swap>): seq<Swap> {
    Outright(ds) + swaps
  }

  lemma {:induction false} OutrightCommands(ds: seq<Decision>)
    ensures PassCommands(ds) == SwapCommands(Outright(ds))
  {
    hide CommitCommands;
    if ds != [] {
      var init, d := ds[..|ds| - 1], ds[|ds| - 1];
      OutrightCommands(init);
      assert Outright(ds)[..|ds| - 1] == Outright(init);
      assert PreemptCommands(d.pod, Plan(d.node.nodeId, [])) == CommitCommands(d.pod, d.node.nodeId);
    }
  }

  lemma {:induction false} SwapCommandsConcat(a: seq<Swap>, b: seq<Swap>)
    ensures SwapCommands(a + b) == SwapCommands(a) + SwapCommands(b)
  {
    hide PreemptCommands;
    if b == [] {
      assert a + b == a && SwapCommands(a) + [] == SwapCommands(a);
    } else {
      var n := |b| - 1;
      SwapCommandsConcat(a, b[..n]);
      SwapCommandsSnoc(a + b[..n], b[n]);
      assert a + b == a + b[..n] + [b[n]];
      assert SwapCommands(b) == SwapCommands(b[..n]) + PreemptCommands(b[n].pod, b[n].plan);
    }
  }

  lemma SwapCommandsSnoc(ws: seq<Swap>, w: Swap)
    ensures SwapCommands(ws + [w]) == SwapCommands(ws) + PreemptCommands(w.pod, w.plan)
  {
    hide PreemptCommands;
    assert (ws + [w])[..|ws|] == ws;
  }

  lemma CommandsInTurn(ds: seq<Decision>, swaps: seq<Swap>)
    ensures ReconcileCommands(ds, swaps) == SwapCommands(InTurn(ds, swaps))
  {
    hide SwapCommands, PassCommands;
    OutrightCommands(ds);
    SwapCommandsConcat(Outright(ds), swaps);
  }

  /** What a pass leaves: what was stored under names it does not touch, and its own placements whose names it does not
  touch again. */
  lemma ReconcileEffect(spiffe: string -> bool, s: Store, ds: seq<Decision>, swaps: seq<Swap>)
    ensures Steps(spiffe, s, ReconcileCommands(ds, swaps)).Ok?
    ensures var end := Steps(spiffe, s, ReconcileCommands(ds, swaps)).value;
            var ws := InTurn(ds, swaps);
            && end.At(Nodes) == s.At(Nodes)
            && end.At(Placements) == SwapAll(s.At(Placements), ws)
            && end.At(Placements) == PutAll(s.At(Placements) - Touched(ws), Survivors(ws))
  {
    hide Steps, PutAll, Touched, Survivors, SwapAll, SwapCommands, ReconcileCommands;
    CommandsInTurn(ds, swaps);
    SwapEffect(spiffe, s, InTurn(ds, swaps));
    SwapAllIs(s.At(Placements), InTurn(ds, swaps));
  }

  /** The decisions were taken on the view of the state. */
  ghost predicate DecidedOn(spiffe: string -> bool, cfg: Config, prio: Priority, s: Store, ds: seq<Decision>,
                            swaps: seq<Swap>) {
    && (forall i :: 0 <= i < |ds| ==> Best(cfg, ds[i].pod, ViewOf(spiffe, s), ds[i].node))
    && (forall i :: 0 <= i < |swaps| ==> Cheapest(prio, swaps[i].pod, ViewOf(spiffe, s), swaps[i].plan))
  }

  // ----- when it keeps what it places -----

  /** A pass keeps every pod it places exactly when no later decision stores or evicts a pod of the same name. */
  lemma ReconcileKeepsItsPodsIff(spiffe: string -> bool, cfg: Config, specs: seq<WorkloadSpec>, s: Store,
                                 ds: seq<Decision>, swaps: seq<Swap>)
    requires OneSpecEach(specs) && Reconciled(cfg, specs, s.At(Ordinals), ViewOf(spiffe, s), ds, swaps)
    ensures Steps(spiffe, s, ReconcileCommands(ds, swaps)).Ok?
    ensures var end := Steps(spiffe, s, ReconcileCommands(ds, swaps)).value.At(Placements);
            var ws := InTurn(ds, swaps);
            (forall i :: 0 <= i < |ws| ==> IsStored(end, PlacementOf(ws[i]))) <==>
              forall i :: 0 <= i < |ws| ==> Survives(ws, i)
  {
    hide Steps, PutAll, Touched, Survivors, SwapAll, Collected, Decided, ViewOf, Survives, DistinctSlots, IsStored;
    ReconcileEffect(spiffe, s, ds, swaps);
    var pods :| Collected(specs, s.At(Ordinals), pods)
                && Decided(cfg, PriorityOf(specs), pods, ViewOf(spiffe, s), ds, swaps);
    CollectedSlotsDiffer(specs, s.At(Ordinals), pods);
    DecidedSlotsDiffer(cfg, PriorityOf(specs), pods, ViewOf(spiffe, s), ds, swaps);
    var ws := InTurn(ds, swaps);
    forall i | 0 <= i < |ws|
      ensures IsStored(SwapAll(s.At(Placements), ws), PlacementOf(ws[i])) <==> Survives(ws, i)
    {
      PodIsKeptIff(s.At(Placements), ws, i);
      OnlyItself(ds, swaps, i);
    }
  }

  /** No other decision of the pass places the same. */
  lemma OnlyItself(ds: seq<Decision>, swaps: seq<Swap>, i: nat)
    requires DistinctSlots(PodsOf(ds) + Swapped(swaps)) && i < |InTurn(ds, swaps)|
    ensures var ws := InTurn(ds, swaps);
            forall j :: i <= j < |ws| && PlacementOf(ws[j]) == PlacementOf(ws[i]) ==> j == i
  {
    var ws, pods := InTurn(ds, swaps), PodsOf(ds) + Swapped(swaps);
    assert |pods| == |ws| && forall j :: 0 <= j < |ws| ==> pods[j] == ws[j].pod;
  }

  // ----- when it keeps capacity and anti-affinity -----

  lemma DecidedWithin(spiffe: string -> bool, cfg: Config, prio: Priority, s: Store, ds: seq<Decision>,
                      swaps: seq<Swap>)
    requires DecidedOn(spiffe, cfg, prio, s, ds, swaps)
    ensures SentWithin(ViewOf(spiffe, s), InTurn(ds, swaps))
  {
    hide ViewOf, Candidate, Rank, Cheaper, PlanOf;
    var ws := InTurn(ds, swaps);
    forall i | 0 <= i < |ws|
      ensures Offers(ViewOf(spiffe, s), ws[i].plan.nodeId)
    {
      if i < |ds| {
        assert Best(cfg, ds[i].pod, ViewOf(spiffe, s), ds[i].node);
      } else {
        var w := swaps[i - |ds|];
        assert Cheapest(prio, w.pod, ViewOf(spiffe, s), w.plan);
        var node :| node in ViewOf(spiffe, s).nodes && PlanOf(prio, w.pod, ViewOf(spiffe, s).placements, node, w.plan);
        PlanNodeId(prio, w.pod, ViewOf(spiffe, s).placements, node, w.plan);
      }
    }
  }

  /** A pass keeps every node within capacity exactly when, node by node, the pods of it that survive fit what its one
  view offers and what the pods under the names it touches held. */
  lemma ReconcileKeepsCapacityIff(spiffe: string -> bool, cfg: Config, prio: Priority, s: Store, ds: seq<Decision>,
                                  swaps: seq<Swap>)
    requires Sound(s) && DecidedOn(spiffe, cfg, prio, s, ds, swaps)
    ensures Steps(spiffe, s, ReconcileCommands(ds, swaps)).Ok?
    ensures var end := Steps(spiffe, s, ReconcileCommands(ds, swaps)).value;
            CapacityHeld(end.At(Nodes), end.At(Placements)) <==> WithinOffer(ViewOf(spiffe, s), InTurn(ds, swaps))
  {
    hide Steps, ReconcileCommands, SwapCommands, Sound, DecidedOn, CapacityHeld, WithinOffer, SentWithin, ViewOf;
    CommandsInTurn(ds, swaps);
    DecidedWithin(spiffe, cfg, prio, s, ds, swaps);
    PassKeepsCapacityIff(spiffe, s, InTurn(ds, swaps));
  }

  /** The pods preempted for that survive keep away from the siblings that stay. */
  ghost predicate EnterApart(cfg: Config, spiffe: string -> bool, nodes: Table, t: Table, ws: seq<Swap>, from: nat) {
    forall i :: from <= i < |ws| && Survives(ws, i) ==> ApartFromStored(cfg, spiffe, nodes, t, PlacementOf(ws[i]))
  }

  lemma ApartFromFewer(cfg: Config, spiffe: string -> bool, nodes: Table, t: Table, gone: set<string>, p: Placement)
    requires ApartFromStored(cfg, spiffe, nodes, t, p)
    ensures ApartFromStored(cfg, spiffe, nodes, t - gone, p)
  {
    hide FarApart, Siblings;
  }

  /** A pass keeps siblings apart exactly when the pods of it that survive are far from each other, and those among them
  it preempted for are far from the siblings under names it does not touch; the scheduler sees to the rest. */
  lemma ReconcileKeepsSpreadIff(spiffe: string -> bool, cfg: Config, prio: Priority, s: Store, ds: seq<Decision>,
                                swaps: seq<Swap>)
    requires KeyedByNode(s.At(Nodes)) && SpreadOut(cfg, spiffe, s) && DecidedOn(spiffe, cfg, prio, s, ds, swaps)
    ensures Steps(spiffe, s, ReconcileCommands(ds, swaps)).Ok?
    ensures var ws := InTurn(ds, swaps);
            SpreadOut(cfg, spiffe, Steps(spiffe, s, ReconcileCommands(ds, swaps)).value) <==>
              && ApartAmongThemselves(cfg, spiffe, s.At(Nodes), Survivors(ws))
              && EnterApart(cfg, spiffe, s.At(Nodes), s.At(Placements) - Touched(ws), ws, |ds|)
  {
    hide Steps, PutAll, SwapAll, Touched, Survivors, Survives, Spread, ApartAmongThemselves, ApartFromStored;
    hide ReconcileCommands, DecidedOn, KeyedByNode;
    ReconcileEffect(spiffe, s, ds, swaps);
    var nodes, t, ws := s.At(Nodes), s.At(Placements), InTurn(ds, swaps);
    SwapsKeepSpreadIff(cfg, spiffe, nodes, t, ws);
    forall i | 0 <= i < |Survivors(ws)|
      ensures exists j :: 0 <= j < |ws| && Survives(ws, j) && PlacementOf(ws[j]) == Survivors(ws)[i]
    {
      SurvivorsAre(ws, Survivors(ws)[i]);
    }
    forall i | 0 <= i < |ws| && Survives(ws, i)
      ensures exists j :: 0 <= j < |Survivors(ws)| && Survivors(ws)[j] == PlacementOf(ws[i])
    {
      SurvivorIsListed(ws, i);
    }
    forall i | 0 <= i < |ds|
      ensures ApartFromStored(cfg, spiffe, nodes, t - Touched(ws), PlacementOf(ws[i]))
    {
      ScheduledApart(spiffe, cfg, prio, s, ds, swaps, i);
    }
  }

  lemma ScheduledApart(spiffe: string -> bool, cfg: Config, prio: Priority, s: Store, ds: seq<Decision>,
                       swaps: seq<Swap>, i: nat)
    requires KeyedByNode(s.At(Nodes)) && DecidedOn(spiffe, cfg, prio, s, ds, swaps) && i < |ds|
    ensures var ws := InTurn(ds, swaps);
            ApartFromStored(cfg, spiffe, s.At(Nodes), s.At(Placements) - Touched(ws), PlacementOf(ws[i]))
  {
    hide ApartFromStored, ViewOf, Rank, AntiAffine, KeyedByNode, Touched, Cheapest;
    assert Best(cfg, ds[i].pod, ViewOf(spiffe, s), ds[i].node);
    DecisionsApartFromStored(spiffe, cfg, s, ds[i]);
    ApartFromFewer(cfg, spiffe, s.At(Nodes), s.At(Placements), Touched(InTurn(ds, swaps)),
                   PlacementFor(ds[i].pod, ds[i].node.nodeId));
  }
}
