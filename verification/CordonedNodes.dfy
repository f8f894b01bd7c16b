/** A cordoned node takes no more pods until it is uncordoned or registers again, and uncordoning opens it. */
module CordonedNodes {
  import opened Records
  import opened Storage
  import opened Commands
  import opened TableSums
  import opened Cluster
  import opened Scheduler
  import opened Preemption
  import opened NodeEviction
  import opened PlacementRuns
  import opened EvictedNodes
  import opened TableKeys

  /** The node is registered and takes no pods. */
  predicate IsClosed(nodes: Table, n: string) {
    IsNode(nodes, n) && !nodes[n].node.schedulable
  }

  /** The commands that may open a node. */
  predicate Opens(cmd: Command, n: string) {
    Registers(cmd, n) || (cmd.SetNodeSchedulable? && cmd.nodeId == n && cmd.schedulable)
  }

  /** A write of a node record that does not open `n`. */
  ghost predicate Harmless(nodes: Table, op: Op, n: string) {
    && op.Put? && op.ks.Nodes? && op.value.NodeV?
    && (op.key == n && IsClosed(nodes, n) ==> !op.value.node.schedulable)
  }

  lemma HarmlessKeeps(s: Store, op: Op, n: string)
    requires Harmless(s.At(Nodes), op, n)
    ensures IsClosed(s.At(Nodes), n) ==> IsClosed(Exec(s, op).At(Nodes), n)
  {
  }

  lemma SchedulableHarmless(nodes: Table, id: string, schedulable: bool, n: string, batch: seq<Op>)
    requires SchedulableBatch(nodes, id, schedulable) == Ok(batch) && !(id == n && schedulable)
    ensures |batch| == 1 && Harmless(nodes, batch[0], n)
  {
  }

  lemma HeartbeatHarmless(nodes: Table, id: string, at: int, n: string, batch: seq<Op>)
    requires HeartbeatBatch(nodes, id, at) == Ok(batch)
    ensures |batch| <= 1 && (|batch| == 1 ==> Harmless(nodes, batch[0], n))
  {
  }

  lemma WritesAreHarmless(spiffe: string -> bool, v: View, cmd: Command, n: string)
    requires Batch(spiffe, v, cmd).Ok? && !Opens(cmd, n)
    requires cmd.RegisterNode? || cmd.SetNodeSchedulable? || cmd.NodeHeartbeat?
    ensures var batch := Batch(spiffe, v, cmd).value;
            |batch| <= 1 && (|batch| == 1 ==> Harmless(v.nodes, batch[0], n))
  {
    hide SchedulableBatch, HeartbeatBatch, IsClosed;
    var batch := Batch(spiffe, v, cmd).value;
    if cmd.SetNodeSchedulable? {
      SchedulableHarmless(v.nodes, cmd.nodeId, cmd.schedulable, n, batch);
    } else if cmd.NodeHeartbeat? {
      HeartbeatHarmless(v.nodes, cmd.nodeId, cmd.lastHeartbeat, n, batch);
    }
  }

  lemma WriteKeepsClosed(spiffe: string -> bool, s: Store, cmd: Command, n: string)
    requires IsClosed(s.At(Nodes), n) && Step(spiffe, s, cmd).Ok? && !Opens(cmd, n)
    requires cmd.RegisterNode? || cmd.SetNodeSchedulable? || cmd.NodeHeartbeat?
    ensures IsClosed(Step(spiffe, s, cmd).value.At(Nodes), n)
  {
    hide IsClosed, Harmless, Batch;
    var batch := Batch(spiffe, Reads(s), cmd).value;
    WritesAreHarmless(spiffe, Reads(s), cmd, n);
    if batch != [] {
      assert batch == [batch[0]];
      CommitOne(s, batch[0]);
      HarmlessKeeps(s, batch[0], n);
    }
  }

  lemma EvictKeepsClosed(spiffe: string -> bool, s: Store, id: string, expiresAt: int, n: string)
    requires IsClosed(s.At(Nodes), n) && Step(spiffe, s, EvictNode(id, expiresAt)).Ok?
    ensures IsClosed(Step(spiffe, s, EvictNode(id, expiresAt)).value.At(Nodes), n)
  {
    hide EvictBatch, Commit;
    EvictMarks(spiffe, s, id, expiresAt, Batch(spiffe, Reads(s), EvictNode(id, expiresAt)).value);
  }

  /** Only a registration of `n` or an uncordoning opens it again. */
  lemma StepKeepsClosed(spiffe: string -> bool, s: Store, cmd: Command, n: string)
    requires IsClosed(s.At(Nodes), n) && Step(spiffe, s, cmd).Ok? && !Opens(cmd, n)
    ensures IsClosed(Step(spiffe, s, cmd).value.At(Nodes), n)
  {
    hide IsClosed, Step, MayWrite, Opens;
    if !MayWrite(cmd, Nodes) {
      StepFrame(spiffe, s, cmd, Nodes);
    } else {
      NodeWriters(cmd);
      if cmd.EvictNode? {
        EvictKeepsClosed(spiffe, s, cmd.nodeId, cmd.svidExpiresAt, n);
      } else {
        WriteKeepsClosed(spiffe, s, cmd, n);
      }
    }
  }

  lemma {:induction false} RunKeepsClosed(spiffe: string -> bool, s: Store, cmds: seq<Command>, n: string)
    requires IsClosed(s.At(Nodes), n)
    requires Steps(spiffe, s, cmds).Ok? && forall i :: 0 <= i < |cmds| ==> !Opens(cmds[i], n)
    ensures IsClosed(Steps(spiffe, s, cmds).value.At(Nodes), n)
    decreases |cmds|
  {
    hide IsClosed, Step, Opens;
    if cmds != [] {
      StepKeepsClosed(spiffe, s, cmds[0], n);
      RunKeepsClosed(spiffe, Step(spiffe, s, cmds[0]).value, cmds[1..], n);
    }
  }

  lemma {:induction false} RunKeepsNodes(spiffe: string -> bool, s: Store, cmds: seq<Command>)
    requires KeyedByNode(s.At(Nodes)) && Steps(spiffe, s, cmds).Ok?
    ensures KeyedByNode(Steps(spiffe, s, cmds).value.At(Nodes))
    decreases |cmds|
  {
    hide KeyedByNode, Step;
    if cmds != [] {
      StepKeepsNodes(spiffe, s, cmds[0]);
      RunKeepsNodes(spiffe, Step(spiffe, s, cmds[0]).value, cmds[1..]);
    }
  }

  /** What setting the flag leaves of a node: its flag, a status that follows it unless the node is evicted, and all
  else as it was; a node not known before has no capacity. */
  lemma FlagStep(spiffe: string -> bool, s: Store, n: string, schedulable: bool)
    requires Step(spiffe, s, SetNodeSchedulable(n, schedulable)).Ok?
    ensures var nodes, nodes' := s.At(Nodes), Step(spiffe, s, SetNodeSchedulable(n, schedulable)).value.At(Nodes);
            && IsNode(nodes', n) && nodes'[n].node.schedulable == schedulable
            && (schedulable && !IsEvicted(nodes, n) ==> nodes'[n].node.status == Active)
            && (IsNode(nodes, n) ==>
                  && nodes'[n].node == nodes[n].node.(schedulable := schedulable, status := nodes'[n].node.status)
                  && (IsEvicted(nodes', n) <==> IsEvicted(nodes, n))
                  && (!schedulable ==> nodes'[n].node.status == nodes[n].node.status))
            && (!IsNode(nodes, n) ==>
                  && nodes'[n].node.nodeId == n && nodes'[n].node.capacity == Resources(0, 0)
                  && (!schedulable ==> nodes'[n].node.status == Cordoned))
            && (forall k :: k != n ==> (k in nodes' <==> k in nodes) && (k in nodes ==> nodes'[k] == nodes[k]))
  {
    hide Commit;
    var batch := Batch(spiffe, Reads(s), SetNodeSchedulable(n, schedulable)).value;
    assert batch == [batch[0]];
    CommitOne(s, batch[0]);
  }

  /** No view of a state in which the node is closed offers it. */
  lemma ClosedIsNotOffered(spiffe: string -> bool, s: Store, n: string, node: NodeInfo)
    requires KeyedByNode(s.At(Nodes)) && IsClosed(s.At(Nodes), n)
    requires node in ViewOf(spiffe, s).nodes && node.schedulable
    ensures node.nodeId != n
  {
    NodeOfView(spiffe, s, node);
  }

  /** From its cordoning until it is uncordoned or registers again, whatever else is applied, a node is chosen neither
  by the scheduler nor by preemption. */
  lemma CordonedNodeIsNeverChosen(spiffe: string -> bool, s: Store, n: string, cmds: seq<Command>, final: Store,
                                  cfg: Config, prio: Priority, pod: PendingPod)
    requires KeyedByNode(s.At(Nodes)) && Steps(spiffe, s, [SetNodeSchedulable(n, false)] + cmds) == Ok(final)
    requires forall i :: 0 <= i < |cmds| ==> !Opens(cmds[i], n)
    ensures forall node :: Best(cfg, pod, ViewOf(spiffe, final), node) ==> node.nodeId != n
    ensures forall plan :: Cheapest(prio, pod, ViewOf(spiffe, final), plan) ==> plan.nodeId != n
  {
    hide KeyedByNode, Step, Opens, Rank, ViewOf, AntiAffine, Cheaper, Enough;
    var cordon := SetNodeSchedulable(n, false);
    assert ([cordon] + cmds)[0] == cordon && ([cordon] + cmds)[1..] == cmds;
    var next := Step(spiffe, s, cordon).value;
    StepsHead(spiffe, s, cordon, cmds, next);
    FlagStep(spiffe, s, n, false);
    RunKeepsClosed(spiffe, next, cmds, n);
    RunKeepsNodes(spiffe, s, [cordon] + cmds);
    forall node | Best(cfg, pod, ViewOf(spiffe, final), node)
      ensures node.nodeId != n
    {
      ClosedIsNotOffered(spiffe, final, n, node);
    }
    forall plan | Cheapest(prio, pod, ViewOf(spiffe, final), plan)
      ensures plan.nodeId != n
    {
      var node :| node in ViewOf(spiffe, final).nodes
                  && PlanOf(prio, pod, ViewOf(spiffe, final).placements, node, plan);
      ClosedIsNotOffered(spiffe, final, n, node);
    }
  }

  /** Uncordoning a node that is not evicted opens it: the next view offers it. */
  lemma UncordonedNodeIsOffered(spiffe: string -> bool, s: Store, n: string)
    requires KeyedByNode(s.At(Nodes)) && spiffe(n) && !IsEvicted(s.At(Nodes), n)
    requires Step(spiffe, s, SetNodeSchedulable(n, true)).Ok?
    ensures var s' := Step(spiffe, s, SetNodeSchedulable(n, true)).value;
            exists node :: node in ViewOf(spiffe, s').nodes && node.nodeId == n && node.schedulable
  {
    hide Step, Used, ListPlacements, ListNodes, Views;
    FlagStep(spiffe, s, n, true);
    var s' := Step(spiffe, s, SetNodeSchedulable(n, true)).value;
    NodeInView(spiffe, s', n);
    var node := NodeView(s'.At(Nodes)[n].node, ListPlacements(s'.At(Placements)), TaintMap(s'.At(NodeTaints)));
    assert node in ViewOf(spiffe, s').nodes && node.nodeId == n && node.schedulable;
  }
}
