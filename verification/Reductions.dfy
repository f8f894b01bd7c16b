/** The commands that only take placements away, as steps of a run that schedules and preempts. */
module Reductions {
  import opened Storage
  import opened Commands
  import opened PlacementTable
  import opened PlacementRuns
  import opened EvictedNodes
  import opened TableKeys

  /** Commands that write neither nodes nor placements, and those that shrink placements or touch up nodes. */
  ghost predicate Reducing(s: Store, cmd: Command) {
    || (!MayWrite(cmd, Nodes) && !MayWrite(cmd, Placements))
    || cmd.RemovePlacement? || cmd.DeleteWorkload? || cmd.ScaleWorkload? || cmd.EvictNode? || cmd.NodeHeartbeat?
    || (cmd.SetNodeSchedulable? && (IsNode(s.At(Nodes), cmd.nodeId) || HostsNothing(s.At(Placements), cmd.nodeId)))
  }

  /** Deleting a workload is a reduction. */
  lemma DeleteReduces(spiffe: string -> bool, s: Store, s': Store, t: string, w: string)
    requires KeyedByPod(s.At(Placements)) && Step(spiffe, s, DeleteWorkload(t, w)) == Ok(s')
    ensures Reduced(s, s')
  {
    hide Commit, DeleteWorkloadBatch;
    StepFrame(spiffe, s, DeleteWorkload(t, w), Nodes);
    DeletePrunes(s, t, w);
    WithinMinus(s.At(Placements), Selected(s.At(Placements), OfWorkload(t, w)));
  }

  /** Evicting a node is a reduction, whether or not the node was registered. */
  lemma EvictReduces(spiffe: string -> bool, s: Store, s': Store, n: string, expiresAt: int)
    requires KeyedByPod(s.At(Placements)) && Step(spiffe, s, EvictNode(n, expiresAt)) == Ok(s')
    ensures Reduced(s, s')
  {
    hide Commit, EvictBatch;
    var batch := Batch(spiffe, Reads(s), EvictNode(n, expiresAt)).value;
    EvictRemoves(spiffe, s, n, expiresAt, batch);
    EvictMarks(spiffe, s, n, expiresAt, batch);
    WithinMinus(s.At(Placements), Selected(s.At(Placements), OnNode(n)));
    EvictedHosts(s.At(Nodes), s.At(Placements), n);
  }

  lemma EvictedHosts(nodes: Table, t: Table, n: string)
    requires EvictedRecord(nodes, n).Ok?
    ensures SameHosts(nodes, nodes[n := NodeV(EvictedRecord(nodes, n).value)], t - Selected(t, OnNode(n)))
  {
  }

  lemma SparingReduces(spiffe: string -> bool, s: Store, s': Store, cmd: Command)
    requires Step(spiffe, s, cmd) == Ok(s') && !MayWrite(cmd, Nodes) && !MayWrite(cmd, Placements)
    ensures Reduced(s, s')
  {
    hide Step, MayWrite;
    StepFrame(spiffe, s, cmd, Nodes);
    StepFrame(spiffe, s, cmd, Placements);
  }

  /** All of them are steps a run may contain. */
  lemma ReducingCommands(spiffe: string -> bool, s: Store, s': Store, cmd: Command)
    requires KeyedByPod(s.At(Placements)) && Step(spiffe, s, cmd) == Ok(s') && Reducing(s, cmd)
    ensures Reduced(s, s')
  {
    hide Step, MayWrite, Reduced, KeyedByPod;
    if !MayWrite(cmd, Nodes) && !MayWrite(cmd, Placements) {
      SparingReduces(spiffe, s, s', cmd);
    } else if cmd.DeleteWorkload? {
      DeleteReduces(spiffe, s, s', cmd.tenantId, cmd.workloadId);
    } else if cmd.ScaleWorkload? {
      ScaleReduces(spiffe, s, s', cmd.workload);
    } else if cmd.EvictNode? {
      EvictReduces(spiffe, s, s', cmd.nodeId, cmd.svidExpiresAt);
    } else {
      CommandsThatReduce(spiffe, s, s', cmd);
    }
  }
}
