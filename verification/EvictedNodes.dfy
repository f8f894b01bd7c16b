/** An evicted node takes no more pods until it registers again. */
module EvictedNodes {
  import opened Records
  import opened Storage
  import opened Commands
  import opened TableSums
  import opened Taints
  import opened Cluster
  import opened Scheduler
  import opened Preemption
  import opened NodeEviction
  import opened PlacementRuns

  predicate IsEvicted(nodes: Table, n: string) {
    IsNode(nodes, n) && nodes[n].node.status == Evicted
  }

  predicate Registers(cmd: Command, n: string) {
    cmd.RegisterNode? && cmd.node.nodeId == n
  }

  lemma NodeWriters(cmd: Command)
    requires MayWrite(cmd, Nodes)
    ensures cmd.RegisterNode? || cmd.SetNodeSchedulable? || cmd.NodeHeartbeat? || cmd.EvictNode?
  {
  }

  // ----- one write -----

  /** A write of a node record under its own id that does not revive `n`. */
  ghost predicate Benign(nodes: Table, op: Op, n: string) {
    && op.Put? && op.ks.Nodes? && op.value.NodeV? && op.value.node.nodeId == op.key
    && (op.key == n && IsEvicted(nodes, n) ==> op.value.node.status == Evicted)
  }

  lemma SchedulableBenign(nodes: Table, id: string, schedulable: bool, n: string, op: Op)
    requires KeyedByNode(nodes) && SchedulableBatch(nodes, id, schedulable) == Ok([op])
    ensures Benign(nodes, op, n)
  {
    assert [op][0] == op;
  }

  lemma HeartbeatBenign(nodes: Table, id: string, at: int, n: string, op: Op)
    requires KeyedByNode(nodes) && HeartbeatBatch(nodes, id, at) == Ok([op])
    ensures Benign(nodes, op, n)
  {
    assert [op][0] == op;
  }

  lemma WriteKeeps(s: Store, op: Op, n: string)
    requires KeyedByNode(s.At(Nodes)) && Benign(s.At(Nodes), op, n)
    ensures KeyedByNode(Exec(s, op).At(Nodes))
    ensures IsEvicted(s.At(Nodes), n) ==> IsEvicted(Exec(s, op).At(Nodes), n)
  {
  }

  // ----- one command -----

  /** Commands that write one node record. */
  lemma RecordWriteKeeps(spiffe: string -> bool, s: Store, cmd: Command, n: string)
    requires KeyedByNode(s.At(Nodes)) && Step(spiffe, s, cmd).Ok? && !Registers(cmd, n)
    requires cmd.RegisterNode? || cmd.SetNodeSchedulable? || cmd.NodeHeartbeat?
    ensures KeyedByNode(Step(spiffe, s, cmd).value.At(Nodes))
    ensures IsEvicted(s.At(Nodes), n) ==> IsEvicted(Step(spiffe, s, cmd).value.At(Nodes), n)
  {
    hide KeyedByNode, IsEvicted, Benign, SchedulableBatch, HeartbeatBatch;
    var batch := Batch(spiffe, Reads(s), cmd).value;
    BatchShape(spiffe, Reads(s), cmd, n);
    if batch != [] {
      assert batch == [batch[0]];
      CommitOne(s, batch[0]);
      WriteKeeps(s, batch[0], n);
    }
  }

  lemma BatchShape(spiffe: string -> bool, v: View, cmd: Command, n: string)
    requires KeyedByNode(v.nodes) && Batch(spiffe, v, cmd).Ok? && !Registers(cmd, n)
    requires cmd.RegisterNode? || cmd.SetNodeSchedulable? || cmd.NodeHeartbeat?
    ensures var batch := Batch(spiffe, v, cmd).value;
            |batch| <= 1 && (|batch| == 1 ==> Benign(v.nodes, batch[0], n))
  {
    var batch := Batch(spiffe, v, cmd).value;
    if |batch| == 1 {
      assert batch == [batch[0]];
      match cmd
      case SetNodeSchedulable(id, schedulable) => SchedulableBenign(v.nodes, id, schedulable, n, batch[0]);
      case NodeHeartbeat(id, at) => HeartbeatBenign(v.nodes, id, at, n, batch[0]);
      case RegisterNode(_) =>
    }
  }

  /** Evicting a node marks it evicted and leaves every other record alone. */
  lemma EvictMarks(spiffe: string -> bool, s: Store, id: string, expiresAt: int, batch: seq<Op>)
    requires EvictBatch(spiffe, s.At(Nodes), s.At(ActiveDelegations), s.At(Placements), id, expiresAt) == Ok(batch)
    ensures EvictedRecord(s.At(Nodes), id).Ok?
    ensures Commit(s, batch).At(Nodes) == s.At(Nodes)[id := NodeV(EvictedRecord(s.At(Nodes), id).value)]
  {
    hide RevokeOps, RemoveOps, Select, Rows, DelegationRows, Commit, Exec;
    var put := Put(Nodes, id, NodeV(EvictedRecord(s.At(Nodes), id).value));
    var rows := DelegationRows(s.At(ActiveDelegations), id);
    var hosted := Select(Rows(s.At(Placements)), OnNode(id));
    var after := RevokeOps(rows) + RemoveOps(hosted) + [Put(RevokedSvids, id, RevokedSvidV(id, expiresAt))];
    RevokeOpsTouch(rows);
    RemoveOpsTouch(hosted);
    CommitMiddle(s, [], [put], after, Nodes);
    assert [] + [put] + after == batch;
    CommitOne(s, put);
    ExecPut(s, Nodes, id, put.value);
  }

  lemma ExecPut(s: Store, ks: Keyspace, key: string, value: Value)
    ensures Exec(s, Put(ks, key, value)).At(ks) == s.At(ks)[key := value]
  {
  }

  lemma EvictedRecordKeeps(nodes: Table, id: string, n: string)
    requires KeyedByNode(nodes) && EvictedRecord(nodes, id).Ok?
    ensures var nodes' := nodes[id := NodeV(EvictedRecord(nodes, id).value)];
            && KeyedByNode(nodes') && IsEvicted(nodes', id) && (IsEvicted(nodes, n) ==> IsEvicted(nodes', n))
  {
  }

  lemma EvictStep(spiffe: string -> bool, s: Store, id: string, expiresAt: int, n: string)
    requires KeyedByNode(s.At(Nodes)) && Step(spiffe, s, EvictNode(id, expiresAt)).Ok?
    ensures var nodes := Step(spiffe, s, EvictNode(id, expiresAt)).value.At(Nodes);
            && KeyedByNode(nodes) && IsEvicted(nodes, id) && (IsEvicted(s.At(Nodes), n) ==> IsEvicted(nodes, n))
  {
    hide KeyedByNode, IsEvicted, EvictBatch, Commit, EvictedRecord;
    EvictMarks(spiffe, s, id, expiresAt, Batch(spiffe, Reads(s), EvictNode(id, expiresAt)).value);
    EvictedRecordKeeps(s.At(Nodes), id, n);
  }

  /** Only a registration of `n` ends its eviction. */
  lemma StepKeepsEvicted(spiffe: string -> bool, s: Store, cmd: Command, n: string)
    requires KeyedByNode(s.At(Nodes)) && Step(spiffe, s, cmd).Ok? && !Registers(cmd, n)
    ensures KeyedByNode(Step(spiffe, s, cmd).value.At(Nodes))
    ensures IsEvicted(s.At(Nodes), n) ==> IsEvicted(Step(spiffe, s, cmd).value.At(Nodes), n)
  {
    hide KeyedByNode, IsEvicted, Step, MayWrite;
    if !MayWrite(cmd, Nodes) {
      StepFrame(spiffe, s, cmd, Nodes);
    } else {
      NodeWriters(cmd);
      if cmd.EvictNode? {
        EvictStep(spiffe, s, cmd.nodeId, cmd.svidExpiresAt, n);
      } else {
        RecordWriteKeeps(spiffe, s, cmd, n);
      }
    }
  }

  // ----- runs -----

  lemma {:induction false} RunKeepsEvicted(spiffe: string -> bool, s: Store, cmds: seq<Command>, n: string)
    requires KeyedByNode(s.At(Nodes)) && IsEvicted(s.At(Nodes), n)
    requires Steps(spiffe, s, cmds).Ok? && forall i :: 0 <= i < |cmds| ==> !Registers(cmds[i], n)
    ensures KeyedByNode(Steps(spiffe, s, cmds).value.At(Nodes)) && IsEvicted(Steps(spiffe, s, cmds).value.At(Nodes), n)
    decreases |cmds|
  {
    hide KeyedByNode, IsEvicted, Step, Registers;
    if cmds != [] {
      StepKeepsEvicted(spiffe, s, cmds[0], n);
      RunKeepsEvicted(spiffe, Step(spiffe, s, cmds[0]).value, cmds[1..], n);
    }
  }

  /** No view of a state in which the node is evicted offers it. */
  lemma EvictedIsNotOffered(spiffe: string -> bool, s: Store, n: string, node: NodeInfo)
    requires KeyedByNode(s.At(Nodes)) && IsEvicted(s.At(Nodes), n)
    requires node in ViewOf(spiffe, s).nodes && node.schedulable
    ensures node.nodeId != n
  {
    NodeOfView(spiffe, s, node);
  }

  /** From its eviction until it registers again, whatever commands are applied, a node is chosen neither
  by the scheduler nor by preemption. */
  lemma EvictedNodeIsNeverChosen(spiffe: string -> bool, s: Store, n: string, expiresAt: int, cmds: seq<Command>,
                                 final: Store, cfg: Config, prio: Priority, pod: PendingPod)
    requires KeyedByNode(s.At(Nodes))
    requires Steps(spiffe, s, [EvictNode(n, expiresAt)] + cmds) == Ok(final)
    requires forall i :: 0 <= i < |cmds| ==> !Registers(cmds[i], n)
    ensures forall node :: Best(cfg, pod, ViewOf(spiffe, final), node) ==> node.nodeId != n
    ensures forall plan :: Cheapest(prio, pod, ViewOf(spiffe, final), plan) ==> plan.nodeId != n
  {
    hide KeyedByNode, IsEvicted, Step, Registers, Rank, ViewOf, AntiAffine, PassesFilter, Cheaper, Enough;
    var evict := EvictNode(n, expiresAt);
    assert ([evict] + cmds)[0] == evict && ([evict] + cmds)[1..] == cmds;
    var next := Step(spiffe, s, evict).value;
    StepsHead(spiffe, s, evict, cmds, next);
    EvictStep(spiffe, s, n, expiresAt, n);
    RunKeepsEvicted(spiffe, next, cmds, n);
    forall node | Best(cfg, pod, ViewOf(spiffe, final), node)
      ensures node.nodeId != n
    {
      EvictedIsNotOffered(spiffe, final, n, node);
    }
    forall plan | Cheapest(prio, pod, ViewOf(spiffe, final), plan)
      ensures plan.nodeId != n
    {
      var node :| node in ViewOf(spiffe, final).nodes
                  && PlanOf(prio, pod, ViewOf(spiffe, final).placements, node, plan);
      EvictedIsNotOffered(spiffe, final, n, node);
    }
  }
}
