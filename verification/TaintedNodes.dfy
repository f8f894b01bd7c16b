/** A tainted node turns away the pods that do not tolerate its taints, until the taints are changed. */
module TaintedNodes {
  import opened Records
  import opened Storage
  import opened Commands
  import opened StoredRecords
  import opened TableSums
  import opened Taints
  import opened Cluster
  import opened Scheduler
  import opened Preemption
  import opened NodeEviction
  import opened PlacementRuns
  import opened CordonedNodes

  // ----- setting and removing -----

  /** The taints stored for a node. */
  function TaintsOn(t: Table, n: string): seq<NodeTaint> {
    if n in t && t[n].TaintsV? then t[n].taints else []
  }

  /** Removing taints by key and effect goes taint by taint. */
  lemma {:induction false} UntaintedConcat(a: seq<NodeTaint>, b: seq<NodeTaint>, key: string, effect: string)
    ensures Untainted(a + b, key, effect) == Untainted(a, key, effect) + Untainted(b, key, effect)
  {
    if a == [] {
      assert a + b == b;
    } else {
      assert (a + b)[1..] == a[1..] + b;
      UntaintedConcat(a[1..], b, key, effect);
    }
  }

  lemma UntaintedOne(t: NodeTaint, key: string, effect: string)
    ensures Untainted([t], key, effect) == if t.key == key && t.effect == effect then [] else [t]
  {
    assert [t][1..] == [];
  }

  lemma {:induction false} UntaintedShorter(taints: seq<NodeTaint>, key: string, effect: string)
    ensures |Untainted(taints, key, effect)| <= |taints|
    ensures |Untainted(taints, key, effect)| == |taints| ==> Untainted(taints, key, effect) == taints
    ensures forall t :: t in Untainted(taints, key, effect) <==> t in taints && !(t.key == key && t.effect == effect)
  {
    if taints != [] {
      UntaintedShorter(taints[1..], key, effect);
      assert taints == [taints[0]] + taints[1..];
    }
  }

  /** Setting taints replaces the node's; no taints is no row. */
  lemma TaintsAreSet(spiffe: string -> bool, s: Store, n: string, taints: seq<NodeTaint>)
    ensures Step(spiffe, s, SetNodeTaints(n, taints)).Ok?
    ensures var t, t' := s.At(NodeTaints), Step(spiffe, s, SetNodeTaints(n, taints)).value.At(NodeTaints);
            && TaintsOn(t', n) == taints && (n in t' <==> taints != [])
            && forall k :: k != n ==> (k in t' <==> k in t) && (k in t ==> t'[k] == t[k])
  {
    var cmd := SetNodeTaints(n, taints);
    BatchOfReports(spiffe, Reads(s), cmd);
    hide Batch;
    OneOp(spiffe, s, cmd, if taints == [] then Del(NodeTaints, n) else Put(NodeTaints, n, TaintsV(taints)));
  }

  /** Removing a taint takes away exactly the node's taints with that key and effect, in place; it fails exactly on a
  row it cannot read. */
  lemma TaintIsRemoved(spiffe: string -> bool, s: Store, n: string, key: string, effect: string)
    ensures var t, r := s.At(NodeTaints), Step(spiffe, s, RemoveNodeTaint(n, key, effect));
            && (r.Err? <==> n in t && !t[n].TaintsV?)
            && (r.Ok? ==>
                  var t' := r.value.At(NodeTaints);
                  && TaintsOn(t', n) == Untainted(TaintsOn(t, n), key, effect)
                  && (forall k :: k != n ==> (k in t' <==> k in t) && (k in t ==> t'[k] == t[k])))
  {
    var t, cmd := s.At(NodeTaints), RemoveNodeTaint(n, key, effect);
    BatchOfReports(spiffe, Reads(s), cmd);
    FailsWithBatch(spiffe, s, cmd);
    hide Batch, Step, Untainted;
    if n in t && t[n].TaintsV? {
      var kept := Untainted(t[n].taints, key, effect);
      UntaintedShorter(t[n].taints, key, effect);
      if |kept| == |t[n].taints| {
        NoOps(spiffe, s, cmd);
      } else {
        OneOp(spiffe, s, cmd, if kept == [] then Del(NodeTaints, n) else Put(NodeTaints, n, TaintsV(kept)));
      }
    } else if n !in t {
      NoOps(spiffe, s, cmd);
      UntaintedShorter([], key, effect);
    }
  }

  // ----- runs -----

  /** The commands that change a node's taints. */
  predicate Retaints(cmd: Command, n: string) {
    (cmd.SetNodeTaints? || cmd.RemoveNodeTaint?) && cmd.nodeId == n
  }

  lemma TaintWriters(cmd: Command)
    requires MayWrite(cmd, NodeTaints)
    ensures cmd.SetNodeTaints? || cmd.RemoveNodeTaint?
  {
  }

  lemma StepKeepsTaints(spiffe: string -> bool, s: Store, cmd: Command, n: string)
    requires Step(spiffe, s, cmd).Ok? && !Retaints(cmd, n)
    ensures TaintsOn(Step(spiffe, s, cmd).value.At(NodeTaints), n) == TaintsOn(s.At(NodeTaints), n)
  {
    hide Step, MayWrite;
    if !MayWrite(cmd, NodeTaints) {
      StepFrame(spiffe, s, cmd, NodeTaints);
    } else {
      TaintWriters(cmd);
      if cmd.SetNodeTaints? {
        TaintsAreSet(spiffe, s, cmd.nodeId, cmd.taints);
      } else {
        TaintIsRemoved(spiffe, s, cmd.nodeId, cmd.taintKey, cmd.effect);
      }
    }
  }

  lemma {:induction false} RunKeepsTaints(spiffe: string -> bool, s: Store, cmds: seq<Command>, n: string)
    requires Steps(spiffe, s, cmds).Ok? && forall i :: 0 <= i < |cmds| ==> !Retaints(cmds[i], n)
    ensures TaintsOn(Steps(spiffe, s, cmds).value.At(NodeTaints), n) == TaintsOn(s.At(NodeTaints), n)
    decreases |cmds|
  {
    hide Step, TaintsOn, Retaints;
    if cmds != [] {
      StepKeepsTaints(spiffe, s, cmds[0], n);
      RunKeepsTaints(spiffe, Step(spiffe, s, cmds[0]).value, cmds[1..], n);
    }
  }

  /** The view shows a node with the taints stored for it. */
  lemma ViewShowsTaints(spiffe: string -> bool, s: Store, node: NodeInfo)
    requires KeyedByNode(s.At(Nodes)) && node in ViewOf(spiffe, s).nodes
    ensures node.taints == TaintsOn(s.At(NodeTaints), node.nodeId)
  {
    NodeOfView(spiffe, s, node);
  }

  /** From the setting of a node's taints until they are changed, whatever else is applied, a pod that does not
  tolerate one that forbids scheduling is put there neither by the scheduler nor by preemption. */
  lemma TaintedNodeTurnsAway(spiffe: string -> bool, s: Store, n: string, taints: seq<NodeTaint>, i: nat,
                             cmds: seq<Command>, final: Store, cfg: Config, prio: Priority, pod: PendingPod)
    requires KeyedByNode(s.At(Nodes)) && Steps(spiffe, s, [SetNodeTaints(n, taints)] + cmds) == Ok(final)
    requires forall j :: 0 <= j < |cmds| ==> !Retaints(cmds[j], n)
    requires i < |taints| && (taints[i].effect == "NoSchedule" || taints[i].effect == "NoExecute")
    requires forall tol :: tol in pod.tolerations ==> Elsewhere(tol, taints[i])
    ensures forall node :: Best(cfg, pod, ViewOf(spiffe, final), node) ==> node.nodeId != n
    ensures forall plan :: Cheapest(prio, pod, ViewOf(spiffe, final), plan) ==> plan.nodeId != n
  {
    hide KeyedByNode, Step, Retaints, Rank, ViewOf, AntiAffine, Cheaper, Enough, PassesFilter, TaintsOn, Elsewhere;
    var tainting := SetNodeTaints(n, taints);
    assert ([tainting] + cmds)[0] == tainting && ([tainting] + cmds)[1..] == cmds;
    var next := Step(spiffe, s, tainting).value;
    StepsHead(spiffe, s, tainting, cmds, next);
    TaintsAreSet(spiffe, s, n, taints);
    RunKeepsTaints(spiffe, next, cmds, n);
    RunKeepsNodes(spiffe, s, [tainting] + cmds);
    OthersDoNotHelp(0, taints, pod.tolerations, i);
    forall node | Best(cfg, pod, ViewOf(spiffe, final), node)
      ensures node.nodeId != n
    {
      ViewShowsTaints(spiffe, final, node);
    }
    forall plan | Cheapest(prio, pod, ViewOf(spiffe, final), plan)
      ensures plan.nodeId != n
    {
      var node :| node in ViewOf(spiffe, final).nodes
                  && PlanOf(prio, pod, ViewOf(spiffe, final).placements, node, plan);
      ViewShowsTaints(spiffe, final, node);
    }
  }
}
