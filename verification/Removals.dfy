/** Which placements the commands take away, in the placements' own fields, and what they leave of the slots and
specs. */
module Removals {
  import opened Decimal
  import opened Records
  import opened Keys
  import opened Storage
  import opened Commands
  import opened PlacementTable
  import opened TableKeys
  import opened EvictedNodes
  import opened CordonedNodes

  /** The rows of a table that are not gone are as they were. */
  ghost predicate KeptWithout(t: Table, t': Table, gone: set<string>) {
    forall k :: (k in t' <==> k in t && k !in gone) && (k in t' ==> t'[k] == t[k])
  }

  lemma MinusKeeps(t: Table, gone: set<string>)
    ensures KeptWithout(t, t - gone, gone)
  {
  }

  /** The slot a placement held, once it is freed. */
  ghost predicate IsFreed(ordinals: Table, p: Placement) {
    var key := OrdinalKey(p.tenantId, p.service, p.role, p.ordinal);
    key in ordinals
    && ordinals[key] == OrdinalV(OrdinalAssignment(p.tenantId, p.service, p.role, p.ordinal, None, None))
  }

  lemma DroppedSlots(s: Store, t: Table, c: Criterion, tenant: string, workload: string)
    requires forall p :: Meets(c, p) ==> p.tenantId == tenant && p.service == workload
    ensures var end := Commit(s, DropOps(Select(Rows(t), c)));
            forall k :: k in Selected(t, c) ==> IsFreed(end.At(Ordinals), t[k].placement)
  {
    hide Commit, Rows, Select, DropOps, OrdinalKey;
    var ps := Select(Rows(t), c);
    SelectMembers(Rows(t), c);
    DropOpsFree(s, ps, tenant, workload);
    forall k | k in Selected(t, c)
      ensures IsFreed(Commit(s, DropOps(ps)).At(Ordinals), t[k].placement)
    {
      RowsContain(t, t[k]);
      assert t[k].placement in ps;
    }
  }

  lemma DropBatch(s: Store, op: Op, ps: seq<Placement>)
    requires op.ks == Workloads
    ensures Commit(s, [op] + DropOps(ps)).At(Workloads) == Exec(s, op).At(Workloads)
    ensures Commit(s, [op] + DropOps(ps)).At(Ordinals) == Commit(s, DropOps(ps)).At(Ordinals)
  {
    hide DropOps, Commit, Exec;
    DropOpsTouch(ps);
    CommitMiddle(s, [], [op], DropOps(ps), Workloads);
    CommitMiddle(s, [op], DropOps(ps), [], Ordinals);
    CommitOne(s, op);
    assert [] + [op] + DropOps(ps) == [op] + DropOps(ps) && [op] + DropOps(ps) + [] == [op] + DropOps(ps);
  }

  /** Deleting a workload removes its spec and exactly the placements of that tenant and workload, and frees the slot of
  each. */
  lemma DeleteRemoves(spiffe: string -> bool, s: Store, tenant: string, workload: string)
    requires KeyedByPod(s.At(Placements))
    ensures Step(spiffe, s, DeleteWorkload(tenant, workload)).Ok?
    ensures var t, end := s.At(Placements), Step(spiffe, s, DeleteWorkload(tenant, workload)).value;
            var gone := set k | k in t && t[k].PlacementV? && t[k].placement.tenantId == tenant
                                && t[k].placement.service == workload;
            && KeptWithout(t, end.At(Placements), gone)
            && end.At(Workloads) == s.At(Workloads) - {WorkloadKey(tenant, workload)}
            && forall k :: k in gone ==> IsFreed(end.At(Ordinals), t[k].placement)
  {
    var t, cmd := s.At(Placements), DeleteWorkload(tenant, workload);
    BatchOfPlacements(spiffe, Reads(s), cmd);
    hide Batch, Rows, Select, DropOps, Commit, KeyedByPod, WorkloadKey, IsFreed;
    DeletePrunes(s, tenant, workload);
    MinusKeeps(t, Selected(t, OfWorkload(tenant, workload)));
    DropBatch(s, Del(Workloads, WorkloadKey(tenant, workload)), Select(Rows(t), OfWorkload(tenant, workload)));
    DroppedSlots(s, t, OfWorkload(tenant, workload), tenant, workload);
    assert forall k :: k in Selected(t, OfWorkload(tenant, workload)) <==>
             k in t && t[k].PlacementV? && t[k].placement.tenantId == tenant && t[k].placement.service == workload;
  }

  /** A placement that a scaling to these counts does away with. */
  predicate Superfluous(p: Placement, tenant: string, workload: string, replicas: map<string, nat>) {
    p.tenantId == tenant && p.service == workload && !(p.role in replicas && p.ordinal < replicas[p.role])
  }

  /** Scaling stores the spec, removes exactly the workload's placements in a role that is dropped or at or beyond its
  new count, and frees the slot of each. A spec that does not decode asks for nothing. */
  lemma ScaleRemoves(spiffe: string -> bool, s: Store, w: WorkloadRecord)
    requires KeyedByPod(s.At(Placements))
    ensures Step(spiffe, s, ScaleWorkload(w)).Ok?
    ensures var t, end := s.At(Placements), Step(spiffe, s, ScaleWorkload(w)).value;
            var replicas := if w.spec.Some? then w.spec.value.replicas else map[];
            var gone := set k | k in t && t[k].PlacementV?
                                && Superfluous(t[k].placement, w.tenantId, w.workloadId, replicas);
            && KeptWithout(t, end.At(Placements), gone)
            && end.At(Workloads) == s.At(Workloads)[WorkloadKey(w.tenantId, w.workloadId) := WorkloadV(w)]
            && forall k :: k in gone ==> IsFreed(end.At(Ordinals), t[k].placement)
  {
    var t, cmd := s.At(Placements), ScaleWorkload(w);
    var c := BeyondReplicas(w.tenantId, w.workloadId, Replicas(w));
    BatchOfPlacements(spiffe, Reads(s), cmd);
    hide Batch, Rows, Select, DropOps, Commit, KeyedByPod, WorkloadKey, IsFreed;
    ScalePrunes(s, w);
    MinusKeeps(t, Selected(t, c));
    DropBatch(s, PutWorkload(w), Select(Rows(t), c));
    DroppedSlots(s, t, c, w.tenantId, w.workloadId);
    assert forall k :: k in Selected(t, c) <==>
             k in t && t[k].PlacementV? && Superfluous(t[k].placement, w.tenantId, w.workloadId, Replicas(w));
  }

  /** Evicting a node removes exactly the placements on it and closes it; everything else in its record stays, and a
  node not known before has no capacity. */
  lemma EvictLeaves(spiffe: string -> bool, s: Store, n: string, expiresAt: int)
    requires KeyedByPod(s.At(Placements)) && Step(spiffe, s, EvictNode(n, expiresAt)).Ok?
    ensures var t, end := s.At(Placements), Step(spiffe, s, EvictNode(n, expiresAt)).value;
            && KeptWithout(t, end.At(Placements),
                           set k | k in t && t[k].PlacementV? && t[k].placement.nodeId == n)
            && IsEvicted(end.At(Nodes), n) && IsClosed(end.At(Nodes), n)
            && (n in s.At(Nodes) && s.At(Nodes)[n].NodeV? ==>
                  end.At(Nodes)[n].node == s.At(Nodes)[n].node.(status := Evicted, schedulable := false))
            && (n !in s.At(Nodes) ==>
                  end.At(Nodes)[n].node.nodeId == n && end.At(Nodes)[n].node.capacity == Resources(0, 0))
            && KeptWithout(s.At(Nodes), end.At(Nodes) - {n}, {n})
  {
    var t := s.At(Placements);
    BatchOfScans(spiffe, Reads(s), EvictNode(n, expiresAt));
    hide Batch, EvictBatch, Commit, KeyedByPod;
    var batch := Batch(spiffe, Reads(s), EvictNode(n, expiresAt)).value;
    EvictRemoves(spiffe, s, n, expiresAt, batch);
    EvictMarks(spiffe, s, n, expiresAt, batch);
    MinusKeeps(t, Selected(t, OnNode(n)));
    assert forall k :: k in Selected(t, OnNode(n)) <==> k in t && t[k].PlacementV? && t[k].placement.nodeId == n;
  }

  lemma ReassignRecords(spiffe: string -> bool, s: Store, t: string, service: string, role: string, slot: nat,
                        newPodId: string)
    ensures Step(spiffe, s, ReassignPodId(t, service, role, slot, newPodId)).Ok?
    ensures var found := FindSlot(Rows(s.At(Placements)), t, service, role, slot);
            Step(spiffe, s, ReassignPodId(t, service, role, slot, newPodId)).value.At(Ordinals)
            == if found.None? then s.At(Ordinals)
               else s.At(Ordinals)[OrdinalKey(t, service, role, slot) :=
                                     OrdinalV(OrdinalAssignment(t, service, role, slot, Some(newPodId),
                                                                Some(found.value.nodeId)))]
  {
    BatchOfPlacements(spiffe, Reads(s), ReassignPodId(t, service, role, slot, newPodId));
    hide Batch, Rows, FindSlot, Commit, OrdinalKey;
    var found := FindSlot(Rows(s.At(Placements)), t, service, role, slot);
    if found.Some? {
      var p := found.value;
      var a, b := Del(Placements, p.podId), Put(Placements, newPodId, PlacementV(p.(podId := newPodId)));
      var c := Put(Ordinals, OrdinalKey(t, service, role, slot),
                   OrdinalV(OrdinalAssignment(t, service, role, slot, Some(newPodId), Some(p.nodeId))));
      CommitMiddle(s, [a, b], [c], [], Ordinals);
      assert [a, b] + [c] + [] == [a, b, c];
      CommitOne(s, c);
    } else {
      ReassignNothing(s, t, service, role, slot, newPodId);
    }
  }

  /** The placement is of this slot of this role. */
  predicate IsOf(v: Value, tenant: string, service: string, role: string, slot: nat) {
    && v.PlacementV? && v.placement.tenantId == tenant && v.placement.service == service && v.placement.role == role
    && v.placement.ordinal == slot
  }

  /** Replacing the pod of a slot moves its placement to the new name, on the node it was on, and records both on the
  slot; where nothing is placed in the slot nothing changes. */
  lemma ReassignMoves(spiffe: string -> bool, s: Store, t: string, service: string, role: string, slot: nat,
                      newPodId: string, k: string)
    requires KeyedByPod(s.At(Placements))
    requires forall l :: l in s.At(Placements) && l != k ==> !IsOf(s.At(Placements)[l], t, service, role, slot)
    ensures Step(spiffe, s, ReassignPodId(t, service, role, slot, newPodId)).Ok?
    ensures var ps, end := s.At(Placements), Step(spiffe, s, ReassignPodId(t, service, role, slot, newPodId)).value;
            if k in ps && IsOf(ps[k], t, service, role, slot) then
              && end.At(Placements) == (ps - {k})[newPodId := PlacementV(ps[k].placement.(podId := newPodId))]
              && end.At(Ordinals)
                 == s.At(Ordinals)[OrdinalKey(t, service, role, slot) :=
                                     OrdinalV(OrdinalAssignment(t, service, role, slot, Some(newPodId),
                                                                Some(ps[k].placement.nodeId)))]
            else end.At(Placements) == ps && end.At(Ordinals) == s.At(Ordinals)
  {
    BatchOfPlacements(spiffe, Reads(s), ReassignPodId(t, service, role, slot, newPodId));
    hide Batch, Rows, FindSlot, Commit, OrdinalKey, ReassignBatch;
    ReassignRecords(spiffe, s, t, service, role, slot, newPodId);
    var ps := s.At(Placements);
    SlotHolder(ps, t, service, role, slot);
    assert Holds(ps, k, t, service, role, slot) <==> k in ps && IsOf(ps[k], t, service, role, slot);
    var found := FindSlot(Rows(ps), t, service, role, slot);
    if found.Some? {
      ReassignRenames(s, t, service, role, slot, newPodId, found.value);
    } else {
      ReassignNothing(s, t, service, role, slot, newPodId);
    }
  }
}
