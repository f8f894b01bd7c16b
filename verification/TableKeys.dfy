/** In every run of commands placements and nodes stay stored under their own identifiers, and replacing
a pod keeps its slot. */
module TableKeys {
  import opened Decimal
  import opened Records
  import opened Keys
  import opened Storage
  import opened Commands
  import opened Manifests
  import opened PlacementTable
  import opened Disruption
  import opened TableSums
  import opened NodeEviction
  import opened PlacementRuns
  import opened EvictedNodes

  // ----- replacing a pod -----

  predicate Holds(t: Table, k: string, tenant: string, service: string, role: string, slot: nat) {
    k in t && t[k].PlacementV? && Occupies(t[k].placement, tenant, service, role, slot)
  }

  lemma {:induction false} FindSlotFinds(rows: seq<Value>, t: string, s: string, r: string, o: nat)
    ensures FindSlot(rows, t, s, r, o).None? <==> forall p :: PlacementV(p) in rows ==> !Occupies(p, t, s, r, o)
    ensures var found := FindSlot(rows, t, s, r, o);
            found.Some? ==> PlacementV(found.value) in rows && Occupies(found.value, t, s, r, o)
  {
    if rows != [] {
      FindSlotFinds(rows[1..], t, s, r, o);
      assert rows == [rows[0]] + rows[1..];
    }
  }

  /** A slot is found exactly when a stored placement holds it. */
  lemma SlotHolder(t: Table, tenant: string, service: string, role: string, slot: nat)
    requires KeyedByPod(t)
    ensures var found := FindSlot(Rows(t), tenant, service, role, slot);
            && (found.None? <==> forall k :: !Holds(t, k, tenant, service, role, slot))
            && (found.Some? ==> found.value.podId in t && t[found.value.podId] == PlacementV(found.value)
                                && Holds(t, found.value.podId, tenant, service, role, slot))
  {
    FindSlotFinds(Rows(t), tenant, service, role, slot);
    var found := FindSlot(Rows(t), tenant, service, role, slot);
    if found.Some? {
      RowsContain(t, PlacementV(found.value));
      assert Holds(t, found.value.podId, tenant, service, role, slot);
    }
    forall k
      ensures Holds(t, k, tenant, service, role, slot) ==> found.Some?
    {
      if Holds(t, k, tenant, service, role, slot) {
        RowsContain(t, t[k]);
        assert PlacementV(t[k].placement) in Rows(t);
      }
    }
  }

  /** The placements after a pod is replaced. */
  function Renamed(t: Table, p: Placement, newPodId: string): Table {
    (t - {p.podId})[newPodId := PlacementV(p.(podId := newPodId))]
  }

  lemma ReassignNothing(s: Store, t: string, service: string, role: string, slot: nat, newPodId: string)
    requires FindSlot(Rows(s.At(Placements)), t, service, role, slot).None?
    ensures Commit(s, ReassignBatch(s.At(Placements), t, service, role, slot, newPodId)) == s
  {
    hide Rows, FindSlot;
  }

  lemma ReassignRenames(s: Store, t: string, service: string, role: string, slot: nat, newPodId: string, p: Placement)
    requires FindSlot(Rows(s.At(Placements)), t, service, role, slot) == Some(p)
    ensures Commit(s, ReassignBatch(s.At(Placements), t, service, role, slot, newPodId)).At(Placements)
         == Renamed(s.At(Placements), p, newPodId)
  {
    hide Rows, FindSlot, Commit, OrdinalKey;
    var a, b := Del(Placements, p.podId), Put(Placements, newPodId, PlacementV(p.(podId := newPodId)));
    var c := Put(Ordinals, OrdinalKey(t, service, role, slot),
                 OrdinalV(OrdinalAssignment(t, service, role, slot, Some(newPodId), Some(p.nodeId))));
    CommitMiddle(s, [], [a, b], [c], Placements);
    assert [] + [a, b] + [c] == [a, b, c];
    CommitPair(s, a, b);
    ExecPut(Exec(s, a), Placements, newPodId, b.value);
  }

  /** Replacing a pod leaves its slot with exactly one holder, the new pod, on the same node with the same
  resources, and keeps every slot to one holder. */
  lemma ReassignKeepsSlots(s: Store, t: string, service: string, role: string, slot: nat, newPodId: string)
    requires KeyedByPod(s.At(Placements)) && OnePerSlot(s.At(Placements))
    ensures var found := FindSlot(Rows(s.At(Placements)), t, service, role, slot);
            var after := Commit(s, ReassignBatch(s.At(Placements), t, service, role, slot, newPodId)).At(Placements);
            && KeyedByPod(after) && OnePerSlot(after)
            && (found.None? ==> after == s.At(Placements))
            && (forall k :: k in s.At(Placements) && k != newPodId && (found.Some? ==> k != found.value.podId) ==>
                  k in after && after[k] == s.At(Placements)[k])
            && (found.Some? ==>
                  && (forall k :: Holds(after, k, t, service, role, slot) <==> k == newPodId)
                  && newPodId in after && after[newPodId] == PlacementV(found.value.(podId := newPodId)))
  {
    hide Commit, ReassignBatch, Rows, FindSlot;
    var before := s.At(Placements);
    SlotHolder(before, t, service, role, slot);
    var found := FindSlot(Rows(before), t, service, role, slot);
    if found.Some? {
      ReassignRenames(s, t, service, role, slot, newPodId, found.value);
      RenamedKeepsSlots(before, found.value, newPodId);
      RenamedHolder(before, found.value, newPodId, t, service, role, slot);
    } else {
      ReassignNothing(s, t, service, role, slot, newPodId);
    }
  }

  lemma RenamedKeepsSlots(t: Table, p: Placement, newPodId: string)
    requires KeyedByPod(t) && OnePerSlot(t) && p.podId in t && t[p.podId] == PlacementV(p)
    ensures KeyedByPod(Renamed(t, p, newPodId)) && OnePerSlot(Renamed(t, p, newPodId))
  {
    var t' := Renamed(t, p, newPodId);
    forall k, l | k in t' && l in t' && k != l && t'[k].PlacementV? && t'[l].PlacementV?
      ensures !Occupies(t'[k].placement, t'[l].placement.tenantId, t'[l].placement.service, t'[l].placement.role,
                        t'[l].placement.ordinal)
    {
      var a, b := if k == newPodId then p.podId else k, if l == newPodId then p.podId else l;
      assert !Occupies(t[a].placement, t[b].placement.tenantId, t[b].placement.service, t[b].placement.role,
                       t[b].placement.ordinal);
    }
  }

  lemma RenamedHolder(t: Table, p: Placement, newPodId: string, tenant: string, service: string, role: string,
                      slot: nat)
    requires OnePerSlot(t) && p.podId in t && t[p.podId] == PlacementV(p) && Occupies(p, tenant, service, role, slot)
    ensures forall k :: Holds(Renamed(t, p, newPodId), k, tenant, service, role, slot) <==> k == newPodId
  {
    forall k | k in t && t[k].PlacementV? && k != p.podId
      ensures !Holds(t, k, tenant, service, role, slot)
    {
      assert !Occupies(t[k].placement, p.tenantId, p.service, p.role, p.ordinal);
    }
  }

  // ----- one command -----

  lemma PlacementWriters(cmd: Command)
    requires MayWrite(cmd, Placements)
    ensures || cmd.DeleteWorkload? || cmd.ScaleWorkload? || cmd.EvictNode? || cmd.CommitPlacement?
            || cmd.RemovePlacement? || cmd.ReassignPodId? || cmd.ApplyManifests?
  {
  }

  /** Where manifests write placements, which the admin service never builds, the last under each key carries the key
  as its pod id. */
  ghost predicate Admissible(cmd: Command) {
    cmd.ApplyManifests? ==> forall k :: LastIsKeyed(cmd.updates, k)
  }

  predicate LastIsKeyed(updates: seq<ManifestUpdate>, k: string) {
    var last := LastAt(updates, Placements, k);
    last.Some? && last.value.PlacementV? ==> last.value.placement.podId == k
  }

  /** Deleting a workload removes exactly its placements. */
  lemma DeletePrunes(s: Store, t: string, w: string)
    requires KeyedByPod(s.At(Placements))
    ensures Commit(s, DeleteWorkloadBatch(s.At(Placements), t, w)).At(Placements)
         == s.At(Placements) - Selected(s.At(Placements), OfWorkload(t, w))
  {
    hide Rows, Select, DropOps, Commit;
    var ps := Select(Rows(s.At(Placements)), OfWorkload(t, w));
    var del := Del(Workloads, WorkloadKey(t, w));
    CommitMiddle(s, [del], DropOps(ps), [], Placements);
    assert [del] + DropOps(ps) + [] == DeleteWorkloadBatch(s.At(Placements), t, w);
    DropOpsEffect(s, ps);
    SelectIsExact(s.At(Placements), OfWorkload(t, w));
  }

  lemma ReassignKeepsKeys(s: Store, t: string, service: string, role: string, slot: nat, newPodId: string)
    requires KeyedByPod(s.At(Placements))
    ensures KeyedByPod(Commit(s, ReassignBatch(s.At(Placements), t, service, role, slot, newPodId)).At(Placements))
  {
    hide Commit, ReassignBatch, Rows, FindSlot;
    var found := FindSlot(Rows(s.At(Placements)), t, service, role, slot);
    if found.Some? {
      ReassignRenames(s, t, service, role, slot, newPodId, found.value);
    } else {
      ReassignNothing(s, t, service, role, slot, newPodId);
    }
  }

  /** The commands that remove placements by a criterion. */
  lemma RemovalKeepsKeys(spiffe: string -> bool, s: Store, cmd: Command)
    requires KeyedByPod(s.At(Placements)) && Step(spiffe, s, cmd).Ok?
    requires cmd.DeleteWorkload? || cmd.ScaleWorkload? || cmd.EvictNode?
    ensures KeyedByPod(Step(spiffe, s, cmd).value.At(Placements))
  {
    hide Commit, KeyedByPod, EvictBatch, ScaleBatch, DeleteWorkloadBatch, Selected;
    var t := s.At(Placements);
    match cmd {
      case DeleteWorkload(tenant, w) =>
        DeletePrunes(s, tenant, w);
        KeyedAfterRemoval(t, Selected(t, OfWorkload(tenant, w)));
      case ScaleWorkload(w) =>
        ScalePrunes(s, w);
        KeyedAfterRemoval(t, Selected(t, BeyondReplicas(w.tenantId, w.workloadId, Replicas(w))));
      case EvictNode(n, expiresAt) =>
        EvictRemoves(spiffe, s, n, expiresAt, Batch(spiffe, Reads(s), cmd).value);
        KeyedAfterRemoval(t, Selected(t, OnNode(n)));
    }
  }

  lemma ManifestsStep(spiffe: string -> bool, s: Store, cmd: Command)
    requires KeyedByPod(s.At(Placements)) && cmd.ApplyManifests?
    ensures Step(spiffe, s, cmd).Ok? && (KeyedByPod(Step(spiffe, s, cmd).value.At(Placements)) <==> Admissible(cmd))
  {
    hide ManifestOps, Commit, LastIsKeyed, KeyedByPod, Batch;
    BatchOfScans(spiffe, Reads(s), cmd);
    ManifestsKeyedIff(s, cmd.updates);
  }

  lemma ManifestsKeyedIff(s: Store, updates: seq<ManifestUpdate>)
    requires KeyedByPod(s.At(Placements))
    ensures KeyedByPod(Commit(s, ManifestOps(updates)).At(Placements)) <==> forall k :: LastIsKeyed(updates, k)
  {
    hide ManifestOps, Commit, LastIsKeyed;
    var t := Commit(s, ManifestOps(updates)).At(Placements);
    forall k
      ensures (k in t && t[k].PlacementV? ==> t[k].placement.podId == k) <==> LastIsKeyed(updates, k)
    {
      KeyedAtIff(s, updates, k);
    }
  }

  lemma KeyedAtIff(s: Store, updates: seq<ManifestUpdate>, k: string)
    requires KeyedByPod(s.At(Placements))
    ensures var t := Commit(s, ManifestOps(updates)).At(Placements);
            (k in t && t[k].PlacementV? ==> t[k].placement.podId == k) <==> LastIsKeyed(updates, k)
  {
    hide ManifestOps, Commit;
    ManifestsAt(s, updates, Placements, k);
  }

  lemma ReassignStep(spiffe: string -> bool, s: Store, cmd: Command)
    requires KeyedByPod(s.At(Placements)) && cmd.ReassignPodId?
    ensures Step(spiffe, s, cmd).Ok? && KeyedByPod(Step(spiffe, s, cmd).value.At(Placements))
  {
    hide Commit, ReassignBatch, KeyedByPod;
    ReassignKeepsKeys(s, cmd.tenantId, cmd.service, cmd.role, cmd.slot, cmd.newPodId);
  }

  /** A command keeps placements stored under their pod ids exactly when it is not a manifest that writes one under
  another key. */
  lemma StepKeepsPodsIff(spiffe: string -> bool, s: Store, cmd: Command)
    requires KeyedByPod(s.At(Placements)) && Step(spiffe, s, cmd).Ok?
    ensures KeyedByPod(Step(spiffe, s, cmd).value.At(Placements)) <==> Admissible(cmd)
  {
    hide Step, MayWrite, LastAt;
    if cmd.ApplyManifests? {
      ManifestsStep(spiffe, s, cmd);
    } else if !MayWrite(cmd, Placements) {
      StepFrame(spiffe, s, cmd, Placements);
    } else {
      PlacementWriters(cmd);
      if cmd.ReassignPodId? {
        ReassignStep(spiffe, s, cmd);
      } else if cmd.CommitPlacement? {
        CommitStep(spiffe, s, cmd.placement);
      } else if cmd.RemovePlacement? {
        RemoveStep(spiffe, s, cmd.podId);
      } else {
        RemovalKeepsKeys(spiffe, s, cmd);
      }
    }
  }

  /** Every command keeps node records stored under their ids. */
  lemma StepKeepsNodes(spiffe: string -> bool, s: Store, cmd: Command)
    requires KeyedByNode(s.At(Nodes)) && Step(spiffe, s, cmd).Ok?
    ensures KeyedByNode(Step(spiffe, s, cmd).value.At(Nodes))
  {
    hide Step, KeyedByNode;
    var other := if cmd.RegisterNode? then cmd.node.nodeId + "x" else "";
    assert cmd.RegisterNode? ==> |other| != |cmd.node.nodeId|;
    StepKeepsEvicted(spiffe, s, cmd, other);
  }

  // ----- runs -----

  ghost predicate Keyed(s: Store) {
    KeyedByPod(s.At(Placements)) && KeyedByNode(s.At(Nodes))
  }

  lemma EmptyIsKeyed()
    ensures Keyed(EMPTY)
  {
  }

  /** Both tables are keyed by identifier at every state of a run. */
  ghost predicate StaysKeyed(spiffe: string -> bool, s: Store, cmds: seq<Command>)
    requires Steps(spiffe, s, cmds).Ok?
    decreases |cmds|
  {
    Keyed(s) && (cmds != [] ==> StaysKeyed(spiffe, Step(spiffe, s, cmds[0]).value, cmds[1..]))
  }

  /** From a keyed store, a fresh one among them, both tables stay keyed by identifier through a run exactly when none
  of its commands is a manifest that writes a placement under another key. */
  lemma {:induction false} RunKeepsKeysIff(spiffe: string -> bool, s: Store, cmds: seq<Command>)
    requires Keyed(s) && Steps(spiffe, s, cmds).Ok?
    ensures StaysKeyed(spiffe, s, cmds) <==> forall i :: 0 <= i < |cmds| ==> Admissible(cmds[i])
    decreases |cmds|
  {
    hide Step, Admissible, KeyedByPod, KeyedByNode;
    if cmds != [] {
      var next := Step(spiffe, s, cmds[0]).value;
      StepKeepsPodsIff(spiffe, s, cmds[0]);
      StepKeepsNodes(spiffe, s, cmds[0]);
      if Keyed(next) {
        RunKeepsKeysIff(spiffe, next, cmds[1..]);
        assert forall i :: 0 < i < |cmds| ==> cmds[i] == cmds[1..][i - 1];
      } else {
        NotKeyed(spiffe, next, cmds[1..]);
      }
    }
  }

  lemma NotKeyed(spiffe: string -> bool, s: Store, cmds: seq<Command>)
    requires Steps(spiffe, s, cmds).Ok? && !Keyed(s)
    ensures !StaysKeyed(spiffe, s, cmds)
  {
    hide Keyed;
  }
}
