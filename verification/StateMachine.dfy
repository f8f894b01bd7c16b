/** `FjallStateMachine`: the replicated state machine over its database. */
module StateMachine {
  import opened Decimal
  import opened Records
  import opened Bytes
  import opened Keys
  import opened Storage
  import opened Commands
  import opened Machine

  /** `DeleteWorkload`, `ScaleWorkload`, `EvictNode`: collect the placements to remove. */
  method CollectPlacements(t: Table, c: Criterion) returns (found: seq<Placement>)
    ensures found == Select(Rows(t), c)
  {
    var rows := Rows(t);
    found := [];
    for i := 0 to |rows|
      invariant found == Select(rows[..i], c)
    {
      assert rows[..i + 1][..i] == rows[..i];
      if rows[i].PlacementV? && Meets(c, rows[i].placement) {
        found := found + [rows[i].placement];
      }
    }
    assert rows[..|rows|] == rows;
  }

  /** Remove each placement and free its ordinal slot. */
  method DropPlacements(ps: seq<Placement>) returns (batch: seq<Op>)
    ensures batch == DropOps(ps)
  {
    batch := [];
    for i := 0 to |ps|
      invariant batch == DropOps(ps[..i])
    {
      assert ps[..i + 1][..i] == ps[..i];
      batch := batch + [Del(Placements, ps[i].podId), Put(Ordinals, SlotKey(ps[i]), OrdinalV(Freed(ps[i])))];
    }
    assert ps[..|ps|] == ps;
  }

  method RemovePlacements(ps: seq<Placement>) returns (batch: seq<Op>)
    ensures batch == RemoveOps(ps)
  {
    batch := [];
    for i := 0 to |ps|
      invariant batch == RemoveOps(ps[..i])
    {
      assert ps[..i + 1][..i] == ps[..i];
      batch := batch + [Del(Placements, ps[i].podId)];
    }
    assert ps[..|ps|] == ps;
  }

  method RevokeDelegations(active: Table, node: string) returns (batch: seq<Op>)
    ensures batch == RevokeOps(DelegationRows(active, node))
  {
    var rows := DelegationRows(active, node);
    batch := [];
    for i := 0 to |rows|
      invariant batch == RevokeOps(rows[..i])
    {
      assert rows[..i + 1][..i] == rows[..i];
      if rows[i].DelegationV? {
        var key := DelegationKey(rows[i].delegation.nodeId, rows[i].delegation.delegationId);
        batch := batch + [Del(ActiveDelegations, key), Put(RevokedDelegations, key, rows[i])];
      }
    }
    assert rows[..|rows|] == rows;
  }

  method PruneSvids(t: Table, cutoff: int) returns (batch: seq<Op>)
    ensures batch == ExpiredOps(Rows(t), cutoff)
  {
    var rows := Rows(t);
    batch := [];
    for i := 0 to |rows|
      invariant batch == ExpiredOps(rows[..i], cutoff)
    {
      assert rows[..i + 1][..i] == rows[..i];
      if rows[i].RevokedSvidV? && rows[i].expiresAt < cutoff {
        batch := batch + [Del(RevokedSvids, rows[i].spiffeId)];
      }
    }
    assert rows[..|rows|] == rows;
  }

  /** `ReassignPodId`: scan until the slot is found. */
  method FindPlacement(t: Table, tenant: string, service: string, role: string, slot: nat)
    returns (found: Option<Placement>)
    ensures found == FindSlot(Rows(t), tenant, service, role, slot)
  {
    var rows := Rows(t);
    var i := 0;
    while i < |rows|
      invariant 0 <= i <= |rows|
      invariant FindSlot(rows, tenant, service, role, slot) == FindSlot(rows[i..], tenant, service, role, slot)
    {
      assert rows[i..][1..] == rows[i + 1..];
      if rows[i].PlacementV? && Occupies(rows[i].placement, tenant, service, role, slot) {
        return Some(rows[i].placement);
      }
      i := i + 1;
    }
    return None;
  }

  method WriteManifests(updates: seq<ManifestUpdate>) returns (batch: seq<Op>)
    ensures batch == ManifestOps(updates)
  {
    batch := [];
    for i := 0 to |updates|
      invariant batch == ManifestOps(updates[..i])
    {
      assert updates[..i + 1][..i] == updates[..i];
      var ks := ManifestKeyspace(updates[i].target);
      if ks == None {
        continue;
      }
      batch := batch + [Put(ks.value, updates[i].key, updates[i].value)];
    }
    assert updates[..|updates|] == updates;
  }

  method ClearTable(ks: Keyspace, t: Table) returns (batch: seq<Op>)
    ensures batch == ClearOps(ks, Ascending(t.Keys))
  {
    var keys := Ascending(t.Keys);
    batch := [];
    for i := 0 to |keys|
      invariant batch == ClearOps(ks, keys[..i])
    {
      assert keys[..i + 1][..i] == keys[..i];
      batch := batch + [Del(ks, keys[i])];
    }
    assert keys[..|keys|] == keys;
  }

  method WriteTable(ks: Keyspace, pairs: Pairs) returns (batch: seq<Op>)
    ensures batch == WriteOps(ks, pairs)
  {
    batch := [];
    for i := 0 to |pairs|
      invariant batch == WriteOps(ks, pairs[..i])
    {
      assert pairs[..i + 1][..i] == pairs[..i];
      batch := batch + [Put(ks, pairs[i].0, pairs[i].1)];
    }
    assert pairs[..|pairs|] == pairs;
  }

  method CollectTable(t: Table) returns (pairs: Pairs)
    ensures pairs == PairsOf(t)
  {
    var keys := Ascending(t.Keys);
    AscendingElements(t.Keys);
    pairs := [];
    for i := 0 to |keys|
      invariant |pairs| == i
      invariant forall j :: 0 <= j < i ==> pairs[j] == PairsOf(t)[j]
    {
      assert keys[i] in t.Keys;
      pairs := pairs + [(keys[i], t[keys[i]])];
    }
  }

  class StateMachine {
    const spiffe: string -> bool
    var store: Store
    var version: nat

    ghost function State(): Machine
      reads this
    {
      Machine(store, version)
    }

    /** Opening a database: the counter starts at the persisted version, 0 when there is none. */
    constructor (spiffe: string -> bool, store: Store)
      ensures this.spiffe == spiffe && this.store == store
      ensures version == if CURRENT in store.At(VersionKs) && store.At(VersionKs)[CURRENT].NumberV?
                         then store.At(VersionKs)[CURRENT].number else 0
    {
      this.spiffe := spiffe;
      this.store := store;
      var t := store.At(VersionKs);
      this.version := if CURRENT in t && t[CURRENT].NumberV? then t[CURRENT].number else 0;
    }

    /** `apply_command`: the scanning commands build their batch in loops. */
    method ApplyCommand(cmd: Command) returns (r: Result<seq<Op>>)
      ensures r == Batch(spiffe, Reads(store), cmd)
    {
      hide Batch, DeleteWorkloadBatch, ScaleBatch, EvictBatch, ReassignBatch, ExpiredOps, ManifestOps, Rows;
      BatchOfPlacements(spiffe, Reads(store), cmd);
      BatchOfScans(spiffe, Reads(store), cmd);
      if cmd.DeleteWorkload? {
        var batch := ApplyDelete(cmd.tenantId, cmd.workloadId);
        r := Ok(batch);
      } else if cmd.ScaleWorkload? {
        var batch := ApplyScale(cmd.workload);
        r := Ok(batch);
      } else if cmd.EvictNode? {
        r := ApplyEviction(cmd.nodeId, cmd.svidExpiresAt);
      } else if cmd.PruneExpiredRevokedSvids? {
        var batch := PruneSvids(store.At(RevokedSvids), cmd.cutoff);
        r := Ok(batch);
      } else if cmd.ReassignPodId? {
        r := ApplyReassign(cmd.tenantId, cmd.service, cmd.role, cmd.slot, cmd.newPodId);
      } else if cmd.ApplyManifests? {
        var batch := WriteManifests(cmd.updates);
        r := Ok(batch);
      } else {
        r := Batch(spiffe, Reads(store), cmd);
      }
    }

    method ApplyDelete(t: string, w: string) returns (batch: seq<Op>)
      ensures batch == DeleteWorkloadBatch(store.At(Placements), t, w)
    {
      var doomed := CollectPlacements(store.At(Placements), OfWorkload(t, w));
      var drops := DropPlacements(doomed);
      batch := [Del(Workloads, WorkloadKey(t, w))] + drops;
    }

    method ApplyScale(w: WorkloadRecord) returns (batch: seq<Op>)
      ensures batch == ScaleBatch(store.At(Placements), w)
    {
      var doomed := CollectPlacements(store.At(Placements),
                                      BeyondReplicas(w.tenantId, w.workloadId, Replicas(w)));
      var drops := DropPlacements(doomed);
      batch := [PutWorkload(w)] + drops;
    }

    method ApplyEviction(n: string, expiresAt: int) returns (r: Result<seq<Op>>)
      ensures r == EvictBatch(spiffe, store.At(Nodes), store.At(ActiveDelegations), store.At(Placements), n, expiresAt)
    {
      if !spiffe(n) {
        return Err;
      }
      var record := EvictedRecord(store.At(Nodes), n);
      if record == Err {
        return Err;
      }
      var revocations := RevokeDelegations(store.At(ActiveDelegations), n);
      var hosted := CollectPlacements(store.At(Placements), OnNode(n));
      var removals := RemovePlacements(hosted);
      r := Ok([Put(Nodes, n, NodeV(record.value))] + revocations + removals
              + [Put(RevokedSvids, n, RevokedSvidV(n, expiresAt))]);
    }

    method ApplyReassign(t: string, service: string, role: string, slot: nat, newPodId: string)
      returns (r: Result<seq<Op>>)
      ensures r == Ok(ReassignBatch(store.At(Placements), t, service, role, slot, newPodId))
    {
      var found := FindPlacement(store.At(Placements), t, service, role, slot);
      match found {
        case None => r := Ok([]);
        case Some(p) =>
          r := Ok([Del(Placements, p.podId),
                   Put(Placements, newPodId, PlacementV(p.(podId := newPodId))),
                   Put(Ordinals, OrdinalKey(t, service, role, slot),
                       OrdinalV(OrdinalAssignment(t, service, role, slot, Some(newPodId), Some(p.nodeId))))]);
      }
    }

    /** One iteration of `apply`: build the batch, stamp it, commit it. */
    method ApplyOne(e: Entry) returns (ok: bool)
      modifies this
      ensures ApplyEntry(ApplierFor(spiffe), old(State()), e) == if ok then Ok(State()) else Err
      ensures !ok ==> State() == old(State())
      ensures ok ==> version == old(version) + 1
    {
      var ops: Result<seq<Op>>;
      match e.payload {
        case Blank => ops := Ok([]);
        case Normal(cmd, _) => ops := ApplyCommand(cmd);
        case Membership(members) => ops := Ok([Put(RaftState, LAST_MEMBERSHIP, MembershipV(e.logId, members))]);
      }
      ok := ops != Err;
      if ok {
        store := Commit(store, ops.value + StampOps(e, version + 1));
        version := version + 1;
      }
    }

    /** `apply`: one batch, one commit and one version per entry; an error stops the run with the
    earlier entries committed. */
    method Apply(entries: seq<Entry>) returns (r: Result<seq<nat>>)
      modifies this
      ensures Run(State(), r.Err?) == ApplyAll(ApplierFor(spiffe), old(State()), entries)
      ensures r.Ok? ==> |r.value| == |entries| && forall i :: 0 <= i < |r.value| ==> r.value[i] == old(version) + 1 + i
    {
      var responses: seq<nat> := [];
      var i := 0;
      while i < |entries|
        invariant 0 <= i <= |entries|
        invariant ApplyAll(ApplierFor(spiffe), old(State()), entries)
                  == ApplyAll(ApplierFor(spiffe), State(), entries[i..])
        invariant |responses| == i && version == old(version) + i
        invariant forall j :: 0 <= j < i ==> responses[j] == old(version) + 1 + j
      {
        assert entries[i..][0] == entries[i] && entries[i..][1..] == entries[i + 1..];
        var ok := ApplyOne(entries[i]);
        if !ok {
          return Err;
        }
        responses := responses + [version];
        i := i + 1;
      }
      r := Ok(responses);
    }

    /** `collect_keyspaces_from_view`. */
    method BuildSnapshot() returns (data: SnapshotData)
      ensures data == Collected(store, SnapshotKeyspaces())
    {
      var list := SnapshotKeyspaces();
      data := [];
      for i := 0 to |list|
        invariant |data| == i
        invariant forall j :: 0 <= j < i ==> data[j] == Collected(store, list)[j]
      {
        var pairs := CollectTable(store.At(list[i]));
        data := data + [(list[i], pairs)];
      }
    }

    /** `install_snapshot`: clear every snapshotted table, write the snapshot, commit once. */
    method InstallSnapshot(data: SnapshotData, meta: SnapshotMeta)
      modifies this
      ensures State() == Install(old(State()), data, meta)
    {
      var list := SnapshotKeyspaces();
      var clears: seq<Op> := [];
      for i := 0 to |list|
        invariant clears == ClearAllOps(store, list[..i])
        invariant store == old(store) && version == old(version)
      {
        assert list[..i + 1][..i] == list[..i];
        var ops := ClearTable(list[i], store.At(list[i]));
        clears := clears + ops;
      }
      assert list[..|list|] == list;
      var writes := WriteAll(data);
      store := Commit(store, clears + writes + KeepOps(data, meta));
    }

    method WriteAll(data: SnapshotData) returns (writes: seq<Op>)
      ensures writes == WriteAllOps(data)
    {
      writes := [];
      for i := 0 to |data|
        invariant writes == WriteAllOps(data[..i])
      {
        assert data[..i + 1][..i] == data[..i];
        if Snapshotted(data[i].0) {
          var ops := WriteTable(data[i].0, data[i].1);
          writes := writes + ops;
        }
      }
      assert data[..|data|] == data;
    }
  }
}
