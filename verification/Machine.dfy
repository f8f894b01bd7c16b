/** Applying log entries and installing snapshots, as functions on the machine's state:
the database and the in-memory version counter. */
module Machine {
  import opened Decimal
  import opened Records
  import opened Bytes
  import opened Keys
  import opened Storage
  import opened Commands

  datatype Payload =
    | Blank
    | Normal(cmd: Command, audit: Option<AuditContext>)
    | Membership(members: string)

  datatype Entry = Entry(logId: LogId, payload: Payload)

  /** The database and the counter `allocate_version` draws from. */
  datatype Machine = Machine(store: Store, version: nat)

  const LAST_APPLIED := "last_applied"
  const LAST_MEMBERSHIP := "last_membership"
  const SNAPSHOT_META := "snapshot_meta"
  const CURRENT := "current"

  const SYSTEM: AuditContext := AuditContext("", "system", "", 0)

  /** What the payload writes, before the bookkeeping. */
  function PayloadOps(f: Applier, s: Store, e: Entry): Result<seq<Op>> {
    match e.payload
    case Blank => Ok([])
    case Normal(cmd, _) => f(Reads(s), cmd)
    case Membership(members) => Ok([Put(RaftState, LAST_MEMBERSHIP, MembershipV(e.logId, members))])
  }

  /** The position and version every entry records, and the audit record of a command. */
  function StampOps(e: Entry, version: nat): seq<Op> {
    [Put(RaftState, LAST_APPLIED, LogIdV(e.logId)), Put(VersionKs, CURRENT, NumberV(version))]
    + (if e.payload.Normal? then
         [Put(AuditLog, U64Be(version), AuditV(AuditOf(e, version)))]
       else [])
  }

  /** The audit record of a command: who asked, for what, and under which version. */
  function AuditOf(e: Entry, version: nat): AuditRecord
    requires e.payload.Normal?
  {
    AuditRecord(version, if e.payload.audit.Some? then e.payload.audit.value else SYSTEM, ActionOf(e.payload.cmd))
  }

  /** `command_action`. */
  function ActionOf(cmd: Command): string {
    if cmd.CreateTenant? then "CreateTenant"
    else if cmd.DeleteTenant? then "DeleteTenant"
    else if cmd.SubmitWorkloadSpec? then "SubmitWorkloadSpec"
    else if cmd.SubmitCronWorkload? then "SubmitCronWorkload"
    else if cmd.MintJoinToken? then "MintJoinToken"
    else if cmd.ConsumeJoinToken? then "ConsumeJoinToken"
    else if cmd.SetPcrPolicy? then "SetPcrPolicy"
    else if cmd.RegisterNode? then "RegisterNode"
    else if cmd.EvictNode? then "EvictNode"
    else if cmd.PruneExpiredRevokedSvids? then "PruneExpiredRevokedSvids"
    else if cmd.SetNodeSchedulable? then "SetNodeSchedulable"
    else if cmd.NodeHeartbeat? then "NodeHeartbeat"
    else if cmd.IssueDelegation? then "IssueDelegation"
    else if cmd.RevokeDelegation? then "RevokeDelegation"
    else if cmd.UpsertSagRule? then "UpsertSagRule"
    else if cmd.DeleteSagRule? then "DeleteSagRule"
    else if cmd.AllocateTenantBlock? then "AllocateTenantBlock"
    else if cmd.AllocateServiceAddress? then "AllocateServiceAddress"
    else if cmd.StoreSecret? then "StoreSecret"
    else if cmd.GrantSecretAccess? then "GrantSecretAccess"
    else if cmd.RevokeSecretAccess? then "RevokeSecretAccess"
    else if cmd.RecordOrdinalAssignment? then "RecordOrdinalAssignment"
    else if cmd.CommitPlacement? then "CommitPlacement"
    else if cmd.RemovePlacement? then "RemovePlacement"
    else if cmd.ReassignPodId? then "ReassignPodId"
    else if cmd.StoreNodePool? then "StoreNodePool"
    else if cmd.DeleteNodePool? then "DeleteNodePool"
    else if cmd.TriggerCronWorkload? then "TriggerCronWorkload"
    else if cmd.UpsertWorkloadStatus? then "UpsertWorkloadStatus"
    else if cmd.GrantOperatorAccess? then "GrantOperatorAccess"
    else if cmd.RevokeOperatorAccess? then "RevokeOperatorAccess"
    else if cmd.DeleteWorkload? then "DeleteWorkload"
    else if cmd.ScaleWorkload? then "ScaleWorkload"
    else if cmd.ResizeWorkload? then "ResizeWorkload"
    else if cmd.UpsertVpaRecommendation? then "UpsertVpaRecommendation"
    else if cmd.SetTenantQuota? then "SetTenantQuota"
    else if cmd.RegisterControlAddress? then "RegisterControlAddress"
    else if cmd.UpsertSvidVersion? then "UpsertSvidVersion"
    else if cmd.RegisterNodeEk? then "RegisterNodeEk"
    else if cmd.ActivateNodeEk? then "ActivateNodeEk"
    else if cmd.SetNodeTaints? then "SetNodeTaints"
    else if cmd.RemoveNodeTaint? then "RemoveNodeTaint"
    else if cmd.ApplyManifests? then "ApplyManifests"
    else "RevokeNodeEk"
  }

  /** One entry: one batch, one version. */
  function ApplyEntry(f: Applier, m: Machine, e: Entry): Result<Machine> {
    match PayloadOps(f, m.store, e)
    case Err => Err
    case Ok(ops) => Ok(Machine(Commit(m.store, ops + StampOps(e, m.version + 1)), m.version + 1))
  }

  /** The machine after a run of entries, and whether an entry failed and stopped the run. */
  datatype Run = Run(machine: Machine, failed: bool)

  function ApplyAll(f: Applier, m: Machine, entries: seq<Entry>): Run
    decreases |entries|
  {
    if entries == [] then Run(m, false)
    else match ApplyEntry(f, m, entries[0])
      case Err => Run(m, true)
      case Ok(next) => ApplyAll(f, next, entries[1..])
  }

  // ----- snapshots -----

  /** The order in which `snapshot_keyspaces` lists the tables a snapshot carries. */
  function KeyspaceAt(i: nat): Keyspace {
    if i == 0 then VersionKs
    else if i == 1 then Nodes
    else if i == 2 then Svids
    else if i == 3 then SagRules
    else if i == 4 then JoinTokens
    else if i == 5 then RevokedDelegations
    else if i == 6 then ActiveDelegations
    else if i == 7 then Ordinals
    else if i == 8 then Placements
    else if i == 9 then Tenants
    else if i == 10 then Workloads
    else if i == 11 then Secrets
    else if i == 12 then DummyIps
    else if i == 13 then PcrPolicies
    else if i == 14 then RouterAssignments
    else if i == 15 then NodePools
    else if i == 16 then NodeTaints
    else if i == 17 then RaftState
    else if i == 18 then TrustBundles
    else if i == 19 then RevokedSvids
    else if i == 20 then AuditLog
    else if i == 21 then OperatorGrants
    else if i == 22 then WorkloadStatuses
    else if i == 23 then TenantQuotas
    else if i == 24 then CronCheckpoints
    else if i == 25 then ControlAddresses
    else if i == 26 then NodeEks
    else VpaRecommendations
  }

  /** `snapshot_keyspaces`. */
  function SnapshotKeyspaces(): (list: seq<Keyspace>)
    ensures |list| == 28
  {
    seq(28, i requires 0 <= i < 28 => KeyspaceAt(i))
  }

  /** Whether a node knows a keyspace by the name it has in a snapshot. */
  predicate Snapshotted(ks: Keyspace) {
    !(ks.Nonces? || ks.NonceClaims? || ks.SvidGrants? || ks.PendingActivations? || ks.RaftSnapshot?)
  }

  function PairsAt(t: Table, keys: seq<string>): (pairs: Pairs)
    ensures |pairs| == |keys|
  {
    seq(|keys|, i requires 0 <= i < |keys| => (keys[i], if keys[i] in t then t[keys[i]] else Blob("")))
  }

  /** The pairs of a table in key order. */
  function PairsOf(t: Table): Pairs {
    PairsAt(t, Ascending(t.Keys))
  }

  function Collected(s: Store, list: seq<Keyspace>): (data: SnapshotData)
    ensures |data| == |list|
  {
    seq(|list|, i requires 0 <= i < |list| => (list[i], PairsOf(s.At(list[i]))))
  }

  function ClearOps(ks: Keyspace, keys: seq<string>): seq<Op> {
    if keys == [] then [] else ClearOps(ks, keys[..|keys| - 1]) + [Del(ks, keys[|keys| - 1])]
  }

  function ClearAllOps(s: Store, list: seq<Keyspace>): seq<Op> {
    if list == [] then []
    else
      var ks := list[|list| - 1];
      ClearAllOps(s, list[..|list| - 1]) + ClearOps(ks, Ascending(s.At(ks).Keys))
  }

  function WriteOps(ks: Keyspace, pairs: Pairs): seq<Op> {
    if pairs == [] then []
    else
      var (key, value) := pairs[|pairs| - 1];
      WriteOps(ks, pairs[..|pairs| - 1]) + [Put(ks, key, value)]
  }

  /** The snapshot's tables; a keyspace this node does not know is skipped. */
  function WriteAllOps(data: SnapshotData): seq<Op> {
    if data == [] then []
    else
      var (ks, pairs) := data[|data| - 1];
      var init := WriteAllOps(data[..|data| - 1]);
      if Snapshotted(ks) then init + WriteOps(ks, pairs) else init
  }

  function InstallOps(s: Store, data: SnapshotData, meta: SnapshotMeta): seq<Op> {
    ClearAllOps(s, SnapshotKeyspaces()) + WriteAllOps(data) + KeepOps(data, meta)
  }

  /** The snapshot itself and its metadata are kept for `get_current_snapshot`. */
  function KeepOps(data: SnapshotData, meta: SnapshotMeta): seq<Op> {
    [Put(RaftSnapshot, U64Be(0), SnapshotV(data)), Put(RaftState, SNAPSHOT_META, MetaV(meta))]
  }

  /** `get_current_snapshot`: nothing unless both the metadata and the snapshot are there. */
  function CurrentSnapshot(s: Store): Result<Option<(SnapshotMeta, SnapshotData)>> {
    var state, kept := s.At(RaftState), s.At(RaftSnapshot);
    if SNAPSHOT_META !in state then Ok(None)
    else if !state[SNAPSHOT_META].MetaV? then Err
    else if U64Be(0) !in kept then Ok(None)
    else if !kept[U64Be(0)].SnapshotV? then Err
    else Ok(Some((state[SNAPSHOT_META].meta, kept[U64Be(0)].snapshot)))
  }

  /** Installing a snapshot replaces tables in one batch. The version counter is not reloaded. */
  function Install(m: Machine, data: SnapshotData, meta: SnapshotMeta): Machine {
    m.(store := Commit(m.store, InstallOps(m.store, data, meta)))
  }
}
