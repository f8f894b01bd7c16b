/** The replicated commands and the batch of writes each one stands for.

`Batch` is the specification of `apply_command`: a function of committed state and the command
alone. Reads see committed state, never the batch under construction.
*/
module Commands {
  import opened Decimal
  import opened Records
  import opened Keys
  import opened Storage

  datatype Result<+T> = Ok(value: T) | Err

  /** The keyspace names a manifest update may carry; any other name is skipped. */
  datatype ManifestTarget =
    | ToWorkloads | ToTenants | ToSagRules | ToSecrets | ToNodePools | ToDummyIps | ToOrdinals | ToPlacements
    | ToUnknown(name: string)

  datatype ManifestUpdate = ManifestUpdate(target: ManifestTarget, key: string, value: Value)

  datatype Command =
    | CreateTenant(tenant: TenantRecord, block: TenantBlock)
    | DeleteTenant(tenantId: string)
    | SubmitWorkloadSpec(workload: WorkloadRecord)
    | DeleteWorkload(tenantId: string, workloadId: string)
    | ScaleWorkload(workload: WorkloadRecord)
    | ResizeWorkload(workload: WorkloadRecord)
    | UpsertVpaRecommendation(tenantId: string, workloadId: string, data: string)
    | SetTenantQuota(tenantId: string, data: string)
    | SubmitCronWorkload(cron: CronRecord, checkpoint: CronCheckpoint)
    | TriggerCronWorkload(workload: WorkloadRecord, checkpoint: CronCheckpoint)
    | UpsertWorkloadStatus(status: WorkloadStatus)
    | MintJoinToken(token: string, data: string)
    | ConsumeJoinToken(token: string)
    | SetPcrPolicy(nodeId: string, data: string)
    | RegisterNode(node: NodeRecord)
    | SetNodeSchedulable(nodeId: string, schedulable: bool)
    | NodeHeartbeat(nodeId: string, lastHeartbeat: int)
    | EvictNode(nodeId: string, svidExpiresAt: int)
    | PruneExpiredRevokedSvids(cutoff: int)
    | IssueDelegation(delegation: DelegationRecord)
    | RevokeDelegation(nodeId: string, delegationId: string)
    | UpsertSagRule(ruleId: string, data: string)
    | DeleteSagRule(ruleId: string)
    | AllocateTenantBlock(block: TenantBlock)
    | AllocateServiceAddress(block: TenantBlock, address: ServiceAddress)
    | StoreSecret(key: string, envelope: string, acl: map<string, set<string>>)
    | GrantSecretAccess(key: string, spiffeId: string)
    | RevokeSecretAccess(key: string, spiffeId: string)
    | RecordOrdinalAssignment(ordinal: OrdinalAssignment)
    | CommitPlacement(placement: Placement)
    | RemovePlacement(podId: string)
    | ReassignPodId(tenantId: string, service: string, role: string, slot: nat, newPodId: string)
    | StoreNodePool(poolId: string, data: string)
    | DeleteNodePool(poolId: string)
    | RegisterControlAddress(controlNode: nat, data: string)
    | UpsertSvidVersion(spiffeId: string, data: string)
    | GrantOperatorAccess(grantId: string, data: string)
    | RevokeOperatorAccess(grantId: string)
    | RegisterNodeEk(ek: NodeEkRecord)
    | ActivateNodeEk(fingerprint: string, nodeId: string)
    | RevokeNodeEk(fingerprint: string)
    | SetNodeTaints(nodeId: string, taints: seq<NodeTaint>)
    | RemoveNodeTaint(nodeId: string, taintKey: string, effect: string)
    | ApplyManifests(updates: seq<ManifestUpdate>)

  // ----- pieces shared by several commands -----

  /** Which placements a command removes. */
  datatype Criterion =
    | OfWorkload(tenant: string, workload: string)
    | BeyondReplicas(tenant: string, workload: string, replicas: map<string, nat>)
    | OnNode(node: string)

  predicate Meets(c: Criterion, p: Placement) {
    match c
    case OfWorkload(t, w) => p.tenantId == t && p.service == w
    case BeyondReplicas(t, w, replicas) =>
      p.tenantId == t && p.service == w && (p.role in replicas ==> p.ordinal >= replicas[p.role])
    case OnNode(n) => p.nodeId == n
  }

  /** The placements of a scan that meet a criterion, in scan order. */
  function Select(rows: seq<Value>, c: Criterion): seq<Placement> {
    if rows == [] then []
    else
      var init := Select(rows[..|rows| - 1], c);
      var last := rows[|rows| - 1];
      if last.PlacementV? && Meets(c, last.placement) then init + [last.placement] else init
  }

  function Freed(p: Placement): OrdinalAssignment {
    OrdinalAssignment(p.tenantId, p.service, p.role, p.ordinal, None, None)
  }

  function SlotKey(p: Placement): string {
    OrdinalKey(p.tenantId, p.service, p.role, p.ordinal)
  }

  /** Remove placements and free the ordinal slots they held. */
  function DropOps(ps: seq<Placement>): seq<Op> {
    if ps == [] then []
    else
      var p := ps[|ps| - 1];
      DropOps(ps[..|ps| - 1]) + [Del(Placements, p.podId), Put(Ordinals, SlotKey(p), OrdinalV(Freed(p)))]
  }

  /** Remove placements without touching their slots. */
  function RemoveOps(ps: seq<Placement>): seq<Op> {
    if ps == [] then []
    else RemoveOps(ps[..|ps| - 1]) + [Del(Placements, ps[|ps| - 1].podId)]
  }

  /** Move delegations from active to revoked, under the key their own fields give. */
  function RevokeOps(rows: seq<Value>): seq<Op> {
    if rows == [] then []
    else
      var init := RevokeOps(rows[..|rows| - 1]);
      var last := rows[|rows| - 1];
      if last.DelegationV? then
        var key := DelegationKey(last.delegation.nodeId, last.delegation.delegationId);
        init + [Del(ActiveDelegations, key), Put(RevokedDelegations, key, last)]
      else init
  }

  /** The active delegations an eviction of `node` scans. */
  function DelegationRows(active: Table, node: string): seq<Value> {
    RowsAt(active, PrefixKeys(active, DelegationPrefix(node)))
  }

  function ExpiredOps(rows: seq<Value>, cutoff: int): seq<Op> {
    if rows == [] then []
    else
      var init := ExpiredOps(rows[..|rows| - 1], cutoff);
      var last := rows[|rows| - 1];
      if last.RevokedSvidV? && last.expiresAt < cutoff then init + [Del(RevokedSvids, last.spiffeId)] else init
  }

  /** The first placement of a scan that occupies the slot. */
  function FindSlot(rows: seq<Value>, t: string, s: string, r: string, o: nat): Option<Placement> {
    if rows == [] then None
    else if rows[0].PlacementV? && Occupies(rows[0].placement, t, s, r, o) then Some(rows[0].placement)
    else FindSlot(rows[1..], t, s, r, o)
  }

  predicate Occupies(p: Placement, t: string, s: string, r: string, o: nat) {
    p.tenantId == t && p.service == s && p.role == r && p.ordinal == o
  }

  function ManifestKeyspace(target: ManifestTarget): Option<Keyspace> {
    match target
    case ToWorkloads => Some(Workloads)
    case ToTenants => Some(Tenants)
    case ToSagRules => Some(SagRules)
    case ToSecrets => Some(Secrets)
    case ToNodePools => Some(NodePools)
    case ToDummyIps => Some(DummyIps)
    case ToOrdinals => Some(Ordinals)
    case ToPlacements => Some(Placements)
    case ToUnknown(_) => None
  }

  function ManifestOps(updates: seq<ManifestUpdate>): seq<Op> {
    if updates == [] then []
    else
      var init := ManifestOps(updates[..|updates| - 1]);
      var last := updates[|updates| - 1];
      match ManifestKeyspace(last.target)
      case None => init
      case Some(ks) => init + [Put(ks, last.key, last.value)]
  }

  /** The replica counts of a workload record; none when its spec does not decode. */
  function Replicas(w: WorkloadRecord): map<string, nat> {
    match w.spec
    case None => map[]
    case Some(spec) => spec.replicas
  }

  function PutWorkload(w: WorkloadRecord): Op {
    Put(Workloads, WorkloadKey(w.tenantId, w.workloadId), WorkloadV(w))
  }

  /** A record for a node the store does not know: no capacity, so nothing lands on it. */
  function UnknownNode(nodeId: string, status: NodeStatus, schedulable: bool): NodeRecord {
    NodeRecord(nodeId, 0, status, schedulable, 0, 0, Resources(0, 0), "")
  }

  // ----- one function per command with logic -----

  function SchedulableBatch(nodes: Table, nodeId: string, schedulable: bool): Result<seq<Op>> {
    if nodeId !in nodes then
      Ok([Put(Nodes, nodeId, NodeV(UnknownNode(nodeId, if schedulable then Active else Cordoned, schedulable)))])
    else match nodes[nodeId]
      case NodeV(r) =>
        var status := if schedulable && r.status == Cordoned then Active else r.status;
        Ok([Put(Nodes, nodeId, NodeV(r.(schedulable := schedulable, status := status)))])
      case _ => Err
  }

  function HeartbeatBatch(nodes: Table, nodeId: string, at: int): Result<seq<Op>> {
    if nodeId !in nodes then Ok([])
    else match nodes[nodeId]
      case NodeV(r) => Ok([Put(Nodes, nodeId, NodeV(r.(lastHeartbeat := at)))])
      case _ => Err
  }

  function EvictedRecord(nodes: Table, nodeId: string): Result<NodeRecord> {
    if nodeId !in nodes then Ok(UnknownNode(nodeId, Evicted, false))
    else match nodes[nodeId]
      case NodeV(r) => Ok(r.(status := Evicted, schedulable := false))
      case _ => Err
  }

  function EvictBatch(spiffe: string -> bool, nodes: Table, active: Table, placements: Table, nodeId: string,
                      expiresAt: int)
    : Result<seq<Op>>
  {
    if !spiffe(nodeId) then Err
    else match EvictedRecord(nodes, nodeId)
      case Err => Err
      case Ok(r) =>
        Ok([Put(Nodes, nodeId, NodeV(r))]
           + RevokeOps(DelegationRows(active, nodeId))
           + RemoveOps(Select(Rows(placements), OnNode(nodeId)))
           + [Put(RevokedSvids, nodeId, RevokedSvidV(nodeId, expiresAt))])
  }

  function RevokeBatch(spiffe: string -> bool, active: Table, nodeId: string, delegationId: string): Result<seq<Op>> {
    if !spiffe(nodeId) then Err
    else
      var key := DelegationKey(nodeId, delegationId);
      if key in active then
        Ok([Del(ActiveDelegations, key), Put(RevokedDelegations, key, active[key])])
      else Ok([])
  }

  function ScaleBatch(placements: Table, w: WorkloadRecord): seq<Op> {
    [PutWorkload(w)]
    + DropOps(Select(Rows(placements), BeyondReplicas(w.tenantId, w.workloadId, Replicas(w))))
  }

  function DeleteWorkloadBatch(placements: Table, t: string, w: string): seq<Op> {
    [Del(Workloads, WorkloadKey(t, w))] + DropOps(Select(Rows(placements), OfWorkload(t, w)))
  }

  function ReassignBatch(placements: Table, t: string, service: string, role: string, slot: nat, newPodId: string)
    : seq<Op>
  {
    match FindSlot(Rows(placements), t, service, role, slot)
    case None => []
    case Some(p) =>
      [Del(Placements, p.podId),
       Put(Placements, newPodId, PlacementV(p.(podId := newPodId))),
       Put(Ordinals, OrdinalKey(t, service, role, slot),
           OrdinalV(OrdinalAssignment(t, service, role, slot, Some(newPodId), Some(p.nodeId))))]
  }

  /** The start of the current run of gate violations, 0 when there is none. */
  function StatusBatch(table: Table, status: WorkloadStatus): seq<Op> {
    var violating := status.started && (!status.policyEnforced || !status.routerConnected);
    var since :=
      if !violating then 0
      else if status.podId in table && table[status.podId].StatusV?
              && table[status.podId].status.gateViolationSince > 0
      then table[status.podId].status.gateViolationSince
      else status.observedAt;
    [Put(WorkloadStatuses, status.podId, StatusV(status.(gateViolationSince := since)))]
  }

  function TaintsBatch(nodeId: string, taints: seq<NodeTaint>): seq<Op> {
    if taints == [] then [Del(NodeTaints, nodeId)] else [Put(NodeTaints, nodeId, TaintsV(taints))]
  }

  function Untainted(taints: seq<NodeTaint>, key: string, effect: string): seq<NodeTaint> {
    if taints == [] then []
    else if taints[0].key == key && taints[0].effect == effect then Untainted(taints[1..], key, effect)
    else [taints[0]] + Untainted(taints[1..], key, effect)
  }

  function RemoveTaintBatch(table: Table, nodeId: string, key: string, effect: string): Result<seq<Op>> {
    if nodeId !in table then Ok([])
    else match table[nodeId]
      case TaintsV(taints) =>
        var kept := Untainted(taints, key, effect);
        if |kept| == |taints| then Ok([]) else Ok(TaintsBatch(nodeId, kept))
      case _ => Err
  }

  function EkBatch(table: Table, fingerprint: string, state: EkState, nodeId: Option<string>): Result<seq<Op>> {
    if fingerprint !in table then Ok([])
    else match table[fingerprint]
      case EkV(ek) =>
        var bound := if nodeId.Some? then ek.(nodeId := nodeId.value) else ek;
        Ok([Put(NodeEks, fingerprint, EkV(bound.(state := state)))])
      case _ => Err
  }

  function AclBatch(spiffe: string -> bool, table: Table, key: string, spiffeId: string, grant: bool): Result<seq<Op>> {
    var aclKey := "acl:" + key;
    if aclKey in table && !table[aclKey].AclV? then Err
    else if !spiffe(spiffeId) then Err
    else
      var acl := if aclKey in table then table[aclKey].acl else map[];
      var members := if key in acl then acl[key] else {};
      var updated :=
        if grant then acl[key := members + {spiffeId}]
        else if key !in acl then acl
        else if members - {spiffeId} == {} then acl - {key}
        else acl[key := members - {spiffeId}];
      Ok([Put(Secrets, aclKey, AclV(updated))])
  }

  /** The tables a command may read. */
  datatype View = View(
    nodes: Table,
    placements: Table,
    active: Table,
    revokedSvids: Table,
    taints: Table,
    eks: Table,
    secrets: Table,
    statuses: Table)

  function Reads(s: Store): View {
    View(s.At(Nodes), s.At(Placements), s.At(ActiveDelegations), s.At(RevokedSvids), s.At(NodeTaints),
         s.At(NodeEks), s.At(Secrets), s.At(WorkloadStatuses))
  }

  /** The writes of one command, or `Err` where `apply_command` returns an error. */
  function Batch(spiffe: string -> bool, v: View, cmd: Command): Result<seq<Op>> {
    match cmd
    case CreateTenant(tenant, block) =>
      Ok([Put(Tenants, tenant.tenantId, TenantV(tenant)), Put(DummyIps, BlockKey(tenant.tenantId), BlockV(block))])
    case DeleteTenant(t) => Ok([Del(Tenants, t)])
    case SubmitWorkloadSpec(w) => Ok([PutWorkload(w)])
    case DeleteWorkload(t, w) => Ok(DeleteWorkloadBatch(v.placements, t, w))
    case ScaleWorkload(w) => Ok(ScaleBatch(v.placements, w))
    case ResizeWorkload(w) => Ok([PutWorkload(w)])
    case UpsertVpaRecommendation(t, w, data) => Ok([Put(VpaRecommendations, WorkloadKey(t, w), Blob(data))])
    case SetTenantQuota(t, data) => Ok([Put(TenantQuotas, t, Blob(data))])
    case SubmitCronWorkload(cron, cp) =>
      Ok([Put(Workloads, CronKey(cron.tenantId, cron.cronWorkloadId), CronV(cron)),
          Put(CronCheckpoints, WorkloadKey(cp.tenantId, cp.cronWorkloadId), CheckpointV(cp))])
    case TriggerCronWorkload(w, cp) =>
      Ok([PutWorkload(w), Put(CronCheckpoints, WorkloadKey(cp.tenantId, cp.cronWorkloadId), CheckpointV(cp))])
    case UpsertWorkloadStatus(status) => Ok(StatusBatch(v.statuses, status))
    case MintJoinToken(token, data) => Ok([Put(JoinTokens, token, Blob(data))])
    case ConsumeJoinToken(token) => Ok([Del(JoinTokens, token)])
    case SetPcrPolicy(n, data) => Ok([Put(PcrPolicies, n, Blob(data))])
    case RegisterNode(node) => Ok([Put(Nodes, node.nodeId, NodeV(node))])
    case SetNodeSchedulable(n, schedulable) => SchedulableBatch(v.nodes, n, schedulable)
    case NodeHeartbeat(n, at) => HeartbeatBatch(v.nodes, n, at)
    case EvictNode(n, expiresAt) => EvictBatch(spiffe, v.nodes, v.active, v.placements, n, expiresAt)
    case PruneExpiredRevokedSvids(cutoff) => Ok(ExpiredOps(Rows(v.revokedSvids), cutoff))
    case IssueDelegation(d) => Ok([Put(ActiveDelegations, DelegationKey(d.nodeId, d.delegationId), DelegationV(d))])
    case RevokeDelegation(n, d) => RevokeBatch(spiffe, v.active, n, d)
    case UpsertSagRule(r, data) => Ok([Put(SagRules, r, Blob(data))])
    case DeleteSagRule(r) => Ok([Del(SagRules, r)])
    case AllocateTenantBlock(block) => Ok([Put(DummyIps, BlockKey(block.tenantId), BlockV(block))])
    case AllocateServiceAddress(block, a) =>
      Ok([Put(DummyIps, BlockKey(block.tenantId), BlockV(block)),
          Put(DummyIps, AddressKey(a.tenantId, a.service, a.role), AddressV(a))])
    case StoreSecret(key, envelope, acl) =>
      Ok([Put(Secrets, "secret:" + key, Blob(envelope)), Put(Secrets, "acl:" + key, AclV(acl))])
    case GrantSecretAccess(key, id) => AclBatch(spiffe, v.secrets, key, id, true)
    case RevokeSecretAccess(key, id) => AclBatch(spiffe, v.secrets, key, id, false)
    case RecordOrdinalAssignment(o) =>
      Ok([Put(Ordinals, OrdinalKey(o.tenantId, o.service, o.role, o.ordinal), OrdinalV(o))])
    case CommitPlacement(p) => Ok([Put(Placements, p.podId, PlacementV(p))])
    case RemovePlacement(pod) => Ok([Del(Placements, pod)])
    case ReassignPodId(t, service, role, slot, pod) => Ok(ReassignBatch(v.placements, t, service, role, slot, pod))
    case StoreNodePool(pool, data) => Ok([Put(NodePools, pool, Blob(data))])
    case DeleteNodePool(pool) => Ok([Del(NodePools, pool)])
    case RegisterControlAddress(n, data) => Ok([Put(ControlAddresses, U64Be(n), Blob(data))])
    case UpsertSvidVersion(id, data) => Ok([Put(Svids, id, Blob(data))])
    case GrantOperatorAccess(g, data) => Ok([Put(OperatorGrants, g, Blob(data))])
    case RevokeOperatorAccess(g) => Ok([Del(OperatorGrants, g)])
    case RegisterNodeEk(ek) => Ok([Put(NodeEks, ek.fingerprint, EkV(ek))])
    case ActivateNodeEk(fp, n) => EkBatch(v.eks, fp, Joined, Some(n))
    case RevokeNodeEk(fp) => EkBatch(v.eks, fp, EkRevoked, None)
    case SetNodeTaints(n, taints) => Ok(TaintsBatch(n, taints))
    case RemoveNodeTaint(n, key, effect) => RemoveTaintBatch(v.taints, n, key, effect)
    case ApplyManifests(updates) => Ok(ManifestOps(updates))
  }

  lemma {:induction false} ManifestOpsPut(updates: seq<ManifestUpdate>, ks: Keyspace)
    ensures OnlyPuts(ManifestOps(updates), ks)
  {
    if updates != [] {
      ManifestOpsPut(updates[..|updates| - 1], ks);
    }
  }

  /** The batches of the commands that scan placements. */
  lemma BatchOfPlacements(spiffe: string -> bool, v: View, cmd: Command)
    ensures cmd.DeleteWorkload? ==>
              Batch(spiffe, v, cmd) == Ok(DeleteWorkloadBatch(v.placements, cmd.tenantId, cmd.workloadId))
    ensures cmd.ScaleWorkload? ==> Batch(spiffe, v, cmd) == Ok(ScaleBatch(v.placements, cmd.workload))
    ensures cmd.ReassignPodId? ==>
              Batch(spiffe, v, cmd)
              == Ok(ReassignBatch(v.placements, cmd.tenantId, cmd.service, cmd.role, cmd.slot, cmd.newPodId))
  {
    hide DeleteWorkloadBatch, ScaleBatch, ReassignBatch;
  }

  /** The batches of the commands that scan other tables or a list. */
  lemma BatchOfScans(spiffe: string -> bool, v: View, cmd: Command)
    ensures cmd.EvictNode? ==>
              Batch(spiffe, v, cmd)
              == EvictBatch(spiffe, v.nodes, v.active, v.placements, cmd.nodeId, cmd.svidExpiresAt)
    ensures cmd.PruneExpiredRevokedSvids? ==> Batch(spiffe, v, cmd) == Ok(ExpiredOps(Rows(v.revokedSvids), cmd.cutoff))
    ensures cmd.ApplyManifests? ==> Batch(spiffe, v, cmd) == Ok(ManifestOps(cmd.updates))
  {
    hide EvictBatch, ExpiredOps, ManifestOps, Rows;
  }

  /** What `apply_command` is to the machinery around it: a batch for what it reads and a command. */
  type Applier = (View, Command) -> Result<seq<Op>>

  function ApplierFor(spiffe: string -> bool): Applier {
    (v, cmd) => Batch(spiffe, v, cmd)
  }

  /** Applying one command to committed state. */
  function Step(spiffe: string -> bool, s: Store, cmd: Command): Result<Store> {
    match Batch(spiffe, Reads(s), cmd)
    case Err => Err
    case Ok(batch) => Ok(Commit(s, batch))
  }

  /** Applying commands in order; `Err` as soon as one fails. */
  function Steps(spiffe: string -> bool, s: Store, cmds: seq<Command>): Result<Store>
    decreases |cmds|
  {
    if cmds == [] then Ok(s)
    else match Step(spiffe, s, cmds[0])
      case Err => Err
      case Ok(next) => Steps(spiffe, next, cmds[1..])
  }

  // ----- where commands write -----

  /** Whether a command may write a keyspace. */
  predicate MayWrite(cmd: Command, ks: Keyspace) {
    match cmd
    case CreateTenant(_, _) => ks.Tenants? || ks.DummyIps?
    case DeleteTenant(_) => ks.Tenants?
    case SubmitWorkloadSpec(_) => ks.Workloads?
    case DeleteWorkload(_, _) => ks.Workloads? || ks.Placements? || ks.Ordinals?
    case ScaleWorkload(_) => ks.Workloads? || ks.Placements? || ks.Ordinals?
    case ResizeWorkload(_) => ks.Workloads?
    case UpsertVpaRecommendation(_, _, _) => ks.VpaRecommendations?
    case SetTenantQuota(_, _) => ks.TenantQuotas?
    case SubmitCronWorkload(_, _) => ks.Workloads? || ks.CronCheckpoints?
    case TriggerCronWorkload(_, _) => ks.Workloads? || ks.CronCheckpoints?
    case UpsertWorkloadStatus(_) => ks.WorkloadStatuses?
    case MintJoinToken(_, _) => ks.JoinTokens?
    case ConsumeJoinToken(_) => ks.JoinTokens?
    case SetPcrPolicy(_, _) => ks.PcrPolicies?
    case RegisterNode(_) => ks.Nodes?
    case SetNodeSchedulable(_, _) => ks.Nodes?
    case NodeHeartbeat(_, _) => ks.Nodes?
    case EvictNode(_, _) => ks.Nodes? || ks.ActiveDelegations? || ks.RevokedDelegations? || ks.Placements?
                            || ks.RevokedSvids?
    case PruneExpiredRevokedSvids(_) => ks.RevokedSvids?
    case IssueDelegation(_) => ks.ActiveDelegations?
    case RevokeDelegation(_, _) => ks.ActiveDelegations? || ks.RevokedDelegations?
    case UpsertSagRule(_, _) => ks.SagRules?
    case DeleteSagRule(_) => ks.SagRules?
    case AllocateTenantBlock(_) => ks.DummyIps?
    case AllocateServiceAddress(_, _) => ks.DummyIps?
    case StoreSecret(_, _, _) => ks.Secrets?
    case GrantSecretAccess(_, _) => ks.Secrets?
    case RevokeSecretAccess(_, _) => ks.Secrets?
    case RecordOrdinalAssignment(_) => ks.Ordinals?
    case CommitPlacement(_) => ks.Placements?
    case RemovePlacement(_) => ks.Placements?
    case ReassignPodId(_, _, _, _, _) => ks.Placements? || ks.Ordinals?
    case StoreNodePool(_, _) => ks.NodePools?
    case DeleteNodePool(_) => ks.NodePools?
    case RegisterControlAddress(_, _) => ks.ControlAddresses?
    case UpsertSvidVersion(_, _) => ks.Svids?
    case GrantOperatorAccess(_, _) => ks.OperatorGrants?
    case RevokeOperatorAccess(_) => ks.OperatorGrants?
    case RegisterNodeEk(_) => ks.NodeEks?
    case ActivateNodeEk(_, _) => ks.NodeEks?
    case RevokeNodeEk(_) => ks.NodeEks?
    case SetNodeTaints(_, _) => ks.NodeTaints?
    case RemoveNodeTaint(_, _, _) => ks.NodeTaints?
    case ApplyManifests(_) =>
      || ks.Workloads? || ks.Tenants? || ks.SagRules? || ks.Secrets? || ks.NodePools? || ks.DummyIps? || ks.Ordinals?
      || ks.Placements?
  }

  /** Every operation of a batch is one the command may make. */
  ghost predicate Permitted(cmd: Command, batch: seq<Op>) {
    forall i :: 0 <= i < |batch| ==> MayWrite(cmd, batch[i].ks)
  }

  lemma {:induction false} DropOpsTouch(ps: seq<Placement>)
    ensures forall op :: op in DropOps(ps) ==> op.ks.Placements? || op.ks.Ordinals?
  {
    if ps != [] {
      DropOpsTouch(ps[..|ps| - 1]);
    }
  }

  lemma {:induction false} RemoveOpsTouch(ps: seq<Placement>)
    ensures forall op :: op in RemoveOps(ps) ==> op.ks.Placements?
  {
    if ps != [] {
      RemoveOpsTouch(ps[..|ps| - 1]);
    }
  }

  lemma {:induction false} RevokeOpsTouch(rows: seq<Value>)
    ensures forall op :: op in RevokeOps(rows) ==> op.ks.ActiveDelegations? || op.ks.RevokedDelegations?
  {
    if rows != [] {
      RevokeOpsTouch(rows[..|rows| - 1]);
    }
  }

  lemma {:induction false} ExpiredOpsTouch(rows: seq<Value>, cutoff: int)
    ensures forall op :: op in ExpiredOps(rows, cutoff) ==> op.ks.RevokedSvids?
  {
    if rows != [] {
      ExpiredOpsTouch(rows[..|rows| - 1], cutoff);
    }
  }

  lemma {:induction false} ManifestOpsTouch(updates: seq<ManifestUpdate>)
    ensures forall op :: op in ManifestOps(updates) ==> MayWrite(ApplyManifests(updates), op.ks)
  {
    if updates != [] {
      ManifestOpsTouch(updates[..|updates| - 1]);
    }
  }

  /** Manifests leave alone a keyspace that none of them targets. */
  lemma {:induction false} ManifestsSpare(updates: seq<ManifestUpdate>, ks: Keyspace)
    requires forall u :: u in updates ==> ManifestKeyspace(u.target) != Some(ks)
    ensures Spares(ManifestOps(updates), ks)
  {
    if updates != [] {
      ManifestsSpare(updates[..|updates| - 1], ks);
    }
  }

  /** The commands whose batch is built by scanning. */
  predicate Scans(cmd: Command) {
    cmd.DeleteWorkload? || cmd.ScaleWorkload? || cmd.EvictNode? || cmd.PruneExpiredRevokedSvids? || cmd.ApplyManifests?
  }

  lemma EvictPermitted(spiffe: string -> bool, v: View, cmd: Command)
    requires cmd.EvictNode? && Batch(spiffe, v, cmd).Ok?
    ensures Permitted(cmd, Batch(spiffe, v, cmd).value)
  {
    RevokeOpsTouch(DelegationRows(v.active, cmd.nodeId));
    RemoveOpsTouch(Select(Rows(v.placements), OnNode(cmd.nodeId)));
  }

  lemma ScanPermitted(spiffe: string -> bool, v: View, cmd: Command)
    requires Scans(cmd) && !cmd.EvictNode? && Batch(spiffe, v, cmd).Ok?
    ensures Permitted(cmd, Batch(spiffe, v, cmd).value)
  {
    hide DropOps, Select, Rows, ExpiredOps, ManifestOps, Batch;
    BatchOfPlacements(spiffe, v, cmd);
    BatchOfScans(spiffe, v, cmd);
    match cmd
    case DeleteWorkload(t, w) => DropOpsTouch(Select(Rows(v.placements), OfWorkload(t, w)));
    case ScaleWorkload(w) =>
      DropOpsTouch(Select(Rows(v.placements), BeyondReplicas(w.tenantId, w.workloadId, Replicas(w))));
    case PruneExpiredRevokedSvids(cutoff) => ExpiredOpsTouch(Rows(v.revokedSvids), cutoff);
    case ApplyManifests(updates) => ManifestOpsTouch(updates);
  }

  predicate OnTenants(cmd: Command) {
    || cmd.CreateTenant? || cmd.DeleteTenant? || cmd.SubmitWorkloadSpec? || cmd.ResizeWorkload?
    || cmd.UpsertVpaRecommendation? || cmd.SetTenantQuota? || cmd.SubmitCronWorkload? || cmd.TriggerCronWorkload?
    || cmd.UpsertWorkloadStatus?
  }

  predicate OnNodes(cmd: Command) {
    || cmd.MintJoinToken? || cmd.ConsumeJoinToken? || cmd.SetPcrPolicy? || cmd.RegisterNode?
    || cmd.SetNodeSchedulable? || cmd.NodeHeartbeat? || cmd.RegisterNodeEk? || cmd.ActivateNodeEk?
    || cmd.RevokeNodeEk?
  }

  predicate OnPolicies(cmd: Command) {
    || cmd.IssueDelegation? || cmd.RevokeDelegation? || cmd.UpsertSagRule? || cmd.DeleteSagRule?
    || cmd.AllocateTenantBlock? || cmd.AllocateServiceAddress?
  }

  predicate OnSecrets(cmd: Command) {
    cmd.StoreSecret? || cmd.GrantSecretAccess? || cmd.RevokeSecretAccess?
  }

  lemma TenantPermitted(spiffe: string -> bool, v: View, cmd: Command)
    requires OnTenants(cmd) && Batch(spiffe, v, cmd).Ok?
    ensures Permitted(cmd, Batch(spiffe, v, cmd).value)
  {
  }

  lemma NodePermitted(spiffe: string -> bool, v: View, cmd: Command)
    requires OnNodes(cmd) && Batch(spiffe, v, cmd).Ok?
    ensures Permitted(cmd, Batch(spiffe, v, cmd).value)
  {
  }

  lemma PolicyPermitted(spiffe: string -> bool, v: View, cmd: Command)
    requires OnPolicies(cmd) && Batch(spiffe, v, cmd).Ok?
    ensures Permitted(cmd, Batch(spiffe, v, cmd).value)
  {
  }

  lemma SecretPermitted(spiffe: string -> bool, v: View, cmd: Command)
    requires OnSecrets(cmd) && Batch(spiffe, v, cmd).Ok?
    ensures Permitted(cmd, Batch(spiffe, v, cmd).value)
  {
  }

  lemma OtherPermitted(spiffe: string -> bool, v: View, cmd: Command)
    requires !Scans(cmd) && !OnTenants(cmd) && !OnNodes(cmd) && !OnPolicies(cmd) && !OnSecrets(cmd)
    requires Batch(spiffe, v, cmd).Ok?
    ensures Permitted(cmd, Batch(spiffe, v, cmd).value)
  {
  }

  /** A command writes only the keyspaces it may. */
  lemma BatchPermitted(spiffe: string -> bool, v: View, cmd: Command)
    requires Batch(spiffe, v, cmd).Ok?
    ensures Permitted(cmd, Batch(spiffe, v, cmd).value)
  {
    hide Batch, MayWrite;
    if cmd.EvictNode? {
      EvictPermitted(spiffe, v, cmd);
    } else if Scans(cmd) {
      ScanPermitted(spiffe, v, cmd);
    } else if OnTenants(cmd) {
      TenantPermitted(spiffe, v, cmd);
    } else if OnNodes(cmd) {
      NodePermitted(spiffe, v, cmd);
    } else if OnPolicies(cmd) {
      PolicyPermitted(spiffe, v, cmd);
    } else if OnSecrets(cmd) {
      SecretPermitted(spiffe, v, cmd);
    } else {
      OtherPermitted(spiffe, v, cmd);
    }
  }

  /** An applier that writes only what commands may write. */
  ghost predicate Contained(f: Applier) {
    forall v, cmd :: f(v, cmd).Ok? ==> Permitted(cmd, f(v, cmd).value)
  }

  lemma ApplierContained(spiffe: string -> bool)
    ensures Contained(ApplierFor(spiffe))
  {
    var f := ApplierFor(spiffe);
    forall v, cmd | f(v, cmd).Ok?
      ensures Permitted(cmd, f(v, cmd).value)
    {
      BatchPermitted(spiffe, v, cmd);
    }
  }

  /** Every keyspace a command may not write is left as it was. */
  lemma StepFrame(spiffe: string -> bool, s: Store, cmd: Command, ks: Keyspace)
    requires Step(spiffe, s, cmd).Ok?
    requires !MayWrite(cmd, ks)
    ensures Step(spiffe, s, cmd).value.At(ks) == s.At(ks)
  {
    BatchPermitted(spiffe, Reads(s), cmd);
    CommitFrame(s, Batch(spiffe, Reads(s), cmd).value, ks);
  }
}
