/** The replicated records. Encoded bytes are represented by the value they decode to;
a field of type `Option` marks bytes that may fail to decode. */
module Records {
  import opened Decimal

  datatype Resources = Resources(cpu: nat, memory: nat)

  datatype NodeStatus = Active | Cordoned | Evicted

  datatype NodeRecord = NodeRecord(
    nodeId: string,
    nodeKind: nat,
    status: NodeStatus,
    schedulable: bool,
    lastHeartbeat: int,
    registeredAt: int,
    capacity: Resources,
    failureDomain: string)

  datatype NodeTaint = NodeTaint(key: string, value: string, effect: string, timeAdded: int)

  datatype Toleration = Toleration(key: string, operator: string, value: string, effect: string, seconds: int)

  datatype Placement = Placement(
    podId: string,
    tenantId: string,
    service: string,
    role: string,
    ordinal: nat,
    nodeId: string,
    resources: Resources)

  ghost predicate DistinctPods(ps: seq<Placement>) {
    forall i, j :: 0 <= i < j < |ps| ==> ps[i].podId != ps[j].podId
  }

  ghost predicate DistinctRecords(records: seq<NodeRecord>) {
    forall i, j :: 0 <= i < j < |records| ==> records[i].nodeId != records[j].nodeId
  }

  datatype OrdinalAssignment = OrdinalAssignment(
    tenantId: string,
    service: string,
    role: string,
    ordinal: nat,
    podId: Option<string>,
    nodeId: Option<string>)

  datatype PodResources = PodResources(vcpus: nat, memoryMb: nat)

  datatype PodSpec = PodSpec(
    resources: Option<PodResources>,
    env: map<string, string>,
    labels: map<string, string>,
    priority: int,
    tolerations: seq<Toleration>,
    otherFields: string)

  datatype AutoscalingPolicy = AutoscalingPolicy(
    enabled: bool,
    minReplicas: nat,
    maxReplicas: nat,
    stabilizationWindow: nat,
    targetCpu: nat,
    targetMemory: nat,
    targetNetRx: nat,
    targetNetTx: nat)

  datatype BudgetValue = Count(count: nat) | Percent(percent: nat)

  datatype Budget =
    | NoPolicy
    | MinAvailable(min: Option<BudgetValue>)
    | MaxUnavailable(max: Option<BudgetValue>)

  datatype WorkloadSpec = WorkloadSpec(
    tenantId: string,
    workloadId: string,
    image: string,
    replicas: map<string, nat>,
    podSpec: Option<PodSpec>,
    placement: int,
    autoscaling: Option<AutoscalingPolicy>,
    budgets: map<string, Budget>,
    otherFields: string)

  datatype WorkloadRecord = WorkloadRecord(
    tenantId: string,
    workloadId: string,
    spec: Option<WorkloadSpec>,
    lastApplied: string)

  datatype TenantRecord = TenantRecord(tenantId: string, createdAt: int, lastApplied: string)

  datatype TenantBlock = TenantBlock(tenantId: string, base: nat, prefix: nat, nextOffset: nat)

  datatype ServiceAddress = ServiceAddress(tenantId: string, service: string, role: string, address: nat)

  datatype CronRecord = CronRecord(tenantId: string, cronWorkloadId: string, expression: string, spec: string)

  datatype CronCheckpoint = CronCheckpoint(tenantId: string, cronWorkloadId: string, lastTriggeredAt: int)

  datatype DelegationRecord = DelegationRecord(
    delegationId: string,
    nodeId: string,
    targetSvidId: string,
    targetOrdinal: Option<nat>,
    issuedAt: int,
    expiresAt: int,
    refreshAt: int)

  datatype WorkloadStatus = WorkloadStatus(
    podId: string,
    started: bool,
    policyEnforced: bool,
    routerConnected: bool,
    observedAt: int,
    gateViolationSince: int,
    otherFields: string)

  datatype EkState = Pending | Joined | EkRevoked

  datatype NodeEkRecord = NodeEkRecord(fingerprint: string, nodeId: string, state: EkState, otherFields: string)

  datatype LogId = LogId(term: nat, index: nat)

  datatype AuditContext = AuditContext(requestId: string, actor: string, target: string, timestamp: nat)

  datatype AuditRecord = AuditRecord(version: nat, context: AuditContext, action: string)

  datatype SnapshotMeta = SnapshotMeta(lastLogId: Option<LogId>, membership: Option<string>)
}
