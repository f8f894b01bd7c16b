/** The key-value store: one table per keyspace, written only through ordered batches. */
module Storage {
  import opened Records
  import opened Bytes

  datatype Keyspace =
    | VersionKs | RaftState | Nodes | Svids | SagRules | JoinTokens | RevokedDelegations
    | ActiveDelegations | Ordinals | Placements | Tenants | Workloads | Secrets | DummyIps
    | PcrPolicies | RouterAssignments | NodePools | NodeTaints | TrustBundles | RevokedSvids
    | AuditLog | CronCheckpoints | OperatorGrants | WorkloadStatuses | TenantQuotas
    | ControlAddresses | NodeEks | VpaRecommendations
    | Nonces | NonceClaims | SvidGrants | PendingActivations | RaftSnapshot

  /** A stored value, by the record type its bytes decode to. `Blob` is any other encoding. */
  datatype Value =
    | NodeV(node: NodeRecord)
    | PlacementV(placement: Placement)
    | OrdinalV(ordinal: OrdinalAssignment)
    | TenantV(tenant: TenantRecord)
    | BlockV(block: TenantBlock)
    | AddressV(address: ServiceAddress)
    | WorkloadV(workload: WorkloadRecord)
    | CronV(cron: CronRecord)
    | CheckpointV(checkpoint: CronCheckpoint)
    | DelegationV(delegation: DelegationRecord)
    | RevokedSvidV(spiffeId: string, expiresAt: int)
    | TaintsV(taints: seq<NodeTaint>)
    | EkV(ek: NodeEkRecord)
    | StatusV(status: WorkloadStatus)
    | AclV(acl: map<string, set<string>>)
    | LogIdV(logId: LogId)
    | MembershipV(membershipAt: LogId, membership: string)
    | MetaV(meta: SnapshotMeta)
    | NumberV(number: nat)
    | AuditV(audit: AuditRecord)
    | SnapshotV(snapshot: SnapshotData)
    | Blob(data: string)

  type Table = map<string, Value>

  type Pairs = seq<(string, Value)>

  /** A snapshot: the pairs of each keyspace it carries. */
  type SnapshotData = seq<(Keyspace, Pairs)>

  /** The database. A keyspace without a table holds nothing yet. */
  datatype Store = Store(tables: map<Keyspace, Table>) {
    function At(k: Keyspace): Table {
      if k in tables then tables[k] else map[]
    }
  }

  /** A freshly initialised database. */
  const EMPTY: Store := Store(map[])

  datatype Op =
    | Put(ks: Keyspace, key: string, value: Value)
    | Del(ks: Keyspace, key: string)

  function Exec(s: Store, op: Op): Store {
    match op
    case Put(ks, key, value) => Store(s.tables[ks := s.At(ks)[key := value]])
    case Del(ks, key) => Store(s.tables[ks := s.At(ks) - {key}])
  }

  /** Committing a batch: its operations take effect together, later ones over earlier ones. */
  function Commit(s: Store, batch: seq<Op>): Store {
    if batch == [] then s else Exec(Commit(s, batch[..|batch| - 1]), batch[|batch| - 1])
  }

  lemma CommitNothing(s: Store)
    ensures Commit(s, []) == s
  {
  }

  lemma CommitSnoc(s: Store, batch: seq<Op>, op: Op)
    ensures Commit(s, batch + [op]) == Exec(Commit(s, batch), op)
  {
    assert (batch + [op])[..|batch|] == batch;
  }

  lemma {:induction false} CommitConcat(s: Store, a: seq<Op>, b: seq<Op>)
    ensures Commit(s, a + b) == Commit(Commit(s, a), b)
    decreases |b|
  {
    if b == [] {
      assert a + b == a;
    } else {
      var init := b[..|b| - 1];
      CommitConcat(s, a, init);
      assert a + b == (a + init) + [b[|b| - 1]];
      CommitSnoc(s, a + init, b[|b| - 1]);
    }
  }

  lemma CommitTwo(s: Store, batch: seq<Op>, a: Op, b: Op)
    ensures Commit(s, batch + [a, b]) == Exec(Exec(Commit(s, batch), a), b)
  {
    CommitSnoc(s, batch, a);
    CommitSnoc(s, batch + [a], b);
    assert batch + [a, b] == (batch + [a]) + [b];
  }

  lemma CommitPair(s: Store, a: Op, b: Op)
    ensures Commit(s, [a, b]) == Exec(Exec(s, a), b)
  {
    CommitTwo(s, [], a, b);
    assert [] + [a, b] == [a, b];
  }

  lemma CommitOne(s: Store, a: Op)
    ensures Commit(s, [a]) == Exec(s, a)
  {
    CommitSnoc(s, [], a);
    assert [] + [a] == [a];
  }

  lemma ExecOther(s: Store, op: Op, ks: Keyspace)
    requires op.ks != ks
    ensures Exec(s, op).At(ks) == s.At(ks)
  {
  }

  lemma ExecLocal(s: Store, t: Store, op: Op, ks: Keyspace)
    requires s.At(ks) == t.At(ks)
    ensures Exec(s, op).At(ks) == Exec(t, op).At(ks)
  {
  }

  ghost predicate Spares(batch: seq<Op>, ks: Keyspace) {
    forall i :: 0 <= i < |batch| ==> batch[i].ks != ks
  }

  /** A keyspace no operation names is left as it was. */
  lemma {:induction false} CommitFrame(s: Store, batch: seq<Op>, ks: Keyspace)
    requires Spares(batch, ks)
    ensures Commit(s, batch).At(ks) == s.At(ks)
  {
    if batch != [] {
      var init := batch[..|batch| - 1];
      CommitFrame(s, init, ks);
      ExecOther(Commit(s, init), batch[|batch| - 1], ks);
    }
  }

  /** The effect of a batch on one table depends on that table alone. */
  lemma {:induction false} CommitLocal(s: Store, t: Store, batch: seq<Op>, ks: Keyspace)
    requires s.At(ks) == t.At(ks)
    ensures Commit(s, batch).At(ks) == Commit(t, batch).At(ks)
  {
    if batch != [] {
      var init := batch[..|batch| - 1];
      CommitLocal(s, t, init, ks);
      ExecLocal(Commit(s, init), Commit(t, init), batch[|batch| - 1], ks);
    }
  }

  /** Operations around a batch that leave a keyspace alone do not change what the batch does to it. */
  lemma CommitMiddle(s: Store, before: seq<Op>, batch: seq<Op>, after: seq<Op>, ks: Keyspace)
    requires Spares(before, ks) && Spares(after, ks)
    ensures Commit(s, before + batch + after).At(ks) == Commit(s, batch).At(ks)
  {
    CommitConcat(s, before + batch, after);
    CommitConcat(s, before, batch);
    CommitFrame(s, before, ks);
    CommitLocal(Commit(s, before), s, batch, ks);
    CommitFrame(Commit(s, before + batch), after, ks);
  }

  /** The part of a table under the given keys. */
  function Part(t: Table, keys: seq<string>): Table {
    map k | k in keys && k in t :: t[k]
  }

  lemma PartSnoc(base: Table, t: Table, keys: seq<string>, last: string)
    requires last in t
    ensures base + Part(t, keys + [last]) == (base + Part(t, keys))[last := t[last]]
  {
  }

  lemma PartWhole(t: Table, keys: seq<string>)
    requires forall k :: k in t ==> k in keys
    ensures Part(t, keys) == t
  {
  }

  /** The rows of a table in key order: what a full scan yields. */
  function Rows(t: Table): seq<Value> {
    RowsAt(t, Ascending(t.Keys))
  }

  function RowsAt(t: Table, keys: seq<string>): (rows: seq<Value>)
    ensures |rows| == |keys|
  {
    seq(|keys|, i requires 0 <= i < |keys| => if keys[i] in t then t[keys[i]] else Blob(""))
  }

  lemma RowsMembers(t: Table)
    ensures |Rows(t)| == |t.Keys| == |Ascending(t.Keys)|
    ensures forall i :: 0 <= i < |Rows(t)| ==> Ascending(t.Keys)[i] in t && Rows(t)[i] == t[Ascending(t.Keys)[i]]
    ensures forall k :: k in t ==> k in Ascending(t.Keys)
  {
    AscendingElements(t.Keys);
  }

  /** `prefix(p)`: the keys that start with `p`, in key order. */
  function PrefixKeys(t: Table, p: string): seq<string> {
    Ascending(set k | k in t.Keys && p <= k)
  }

  lemma PrefixKeysMembers(t: Table, p: string)
    ensures forall k :: k in PrefixKeys(t, p) <==> k in t && p <= k
  {
    AscendingElements(set k | k in t.Keys && p <= k);
  }

  /** `StorageEngine::list_placements`: the rows that decode as placements. */
  function ListPlacements(t: Table): seq<Placement> {
    DecodePlacements(Rows(t))
  }

  function DecodePlacements(rows: seq<Value>): seq<Placement> {
    if rows == [] then []
    else if rows[|rows| - 1].PlacementV? then
      DecodePlacements(rows[..|rows| - 1]) + [rows[|rows| - 1].placement]
    else DecodePlacements(rows[..|rows| - 1])
  }

  // ----- batches that only add -----

  ghost predicate OnlyPuts(batch: seq<Op>, ks: Keyspace) {
    forall i :: 0 <= i < |batch| && batch[i].ks == ks ==> batch[i].Put?
  }

  lemma {:induction false} PutsKeepKeys(s: Store, batch: seq<Op>, ks: Keyspace)
    requires OnlyPuts(batch, ks)
    ensures s.At(ks).Keys <= Commit(s, batch).At(ks).Keys
  {
    if batch != [] {
      var init := batch[..|batch| - 1];
      PutsKeepKeys(s, init, ks);
      if batch[|batch| - 1].ks != ks {
        ExecOther(Commit(s, init), batch[|batch| - 1], ks);
      }
    }
  }
}
