/** What the commands of `apply_command` without logic of their own leave behind: each stores its record under the key
the record gives, or removes what was there, and touches nothing else in that table. */
module StoredRecords {
  import opened Decimal
  import opened Records
  import opened Keys
  import opened Storage
  import opened Commands

  /** The command applies, and stores one value in a table. */
  ghost predicate Stores(spiffe: string -> bool, s: Store, cmd: Command, ks: Keyspace, key: string, v: Value) {
    Step(spiffe, s, cmd).Ok? && Step(spiffe, s, cmd).value.At(ks) == s.At(ks)[key := v]
  }

  /** The command applies, and removes one key of a table. */
  ghost predicate Removes(spiffe: string -> bool, s: Store, cmd: Command, ks: Keyspace, key: string) {
    Step(spiffe, s, cmd).Ok? && Step(spiffe, s, cmd).value.At(ks) == s.At(ks) - {key}
  }

  lemma OneOp(spiffe: string -> bool, s: Store, cmd: Command, op: Op)
    requires Batch(spiffe, Reads(s), cmd) == Ok([op])
    ensures op.Put? ==> Stores(spiffe, s, cmd, op.ks, op.key, op.value)
    ensures op.Del? ==> Removes(spiffe, s, cmd, op.ks, op.key)
  {
    hide Batch;
    CommitOne(s, op);
  }

  lemma NoOps(spiffe: string -> bool, s: Store, cmd: Command)
    requires Batch(spiffe, Reads(s), cmd) == Ok([])
    ensures Step(spiffe, s, cmd) == Ok(s)
  {
    hide Batch;
  }

  /** The batches of the commands that read what they write. */
  lemma BatchOfReaders(spiffe: string -> bool, v: View, cmd: Command)
    ensures cmd.ActivateNodeEk? ==>
              Batch(spiffe, v, cmd) == EkBatch(v.eks, cmd.fingerprint, Joined, Some(cmd.nodeId))
    ensures cmd.RevokeNodeEk? ==> Batch(spiffe, v, cmd) == EkBatch(v.eks, cmd.fingerprint, EkRevoked, None)
    ensures cmd.GrantSecretAccess? ==> Batch(spiffe, v, cmd) == AclBatch(spiffe, v.secrets, cmd.key, cmd.spiffeId, true)
    ensures cmd.RevokeSecretAccess? ==>
              Batch(spiffe, v, cmd) == AclBatch(spiffe, v.secrets, cmd.key, cmd.spiffeId, false)
  {
    hide EkBatch, AclBatch;
  }

  lemma BatchOfReports(spiffe: string -> bool, v: View, cmd: Command)
    ensures cmd.UpsertWorkloadStatus? ==> Batch(spiffe, v, cmd) == Ok(StatusBatch(v.statuses, cmd.status))
    ensures cmd.SetNodeTaints? ==> Batch(spiffe, v, cmd) == Ok(TaintsBatch(cmd.nodeId, cmd.taints))
    ensures cmd.RemoveNodeTaint? ==>
              Batch(spiffe, v, cmd) == RemoveTaintBatch(v.taints, cmd.nodeId, cmd.taintKey, cmd.effect)
    ensures cmd.NodeHeartbeat? ==> Batch(spiffe, v, cmd) == HeartbeatBatch(v.nodes, cmd.nodeId, cmd.lastHeartbeat)
  {
    hide StatusBatch, TaintsBatch, RemoveTaintBatch, HeartbeatBatch;
  }

  lemma FailsWithBatch(spiffe: string -> bool, s: Store, cmd: Command)
    ensures Step(spiffe, s, cmd).Err? <==> Batch(spiffe, Reads(s), cmd).Err?
  {
    hide Batch;
  }

  lemma TwoPuts(spiffe: string -> bool, s: Store, cmd: Command, a: Op, b: Op)
    requires Batch(spiffe, Reads(s), cmd) == Ok([a, b]) && a.Put? && b.Put? && a.ks != b.ks
    ensures Stores(spiffe, s, cmd, a.ks, a.key, a.value) && Stores(spiffe, s, cmd, b.ks, b.key, b.value)
  {
    hide Batch;
    CommitPair(s, a, b);
  }

  /** Tenants: creating one stores its record and its block; deleting one removes the record. */
  lemma TenantRecords(spiffe: string -> bool, s: Store, cmd: Command)
    ensures cmd.CreateTenant? ==> Stores(spiffe, s, cmd, Tenants, cmd.tenant.tenantId, TenantV(cmd.tenant))
    ensures cmd.CreateTenant? ==> Stores(spiffe, s, cmd, DummyIps, "tenant:" + cmd.tenant.tenantId, BlockV(cmd.block))
    ensures cmd.DeleteTenant? ==> Removes(spiffe, s, cmd, Tenants, cmd.tenantId)
    ensures cmd.SetTenantQuota? ==> Stores(spiffe, s, cmd, TenantQuotas, cmd.tenantId, Blob(cmd.data))
  {
    hide Stores, Removes, Commit;
    if cmd.CreateTenant? {
      TwoPuts(spiffe, s, cmd, Put(Tenants, cmd.tenant.tenantId, TenantV(cmd.tenant)),
              Put(DummyIps, BlockKey(cmd.tenant.tenantId), BlockV(cmd.block)));
    } else if cmd.DeleteTenant? {
      OneOp(spiffe, s, cmd, Del(Tenants, cmd.tenantId));
    } else if cmd.SetTenantQuota? {
      OneOp(spiffe, s, cmd, Put(TenantQuotas, cmd.tenantId, Blob(cmd.data)));
    }
  }

  /** Workloads: specs go under tenant and workload, cron workloads and their runs with a checkpoint. */
  lemma WorkloadRecords(spiffe: string -> bool, s: Store, cmd: Command)
    ensures cmd.SubmitWorkloadSpec? || cmd.ResizeWorkload? || cmd.TriggerCronWorkload? ==>
              Stores(spiffe, s, cmd, Workloads, WorkloadKey(cmd.workload.tenantId, cmd.workload.workloadId),
                     WorkloadV(cmd.workload))
    ensures cmd.SubmitCronWorkload? ==>
              Stores(spiffe, s, cmd, Workloads, CronKey(cmd.cron.tenantId, cmd.cron.cronWorkloadId), CronV(cmd.cron))
    ensures cmd.SubmitCronWorkload? || cmd.TriggerCronWorkload? ==>
              Stores(spiffe, s, cmd, CronCheckpoints,
                     WorkloadKey(cmd.checkpoint.tenantId, cmd.checkpoint.cronWorkloadId), CheckpointV(cmd.checkpoint))
    ensures cmd.UpsertVpaRecommendation? ==>
              Stores(spiffe, s, cmd, VpaRecommendations, WorkloadKey(cmd.tenantId, cmd.workloadId), Blob(cmd.data))
  {
    hide Stores, Commit, WorkloadKey, CronKey;
    if cmd.SubmitWorkloadSpec? || cmd.ResizeWorkload? {
      OneOp(spiffe, s, cmd, PutWorkload(cmd.workload));
    } else if cmd.TriggerCronWorkload? {
      TwoPuts(spiffe, s, cmd, PutWorkload(cmd.workload),
              Put(CronCheckpoints, WorkloadKey(cmd.checkpoint.tenantId, cmd.checkpoint.cronWorkloadId),
                  CheckpointV(cmd.checkpoint)));
    } else if cmd.SubmitCronWorkload? {
      TwoPuts(spiffe, s, cmd,
              Put(Workloads, CronKey(cmd.cron.tenantId, cmd.cron.cronWorkloadId), CronV(cmd.cron)),
              Put(CronCheckpoints, WorkloadKey(cmd.checkpoint.tenantId, cmd.checkpoint.cronWorkloadId),
                  CheckpointV(cmd.checkpoint)));
    } else if cmd.UpsertVpaRecommendation? {
      OneOp(spiffe, s, cmd, Put(VpaRecommendations, WorkloadKey(cmd.tenantId, cmd.workloadId), Blob(cmd.data)));
    }
  }

  /** Nodes and what they present: tokens, measurements, registrations, addresses, endorsement keys. */
  lemma NodeRecords(spiffe: string -> bool, s: Store, cmd: Command)
    ensures cmd.MintJoinToken? ==> Stores(spiffe, s, cmd, JoinTokens, cmd.token, Blob(cmd.data))
    ensures cmd.ConsumeJoinToken? ==> Removes(spiffe, s, cmd, JoinTokens, cmd.token)
    ensures cmd.SetPcrPolicy? ==> Stores(spiffe, s, cmd, PcrPolicies, cmd.nodeId, Blob(cmd.data))
    ensures cmd.RegisterNode? ==> Stores(spiffe, s, cmd, Nodes, cmd.node.nodeId, NodeV(cmd.node))
    ensures cmd.RegisterControlAddress? ==>
              Stores(spiffe, s, cmd, ControlAddresses, U64Be(cmd.controlNode), Blob(cmd.data))
    ensures cmd.RegisterNodeEk? ==> Stores(spiffe, s, cmd, NodeEks, cmd.ek.fingerprint, EkV(cmd.ek))
  {
    hide Stores, Removes, Commit, U64Be;
    if cmd.RegisterControlAddress? {
      OneOp(spiffe, s, cmd, Put(ControlAddresses, U64Be(cmd.controlNode), Blob(cmd.data)));
    } else if cmd.MintJoinToken? {
      OneOp(spiffe, s, cmd, Put(JoinTokens, cmd.token, Blob(cmd.data)));
    } else if cmd.ConsumeJoinToken? {
      OneOp(spiffe, s, cmd, Del(JoinTokens, cmd.token));
    } else if cmd.SetPcrPolicy? {
      OneOp(spiffe, s, cmd, Put(PcrPolicies, cmd.nodeId, Blob(cmd.data)));
    } else if cmd.RegisterNode? {
      OneOp(spiffe, s, cmd, Put(Nodes, cmd.node.nodeId, NodeV(cmd.node)));
    } else if cmd.RegisterNodeEk? {
      OneOp(spiffe, s, cmd, Put(NodeEks, cmd.ek.fingerprint, EkV(cmd.ek)));
    }
  }

  /** Rules, pools and issued identities. */
  lemma PolicyRecords(spiffe: string -> bool, s: Store, cmd: Command)
    ensures cmd.UpsertSagRule? ==> Stores(spiffe, s, cmd, SagRules, cmd.ruleId, Blob(cmd.data))
    ensures cmd.DeleteSagRule? ==> Removes(spiffe, s, cmd, SagRules, cmd.ruleId)
    ensures cmd.StoreNodePool? ==> Stores(spiffe, s, cmd, NodePools, cmd.poolId, Blob(cmd.data))
    ensures cmd.DeleteNodePool? ==> Removes(spiffe, s, cmd, NodePools, cmd.poolId)
    ensures cmd.UpsertSvidVersion? ==> Stores(spiffe, s, cmd, Svids, cmd.spiffeId, Blob(cmd.data))
  {
    hide Stores, Removes, Commit;
    if cmd.UpsertSagRule? {
      OneOp(spiffe, s, cmd, Put(SagRules, cmd.ruleId, Blob(cmd.data)));
    } else if cmd.DeleteSagRule? {
      OneOp(spiffe, s, cmd, Del(SagRules, cmd.ruleId));
    } else if cmd.StoreNodePool? {
      OneOp(spiffe, s, cmd, Put(NodePools, cmd.poolId, Blob(cmd.data)));
    } else if cmd.DeleteNodePool? {
      OneOp(spiffe, s, cmd, Del(NodePools, cmd.poolId));
    } else if cmd.UpsertSvidVersion? {
      OneOp(spiffe, s, cmd, Put(Svids, cmd.spiffeId, Blob(cmd.data)));
    }
  }

  /** Grants of operator access. */
  lemma GrantRecords(spiffe: string -> bool, s: Store, cmd: Command)
    ensures cmd.GrantOperatorAccess? ==> Stores(spiffe, s, cmd, OperatorGrants, cmd.grantId, Blob(cmd.data))
    ensures cmd.RevokeOperatorAccess? ==> Removes(spiffe, s, cmd, OperatorGrants, cmd.grantId)
  {
    hide Stores, Removes, Commit;
    if cmd.GrantOperatorAccess? {
      OneOp(spiffe, s, cmd, Put(OperatorGrants, cmd.grantId, Blob(cmd.data)));
    } else if cmd.RevokeOperatorAccess? {
      OneOp(spiffe, s, cmd, Del(OperatorGrants, cmd.grantId));
    }
  }

  /** Delegations, placements, slots and address blocks. */
  lemma PlacementRecords(spiffe: string -> bool, s: Store, cmd: Command)
    ensures cmd.IssueDelegation? ==>
              Stores(spiffe, s, cmd, ActiveDelegations,
                     DelegationKey(cmd.delegation.nodeId, cmd.delegation.delegationId), DelegationV(cmd.delegation))
    ensures cmd.CommitPlacement? ==>
              Stores(spiffe, s, cmd, Placements, cmd.placement.podId, PlacementV(cmd.placement))
    ensures cmd.RemovePlacement? ==> Removes(spiffe, s, cmd, Placements, cmd.podId)
    ensures cmd.RecordOrdinalAssignment? ==>
              var o := cmd.ordinal;
              Stores(spiffe, s, cmd, Ordinals, OrdinalKey(o.tenantId, o.service, o.role, o.ordinal), OrdinalV(o))
    ensures cmd.AllocateTenantBlock? ==>
              Stores(spiffe, s, cmd, DummyIps, "tenant:" + cmd.block.tenantId, BlockV(cmd.block))
  {
    hide Stores, Removes, Commit, DelegationKey, OrdinalKey;
    if cmd.IssueDelegation? {
      OneOp(spiffe, s, cmd, Put(ActiveDelegations, DelegationKey(cmd.delegation.nodeId, cmd.delegation.delegationId),
                                DelegationV(cmd.delegation)));
    } else if cmd.CommitPlacement? {
      OneOp(spiffe, s, cmd, Put(Placements, cmd.placement.podId, PlacementV(cmd.placement)));
    } else if cmd.RemovePlacement? {
      OneOp(spiffe, s, cmd, Del(Placements, cmd.podId));
    } else if cmd.RecordOrdinalAssignment? {
      var o := cmd.ordinal;
      OneOp(spiffe, s, cmd, Put(Ordinals, OrdinalKey(o.tenantId, o.service, o.role, o.ordinal), OrdinalV(o)));
    } else if cmd.AllocateTenantBlock? {
      OneOp(spiffe, s, cmd, Put(DummyIps, BlockKey(cmd.block.tenantId), BlockV(cmd.block)));
    }
  }

  // ----- heartbeats -----

  /** A heartbeat sets the time of a known node and nothing else, and fails on a record it cannot read. */
  lemma HeartbeatSetsTime(spiffe: string -> bool, s: Store, n: string, at: int)
    ensures var nodes, r := s.At(Nodes), Step(spiffe, s, NodeHeartbeat(n, at));
            && (r.Err? <==> n in nodes && !nodes[n].NodeV?)
            && (n !in nodes ==> r.Ok? && r.value.At(Nodes) == nodes)
            && (n in nodes && nodes[n].NodeV? ==>
                  r.Ok? && r.value.At(Nodes) == nodes[n := NodeV(nodes[n].node.(lastHeartbeat := at))])
  {
    var nodes, cmd := s.At(Nodes), NodeHeartbeat(n, at);
    BatchOfReports(spiffe, Reads(s), cmd);
    FailsWithBatch(spiffe, s, cmd);
    hide Step, Batch;
    if n in nodes && nodes[n].NodeV? {
      OneOp(spiffe, s, cmd, Put(Nodes, n, NodeV(nodes[n].node.(lastHeartbeat := at))));
    } else if n !in nodes {
      NoOps(spiffe, s, cmd);
    }
  }

  // ----- secrets -----

  lemma AclKeyInjective(a: string, b: string)
    ensures "acl:" + a == "acl:" + b ==> a == b
    ensures "acl:" + a != "secret:" + b
  {
    assert ("acl:" + a)[4..] == a && ("acl:" + b)[4..] == b;
    assert ("acl:" + a)[0] == 'a' && ("secret:" + b)[0] == 's';
  }

  /** The identity may read the secret. */
  predicate MayRead(secrets: Table, key: string, id: string) {
    && "acl:" + key in secrets && secrets["acl:" + key].AclV?
    && key in secrets["acl:" + key].acl && id in secrets["acl:" + key].acl[key]
  }

  /** Granting and revoking changes exactly what one identity may do with one secret, and fails exactly on an access
  list it cannot read or an identity that is none. */
  lemma AccessChangesExactly(spiffe: string -> bool, s: Store, key: string, id: string, grant: bool)
    ensures var cmd := if grant then GrantSecretAccess(key, id) else RevokeSecretAccess(key, id);
            var before, r := s.At(Secrets), Step(spiffe, s, cmd);
            && (r.Err? <==> !spiffe(id) || ("acl:" + key in before && !before["acl:" + key].AclV?))
            && (r.Ok? ==>
                  var after := r.value.At(Secrets);
                  && (MayRead(after, key, id) <==> grant)
                  && (forall k, i :: (k, i) != (key, id) ==> (MayRead(after, k, i) <==> MayRead(before, k, i)))
                  && (forall k :: k != "acl:" + key ==>
                        (k in after <==> k in before) && (k in before ==> after[k] == before[k])))
  {
    var cmd := if grant then GrantSecretAccess(key, id) else RevokeSecretAccess(key, id);
    var before := s.At(Secrets);
    BatchOfReaders(spiffe, Reads(s), cmd);
    FailsWithBatch(spiffe, s, cmd);
    AclFails(spiffe, before, key, id, grant);
    hide Step, AclBatch, MayRead, Batch;
    if Step(spiffe, s, cmd).Ok? {
      var batch := AclBatch(spiffe, before, key, id, grant).value;
      AclAfter(spiffe, before, key, id, grant, batch);
      assert batch == [batch[0]];
      OneOp(spiffe, s, cmd, batch[0]);
      var after := before["acl:" + key := batch[0].value];
      forall k, i | k != key
        ensures MayRead(after, k, i) <==> MayRead(before, k, i)
      {
        OtherAcl(before, key, batch[0].value, k, i);
      }
    }
  }

  lemma AclFails(spiffe: string -> bool, before: Table, key: string, id: string, grant: bool)
    ensures AclBatch(spiffe, before, key, id, grant).Err?
            <==> !spiffe(id) || ("acl:" + key in before && !before["acl:" + key].AclV?)
  {
  }

  lemma OtherAcl(before: Table, key: string, v: Value, k: string, i: string)
    requires k != key
    ensures MayRead(before["acl:" + key := v], k, i) <==> MayRead(before, k, i)
  {
    AclKeyInjective(k, key);
  }

  lemma AclAfter(spiffe: string -> bool, before: Table, key: string, id: string, grant: bool, batch: seq<Op>)
    requires AclBatch(spiffe, before, key, id, grant) == Ok(batch)
    ensures |batch| == 1 && batch[0].Put? && batch[0].ks == Secrets && batch[0].key == "acl:" + key
    ensures var after := before["acl:" + key := batch[0].value];
            && (MayRead(after, key, id) <==> grant)
            && forall i :: i != id ==> (MayRead(after, key, i) <==> MayRead(before, key, i))
  {
    var acl := if "acl:" + key in before then before["acl:" + key].acl else map[];
    var members := if key in acl then acl[key] else {};
    forall i | i != id
      ensures MayRead(before["acl:" + key := batch[0].value], key, i) <==> MayRead(before, key, i)
    {
      assert i in members <==> i in members - {id};
    }
  }

  /** Storing a secret stores its envelope and its access list, and nothing else. */
  lemma SecretIsStored(spiffe: string -> bool, s: Store, key: string, envelope: string, acl: map<string, set<string>>)
    ensures Step(spiffe, s, StoreSecret(key, envelope, acl)).Ok?
    ensures Step(spiffe, s, StoreSecret(key, envelope, acl)).value.At(Secrets)
         == s.At(Secrets)["secret:" + key := Blob(envelope)]["acl:" + key := AclV(acl)]
  {
    hide Commit;
    CommitPair(s, Put(Secrets, "secret:" + key, Blob(envelope)), Put(Secrets, "acl:" + key, AclV(acl)));
  }

  // ----- endorsement keys -----

  /** Activating a known key joins it to the node, revoking it keeps its node; an unknown key is left alone, and a
  record that cannot be read is an error. */
  lemma KeysChangeState(spiffe: string -> bool, s: Store, fingerprint: string, n: string, activate: bool)
    ensures var cmd := if activate then ActivateNodeEk(fingerprint, n) else RevokeNodeEk(fingerprint);
            var eks, r := s.At(NodeEks), Step(spiffe, s, cmd);
            && (r.Err? <==> fingerprint in eks && !eks[fingerprint].EkV?)
            && (fingerprint !in eks ==> r.Ok? && r.value.At(NodeEks) == eks)
            && (fingerprint in eks && eks[fingerprint].EkV? ==>
                  var ek := eks[fingerprint].ek;
                  r.Ok? && r.value.At(NodeEks)
                           == eks[fingerprint := EkV(if activate then ek.(state := Joined, nodeId := n)
                                                     else ek.(state := EkRevoked))])
  {
    var eks, cmd := s.At(NodeEks), if activate then ActivateNodeEk(fingerprint, n) else RevokeNodeEk(fingerprint);
    BatchOfReaders(spiffe, Reads(s), cmd);
    FailsWithBatch(spiffe, s, cmd);
    hide Step, Batch;
    if fingerprint in eks && eks[fingerprint].EkV? {
      var ek := eks[fingerprint].ek;
      OneOp(spiffe, s, cmd, Put(NodeEks, fingerprint, EkV(if activate then ek.(state := Joined, nodeId := n)
                                                          else ek.(state := EkRevoked))));
    } else if fingerprint !in eks {
      NoOps(spiffe, s, cmd);
    }
  }
}
