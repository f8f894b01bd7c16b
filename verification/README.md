# fleetos-control, modelled in Dafny

fleetos-control is the control plane of a small fleet: a Raft-replicated state machine over a
key-value store, and the controllers that decide what to propose to it. This project models the state
machine, its snapshots and its log storage, and the decision procedures that feed it (autoscaling,
disruption budgets and node drains, scheduling, preemption, taints, dummy service addresses, cron,
manifest merging, delegation identifiers), and proves what they keep over whole runs.

How the model reads:

- A store is one table per keyspace. A command is a function from committed tables to an ordered batch of
  puts and deletes (`Commands.Batch`); commands read committed state, never the batch being built.
- Strings are their UTF-8 bytes, one character per byte, so order and prefix tests are bytewise.
- Encoded records are the values they decode to; a field of type `Option`, or a value of another shape under
  a key, stands for bytes that do not decode. Encoding and decoding, and printing and parsing of SPIFFE ids,
  are taken to round-trip; whether a string is a SPIFFE id is the parameter `spiffe`, whether a tenant and
  role can be typed is the parameter `typed`.
- Clocks, metric averages, cron calendars and the success of a proposal are parameters. Outside
  `Passes`, `Swaps` and `Reconcile`, a proposal is applied to the state it was computed from.
- Code that updates things in place is a class or a method with loops, proved against the specification
  functions the theorems are about; the machine's methods call their error path `Err`.
- The modules import each other roughly in this order: `Bytes`, `Arithmetic`, `Decimal`, `Sums`, `Sorting`,
  `Keys`, `Records`, `Storage`, `Commands`, `Manifests`, `StoredRecords`, `Readiness`, `Machine`, `StateMachine`,
  `Replication`, `Snapshots`, `Audit`, `AppliedState`, `LogStore`, `Delegations`, `DummyIp`, `AddressPlan`, `Hpa`,
  `Apportion`, `PlacementTable`, `Disruption`, `Drain`, `NodeEviction`, `Svids`, `Autoscaler`, `Taints`, `Cluster`,
  `Scheduler`, `Scores`, `Preemption`, `TableSums`, `PlacementRuns`, `PreemptionBudgets`, `Budgets`, `EvictedNodes`,
  `CordonedNodes`, `TaintedNodes`, `TableKeys`, `Removals`, `Reductions`, `Slots`, `Pods`, `Passes`, `Swaps`,
  `Reconcile`, `PassExamples`, `NameExamples`, `Cron`, `Merge`, `DelegationId`.

Results that correct a plausible belief about the code:

- The version counter is not reloaded when a snapshot is installed. The persisted version of a replica that
  resumes from a snapshot matches a straight replay exactly when its counter already stood there
  (`Snapshots.VersionAgreesIff`), and its audit log does exactly when its counter stood there or no command
  follows (`Audit.AuditAgreesIff`); otherwise commands are filed under the versions of others
  (`Audit.FreshReplicaOverwritesAudit`).
- Deleting a tenant does not free its address block, so its name cannot be allocated again
  (`AddressPlan.DeletedTenantStaysAllocated`).
- Delegation keys are unambiguous because node ids are short: another node's scan finds a node's delegations
  exactly when its id is longer than the u16 length field can say (`Keys.DelegationPrefixCollides`).
- A reconciliation pass takes one view for all its pods and preemptions, so it can overfill a node
  (`PassExamples.PassCanOverfill`) and put siblings together (`PassExamples.PassCanJoinSiblings`), and
  preemption does not check anti-affinity at all (`PassExamples.PreemptionCanBreakSpread`). Exactly when a pass
  keeps both is told from the state before its first command, whatever pods share names
  (`Reconcile.ReconcileKeepsCapacityIff`, `Reconcile.ReconcileKeepsSpreadIff`).
- Pod names leave out the tenant, so committing a pod can replace the placement of another tenant's pod
  (`PassExamples.CommitCanDisplaceTenant`). It does so exactly when a stored pod has the name
  (`Pods.CommitKeepsOthersIff`), and names meet exactly when a hyphen divides the same text
  (`Pods.NamesCollideIff`).
- For the same reason a pass can lose a pod it has just placed, to a later pod of the same name
  (`NameExamples.PassCanLosePod`) or as the victim of a later preemption (`NameExamples.PassCanRemoveOwnPod`). It
  keeps all its pods exactly when no later decision stores or evicts one of their names
  (`Reconcile.ReconcileKeepsItsPodsIff`).
- Preemption does not ask the disruption guard, so it can take a role below its minimum
  (`NameExamples.PreemptionCanBreakBudget`). It leaves the minimum exactly when the guard would have allowed the
  loss (`PreemptionBudgets.PreemptionKeepsBudgetIff`).
- A pass only knows the priorities of its own specs: a pod of any other workload ranks 0, and is evictable for
  every pod of positive priority (`Pods.StrangersAreEvictableIff`).
- A comment in the reconciliation pass says freed slots fall through to scheduling; the code skips every slot
  that has a record, and records are never deleted, so a freed slot is not scheduled again
  (`Slots.RecordedSlotIsNeverPending`), although a partial drain removes pods for that purpose
  (`Slots.DrainedSlotIsNeverPending`).
- A delegation identifier parses back exactly when neither id contains the separator
  (`DelegationId.RoundTrip`, `DelegationId.SeparatorCollides`).

## Model

| member | source | states |
|---|---|---|
| `StateMachine.StateMachine.ApplyCommand` | src/raft/state_machine.rs:55-920 | the loops of `apply_command` build exactly the batch the specification gives for the command, error cases included |
| `StateMachine.StateMachine.ApplyDelete` | src/raft/state_machine.rs:93-131 | deleting a workload: collect its placements, then remove each and free its slot, after the spec itself |
| `StateMachine.StateMachine.ApplyScale` | src/raft/state_machine.rs:133-193 | scaling: store the spec, remove every placement of a dropped role or at or beyond the new count, free the slots |
| `StateMachine.StateMachine.ApplyEviction` | src/raft/state_machine.rs:541-627 | eviction: mark the node, revoke its delegations, remove its placements, revoke its SVID, in one batch |
| `StateMachine.StateMachine.ApplyReassign` | src/raft/state_machine.rs:830-888 | replacing a pod: find the placement of the slot and move it to the new pod id |
| `StateMachine.StateMachine.ApplyOne` | src/raft/state_machine.rs:1132-1218 | one entry is one batch and one version; an entry that fails changes nothing |
| `StateMachine.StateMachine.Apply` | src/raft/state_machine.rs:1125-1221 | a call applies its entries in order up to the first failure and answers with consecutive versions |
| `StateMachine.StateMachine.BuildSnapshot` | src/raft/snapshot.rs:54-71 | the snapshot holds every pair of every snapshotted keyspace |
| `StateMachine.StateMachine.InstallSnapshot` | src/raft/state_machine.rs:1233-1297 | installing clears the snapshotted keyspaces, writes the snapshot, keeps it with its metadata for `get_current_snapshot`, and commits once |
| `Commands.BatchPermitted` | src/raft/state_machine.rs:55-920 | every command writes only the keyspaces it is entitled to |
| `Commands.StepFrame` | src/raft/state_machine.rs:55-920 | every keyspace a command is not entitled to write is left exactly as it was |
| `Commands.ApplierContained` | src/raft/state_machine.rs:55-920 | so `apply_command` meets the one assumption the version and audit results make of it |
| `StoredRecords.TenantRecords` | src/raft/state_machine.rs:62-83 | creating a tenant stores its record and its block, deleting one removes the record, each under the tenant and nothing else in the table |
| `StoredRecords.WorkloadRecords` | src/raft/state_machine.rs:86-224 | specs, resizings, recommendations, quotas, cron workloads and their runs are stored under their tenant and name, a cron workload or run with its checkpoint |
| `StoredRecords.NodeRecords` | src/raft/state_machine.rs:226-469 | join tokens, measurement policies, registrations, control addresses and endorsement keys are stored under what the record names, a consumed token is removed |
| `StoredRecords.PolicyRecords` | src/raft/state_machine.rs:236-903 | rules, pools and issued identities are stored under their ids and removed by them |
| `StoredRecords.GrantRecords` | src/raft/state_machine.rs:905-920 | operator grants are stored under their ids and removed by them |
| `StoredRecords.PlacementRecords` | src/raft/state_machine.rs:651-828 | delegations, slots, placements, blocks and addresses are stored under the keys their fields give, a removed placement is gone |
| `StoredRecords.HeartbeatSetsTime` | src/raft/state_machine.rs:513-539 | a heartbeat sets the time of a known node and nothing else, does nothing for an unknown one and fails exactly on an unreadable record |
| `StoredRecords.AccessChangesExactly` | src/raft/state_machine.rs:749-805 | granting and revoking changes exactly what one identity may do with one secret, and fails exactly on an unreadable list or an identity that is none |
| `StoredRecords.SecretIsStored` | src/raft/state_machine.rs:728-747 | storing a secret stores its envelope and its access list and touches no other secret |
| `StoredRecords.KeysChangeState` | src/raft/state_machine.rs:259-367 | activating a known endorsement key joins it to the node, revoking it keeps its node, an unknown key is left alone |
| `Manifests.LastUpdateWins` | src/raft/state_machine.rs:328-347 | applied manifests leave under every key of every table the value of the last update for it, what was there when no update is for it, and skip unknown tables |
| `Readiness.ViolationIsDated` | src/raft/state_machine.rs:406-434 | after any reports of a pod what is stored is the last one, dated with the first report of the unbroken stretch of gate violations it ends, and undated when it is no violation |
| `AppliedState.AppliedStateTracks` | src/raft/state_machine.rs:1098-1204 | after a log `applied_state` is the id of its last entry and the last membership in it, or the one from before |
| `Replication.ApplyEntryAgree` | src/raft/state_machine.rs:1125-1221 | two machines that agree on replicated state, whatever their version counters, agree on whether an entry applies and on the state after it |
| `Replication.ReplayAgree` | src/raft/state_machine.rs:1125-1221 | replicated state after a log depends only on replicated state before it and the log |
| `Replication.SplitReplay` | src/raft/state_machine.rs:1125-1221 | any split of a log into `apply` calls gives the same machine as one call |
| `Replication.FailureStops` | src/raft/state_machine.rs:1125-1221 | the first entry that fails stops a call at the machine the entries before it left, whatever follows |
| `Snapshots.SnapshotListComplete` | src/storage/mod.rs:189-226 | the snapshot list names exactly the snapshotted keyspaces |
| `Snapshots.InstallRestores` | src/raft/state_machine.rs:1233-1297 | installing a snapshot over any replica reproduces every snapshotted table, keeps the snapshot and its metadata, and touches nothing else |
| `Snapshots.SnapshotReplay` | src/raft/state_machine.rs:1125-1297 | a snapshot of any prefix, installed over any replica and followed by the rest of the log, agrees with one straight replay on all replicated state, failures included |
| `Snapshots.InstalledIsCurrent` | src/raft/state_machine.rs:1274-1326 | the current snapshot is the one installed last |
| `Snapshots.SnapshotStaysCurrent` | src/raft/state_machine.rs:1125-1326 | applying any log leaves the current snapshot as it was |
| `Snapshots.VersionTracks` | src/storage/version.rs:59-62 | the persisted version after a log is the counter at its start plus its length |
| `Snapshots.VersionAgreesIff` | src/raft/state_machine.rs:1181-1297 | after resuming from a snapshot the persisted version agrees with a straight replay if and only if the replica's counter already stood at the snapshot's version |
| `Audit.AuditStep` | src/raft/state_machine.rs:1187-1204 | every command leaves one audit record, with its action and author, under its own version, and no other entry leaves any |
| `Audit.AuditTracks` | src/raft/state_machine.rs:1181-1204 | the audit log after a log of entries is the one before with each command filed under the counter it ran at |
| `Audit.EveryCommandIsAudited` | src/raft/state_machine.rs:1181-1204 | after a whole log each of its commands has its record: its position as the version, the caller or the system as its author, and what was asked |
| `Audit.AuditStaysWithin` | src/raft/state_machine.rs:1181-1204 | audit keys never exceed the counter, in every run from a machine where they do not |
| `Audit.AuditAgreesIff` | src/raft/state_machine.rs:1181-1297 | after resuming from a snapshot the audit log agrees with a straight replay if and only if the replica's counter stood at the snapshot's version or no command follows |
| `Audit.AuditReplayIff` | src/raft/state_machine.rs:1125-1297 | for a fleet that started fresh, if and only if the replica's counter is the length of the log in the snapshot or no command follows |
| `Audit.FreshReplicaOverwritesAudit` | src/raft/state_machine.rs:1181-1297 | a fresh replica that installs the snapshot of one command and applies the next files the second under the first's key |
| `Keys.DelegationPrefixExact` | src/storage/schema.rs:17-37 | the scan prefix of one node is a prefix of another node's delegation key only if the nodes are the same |
| `Keys.DelegationKeyInjective` | src/storage/schema.rs:17-26 | distinct (node, delegation) pairs have distinct keys |
| `Keys.NodePrefixLenRecovers` | src/storage/schema.rs:40-46 | the prefix length read back from a key is the length of its node's prefix |
| `Keys.DelegationPrefixCollides` | src/storage/schema.rs:17-37 | the scan of some other node finds a node's delegation if and only if the node id is longer than the u16 length field can say |
| `Keys.WorkloadKeyInjective` | src/raft/state_machine.rs:86-91 | tenant and workload are recovered from a workload key when the tenant has no colon |
| `Keys.CronKeyIsNotWorkloadKey` | src/raft/state_machine.rs:86-382 | a cron workload is never stored where a workload is |
| `Keys.CronKeyInjective` | src/raft/state_machine.rs:369-382 | tenant and cron workload are recovered from a cron key when the tenant has no colon |
| `Keys.IdentifierHasNoColon` | src/admin/service.rs:52-71 | identifiers the admin service admits contain no key separator |
| `Keys.IdentifierIsHostLabel` | src/admin/service.rs:49-71 | the identifiers admitted are exactly the host labels of at most 63 bytes, by the grammar of section 2.3.1 of RFC 1035 with the leading digit of section 2.1 of RFC 1123 |
| `Keys.U64BeOrder` | src/raft/store.rs:39-41 | byte order of big-endian keys is numeric order |
| `Delegations.ScanIsExact` | src/raft/state_machine.rs:576-597 | the prefix scan of an eviction finds exactly the node's delegations |
| `Delegations.EvictMovesExactly` | src/raft/state_machine.rs:576-597 | an eviction moves exactly the node's delegations from active to revoked and touches no other |
| `Delegations.RevokeMoves` | src/raft/state_machine.rs:661-681 | a revocation moves the one delegation if it is active and otherwise does nothing |
| `Delegations.StepKeepsDelegations` | src/raft/state_machine.rs:55-920 | every command keeps delegations well keyed and every key in active or revoked |
| `Delegations.DelegationsNeverLost` | src/raft/state_machine.rs:651-681 | in every run no delegation key disappears from active and revoked together, and no revoked key is ever removed |
| `Delegations.EvictedNodeHoldsNothing` | src/raft/state_machine.rs:541-681 | after an eviction, until a delegation is issued to the node again, it has none active and all it had stay revoked |
| `TableKeys.ReassignKeepsSlots` | src/raft/state_machine.rs:830-888 | replacing a pod leaves the slot exactly one holder, the new pod on the same node with the same resources, and every other pod's placement as it was |
| `TableKeys.DeletePrunes` | src/raft/state_machine.rs:93-131 | deleting a workload removes exactly its placements |
| `Removals.DeleteRemoves` | src/raft/state_machine.rs:93-131 | deleting a workload removes its spec and exactly the placements of its tenant and name, and frees the slot of each |
| `Removals.ScaleRemoves` | src/raft/state_machine.rs:133-193 | scaling stores the spec, removes exactly the placements of dropped roles or at or beyond the new counts, all of them when the spec does not decode, and frees the slot of each |
| `Removals.EvictLeaves` | src/raft/state_machine.rs:541-613 | evicting removes exactly the placements on the node and closes it; the rest of its record stays, an unknown node has no capacity, other nodes are untouched |
| `Removals.ReassignMoves` | src/raft/state_machine.rs:830-888 | replacing the pod of a slot moves its placement to the new name on the node it was on and records both on the slot; where nothing is placed in the slot nothing changes |
| `TableKeys.RunKeepsKeysIff` | src/raft/state_machine.rs:55-920 | in a run of any commands placements stay stored under their pod ids, and nodes under their node ids, at every state if and only if no manifest in it leaves a placement under another key |
| `TableKeys.EmptyIsKeyed` | src/storage/mod.rs:31-60 | a fresh store meets the keying that every run keeps |
| `LogStore.ByteRangeIsIndexRange` | src/raft/store.rs:39-52 | a range of byte keys holds exactly the keys of the index range it was made from |
| `LogStore.FjallLog.TryGetLogEntries` | src/raft/store.rs:35-63 | a bounded read returns exactly the entries of the index range, in ascending order |
| `LogStore.FjallLog.GetLogState` | src/raft/store.rs:81-112 | the watermark, and for a log that is not empty the id of its highest entry |
| `LogStore.FjallLog.Append` | src/raft/store.rs:150-174 | the byte-keyed log still represents the index-keyed log with the entries added |
| `LogStore.FjallLog.Truncate` | src/raft/store.rs:176-195 | exactly the entries from the given index on are gone |
| `LogStore.FjallLog.Purge` | src/raft/store.rs:197-222 | exactly the entries up to the given index are gone and the watermark stands there |
| `LogStore.LogStaysContiguous` | src/raft/store.rs:150-222 | in every run of consecutive appends, truncations and purges the indices stay contiguous above the watermark |
| `LogStore.SuffixIsReplaced` | src/raft/store.rs:150-195 | truncating and appending replaces a suffix: below the cut nothing changes, from it on the log is what was appended and nothing old is left |
| `LogStore.HighestIsEnd` | src/raft/store.rs:81-112 | the highest entry of a contiguous log is the one just below where the next append continues |
| `DummyIp.BlocksTile` | src/dummy_ip/allocator.rs:78-97 | the blocks of a prefix tile 240.0.0.0/4, the Class E space of section 4 of RFC 1112: every address lies in exactly one block |
| `DummyIp.BaseInRange` | src/dummy_ip/allocator.rs:94-97 | no u32 step of a block base wraps, and every block lies inside the space |
| `DummyIp.IndexRecovers` | src/dummy_ip/allocator.rs:100-118 | the index recovered from a base is the one it was built from |
| `DummyIp.BlocksDisjoint` | src/dummy_ip/allocator.rs:94-97 | blocks with different bases do not overlap |
| `DummyIp.UsedBlockIndices` | src/dummy_ip/allocator.rs:100-118 | the loop collects the indices of exactly the stored blocks |
| `DummyIp.ComputeTenantBlock` | src/dummy_ip/allocator.rs:124-142 | the lowest free block, and exhaustion exactly when the tenant is new and all indices are used |
| `DummyIp.ServiceAddressMeans` | src/dummy_ip/allocator.rs:148-172 | an address is refused exactly without a block or, for a new role, when every offset below the block size is taken; a known role keeps its address, a new one gets the next offset |
| `AddressPlan.BlocksPairwiseDisjoint` | src/dummy_ip/allocator.rs:78-142 | stored tenant blocks are pairwise disjoint and inside the space |
| `AddressPlan.TriplesHaveOwnAddress` | src/dummy_ip/allocator.rs:148-172 | distinct (tenant, service, role) triples have distinct addresses inside the space |
| `AddressPlan.TenantAllocationKeepsPlan` | src/dummy_ip/allocator.rs:124-142 | storing a freshly computed block keeps the plan |
| `AddressPlan.AddressAllocationKeepsPlan` | src/dummy_ip/allocator.rs:148-172 | storing a freshly computed address and its bumped block keeps the plan: addresses inside their tenant's block, below its next offset |
| `AddressPlan.TenantBlockMeans` | src/dummy_ip/allocator.rs:124-142 | a tenant without a block gets one exactly when some block of the space is free, and then the lowest |
| `AddressPlan.CreateMeans` | src/raft/state_machine.rs:62-78 | a tenant is created exactly when its name is an admitted identifier no tenant has, it never had a block and one is free; otherwise nothing changes |
| `AddressPlan.AllocateMeans` | src/raft/state_machine.rs:704-726 | a role is given an address exactly when it has none and its tenant's block has an offset left, and then the next; otherwise nothing changes |
| `AddressPlan.PlanHoldsForever` | src/raft/state_machine.rs:62-83 | over every run of tenant creations and deletions, block and address allocations and other commands the plan holds and nothing allocated moves |
| `AddressPlan.DeletedTenantStaysAllocated` | src/raft/state_machine.rs:80-83 | a tenant that ever had a block is refused another after every run of any commands, deleted or not, because it has one or because what is stored no longer decodes |
| `Hpa.DesiredForMetricIsLeast` | src/controllers/hpa_controller.rs:111-125 | one metric's count is the least in range that carries its load, or the maximum |
| `Hpa.ComputeDesiredTotal` | src/controllers/hpa_controller.rs:131-146 | the loop computes the largest desired count over the active metrics |
| `Hpa.DesiredTotalIsLeast` | src/controllers/hpa_controller.rs:131-146 | the total is the least in range that suffices for every active metric, the maximum if none does, and absent exactly when stopped or without active metrics |
| `Hpa.DesiredTotalOrderIndependent` | src/controllers/hpa_controller.rs:131-146 | order and repetition of metrics do not matter |
| `Hpa.RescalingAsksForNoMore` | src/controllers/hpa_controller.rs:111-146 | re-evaluating after scaling, with the load unchanged or lower, never asks for more |
| `Hpa.DeadbandMeans` | src/controllers/hpa_controller.rs:148-160 | within the deadband means within a tenth of the current total |
| `Apportion.DistributeReplicas` | src/controllers/hpa_controller.rs:165-206 | the largest-remainder loop meets the apportionment promise whenever the current total is positive |
| `Apportion.TotalAdds` | src/controllers/hpa_controller.rs:339-344 | the current total is the sum over the roles |
| `Apportion.ApportionedMeans` | src/controllers/hpa_controller.rs:162-206 | the promise in numbers: the counts add up, each is less than one off its exact share, and the shares rounded up have the largest remainders, ties by role name |
| `Apportion.ApportionedUnique` | src/controllers/hpa_controller.rs:165-206 | the promise (exact total, floor or ceiling of each share, remainders in order) has one solution |
| `Apportion.ApportionedMonotone` | src/controllers/hpa_controller.rs:165-206 | scaling down never raises a role, scaling up never lowers one, a role at zero stays there |
| `Autoscaler.DecisionCarriesLoad` | src/controllers/hpa_controller.rs:285-368 | a decision asks for the least total within the policy that carries the load of every targeted metric, or for the maximum |
| `Autoscaler.DecisionIsLeastInPolicy` | src/controllers/hpa_controller.rs:285-368 | in the policy's own fields: an evaluation decides exactly when the policy is enabled with a range and a target and there is load and a replica, and asks for the least total from the policy's minimum, but at least 1, that carries the load, or for its maximum |
| `Autoscaler.PressureMeans` | src/controllers/hpa_controller.rs:366-377 | pressure is down below nine tenths of the current total and up above eleven tenths |
| `Autoscaler.ProposalChangesReplicas` | src/controllers/hpa_controller.rs:431-447 | a proposal changes nothing of the record but the replica counts, which add up to the desired total, and the applied manifest, which it clears |
| `Autoscaler.HpaController.EvaluateWorkload` | src/controllers/hpa_controller.rs:265-429 | when an evaluation decides, what it does to the markers, and that it proposes exactly when the pressure is up, or down for the whole window with every shrunk role allowed; a proposal apportions the desired total |
| `Autoscaler.GuardShrunkRoles` | src/controllers/hpa_controller.rs:387-419 | consent exactly when every shrunk role can be typed and the guard allows its loss |
| `Autoscaler.MarkerMeans` | src/controllers/hpa_controller.rs:370-386 | a marker records the start of a stretch of evaluations that all saw scale-down pressure |
| `Autoscaler.ScaleDownWasSustained` | src/controllers/hpa_controller.rs:370-428 | a scale-down was preceded, a window earlier, by pressure that every evaluation since has seen |
| `Autoscaler.ScaleDownsAreSpaced` | src/controllers/hpa_controller.rs:370-428 | with a monotone clock scale-downs of a workload are at least a window apart |
| `Autoscaler.AutoscalerKeepsBudget` | src/controllers/hpa_controller.rs:377-421 | an approved scale-down, applied, leaves every shrunk role at least its minimum and every other role as it was |
| `Autoscaler.ScaleUpRemovesNothing` | src/controllers/hpa_controller.rs:424-428 | scaling up removes no placement, which is why it may skip the guard |
| `Disruption.MinAvailableIsLeast` | src/disruption/mod.rs:185-215 | a minimum-available value resolves to the least count that meets it, and only a percentage above 100 does not resolve |
| `Disruption.MaxUnavailableIsGreatest` | src/disruption/mod.rs:185-215 | a maximum-unavailable value resolves so that the pods that may go are as many as it allows |
| `Disruption.PercentDuality` | src/disruption/mod.rs:185-215 | losing at most p percent is keeping at least 100 - p percent, rounding included |
| `Budgets.MinimumMeans` | src/disruption/mod.rs:185-215 | a role has a minimum exactly when its budget has a value that can be met, and the counts at or above it are exactly those that honour the declared value at the replicas asked for |
| `Budgets.GuardMeans` | src/disruption/mod.rs:121-183 | the guard allows a loss exactly when nothing is known of the workload, or its spec can be read and the role has no budget or what is left honours it |
| `Budgets.EvictionIsAcceptedIff` | src/admin/service.rs:1413-1446 | a node may be emptied exactly when, for every pod on it, the role can be typed and the loss of its pods there honours the declared budget |
| `Budgets.EvictNodeHonoursBudgets` | src/admin/service.rs:1398-1515 | however a non-forced eviction ends and wherever it stops, a budgeted role has lost nothing or what is left honours the value its spec declares |
| `Budgets.DrainStopsAtBudget` | src/admin/service.rs:1448-1496 | a role that was denied keeps all its pods if they did not honour its budget, and otherwise is left with so many that one fewer would break it |
| `Budgets.ScaleDownHonoursBudgets` | src/raft/state_machine.rs:133-193 | a scale-down whose losses the declared budgets admit leaves every shrunk role honouring its budget and every other role as it was |
| `Budgets.ShrinkIsWarrantedIff` | src/controllers/hpa_controller.rs:370-421 | a scale-down is proposed exactly when the pressure has lasted the window and every shrunk role can be typed and may lose what it would |
| `Budgets.PreemptionHonoursBudgetIff` | src/controllers/workload_controller.rs:243-293 | a preemption leaves another role honouring its declared budget if and only if the loss of the victims and of the name it takes was admitted by it |
| `Disruption.ScaleDownKeepsBudget` | src/raft/state_machine.rs:133-193 | a scale-down the guard approved leaves every shrunk role its minimum and every other role as it was |
| `PlacementTable.ScalePrunes` | src/raft/state_machine.rs:133-193 | scaling removes exactly the placements of dropped roles or beyond the new counts |
| `Disruption.ScaleLeavesBelowCounts` | src/raft/state_machine.rs:133-193 | after a scale every placement of the workload is in a kept role and below its new count |
| `PlacementTable.EvictRemoves` | src/raft/state_machine.rs:598-613 | eviction removes exactly the node's placements |
| `PlacementTable.DropOpsFree` | src/raft/state_machine.rs:112-129 | removing placements of a workload frees exactly the slots they held |
| `Drain.GroupPlacements` | src/admin/service.rs:1404-1411 | the node's placements grouped by (tenant, workload, role), in scan order |
| `Drain.PlanDrain` | src/admin/service.rs:1413-1446 | whether the guard allows every group, and otherwise victims of exactly each group's allowance, all stored on the node |
| `NodeEviction.EvictNodeCommands` | src/admin/service.rs:1382-1516 | which commands `evict_node` proposes: full eviction when forced or allowed throughout, otherwise cordon and partial drain, nothing for a malformed node id |
| `NodeEviction.PartialDrainKeepsBudget` | src/admin/service.rs:1448-1496 | after every accepted prefix of a partial drain each budgeted group has at least the lesser of what it had and its minimum; a group denied at or above its minimum ends at exactly the minimum |
| `NodeEviction.EvictionKeepsBudget` | src/admin/service.rs:1498-1515 | a full eviction allowed by the guard leaves every budgeted group at least the lesser of what it had and its minimum |
| `NodeEviction.EvictNodeKeepsBudgets` | src/admin/service.rs:1398-1515 | however a non-forced eviction ends, and wherever its proposals stop, every budgeted group keeps at least the lesser of what it had and its minimum |
| `Taints.DrivesOut` | src/scheduler/taints.rs:90-111 | a taint drives a pod out exactly when every toleration that matches it is positive and elapsed |
| `Taints.PlanEvictions` | src/scheduler/taints.rs:74-117 | sorted and without duplicates, exactly the pods with a NoExecute taint that is not or no longer tolerated |
| `Taints.LeavingIsMonotone` | src/scheduler/taints.rs:74-117 | a pod that must leave must leave later too |
| `Taints.LeavingIsAntitone` | src/scheduler/taints.rs:74-117 | adding tolerations drives out no further pod |
| `Taints.AdmittedPodsLeaveOnlyByGrace` | src/scheduler/taints.rs:52-117 | a pod the scheduling filter admits is driven out only by a grace that ran out |
| `Taints.OthersDoNotHelp` | src/scheduler/taints.rs:27-117 | tolerations of another key or another effect neither let a pod onto a node nor keep it there |
| `Taints.WildcardKeeps` | src/scheduler/taints.rs:27-117 | a toleration that exists for every key and effect, without a grace, admits a pod everywhere and keeps it |
| `Taints.OneTolerationHelpsIff` | src/scheduler/taints.rs:27-117 | one toleration admits and keeps a pod exactly when its effect is empty or the taint's and it exists for the key or for all keys, or equals key and value; any other operator never |
| `Taints.GraceKeepsUntil` | src/scheduler/taints.rs:90-111 | a grace keeps a pod exactly until it has passed since the taint was added |
| `Taints.OtherEffectsAreSoft` | src/scheduler/taints.rs:52-117 | only NoSchedule and NoExecute taints keep pods off, and only NoExecute taints drive them out |
| `TaintedNodes.TaintsAreSet` | src/raft/state_machine.rs:284-295 | setting taints replaces exactly the node's, and no taints is no row |
| `TaintedNodes.TaintIsRemoved` | src/raft/state_machine.rs:297-326 | removing a taint filters the node's taints and no other row, and fails exactly on an unreadable one |
| `TaintedNodes.UntaintedConcat` | src/raft/state_machine.rs:297-326 | the filter works taint by taint, in place |
| `TaintedNodes.UntaintedOne` | src/raft/state_machine.rs:297-326 | it takes away a taint exactly when key and effect are the given ones |
| `TaintedNodes.TaintedNodeTurnsAway` | src/scheduler/mod.rs:164-202 | from the setting of a node's taints until they are changed, whatever else is applied, a pod that tolerates none of the taint's key and effect is put there neither by scheduling nor by preemption |
| `Cluster.CountPlacements` | src/scheduler/mod.rs:179-186 | the loop totals exactly the resources and pods placed on a node |
| `Cluster.Build` | src/scheduler/mod.rs:164-202 | the view: each record whose id parses, with its remaining resources and whether it is active and schedulable |
| `Cluster.BuildOrderIndependent` | src/scheduler/mod.rs:164-202 | listing records or placements in another order gives the same view |
| `Scheduler.FilterNodes` | src/scheduler/engine.rs:49-74 | the candidates are exactly the nodes that are schedulable, large enough, far enough from siblings and tolerated |
| `Scheduler.ScoreNodes` | src/scheduler/engine.rs:77-117 | every candidate with its rank, best first, ties by node id |
| `Scheduler.Schedule` | src/scheduler/engine.rs:121-157 | the best candidate, and none exactly when no node passes the filters |
| `Scheduler.ScoresInRange` | src/scheduler/topology.rs:34-85 | topology and bin-packing scores lie between 0 and 1 |
| `Scores.TenantScoreMeans` | src/scheduler/topology.rs:42-64 | the tenant score is full up to the tenant's even share, none from twice the share and one on, and falls linearly between |
| `Scores.PodScoreMeans` | src/scheduler/topology.rs:66-77 | the pod score is the share of the fullest node's pods a node has not got |
| `Scores.TopologyMeans` | src/scheduler/topology.rs:34-85 | the topology score is the weighted mean of the two, over the tenant's placements on the node and in the fleet |
| `Scores.DefaultWeights` | src/scheduler/topology.rs:21-28 | by default the tenant counts twice as much as the pods |
| `Scores.UtilizationMeans` | src/scheduler/binpack.rs:30-72 | utilization is the share of the capacity in use once the pod is there |
| `Scores.BinpackMeans` | src/scheduler/binpack.rs:30-72 | packing averages both resources, counting up or down by strategy |
| `Scores.PenaltiesConcat` | src/scheduler/taints.rs:61-68 | soft taints are counted one by one |
| `Scores.SoftTaintCosts` | src/scheduler/engine.rs:77-104 | each untolerated PreferNoSchedule taint lowers a node's rank by 250 and every other taint leaves it |
| `Scores.SpreadDecides` | src/scheduler/engine.rs:77-117 | spread less penalty decides as soon as it differs by more than a thousandth, and bin packing decides between equals |
| `Scores.LowerStandingIsNotBest` | src/scheduler/engine.rs:77-157 | a candidate whose spread less penalty is lower by more than a thousandth is not chosen |
| `Scheduler.BestIsUnique` | src/scheduler/engine.rs:105-117 | there is one best candidate |
| `Scheduler.ChoiceIsOrderIndependent` | src/scheduler/engine.rs:49-157 | the chosen node does not depend on the order in which nodes and placements are listed |
| `Scheduler.RefusalIsOrderIndependent` | src/scheduler/engine.rs:121-134 | whether any node passes the filters does not depend on the order either |
| `Scheduler.DecisionIsOrderIndependent` | src/controllers/workload_controller.rs:330-354 | from the stored records and placements, listed in any order, the same node is chosen |
| `Preemption.Greedy` | src/controllers/workload_controller.rs:427-438 | the victims are the shortest prefix of the candidates that makes room, and none exactly when no prefix does |
| `Preemption.FindPreemptionPlan` | src/controllers/workload_controller.rs:404-458 | the plan is the cheapest of the nodes' greedy plans by (victim count, priority sum, node id), and none exactly when no node has one |
| `Preemption.CheapestIsLexicographicallyLeast` | src/controllers/workload_controller.rs:443-455 | the chosen plan has the fewest victims, among those the lowest priority sum, among those the lowest node id |
| `Preemption.CostConcat` | src/controllers/workload_controller.rs:443-455 | the cost of victims adds up |
| `Preemption.CostOne` | src/controllers/workload_controller.rs:443-455 | the cost of one victim is its priority |
| `Preemption.DominatedIsNotCheapest` | src/controllers/workload_controller.rs:443-455 | a plan is not chosen over one with as many victims, none of them higher and one lower in priority |
| `Preemption.VictimsAreLower` | src/controllers/workload_controller.rs:414-426 | victims run on the chosen node at strictly lower priority |
| `Preemption.VictimsGoInOrder` | src/controllers/workload_controller.rs:414-435 | no eligible pod left in place has a lower priority than a victim, ties by pod id |
| `Preemption.SwapStaysWithinCapacity` | src/controllers/workload_controller.rs:427-442 | a node within capacity stays within it when the pod takes the victims' place |
| `Preemption.PlanExists` | src/controllers/workload_controller.rs:404-458 | a node has a plan exactly when it is schedulable, tolerated and large enough once all its lower-priority pods are gone |
| `Preemption.PlanIsOrderIndependent` | src/controllers/workload_controller.rs:404-458 | the plan does not depend on the order in which nodes and placements are listed |
| `Preemption.NoPlanIsOrderIndependent` | src/controllers/workload_controller.rs:404-458 | nor does whether there is a plan at all |
| `PlacementRuns.CommitEffect` | src/controllers/workload_controller.rs:201-241 | committing a decision stores the placement under its pod id and leaves nodes alone |
| `PlacementRuns.CommitStores` | src/controllers/workload_controller.rs:201-241 | committing a decision stores the pod's identity, slot, node and resources as a placement and the pod and node on its slot |
| `PlacementRuns.ViewMeans` | src/scheduler/mod.rs:164-202 | each node of a view is a stored record with its taints, open exactly when active and schedulable, with what its capacity leaves of the placements on it |
| `PlacementRuns.CandidateMeans` | src/scheduler/engine.rs:49-74 | which nodes of a store's view can take a pod, in stored terms: open, with room for both resources, away from every stored sibling by node and, across zones, failure domain where the role is enforced, and without an untolerated hard taint |
| `PlacementRuns.CapacityMeans` | src/scheduler/mod.rs:179-199 | within capacity means that on every node the placed millicores and bytes each sum to at most the node's |
| `PlacementRuns.PreemptEffect` | src/controllers/workload_controller.rs:246-293 | applying a preemption removes exactly the victims and places the pod |
| `PlacementRuns.CapacityHoldsInEveryRun` | src/scheduler/mod.rs:164-202 | in every run of schedulings, preemptions and removals, each decided on a fresh view, no node holds more than its capacity |
| `PlacementRuns.SpreadHoldsInEveryRun` | src/scheduler/anti_affinity.rs:39-70 | in every such run whose preemptions, if any, keep away from siblings, no two placements of an enforced (service, role) share a node or a failure domain |
| `PlacementRuns.PreemptionKeepsSpreadIff` | src/controllers/workload_controller.rs:404-458 | a preemption keeps the spread if and only if every sibling it leaves in place is far from the chosen node, which it does not check |
| `PreemptionBudgets.PreemptionKeepsMinimumIff` | src/controllers/workload_controller.rs:243-293 | a preemption leaves a group a minimum if and only if the group loses no more than it has to spare, a new pod of its own counted in |
| `PreemptionBudgets.PreemptionKeepsBudgetIff` | src/controllers/workload_controller.rs:243-293 | a preemption leaves another group than its pod's its budgeted minimum if and only if the guard, which it does not ask, would have allowed the loss |
| `PreemptionBudgets.LostAreVictims` | src/controllers/workload_controller.rs:404-458 | where the pod's name is new the loss of a group is the number of its victims |
| `NameExamples.PreemptionCanBreakBudget` | src/controllers/workload_controller.rs:243-293 | a concrete preemption that takes the one pod of a role whose budget keeps one |
| `PassExamples.PreemptionCanBreakSpread` | src/controllers/workload_controller.rs:404-458 | a concrete preemption that evicts a job to put a replica, refused by the scheduler, beside its sibling |
| `Pods.OrderPending` | src/controllers/workload_controller.rs:376-384 | a permutation of the pending pods by falling priority, ties by pod id |
| `Pods.PodCarriesSpec` | src/controllers/workload_controller.rs:106-140 | a pending pod carries its spec's tenant, name, priority, tolerations and requests in millicores and bytes, with the defaults where the spec has none |
| `Passes.SchedulePass` | src/controllers/workload_controller.rs:145-168 | on one view, exactly the pods some node can take are scheduled, in order and each on its best node, and the others are left over |
| `Passes.PassEffect` | src/controllers/workload_controller.rs:145-241 | committing the decisions stores exactly their placements and leaves nodes alone |
| `Swaps.SwapAllIs` | src/controllers/workload_controller.rs:145-293 | carrying out any list of decisions leaves what was stored under names they do not touch, and those of their own placements whose names no later decision stores or removes, each name once |
| `Swaps.SurvivorsAre` | src/controllers/workload_controller.rs:145-293 | what is left of the decisions' own placements is exactly the ones whose names no later decision stores or removes |
| `Swaps.PodIsKeptIff` | src/controllers/workload_controller.rs:145-293 | a placed pod is there at the end if and only if no later decision touches its name, or the last that does places the same again |
| `Swaps.SwapsKeepCapacityIff` | src/controllers/workload_controller.rs:145-293 | any list of decisions keeps capacity if and only if, node by node, the pods that are left of it fit what remains once everything under a touched name is gone |
| `Swaps.SwapsKeepSpreadIff` | src/controllers/workload_controller.rs:145-293 | any list of decisions keeps siblings apart if and only if the pods that are left of it are far from each other and from the stored siblings under names it does not touch |
| `Swaps.PassKeepsCapacityIff` | src/controllers/workload_controller.rs:66-182 | decisions for nodes of one view keep capacity if and only if, node by node, the pods that are left of them fit what the view offers and what the pods under touched names held |
| `Reconcile.PreemptPass` | src/controllers/workload_controller.rs:170-182 | of the pods left over, exactly those of positive priority with a plan on the view get the cheapest, in order |
| `Reconcile.ReconcileAll` | src/controllers/workload_controller.rs:66-182 | from its specs a pass decides, in order of priority, which pods are scheduled, which are preempted for and where, or fails exactly on an unreadable record of an asked slot |
| `Reconcile.DecidedMeans` | src/controllers/workload_controller.rs:145-182 | a pod of the pass is scheduled exactly when some node can take it as the view stands, and otherwise preempted for exactly when its priority is positive and some node has a plan |
| `Reconcile.ReconcileEffect` | src/controllers/workload_controller.rs:141-293 | a pass leaves what was stored under names it does not touch, and those of its own placements whose names it does not touch again |
| `Reconcile.ReconcileKeepsCapacityIff` | src/controllers/workload_controller.rs:66-182 | a pass, preemptions included and whatever names its pods share, keeps capacity if and only if, node by node, the pods of it that are left fit what its view offers and what the pods under the names it touches held |
| `Reconcile.ReconcileKeepsSpreadIff` | src/controllers/workload_controller.rs:66-182 | a pass keeps siblings apart if and only if the pods of it that are left are far from each other and, where it preempted for them, from the siblings under names it does not touch |
| `Reconcile.ReconcileKeepsItsPodsIff` | src/controllers/workload_controller.rs:66-293 | a pass with one spec for each workload keeps every pod it places if and only if no later decision of it stores or evicts a pod of the same name |
| `NameExamples.PassCanLosePod` | src/controllers/workload_controller.rs:106-150 | a concrete pass in which the second of two tenants' pods called db-web-0 replaces the first |
| `NameExamples.PassCanRemoveOwnPod` | src/controllers/workload_controller.rs:145-293 | a concrete pass in which a preemption, evicting another tenant's pod, deletes the pod of the same name the pass has just placed |
| `PassExamples.PassCanOverfill` | src/controllers/workload_controller.rs:70-150 | a concrete pass that sends both default-sized pods of a workload to a node with room for one |
| `PassExamples.PassCanJoinSiblings` | src/controllers/workload_controller.rs:70-150 | a concrete pass that sends both replicas of an enforced role to one node |
| `Pods.OwnWorkloadIsSafe` | src/controllers/workload_controller.rs:387-397 | a pod never evicts a pod of its own workload |
| `Pods.StrangersAreEvictableIff` | src/controllers/workload_controller.rs:171-178 | a pod of a workload outside the pass is evictable if and only if it runs on the node and the preemptor's priority is positive |
| `Pods.NamesCollideIff` | src/controllers/workload_controller.rs:106-107 | two slots get one pod name if and only if their ordinals agree and workload and role are the same text, up to where a hyphen divides them |
| `Pods.NamesWithoutHyphens` | src/controllers/workload_controller.rs:106-107 | where roles have no hyphen a name tells workload, role and ordinal, and nothing of the tenant |
| `Pods.CommitKeepsOthersIff` | src/raft/state_machine.rs:816-824 | committing a pod keeps every other slot's placement if and only if no placement of another slot is stored under its name |
| `Pods.ShadowedPodIsLost` | src/controllers/workload_controller.rs:79-107 | a placement that was replaced that way is not scheduled again, whatever commands follow |
| `PassExamples.CommitCanDisplaceTenant` | src/raft/state_machine.rs:816-824 | a concrete commit that replaces another tenant's placement |
| `Slots.PendingSlots` | src/controllers/workload_controller.rs:72-140 | a pass schedules, in order and once each, exactly the slots asked for that have no ordinal record, and fails exactly on an unreadable record |
| `Slots.PassMeans` | src/controllers/workload_controller.rs:72-105 | a pass takes up exactly the ordinals below a role's count that nothing is recorded for |
| `Pods.CollectPending` | src/controllers/workload_controller.rs:72-140 | the pending pods of all specs, spec by spec, and failure exactly on an unreadable record of an asked slot |
| `Pods.CollectedSlotsDiffer` | src/controllers/workload_controller.rs:72-140 | with one spec for each workload a pass has one pending pod for each slot |
| `Slots.StepKeepsRecords` | src/raft/state_machine.rs:55-920 | no command deletes an ordinal record |
| `Slots.RecordedSlotIsNeverPending` | src/controllers/workload_controller.rs:79-105 | a slot that ever had a record is not scheduled by a pass again, whatever commands follow |
| `Slots.CommittedSlotIsNeverPending` | src/controllers/workload_controller.rs:201-241 | a slot is scheduled at most once in every run |
| `Slots.DrainedSlotIsNeverPending` | src/admin/service.rs:1462-1496 | the slot of a drained pod is not scheduled again |
| `PlacementRuns.CommandsThatReduce` | src/raft/state_machine.rs:471-539 | removing a placement, heartbeats and cordoning or uncordoning a node that is registered or hosts nothing are steps such a run may contain |
| `PlacementRuns.ScaleReduces` | src/raft/state_machine.rs:133-193 | scaling a workload is a step such a run may contain |
| `Reductions.DeleteReduces` | src/raft/state_machine.rs:93-131 | so is deleting a workload |
| `Reductions.EvictReduces` | src/raft/state_machine.rs:541-627 | so is evicting a node, registered or not |
| `Reductions.ReducingCommands` | src/raft/state_machine.rs:55-920 | so are all of these and every command that writes neither nodes nor placements |
| `EvictedNodes.StepKeepsEvicted` | src/raft/state_machine.rs:462-575 | no command but a registration of the node ends its eviction |
| `EvictedNodes.EvictedNodeIsNeverChosen` | src/scheduler/mod.rs:187-199 | from its eviction until it registers again, whatever commands are applied, neither scheduling nor preemption selects a node |
| `Svids.EvictRevokes` | src/raft/state_machine.rs:614-627 | evicting a node revokes its identity until the given expiry |
| `Svids.PruneIsExact` | src/raft/state_machine.rs:629-649 | a pruning removes exactly the revocations that expired before the cutoff |
| `Svids.EvictedNodeStaysRevoked` | src/raft/state_machine.rs:614-649 | from then on, whatever is applied, the identity stays revoked until a pruning goes past the expiry or another eviction shortens it |
| `CordonedNodes.FlagStep` | src/raft/state_machine.rs:471-511 | setting the flag changes a node's flag and a status that follows it unless the node is evicted, and nothing else |
| `CordonedNodes.StepKeepsClosed` | src/raft/state_machine.rs:462-575 | no command but a registration or an uncordoning of the node opens it |
| `CordonedNodes.CordonedNodeIsNeverChosen` | src/scheduler/mod.rs:187-199 | from its cordoning until it is uncordoned or registers again, whatever else is applied, neither scheduling nor preemption selects a node |
| `CordonedNodes.UncordonedNodeIsOffered` | src/raft/state_machine.rs:471-511 | uncordoning a node that is not evicted offers it to the next view |
| `Cron.LatestDueIsLast` | src/controllers/cron_controller.rs:56-59 | the selected instant is the last one named between checkpoint and clock, absent exactly when there is none |
| `Cron.TriggerAdvances` | src/controllers/cron_controller.rs:35-101 | a trigger moves the checkpoint strictly forward to a named instant no later than the clock, under the run id of that instant |
| `Cron.SuspendedNeverStarts` | src/controllers/cron_controller.rs:35-38 | a suspended cron workload starts nothing |
| `Cron.EvaluationFailsIff` | src/controllers/cron_controller.rs:35-101 | an evaluation fails exactly without a schedule, on an expression or checkpoint that cannot be read, or when a run is due and there is no template |
| `Cron.RunFollowsTemplate` | src/controllers/cron_controller.rs:62-101 | a run is its template under the run's id and the cron workload's tenant |
| `Cron.TriggerStep` | src/raft/state_machine.rs:384-404 | the run's spec and the checkpoint are stored together |
| `Cron.NothingLeftDue` | src/controllers/cron_controller.rs:35-101 | after an evaluation without error no instant up to the clock is still due |
| `Cron.RunsAreForDistinctInstants` | src/controllers/cron_controller.rs:35-101 | over every sequence of evaluations and other commands, under any clock, runs of a cron workload are for strictly later instants and under different run ids |
| `Cron.SetBackRepeatsIff` | src/controllers/cron_controller.rs:46-59 | from a checkpoint set back, the next evaluation starts a run for an instant up to a given one if and only if the schedule names one between the checkpoint and it and none between it and the clock |
| `Cron.RunIdInjective` | src/controllers/cron_controller.rs:62 | for instants from 1970 on a run id tells the cron workload and the instant |
| `Merge.MergeField` | src/apply/merge.rs:47-56 | the three-way rule for one field |
| `Merge.MergeWorkload` | src/apply/merge.rs:26-171 | the field-by-field mutation gives the verdict of the fields, and live state with exactly the set fields replaced |
| `Merge.MergeSagRule` | src/apply/merge.rs:183-256 | the same for SAG rules |
| `Merge.MergeNodePool` | src/apply/merge.rs:272-382 | the same for node pools; without a live pool nothing happens, without a baseline live state is the baseline |
| `Merge.VerdictMeans` | src/apply/merge.rs:26-382 | a merge conflicts exactly when a set field differs from live and baseline, lists exactly those with their live, manifest and baseline values, and changes nothing exactly when every set field already has its value |
| `Merge.WorkloadConflictsByField` | src/apply/merge.rs:26-171 | image, replicas, placement and autoscaling are each reported exactly when the manifest sets them to something else than live state, which has left the baseline |
| `Merge.PodConflictsByField` | src/apply/merge.rs:74-129 | so are the pod's resources, environment and labels, an absent live pod standing for the default |
| `Merge.WorkloadConflictsIff` | src/apply/merge.rs:26-171 | a merge conflicts exactly when one of these seven fields is reported |
| `Merge.WorkloadUpdatesTo` | src/apply/merge.rs:26-171 | a merge that goes through leaves every set field at the manifest's value and everything else of the record as it was |
| `Merge.SagRuleByField` | src/apply/merge.rs:183-256 | the same, field by field, for SAG rules |
| `Merge.PoolConflictsByField` | src/apply/merge.rs:272-382 | which fields of a node pool are reported, in manifest, live and baseline values |
| `Merge.PoolUpdatesTo` | src/apply/merge.rs:272-382 | what a node pool that is updated takes and keeps |
| `Merge.WorkloadRemergeUnchanged` | src/apply/merge.rs:26-171 | merging the same manifest into the result is Unchanged for every baseline |
| `Merge.WorkloadUnchangedMeans` | src/apply/merge.rs:74-129 | Unchanged means live state is what the manifest asks for, up to an absent pod spec standing for the default |
| `Merge.SagRuleRemergeUnchanged` | src/apply/merge.rs:183-256 | re-merging a SAG rule is Unchanged for every baseline |
| `Merge.PoolRemergeUnchanged` | src/apply/merge.rs:272-382 | re-merging a node pool is Unchanged for every baseline |
| `Merge.PoolWithoutBaselineNeverConflicts` | src/apply/merge.rs:294-298 | a node pool merged without a baseline never conflicts |
| `DelegationId.RoundTrip` | src/delegation/id.rs:26-80 | parsing a computed id returns its four parts if and only if neither id contains the separator |
| `DelegationId.ComputeInjective` | src/delegation/id.rs:26-46 | distinct parts get distinct ids |
| `DelegationId.SeparatorCollides` | src/delegation/id.rs:26-46 | with the separator inside an id two delegations share an identifier |

## Left out

- AddressPlan.PlanHoldsForever: blocks and addresses are the ones the allocator computes, for tenants and services without a colon, as the admin service's identifier check ensures; a block or address command with other contents, or a manifest update of the dummy-IP keyspace, which the state machine would accept and no caller builds, is not part of a run.
- DummyIp.ServiceAddressMeans: an address whose tenant has no block, where the source panics, is an error here; no run reaches it (AddressPlan.PlanHoldsForever).
- Budgets.ScaleDownHonoursBudgets: makes the assumptions of Disruption.ScaleDownKeepsBudget on slots and ordinals.
- Autoscaler.DecisionIsLeastInPolicy: for a policy maximum that fits the source's u32.
- Readiness.ViolationIsDated: reports are dated after 1970, because a stored 0 means undated.
- Disruption.ScaleDownKeepsBudget: assumes one placement per slot and ordinals below the stored count, which placements alone do not ensure; the decoded spec is given to the guard, where the source decodes the stored bytes of the record directly.
- Autoscaler.HpaController.EvaluateWorkload: the averages over metric windows are a parameter; evaluation starts from them.
- PlacementRuns.CapacityHoldsInEveryRun: every decision of the run is taken on a fresh view; what a pass that reuses one view may do is stated in Swaps and Reconcile. Registering a node, replacing a pod and manifests that write placements are not steps of such a run.
- Scheduler.ScoresInRange: scores are computed over exact reals, so floating-point rounding is not modelled; the order-independence results only use that scores are functions of counts.
- Merge.VerdictMeans: a conflict carries the values; the text they are printed as is left out.
- LogStore.FjallLog.GetLogState: for a log purged empty no last id is reported, as in the source; votes are left out.
- Snapshots.SnapshotReplay: building a snapshot is one atomic step.
- Cron.NothingLeftDue: checkpoint timestamps outside the calendar's range are left out.
- Cron.RunsAreForDistinctInstants: resubmitting the cron workload with an earlier checkpoint, as a clock that went back would, is not part of a run; what it leads to is Cron.SetBackRepeatsIff.
- Integer overflow of counters and of resource sums beyond 64 bits, and of clock differences, is left out; the address arithmetic is the one place where 32-bit steps are written out and shown not to wrap.
- Reconcile.ReconcileAll: the addresses a pass allocates at its end are AddressPlan's, and proposals are taken to succeed.
- Broadcast and watch publication, telemetry and events: side effects with no state to reason about.
- Consensus, transport, gRPC services, certificates, attestation and envelope encryption: foreign code and I/O.
- Vertical autoscaling, secret and tenant merges, quotas, provisioning and direct revocation storage.
