/** A snapshot taken anywhere in the log and installed over any replica continues the same run. */
module Snapshots {
  import opened Decimal
  import opened Records
  import opened Bytes
  import opened Keys
  import opened Storage
  import opened Commands
  import opened Machine
  import opened Replication

  // ----- clearing -----

  lemma {:induction false} ClearOpsTable(s: Store, ks: Keyspace, keys: seq<string>)
    ensures Commit(s, ClearOps(ks, keys)).At(ks) == s.At(ks) - (set k | k in keys)
  {
    if keys != [] {
      hide Commit;
      var init, last := keys[..|keys| - 1], keys[|keys| - 1];
      ClearOpsTable(s, ks, init);
      CommitSnoc(s, ClearOps(ks, init), Del(ks, last));
      MinusOneMore(s.At(ks), init, last);
      assert init + [last] == keys;
    }
  }

  lemma MinusOneMore(t: Table, init: seq<string>, last: string)
    ensures (t - (set k | k in init)) - {last} == t - (set k | k in init + [last])
  {
  }

  lemma {:induction false} ClearOpsSpare(ks: Keyspace, keys: seq<string>, other: Keyspace)
    requires other != ks
    ensures Spares(ClearOps(ks, keys), other)
  {
    if keys != [] {
      ClearOpsSpare(ks, keys[..|keys| - 1], other);
    }
  }

  lemma MinusOwnKeys(t: Table, u: Table)
    requires t == u || t == map[]
    ensures t - u.Keys == map[]
  {
  }

  /** Clearing a table that holds its original rows or none empties it. */
  lemma ClearSame(s: Store, original: Table, ks: Keyspace)
    requires s.At(ks) == original || s.At(ks) == map[]
    ensures Commit(s, ClearOps(ks, Ascending(original.Keys))).At(ks) == map[]
  {
    var keys := Ascending(original.Keys);
    AscendingElements(original.Keys);
    ClearOpsTable(s, ks, keys);
    assert (set k | k in keys) == original.Keys;
    MinusOwnKeys(s.At(ks), original);
  }

  lemma ClearOther(s: Store, keys: seq<string>, last: Keyspace, ks: Keyspace)
    requires ks != last
    ensures Commit(s, ClearOps(last, keys)).At(ks) == s.At(ks)
  {
    ClearOpsSpare(last, keys, ks);
    CommitFrame(s, ClearOps(last, keys), ks);
  }

  lemma {:induction false} ClearAllEffect(s: Store, list: seq<Keyspace>, ks: Keyspace)
    ensures Commit(s, ClearAllOps(s, list)).At(ks) == if ks in list then map[] else s.At(ks)
  {
    if list != [] {
      var init, last := list[..|list| - 1], list[|list| - 1];
      assert ks in list <==> ks in init || ks == last by {
        assert list == init + [last];
      }
      ClearAllEffect(s, init, ks);
      ClearAllEffect(s, init, last);
      CommitConcat(s, ClearAllOps(s, init), ClearOps(last, Ascending(s.At(last).Keys)));
      var mid := Commit(s, ClearAllOps(s, init));
      if ks == last {
        ClearSame(mid, s.At(last), last);
      } else {
        ClearOther(mid, Ascending(s.At(last).Keys), last, ks);
      }
    }
  }

  // ----- writing -----

  lemma {:induction false} WriteOpsSpare(ks: Keyspace, pairs: Pairs, other: Keyspace)
    requires other != ks
    ensures Spares(WriteOps(ks, pairs), other)
  {
    if pairs != [] {
      WriteOpsSpare(ks, pairs[..|pairs| - 1], other);
    }
  }

  lemma {:induction false} WriteOpsTable(s: Store, ks: Keyspace, t: Table, keys: seq<string>)
    requires forall k :: k in keys ==> k in t
    ensures Commit(s, WriteOps(ks, PairsAt(t, keys))).At(ks) == s.At(ks) + Part(t, keys)
  {
    var pairs := PairsAt(t, keys);
    if keys != [] {
      var init, last := keys[..|keys| - 1], keys[|keys| - 1];
      assert keys == init + [last];
      assert pairs[..|pairs| - 1] == PairsAt(t, init);
      WriteOpsTable(s, ks, t, init);
      CommitSnoc(s, WriteOps(ks, PairsAt(t, init)), Put(ks, last, t[last]));
      PartSnoc(s.At(ks), t, init, last);
    }
  }

  /** Writing back every pair of a table lays it over what was there. */
  lemma WriteSame(s: Store, ks: Keyspace, t: Table)
    ensures Commit(s, WriteOps(ks, PairsOf(t))).At(ks) == s.At(ks) + t
  {
    var keys := Ascending(t.Keys);
    AscendingElements(t.Keys);
    WriteOpsTable(s, ks, t, keys);
    PartWhole(t, keys);
  }

  lemma WriteOther(s: Store, pairs: Pairs, last: Keyspace, ks: Keyspace)
    requires ks != last
    ensures Commit(s, WriteOps(last, pairs)).At(ks) == s.At(ks)
  {
    WriteOpsSpare(last, pairs, ks);
    CommitFrame(s, WriteOps(last, pairs), ks);
  }

  lemma OverlayTwice(t: Table, u: Table)
    ensures (t + u) + u == t + u
  {
  }

  lemma {:induction false} WriteAllEffect(base: Store, s: Store, list: seq<Keyspace>, ks: Keyspace)
    requires forall k :: k in list ==> Snapshotted(k)
    ensures Commit(base, WriteAllOps(Collected(s, list))).At(ks)
         == if ks in list then base.At(ks) + s.At(ks) else base.At(ks)
  {
    if list != [] {
      var init, last := list[..|list| - 1], list[|list| - 1];
      assert ks in list <==> ks in init || ks == last by {
        assert list == init + [last];
      }
      WriteAllEffect(base, s, init, ks);
      var mid := Commit(base, WriteAllOps(Collected(s, init)));
      WriteAllSnoc(base, s, init, last, list);
      if ks == last {
        WriteSame(mid, last, s.At(last));
        OverlayTwice(base.At(ks), s.At(ks));
      } else {
        WriteOther(mid, PairsOf(s.At(last)), last, ks);
      }
    }
  }

  lemma WriteAllSnoc(base: Store, s: Store, init: seq<Keyspace>, last: Keyspace, list: seq<Keyspace>)
    requires list == init + [last] && Snapshotted(last)
    ensures Commit(base, WriteAllOps(Collected(s, list)))
         == Commit(Commit(base, WriteAllOps(Collected(s, init))), WriteOps(last, PairsOf(s.At(last))))
  {
    var data := Collected(s, list);
    assert data[..|data| - 1] == Collected(s, init);
    CommitConcat(base, WriteAllOps(Collected(s, init)), WriteOps(last, PairsOf(s.At(last))));
  }

  /** Where a keyspace stands in the snapshot's list. */
  function Position(ks: Keyspace): nat {
    match ks
    case VersionKs => 0 case Nodes => 1 case Svids => 2 case SagRules => 3 case JoinTokens => 4
    case RevokedDelegations => 5 case ActiveDelegations => 6 case Ordinals => 7 case Placements => 8
    case Tenants => 9 case Workloads => 10 case Secrets => 11 case DummyIps => 12 case PcrPolicies => 13
    case RouterAssignments => 14 case NodePools => 15 case NodeTaints => 16 case RaftState => 17
    case TrustBundles => 18 case RevokedSvids => 19 case AuditLog => 20 case OperatorGrants => 21
    case WorkloadStatuses => 22 case TenantQuotas => 23 case CronCheckpoints => 24
    case ControlAddresses => 25 case NodeEks => 26 case VpaRecommendations => 27
    case Nonces => 28 case NonceClaims => 28 case SvidGrants => 28 case PendingActivations => 28
    case RaftSnapshot => 28
  }

  lemma PositionCorrect(ks: Keyspace)
    requires Snapshotted(ks)
    ensures Position(ks) < 28 && KeyspaceAt(Position(ks)) == ks
  {
  }

  /** The list names exactly the keyspaces a node can restore. */
  lemma SnapshotListComplete(ks: Keyspace)
    ensures ks in SnapshotKeyspaces() <==> Snapshotted(ks)
  {
    if Snapshotted(ks) {
      PositionCorrect(ks);
      assert SnapshotKeyspaces()[Position(ks)] == ks;
    }
  }

  // ----- installing -----

  lemma RestoredOver(r: Store, s: Store, list: seq<Keyspace>, ks: Keyspace)
    requires forall k :: k in list ==> Snapshotted(k)
    ensures Commit(r, ClearAllOps(r, list) + WriteAllOps(Collected(s, list))).At(ks)
         == if ks in list then s.At(ks) else r.At(ks)
  {
    hide Commit, ClearAllOps, WriteAllOps, Collected;
    var clears := ClearAllOps(r, list);
    CommitConcat(r, clears, WriteAllOps(Collected(s, list)));
    ClearAllEffect(r, list, ks);
    WriteAllEffect(Commit(r, clears), s, list, ks);
    assert map[] + s.At(ks) == s.At(ks);
  }

  lemma SnapshotListKnown()
    ensures forall k :: k in SnapshotKeyspaces() ==> Snapshotted(k)
  {
    forall k | k in SnapshotKeyspaces()
      ensures Snapshotted(k)
    {
      SnapshotListComplete(k);
    }
  }

  /** Clearing and rewriting restores every snapshotted table and no other. */
  lemma RestoredTable(r: Store, s: Store, ks: Keyspace)
    ensures Commit(r, ClearAllOps(r, SnapshotKeyspaces()) + WriteAllOps(Collected(s, SnapshotKeyspaces()))).At(ks)
         == if Snapshotted(ks) then s.At(ks) else r.At(ks)
  {
    SnapshotListKnown();
    SnapshotListComplete(ks);
    RestoredOver(r, s, SnapshotKeyspaces(), ks);
  }

  /** Installing the snapshot of `s` over any replica reproduces every snapshotted table of `s`, keeps the
  snapshot and its metadata, and touches nothing else. */
  lemma InstallRestores(r: Machine, s: Store, meta: SnapshotMeta, ks: Keyspace)
    ensures Install(r, Collected(s, SnapshotKeyspaces()), meta).store.At(ks)
         == if ks.RaftState? then s.At(RaftState)[SNAPSHOT_META := MetaV(meta)]
            else if ks.RaftSnapshot? then
              r.store.At(RaftSnapshot)[U64Be(0) := SnapshotV(Collected(s, SnapshotKeyspaces()))]
            else if Snapshotted(ks) then s.At(ks)
            else r.store.At(ks)
  {
    hide Collected, SnapshotKeyspaces, ClearAllOps, WriteAllOps, Commit, U64Be;
    var data := Collected(s, SnapshotKeyspaces());
    var ops := ClearAllOps(r.store, SnapshotKeyspaces()) + WriteAllOps(data);
    RestoredTable(r.store, s, ks);
    CommitTwo(r.store, ops, Put(RaftSnapshot, U64Be(0), SnapshotV(data)), Put(RaftState, SNAPSHOT_META, MetaV(meta)));
  }

  /** What was installed last is what `get_current_snapshot` returns. */
  lemma InstalledIsCurrent(r: Machine, s: Store, meta: SnapshotMeta)
    ensures CurrentSnapshot(Install(r, Collected(s, SnapshotKeyspaces()), meta).store)
         == Ok(Some((meta, Collected(s, SnapshotKeyspaces()))))
  {
    hide Collected, SnapshotKeyspaces, Install;
    InstallRestores(r, s, meta, RaftState);
    InstallRestores(r, s, meta, RaftSnapshot);
  }

  lemma EntryKeepsSnapshot(f: Applier, m: Machine, e: Entry)
    requires Contained(f) && ApplyEntry(f, m, e).Ok?
    ensures CurrentSnapshot(ApplyEntry(f, m, e).value.store) == CurrentSnapshot(m.store)
  {
    var ops := PayloadOps(f, m.store, e).value;
    var stamp := StampOps(e, m.version + 1);
    PayloadSparesSnapshot(f, m.store, e);
    CommitConcat(m.store, ops, stamp);
    hide Contained, PayloadOps, Commit, StampOps;
    StampKeepsSnapshot(Commit(m.store, ops), e, m.version + 1);
  }

  lemma PayloadSparesSnapshot(f: Applier, s: Store, e: Entry)
    requires Contained(f) && PayloadOps(f, s, e).Ok?
    ensures CurrentSnapshot(Commit(s, PayloadOps(f, s, e).value)) == CurrentSnapshot(s)
  {
    hide Contained, CurrentSnapshot;
    var ops := PayloadOps(f, s, e).value;
    match e.payload
    case Blank =>
    case Normal(cmd, _) =>
      CommandSparesSnapshot(f, Reads(s), cmd);
      CommitFrame(s, ops, RaftState);
      CommitFrame(s, ops, RaftSnapshot);
      SameTablesSameCurrent(s, Commit(s, ops));
    case Membership(members) =>
      MembershipKeepsSnapshot(s, e.logId, members);
  }

  lemma MembershipKeepsSnapshot(s: Store, at: LogId, members: string)
    ensures CurrentSnapshot(Commit(s, [Put(RaftState, LAST_MEMBERSHIP, MembershipV(at, members))]))
         == CurrentSnapshot(s)
  {
    var op := Put(RaftState, LAST_MEMBERSHIP, MembershipV(at, members));
    CommitOne(s, op);
    assert |LAST_MEMBERSHIP| != |SNAPSHOT_META|;
    hide CurrentSnapshot, Commit;
    SameCurrent(s, Exec(s, op), LAST_MEMBERSHIP, op.value);
  }

  lemma CommandSparesSnapshot(f: Applier, v: View, cmd: Command)
    requires Contained(f) && f(v, cmd).Ok?
    ensures Spares(f(v, cmd).value, RaftState) && Spares(f(v, cmd).value, RaftSnapshot)
  {
    assert Permitted(cmd, f(v, cmd).value);
  }

  lemma SameTablesSameCurrent(s: Store, s': Store)
    requires s'.At(RaftSnapshot) == s.At(RaftSnapshot) && s'.At(RaftState) == s.At(RaftState)
    ensures CurrentSnapshot(s') == CurrentSnapshot(s)
  {
  }

  /** The kept snapshot is read from one key of the bookkeeping and one table. */
  lemma SameCurrent(s: Store, s': Store, key: string, v: Value)
    requires s'.At(RaftSnapshot) == s.At(RaftSnapshot) && s'.At(RaftState) == s.At(RaftState)[key := v]
             && key != SNAPSHOT_META
    ensures CurrentSnapshot(s') == CurrentSnapshot(s)
  {
    hide U64Be;
  }

  lemma StampKeepsSnapshot(s: Store, e: Entry, version: nat)
    ensures CurrentSnapshot(Commit(s, StampOps(e, version))) == CurrentSnapshot(s)
  {
    StampSparesSnapshot(s, e, version);
    StampEffect(s, e, version);
    hide CurrentSnapshot, StampOps, Commit;
    assert |LAST_APPLIED| != |SNAPSHOT_META|;
    SameCurrent(s, Commit(s, StampOps(e, version)), LAST_APPLIED, LogIdV(e.logId));
  }

  lemma StampSparesSnapshot(s: Store, e: Entry, version: nat)
    ensures Commit(s, StampOps(e, version)).At(RaftSnapshot) == s.At(RaftSnapshot)
  {
    hide Commit, U64Be, AuditOf;
    CommitFrame(s, StampOps(e, version), RaftSnapshot);
  }

  /** Applying entries leaves the kept snapshot as it was. */
  lemma {:induction false} SnapshotStaysCurrent(f: Applier, m: Machine, log: seq<Entry>)
    requires Contained(f)
    ensures CurrentSnapshot(ApplyAll(f, m, log).machine.store) == CurrentSnapshot(m.store)
    decreases |log|
  {
    hide CurrentSnapshot, Contained, ApplyEntry;
    if log != [] && ApplyEntry(f, m, log[0]).Ok? {
      EntryKeepsSnapshot(f, m, log[0]);
      SnapshotStaysCurrent(f, ApplyEntry(f, m, log[0]).value, log[1..]);
    }
  }

  lemma InstallAgrees(r: Machine, s: Store, meta: SnapshotMeta)
    ensures Agree(Install(r, Collected(s, SnapshotKeyspaces()), meta).store, s)
  {
    var i := Install(r, Collected(s, SnapshotKeyspaces()), meta).store;
    forall ks | Replicated(ks)
      ensures SameAt(i, s, ks)
    {
      InstallRestores(r, s, meta, ks);
    }
    InstallRestores(r, s, meta, RaftState);
    var t := s.At(RaftState);
    assert t[SNAPSHOT_META := MetaV(meta)] - {SNAPSHOT_META} == t - {SNAPSHOT_META};
  }

  /** A snapshot taken after `prefix` and installed over an arbitrary replica, followed by `suffix`,
  gives the application state of one straight replay of the whole log. */
  lemma SnapshotReplay(f: Applier, origin: Machine, replica: Machine, meta: SnapshotMeta,
                       prefix: seq<Entry>, suffix: seq<Entry>)
    requires !ApplyAll(f, origin, prefix).failed
    ensures var snapshot := Collected(ApplyAll(f, origin, prefix).machine.store, SnapshotKeyspaces());
            var resumed := ApplyAll(f, Install(replica, snapshot, meta), suffix);
            var straight := ApplyAll(f, origin, prefix + suffix);
            resumed.failed == straight.failed && Agree(resumed.machine.store, straight.machine.store)
  {
    var mid := ApplyAll(f, origin, prefix).machine;
    var installed := Install(replica, Collected(mid.store, SnapshotKeyspaces()), meta);
    InstallAgrees(replica, mid.store, meta);
    ReplayAgree(f, installed, mid, suffix);
    ApplyAllConcat(f, origin, prefix, suffix);
  }

  // ----- what the in-memory counter breaks -----

  /** The counter-keyed tables change by the stamp alone. */
  lemma CounterTables(f: Applier, m: Machine, e: Entry, ks: Keyspace)
    requires Contained(f) && ApplyEntry(f, m, e).Ok?
    requires ks.VersionKs? || ks.AuditLog?
    ensures ApplyEntry(f, m, e).value.store.At(ks) == Commit(m.store, StampOps(e, m.version + 1)).At(ks)
  {
    hide Contained, PayloadOps, StampOps, Commit, Spares;
    var ops := PayloadOps(f, m.store, e).value;
    var stamp := StampOps(e, m.version + 1);
    PayloadSpares(f, m.store, e);
    CommitConcat(m.store, ops, stamp);
    CommitFrame(m.store, ops, ks);
    CommitLocal(Commit(m.store, ops), m.store, stamp, ks);
  }

  lemma VersionStep(f: Applier, m: Machine, e: Entry)
    requires Contained(f) && ApplyEntry(f, m, e).Ok?
    ensures ApplyEntry(f, m, e).value.version == m.version + 1
    ensures ApplyEntry(f, m, e).value.store.At(VersionKs)
         == m.store.At(VersionKs)[CURRENT := NumberV(m.version + 1)]
  {
    CounterTables(f, m, e, VersionKs);
    StampEffect(m.store, e, m.version + 1);
  }

  /** After a successful run the version table records the counter at its start plus the entries. */
  lemma {:induction false} VersionTracks(f: Applier, m: Machine, log: seq<Entry>)
    requires Contained(f) && log != [] && !ApplyAll(f, m, log).failed
    ensures ApplyAll(f, m, log).machine.store.At(VersionKs)
         == m.store.At(VersionKs)[CURRENT := NumberV(m.version + |log|)]
    decreases |log|
  {
    VersionStep(f, m, log[0]);
    var next := ApplyEntry(f, m, log[0]).value;
    if |log| > 1 {
      VersionTracks(f, next, log[1..]);
    } else {
      assert log[1..] == [];
    }
  }

  /** Installing does not reload the counter, so the persisted version of a replica that resumes from
  a snapshot matches a straight replay exactly when the replica's counter already stood at the
  snapshot's version. */
  lemma VersionAgreesIff(f: Applier, mid: Machine, replica: Machine, meta: SnapshotMeta, installed: Machine,
                         suffix: seq<Entry>)
    requires Contained(f) && suffix != [] && !ApplyAll(f, mid, suffix).failed
    requires installed == Install(replica, Collected(mid.store, SnapshotKeyspaces()), meta)
    ensures !ApplyAll(f, installed, suffix).failed
    ensures ApplyAll(f, installed, suffix).machine.store.At(VersionKs)
              == ApplyAll(f, mid, suffix).machine.store.At(VersionKs)
            <==> replica.version == mid.version
  {
    hide ApplyAll, Collected, SnapshotKeyspaces, InstallOps, Contained, Commit;
    InstalledSucceeds(f, mid, replica, meta, suffix);
    InstallRestores(replica, mid.store, meta, VersionKs);
    VersionsCompare(f, installed, mid, suffix);
  }

  lemma InstalledSucceeds(f: Applier, mid: Machine, replica: Machine, meta: SnapshotMeta, suffix: seq<Entry>)
    requires !ApplyAll(f, mid, suffix).failed
    ensures !ApplyAll(f, Install(replica, Collected(mid.store, SnapshotKeyspaces()), meta), suffix).failed
  {
    InstallAgrees(replica, mid.store, meta);
    ReplayAgree(f, Install(replica, Collected(mid.store, SnapshotKeyspaces()), meta), mid, suffix);
  }

  lemma VersionsCompare(f: Applier, m: Machine, n: Machine, log: seq<Entry>)
    requires Contained(f) && log != [] && m.store.At(VersionKs) == n.store.At(VersionKs)
    requires !ApplyAll(f, m, log).failed && !ApplyAll(f, n, log).failed
    ensures ApplyAll(f, m, log).machine.store.At(VersionKs) == ApplyAll(f, n, log).machine.store.At(VersionKs)
            <==> m.version == n.version
  {
    VersionTracks(f, m, log);
    VersionTracks(f, n, log);
    UpdateInjective(n.store.At(VersionKs), CURRENT, NumberV(m.version + |log|), NumberV(n.version + |log|));
  }

  lemma UpdateInjective(t: Table, k: string, v: Value, w: Value)
    ensures t[k := v] == t[k := w] <==> v == w
  {
    assert t[k := v][k] == v && t[k := w][k] == w;
  }
}
