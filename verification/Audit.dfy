/** The audit log: one record per command under the version it was given, and exactly when a replica that
resumes from a snapshot keeps the same log as a straight replay. */
module Audit {
  import opened Records
  import opened Keys
  import opened Storage
  import opened Commands
  import opened Machine
  import opened Snapshots

  const VERSION_LIMIT: nat := 0x1_0000_0000_0000_0000

  // ----- one command, one record -----

  lemma StampAudits(s: Store, e: Entry, version: nat)
    requires e.payload.Normal?
    ensures Commit(s, StampOps(e, version)).At(AuditLog)
         == s.At(AuditLog)[U64Be(version) := AuditV(AuditOf(e, version))]
  {
    hide AuditOf, U64Be;
    var stamp := StampOps(e, version);
    CommitFrame(s, stamp[..2], AuditLog);
    CommitSnoc(s, stamp[..2], stamp[2]);
    assert stamp == stamp[..2] + [stamp[2]];
  }

  lemma StampWithoutAudit(s: Store, e: Entry, version: nat)
    requires !e.payload.Normal?
    ensures Commit(s, StampOps(e, version)).At(AuditLog) == s.At(AuditLog)
  {
    CommitFrame(s, StampOps(e, version), AuditLog);
  }

  /** The audit log once one more entry, applied under `version`, is filed. */
  function File(t: Table, e: Entry, version: nat): Table {
    if e.payload.Normal? then t[U64Be(version) := AuditV(AuditOf(e, version))] else t
  }

  /** Every command leaves one audit record, under its own version, and no other entry leaves any. */
  lemma AuditStep(f: Applier, m: Machine, e: Entry)
    requires Contained(f) && ApplyEntry(f, m, e).Ok?
    ensures ApplyEntry(f, m, e).value.version == m.version + 1
    ensures ApplyEntry(f, m, e).value.store.At(AuditLog) == File(m.store.At(AuditLog), e, m.version + 1)
  {
    hide Contained, StampOps, Commit, AuditOf, U64Be;
    CounterTables(f, m, e, AuditLog);
    if e.payload.Normal? {
      StampAudits(m.store, e, m.version + 1);
    } else {
      StampWithoutAudit(m.store, e, m.version + 1);
    }
  }

  // ----- a whole log -----

  /** The audit log once `log` is filed, its first entry under `version + 1`. */
  function Filed(t: Table, version: nat, log: seq<Entry>): Table
    decreases |log|
  {
    if log == [] then t else Filed(File(t, log[0], version + 1), version + 1, log[1..])
  }

  lemma {:induction false} AuditTracks(f: Applier, m: Machine, log: seq<Entry>)
    requires Contained(f) && !ApplyAll(f, m, log).failed
    ensures ApplyAll(f, m, log).machine.version == m.version + |log|
    ensures ApplyAll(f, m, log).machine.store.At(AuditLog) == Filed(m.store.At(AuditLog), m.version, log)
    decreases |log|
  {
    hide Contained, ApplyEntry, File;
    if log != [] {
      AuditStep(f, m, log[0]);
      AuditTracks(f, ApplyEntry(f, m, log[0]).value, log[1..]);
    }
  }

  /** The key of the `i`-th entry of a log. */
  function KeyAt(version: nat, i: nat): string {
    U64Be(version + 1 + i)
  }

  ghost predicate Files(version: nat, log: seq<Entry>, k: string) {
    exists i: nat :: i < |log| && log[i].payload.Normal? && k == KeyAt(version, i)
  }

  lemma FilesHead(version: nat, log: seq<Entry>, k: string)
    requires log != []
    ensures Files(version, log, k) <==>
              (log[0].payload.Normal? && k == U64Be(version + 1)) || Files(version + 1, log[1..], k)
  {
    if i: nat :| i < |log| && log[i].payload.Normal? && k == KeyAt(version, i) {
      if i > 0 {
        assert log[1..][i - 1] == log[i] && KeyAt(version + 1, i - 1) == KeyAt(version, i);
      }
    }
    if i: nat :| i < |log[1..]| && log[1..][i].payload.Normal? && k == KeyAt(version + 1, i) {
      assert log[i + 1] == log[1..][i] && KeyAt(version, i + 1) == KeyAt(version + 1, i);
    }
    if log[0].payload.Normal? && k == U64Be(version + 1) {
      assert KeyAt(version, 0) == k;
    }
  }

  /** A log adds exactly the keys of its commands. */
  lemma {:induction false} FiledKeys(t: Table, version: nat, log: seq<Entry>, k: string)
    ensures k in Filed(t, version, log) <==> k in t || Files(version, log, k)
    decreases |log|
  {
    hide U64Be, AuditOf, Files;
    if log == [] {
      NoFiles(version, k);
    } else {
      FiledKeys(File(t, log[0], version + 1), version + 1, log[1..], k);
      FilesHead(version, log, k);
    }
  }

  lemma NoFiles(version: nat, k: string)
    ensures !Files(version, [], k)
  {
  }

  ghost predicate NoCommand(log: seq<Entry>) {
    forall i :: 0 <= i < |log| ==> !log[i].payload.Normal?
  }

  lemma {:induction false} FiledNothing(t: Table, version: nat, log: seq<Entry>)
    requires NoCommand(log)
    ensures Filed(t, version, log) == t
    decreases |log|
  {
    if log != [] {
      FiledNothing(t, version + 1, log[1..]);
    }
  }

  // ----- versions as keys -----

  /** Every audit key is a version already given out. */
  ghost predicate Within(t: Table, top: nat) {
    forall k :: k in t ==> exists v: nat :: 1 <= v <= top && k == U64Be(v)
  }

  /** Every machine that starts within its counter stays within it. */
  lemma AuditStaysWithin(f: Applier, m: Machine, log: seq<Entry>)
    requires Contained(f) && !ApplyAll(f, m, log).failed && Within(m.store.At(AuditLog), m.version)
    ensures var end := ApplyAll(f, m, log).machine; Within(end.store.At(AuditLog), end.version)
  {
    hide Contained, ApplyAll, U64Be;
    AuditTracks(f, m, log);
    var t := m.store.At(AuditLog);
    forall k | k in Filed(t, m.version, log)
      ensures exists v: nat :: 1 <= v <= m.version + |log| && k == U64Be(v)
    {
      FiledKeys(t, m.version, log, k);
      if k in t {
        var v: nat :| 1 <= v <= m.version && k == U64Be(v);
      } else {
        var i: nat :| i < |log| && log[i].payload.Normal? && k == KeyAt(m.version, i);
        assert k == U64Be(m.version + 1 + i);
      }
    }
  }

  lemma {:induction false} LastCommand(log: seq<Entry>) returns (n: nat)
    requires !NoCommand(log)
    ensures n < |log| && log[n].payload.Normal? && forall i :: n < i < |log| ==> !log[i].payload.Normal?
  {
    n := |log| - 1;
    if !log[n].payload.Normal? {
      assert !NoCommand(log[..n]) by {
        var i :| 0 <= i < |log| && log[i].payload.Normal?;
        assert log[..n][i] == log[i];
      }
      n := LastCommand(log[..|log| - 1]);
    }
  }

  /** A run under the lower counter never reaches the last key of the run under the higher one. */
  lemma HighestKeyIsMissing(t: Table, top: nat, low: nat, high: nat, log: seq<Entry>, n: nat)
    requires Within(t, top) && top <= high && low < high && high + |log| < VERSION_LIMIT
    requires n < |log| && log[n].payload.Normal? && forall i :: n < i < |log| ==> !log[i].payload.Normal?
    ensures KeyAt(high, n) in Filed(t, high, log) && KeyAt(high, n) !in Filed(t, low, log)
  {
    hide Filed, U64Be, Within;
    var k := KeyAt(high, n);
    FiledKeys(t, high, log, k);
    FiledKeys(t, low, log, k);
    AboveTop(t, top, high + 1 + n);
    if Files(low, log, k) {
      var i: nat :| i < |log| && log[i].payload.Normal? && k == KeyAt(low, i);
      U64BeOrder(low + 1 + i, high + 1 + n);
    }
  }

  lemma AboveTop(t: Table, top: nat, v: nat)
    requires Within(t, top) && top < v < VERSION_LIMIT
    ensures U64Be(v) !in t
  {
    hide U64Be;
    if U64Be(v) in t {
      var w: nat :| 1 <= w <= top && U64Be(v) == U64Be(w);
      U64BeOrder(v, w);
    }
  }

  /** Filing a log from two counters gives one audit log exactly when the counters agree or there is nothing
  to file. */
  lemma FiledAgreeIff(t: Table, top: nat, a: nat, b: nat, log: seq<Entry>)
    requires Within(t, top) && b == top && a + |log| < VERSION_LIMIT && b + |log| < VERSION_LIMIT
    ensures Filed(t, a, log) == Filed(t, b, log) <==> a == b || NoCommand(log)
  {
    hide Filed, Within;
    if NoCommand(log) {
      FiledNothing(t, a, log);
      FiledNothing(t, b, log);
    } else if a != b {
      var n := LastCommand(log);
      HighestKeyIsMissing(t, top, if a < b then a else b, if a < b then b else a, log, n);
    }
  }

  // ----- what the records say -----

  lemma {:induction false} FiledKeepsBelow(t: Table, version: nat, log: seq<Entry>, v: nat)
    requires v <= version && version + |log| < VERSION_LIMIT && U64Be(v) in t
    ensures U64Be(v) in Filed(t, version, log) && Filed(t, version, log)[U64Be(v)] == t[U64Be(v)]
    decreases |log|
  {
    hide U64Be, AuditOf;
    if log != [] {
      U64BeOrder(v, version + 1);
      FiledKeepsBelow(File(t, log[0], version + 1), version + 1, log[1..], v);
    }
  }

  lemma {:induction false} FiledAt(t: Table, version: nat, log: seq<Entry>, i: nat)
    requires i < |log| && log[i].payload.Normal? && version + |log| < VERSION_LIMIT
    ensures KeyAt(version, i) in Filed(t, version, log)
    ensures Filed(t, version, log)[KeyAt(version, i)] == AuditV(AuditOf(log[i], version + 1 + i))
    decreases |log|
  {
    hide U64Be, AuditOf;
    if i == 0 {
      FiledKeepsBelow(File(t, log[0], version + 1), version + 1, log[1..], version + 1);
    } else {
      FiledAt(File(t, log[0], version + 1), version + 1, log[1..], i - 1);
    }
  }

  /** After a whole log, the record of each of its commands holds the command's position as its version, who asked or
  the system when nobody is named, and what was asked. */
  lemma EveryCommandIsAudited(f: Applier, m: Machine, log: seq<Entry>, i: nat)
    requires Contained(f) && !ApplyAll(f, m, log).failed && m.version + |log| < VERSION_LIMIT
    requires i < |log| && log[i].payload.Normal?
    ensures var t, v := ApplyAll(f, m, log).machine.store.At(AuditLog), m.version + 1 + i;
            && U64Be(v) in t && t[U64Be(v)].AuditV?
            && t[U64Be(v)].audit.version == v
            && (log[i].payload.audit.Some? ==> t[U64Be(v)].audit.context == log[i].payload.audit.value)
            && (log[i].payload.audit.None? ==> t[U64Be(v)].audit.context == SYSTEM)
            && t[U64Be(v)].audit.action == ActionOf(log[i].payload.cmd)
  {
    hide Contained, ApplyAll, Filed, U64Be, ActionOf;
    AuditTracks(f, m, log);
    FiledAt(m.store.At(AuditLog), m.version, log, i);
  }

  // ----- resuming from a snapshot -----

  /** Audit records survive a resume exactly when the replica's counter already stood at the snapshot's
  version, or the rest of the log holds no command. Both can be told before resuming. */
  lemma AuditAgreesIff(f: Applier, mid: Machine, replica: Machine, meta: SnapshotMeta, installed: Machine,
                       suffix: seq<Entry>)
    requires Contained(f) && !ApplyAll(f, mid, suffix).failed && Within(mid.store.At(AuditLog), mid.version)
    requires installed == Install(replica, Collected(mid.store, SnapshotKeyspaces()), meta)
    requires mid.version + |suffix| < VERSION_LIMIT && replica.version + |suffix| < VERSION_LIMIT
    ensures !ApplyAll(f, installed, suffix).failed
    ensures (ApplyAll(f, installed, suffix).machine.store.At(AuditLog)
             == ApplyAll(f, mid, suffix).machine.store.At(AuditLog))
            <==> replica.version == mid.version || NoCommand(suffix)
  {
    hide ApplyAll, Collected, SnapshotKeyspaces, InstallOps, Contained, Commit, Within, NoCommand;
    InstalledSucceeds(f, mid, replica, meta, suffix);
    InstallRestores(replica, mid.store, meta, AuditLog);
    AuditTracks(f, mid, suffix);
    AuditTracks(f, installed, suffix);
    FiledAgreeIff(mid.store.At(AuditLog), mid.version, replica.version, mid.version, suffix);
  }

  /** For a fleet that started fresh: a replica that resumes from the snapshot of a log ends with the audit
  log of a straight replay exactly when its counter is the length of that log, or nothing that follows is
  a command. */
  lemma AuditReplayIff(f: Applier, replica: Machine, meta: SnapshotMeta, log: seq<Entry>, suffix: seq<Entry>,
                       mid: Machine, installed: Machine)
    requires Contained(f) && ApplyAll(f, Machine(EMPTY, 0), log) == Run(mid, false)
    requires !ApplyAll(f, mid, suffix).failed
    requires installed == Install(replica, Collected(mid.store, SnapshotKeyspaces()), meta)
    requires |log| + |suffix| < VERSION_LIMIT && replica.version + |suffix| < VERSION_LIMIT
    ensures (ApplyAll(f, installed, suffix).machine.store.At(AuditLog)
             == ApplyAll(f, mid, suffix).machine.store.At(AuditLog))
            <==> replica.version == |log| || NoCommand(suffix)
  {
    hide ApplyAll, Contained, Collected, SnapshotKeyspaces, Install, NoCommand;
    AuditTracks(f, Machine(EMPTY, 0), log);
    AuditStaysWithin(f, Machine(EMPTY, 0), log);
    AuditAgreesIff(f, mid, replica, meta, installed, suffix);
  }

  /** A replica whose counter lags overwrites: a fresh replica that installs the snapshot of the first
  command and applies the second files the second command under version 1, where the origin keeps the
  first. */
  lemma FreshReplicaOverwritesAudit(f: Applier, meta: SnapshotMeta, first: Entry, second: Entry,
                                    mid: Machine, last: Machine, installed: Machine, resumed: Machine)
    requires Contained(f) && first.payload.Normal? && second.payload.Normal?
    requires ApplyEntry(f, Machine(EMPTY, 0), first) == Ok(mid)
    requires ApplyEntry(f, mid, second) == Ok(last)
    requires installed == Install(Machine(EMPTY, 0), Collected(mid.store, SnapshotKeyspaces()), meta)
    requires ApplyEntry(f, installed, second) == Ok(resumed)
    ensures U64Be(1) in last.store.At(AuditLog) && U64Be(1) in resumed.store.At(AuditLog)
    ensures last.store.At(AuditLog)[U64Be(1)] == AuditV(AuditOf(first, 1))
    ensures resumed.store.At(AuditLog)[U64Be(1)] == AuditV(AuditOf(second, 1))
  {
    hide Collected, SnapshotKeyspaces, InstallOps, Contained, Commit, StampOps, PayloadOps, U64Be, AuditOf;
    AuditStep(f, Machine(EMPTY, 0), first);
    AuditStep(f, mid, second);
    U64BeOrder(1, 2);
    AuditStep(f, installed, second);
  }
}
