/** Replay equivalence: the application state depends on the log alone, however the log is split
into `apply` calls and wherever a snapshot is taken and installed. */
module Replication {
  import opened Storage
  import opened Commands
  import opened Machine

  /** Tables whose content is a function of the log: all snapshotted ones except the version and
  the audit log, whose keys come from the in-memory counter, and the raft bookkeeping. */
  predicate Replicated(ks: Keyspace) {
    Snapshotted(ks) && !ks.VersionKs? && !ks.AuditLog? && !ks.RaftState?
  }

  /** Raft bookkeeping without the note of the last installed snapshot. */
  function Bookkeeping(s: Store): Table {
    s.At(RaftState) - {SNAPSHOT_META}
  }

  ghost predicate SameAt(a: Store, b: Store, ks: Keyspace) {
    a.At(ks) == b.At(ks)
  }

  ghost predicate SameTables(a: Store, b: Store) {
    forall ks :: Replicated(ks) ==> SameAt(a, b, ks)
  }

  lemma SameTable(a: Store, b: Store, ks: Keyspace)
    requires SameTables(a, b) && Replicated(ks)
    ensures a.At(ks) == b.At(ks)
  {
    assert SameAt(a, b, ks);
  }

  /** Two databases hold the same application state. */
  ghost predicate Agree(a: Store, b: Store) {
    SameTables(a, b) && Bookkeeping(a) == Bookkeeping(b)
  }

  // ----- a command reads and writes replicated tables only -----

  lemma WritesReplicated(cmd: Command, ks: Keyspace)
    requires MayWrite(cmd, ks)
    ensures Replicated(ks)
  {
  }

  lemma ReadsReplicated(a: Store, b: Store)
    requires SameTables(a, b)
    ensures Reads(a) == Reads(b)
  {
    SameTable(a, b, Nodes);
    SameTable(a, b, Placements);
    SameTable(a, b, ActiveDelegations);
    SameTable(a, b, RevokedSvids);
    SameTable(a, b, NodeTaints);
    SameTable(a, b, NodeEks);
    SameTable(a, b, Secrets);
    SameTable(a, b, WorkloadStatuses);
  }

  lemma PayloadReadsReplicated(f: Applier, a: Store, b: Store, e: Entry)
    requires Agree(a, b)
    ensures PayloadOps(f, a, e) == PayloadOps(f, b, e)
  {
    if e.payload.Normal? {
      ReadsReplicated(a, b);
    }
  }

  /** The payload never touches the counter-keyed tables, and touches the bookkeeping only for
  membership. */
  lemma PayloadSpares(f: Applier, s: Store, e: Entry)
    requires Contained(f) && PayloadOps(f, s, e).Ok?
    ensures Spares(PayloadOps(f, s, e).value, VersionKs)
    ensures Spares(PayloadOps(f, s, e).value, AuditLog)
    ensures !e.payload.Membership? ==> Spares(PayloadOps(f, s, e).value, RaftState)
  {
    if e.payload.Normal? {
      var cmd := e.payload.cmd;
      var batch := f(Reads(s), cmd).value;
      forall i | 0 <= i < |batch|
        ensures Replicated(batch[i].ks)
      {
        WritesReplicated(cmd, batch[i].ks);
      }
    }
  }

  /** Stamping leaves replicated tables alone and records the position. */
  lemma StampEffect(s: Store, e: Entry, version: nat)
    ensures forall ks :: Replicated(ks) ==> Commit(s, StampOps(e, version)).At(ks) == s.At(ks)
    ensures Commit(s, StampOps(e, version)).At(RaftState) == s.At(RaftState)[LAST_APPLIED := LogIdV(e.logId)]
    ensures Commit(s, StampOps(e, version)).At(VersionKs) == s.At(VersionKs)[CURRENT := NumberV(version)]
  {
    var stamp := StampOps(e, version);
    forall ks | Replicated(ks)
      ensures Commit(s, stamp).At(ks) == s.At(ks)
    {
      CommitFrame(s, stamp, ks);
    }
    var two := [Put(RaftState, LAST_APPLIED, LogIdV(e.logId)), Put(VersionKs, CURRENT, NumberV(version))];
    assert two[..1][..0] == [] && two[..1][0] == two[0];
    var both := Commit(s, two);
    assert Commit(s, two[..1]) == Exec(s, two[0]);
    CommitConcat(s, two, stamp[2..]);
    assert stamp == two + stamp[2..];
    CommitFrame(both, stamp[2..], RaftState);
    CommitFrame(both, stamp[2..], VersionKs);
  }

  /** The effect of a batch on a table without one key depends on the table without that key. */
  lemma {:induction false} CommitWithout(a: Store, b: Store, ops: seq<Op>, ks: Keyspace, key: string)
    requires a.At(ks) - {key} == b.At(ks) - {key}
    ensures Commit(a, ops).At(ks) - {key} == Commit(b, ops).At(ks) - {key}
  {
    if ops != [] {
      var init, op := ops[..|ops| - 1], ops[|ops| - 1];
      CommitWithout(a, b, init, ks, key);
      ExecWithout(Commit(a, init), Commit(b, init), op, ks, key);
    }
  }

  lemma ExecWithout(a: Store, b: Store, op: Op, ks: Keyspace, key: string)
    requires a.At(ks) - {key} == b.At(ks) - {key}
    ensures Exec(a, op).At(ks) - {key} == Exec(b, op).At(ks) - {key}
  {
    var t, u := a.At(ks), b.At(ks);
    if op.ks == ks {
      var t', u' := Exec(a, op).At(ks), Exec(b, op).At(ks);
      assert forall k :: k in t - {key} <==> k in u - {key};
      assert (t' - {key}).Keys == (u' - {key}).Keys by {
        forall k
          ensures k in t' - {key} <==> k in u' - {key}
        {
          assert k in t && k != key <==> k in t - {key};
          assert k in u && k != key <==> k in u - {key};
        }
      }
      forall k | k in t' - {key}
        ensures t'[k] == u'[k]
      {
        if k != op.key {
          assert t[k] == (t - {key})[k] && u[k] == (u - {key})[k];
        }
      }
    } else {
      ExecOther(a, op, ks);
      ExecOther(b, op, ks);
    }
  }

  /** The same batch takes agreeing databases to agreeing databases. */
  lemma CommitAgree(a: Store, b: Store, ops: seq<Op>)
    requires Agree(a, b)
    ensures Agree(Commit(a, ops), Commit(b, ops))
  {
    forall ks | Replicated(ks)
      ensures SameAt(Commit(a, ops), Commit(b, ops), ks)
    {
      SameTable(a, b, ks);
      CommitLocal(a, b, ops, ks);
    }
    CommitWithout(a, b, ops, RaftState, SNAPSHOT_META);
  }

  /** Stamps that differ in the version only keep databases in agreement. */
  lemma StampAgree(a: Store, b: Store, e: Entry, v: nat, w: nat)
    requires Agree(a, b)
    ensures Agree(Commit(a, StampOps(e, v)), Commit(b, StampOps(e, w)))
  {
    StampEffect(a, e, v);
    StampEffect(b, e, w);
    forall ks | Replicated(ks)
      ensures SameAt(Commit(a, StampOps(e, v)), Commit(b, StampOps(e, w)), ks)
    {
      SameTable(a, b, ks);
    }
    var op := Put(RaftState, LAST_APPLIED, LogIdV(e.logId));
    ExecWithout(a, b, op, RaftState, SNAPSHOT_META);
    assert Exec(a, op).At(RaftState) == a.At(RaftState)[LAST_APPLIED := LogIdV(e.logId)];
    assert Exec(b, op).At(RaftState) == b.At(RaftState)[LAST_APPLIED := LogIdV(e.logId)];
  }

  /** One entry takes agreeing machines to agreeing machines, or fails on both, whatever their
  version counters are. */
  lemma ApplyEntryAgree(f: Applier, m: Machine, n: Machine, e: Entry)
    requires Agree(m.store, n.store)
    ensures ApplyEntry(f, m, e).Ok? <==> ApplyEntry(f, n, e).Ok?
    ensures ApplyEntry(f, m, e).Ok? ==>
              Agree(ApplyEntry(f, m, e).value.store, ApplyEntry(f, n, e).value.store)
  {
    PayloadReadsReplicated(f, m.store, n.store, e);
    var r := PayloadOps(f, m.store, e);
    if r.Ok? {
      var ops := r.value;
      CommitAgree(m.store, n.store, ops);
      StampAgree(Commit(m.store, ops), Commit(n.store, ops), e, m.version + 1, n.version + 1);
      CommitConcat(m.store, ops, StampOps(e, m.version + 1));
      CommitConcat(n.store, ops, StampOps(e, n.version + 1));
    }
  }

  /** Replaying one log on two machines that agree leaves them in agreement. */
  lemma {:induction false} ReplayAgree(f: Applier, m: Machine, n: Machine, log: seq<Entry>)
    requires Agree(m.store, n.store)
    ensures ApplyAll(f, m, log).failed == ApplyAll(f, n, log).failed
    ensures Agree(ApplyAll(f, m, log).machine.store, ApplyAll(f, n, log).machine.store)
    decreases |log|
  {
    if log != [] {
      ApplyEntryAgree(f, m, n, log[0]);
      var r, q := ApplyEntry(f, m, log[0]), ApplyEntry(f, n, log[0]);
      if r.Ok? {
        ReplayAgree(f, r.value, q.value, log[1..]);
      }
    }
  }

  // ----- splitting a log into apply calls -----

  /** Successive `apply` calls, stopping at the first that fails. */
  function ApplyCalls(f: Applier, m: Machine, calls: seq<seq<Entry>>): Run
    decreases |calls|
  {
    if calls == [] then Run(m, false)
    else
      var first := ApplyAll(f, m, calls[0]);
      if first.failed then first else ApplyCalls(f, first.machine, calls[1..])
  }

  function Flatten(calls: seq<seq<Entry>>): seq<Entry> {
    if calls == [] then [] else calls[0] + Flatten(calls[1..])
  }

  lemma {:induction false} ApplyAllConcat(f: Applier, m: Machine, a: seq<Entry>, b: seq<Entry>)
    ensures ApplyAll(f, m, a + b)
         == if ApplyAll(f, m, a).failed then ApplyAll(f, m, a)
            else ApplyAll(f, ApplyAll(f, m, a).machine, b)
    decreases |a|
  {
    if a == [] {
      assert a + b == b;
    } else {
      assert (a + b)[0] == a[0] && (a + b)[1..] == a[1..] + b;
      var r := ApplyEntry(f, m, a[0]);
      if r.Ok? {
        ApplyAllConcat(f, r.value, a[1..], b);
      }
    }
  }

  /** The first entry that fails stops a call: the machine is the one the entries before it left, whatever comes
  after it. */
  lemma FailureStops(f: Applier, m: Machine, done: seq<Entry>, e: Entry, rest: seq<Entry>)
    requires !ApplyAll(f, m, done).failed && ApplyEntry(f, ApplyAll(f, m, done).machine, e).Err?
    ensures ApplyAll(f, m, done + [e] + rest) == Run(ApplyAll(f, m, done).machine, true)
  {
    hide ApplyEntry;
    ApplyAllConcat(f, m, done, [e] + rest);
    assert done + [e] + rest == done + ([e] + rest);
    assert ([e] + rest)[0] == e;
  }

  /** Any split of a log into `apply` calls gives exactly the state of one straight replay,
  version and audit log included. */
  lemma {:induction false} SplitReplay(f: Applier, m: Machine, calls: seq<seq<Entry>>)
    ensures ApplyCalls(f, m, calls) == ApplyAll(f, m, Flatten(calls))
    decreases |calls|
  {
    if calls != [] {
      ApplyAllConcat(f, m, calls[0], Flatten(calls[1..]));
      var first := ApplyAll(f, m, calls[0]);
      if !first.failed {
        SplitReplay(f, first.machine, calls[1..]);
      }
    }
  }
}
