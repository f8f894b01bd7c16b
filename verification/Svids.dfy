/** The identity of an evicted node stays revoked until a pruning goes past its expiry. */
module Svids {
  import opened Storage
  import opened Commands
  import opened PlacementTable

  /** Revocations are stored under the identity they revoke. */
  ghost predicate KeyedById(t: Table) {
    forall k :: k in t && t[k].RevokedSvidV? ==> t[k].spiffeId == k
  }

  /** The identity is revoked until at least `until`. */
  predicate RevokedUntil(t: Table, n: string, until: int) {
    n in t && t[n].RevokedSvidV? && t[n].expiresAt >= until
  }

  /** The rows a pruning removes. */
  function Expired(t: Table, cutoff: int): set<string> {
    set k | k in t && t[k].RevokedSvidV? && t[k].expiresAt < cutoff
  }

  /** The identities of the expired revocations among these rows. */
  function ExpiredIds(rows: seq<Value>, cutoff: int): set<string> {
    set v | v in rows && v.RevokedSvidV? && v.expiresAt < cutoff :: v.spiffeId
  }

  lemma ExpiredIdsSnoc(rows: seq<Value>, v: Value, cutoff: int)
    ensures ExpiredIds(rows + [v], cutoff)
         == ExpiredIds(rows, cutoff) + if v.RevokedSvidV? && v.expiresAt < cutoff then {v.spiffeId} else {}
  {
  }

  lemma MinusTwice(t: Table, gone: set<string>, k: string)
    ensures t - gone - {k} == t - (gone + {k})
    ensures t - {} == t && gone + {} == gone
  {
  }

  lemma NothingExpired(s: Store, cutoff: int)
    ensures Commit(s, ExpiredOps([], cutoff)) == s && ExpiredIds([], cutoff) == {}
  {
  }

  lemma ExpiredOpsSnoc(rows: seq<Value>, v: Value, cutoff: int)
    ensures ExpiredOps(rows + [v], cutoff)
         == ExpiredOps(rows, cutoff)
            + if v.RevokedSvidV? && v.expiresAt < cutoff then [Del(RevokedSvids, v.spiffeId)] else []
  {
    assert (rows + [v])[..|rows|] == rows;
  }

  lemma {:induction false} ExpiredOpsTable(s: Store, rows: seq<Value>, cutoff: int)
    ensures Commit(s, ExpiredOps(rows, cutoff)).At(RevokedSvids) == s.At(RevokedSvids) - ExpiredIds(rows, cutoff)
  {
    hide Commit, ExpiredIds, ExpiredOps;
    if rows == [] {
      NothingExpired(s, cutoff);
      MinusTwice(s.At(RevokedSvids), {}, "");
    } else {
      var init, last := rows[..|rows| - 1], rows[|rows| - 1];
      assert rows == init + [last];
      ExpiredOpsTable(s, init, cutoff);
      ExpiredOpsSnoc(init, last, cutoff);
      ExpiredIdsSnoc(init, last, cutoff);
      if last.RevokedSvidV? && last.expiresAt < cutoff {
        CommitSnoc(s, ExpiredOps(init, cutoff), Del(RevokedSvids, last.spiffeId));
        MinusTwice(s.At(RevokedSvids), ExpiredIds(init, cutoff), last.spiffeId);
      } else {
        MinusTwice(s.At(RevokedSvids), ExpiredIds(init, cutoff), "");
        assert ExpiredOps(init, cutoff) + [] == ExpiredOps(init, cutoff);
      }
    }
  }

  /** A pruning removes exactly the revocations that expired before the cutoff. */
  lemma PruneIsExact(spiffe: string -> bool, s: Store, cutoff: int)
    requires KeyedById(s.At(RevokedSvids))
    ensures Step(spiffe, s, PruneExpiredRevokedSvids(cutoff)).Ok?
    ensures Step(spiffe, s, PruneExpiredRevokedSvids(cutoff)).value.At(RevokedSvids)
         == s.At(RevokedSvids) - Expired(s.At(RevokedSvids), cutoff)
  {
    var t, cmd := s.At(RevokedSvids), PruneExpiredRevokedSvids(cutoff);
    BatchOfScans(spiffe, Reads(s), cmd);
    hide Batch, ExpiredOps, Rows, Commit, ExpiredIds, Expired;
    ExpiredOpsTable(s, Rows(t), cutoff);
    ExpiredRows(t, cutoff);
  }

  lemma ExpiredRows(t: Table, cutoff: int)
    requires KeyedById(t)
    ensures ExpiredIds(Rows(t), cutoff) == Expired(t, cutoff)
  {
    hide Rows;
    forall k | k in Expired(t, cutoff)
      ensures k in ExpiredIds(Rows(t), cutoff)
    {
      RowsContain(t, t[k]);
      assert t[k] in Rows(t);
    }
    forall v | v in Rows(t) && v.RevokedSvidV? && v.expiresAt < cutoff
      ensures v.spiffeId in Expired(t, cutoff)
    {
      RowsContain(t, v);
    }
  }

  /** Evicting a node revokes its identity until the given expiry. */
  lemma EvictRevokes(spiffe: string -> bool, s: Store, n: string, expiresAt: int)
    requires Step(spiffe, s, EvictNode(n, expiresAt)).Ok?
    ensures Step(spiffe, s, EvictNode(n, expiresAt)).value.At(RevokedSvids)
         == s.At(RevokedSvids)[n := RevokedSvidV(n, expiresAt)]
  {
    hide RevokeOps, RemoveOps, Select, Rows, DelegationRows, Commit, EvictedRecord, Batch;
    BatchOfScans(spiffe, Reads(s), EvictNode(n, expiresAt));
    var batch := Batch(spiffe, Reads(s), EvictNode(n, expiresAt)).value;
    var rows := DelegationRows(s.At(ActiveDelegations), n);
    var hosted := Select(Rows(s.At(Placements)), OnNode(n));
    var put := Put(RevokedSvids, n, RevokedSvidV(n, expiresAt));
    var before := [Put(Nodes, n, NodeV(EvictedRecord(s.At(Nodes), n).value))] + RevokeOps(rows) + RemoveOps(hosted);
    RevokeOpsTouch(rows);
    RemoveOpsTouch(hosted);
    CommitMiddle(s, before, [put], [], RevokedSvids);
    assert before + [put] + [] == batch;
    CommitOne(s, put);
  }

  /** Commands that may end the revocation early: a pruning past it, or another eviction with an earlier expiry. */
  predicate Shortens(cmd: Command, n: string, until: int) {
    || (cmd.PruneExpiredRevokedSvids? && cmd.cutoff > until)
    || (cmd.EvictNode? && cmd.nodeId == n && cmd.svidExpiresAt < until)
  }

  lemma SvidWriters(cmd: Command)
    requires MayWrite(cmd, RevokedSvids)
    ensures cmd.EvictNode? || cmd.PruneExpiredRevokedSvids?
  {
  }

  lemma StepKeepsRevoked(spiffe: string -> bool, s: Store, cmd: Command, n: string, until: int)
    requires KeyedById(s.At(RevokedSvids)) && Step(spiffe, s, cmd).Ok?
    ensures KeyedById(Step(spiffe, s, cmd).value.At(RevokedSvids))
    ensures RevokedUntil(s.At(RevokedSvids), n, until) && !Shortens(cmd, n, until) ==>
              RevokedUntil(Step(spiffe, s, cmd).value.At(RevokedSvids), n, until)
  {
    hide Step, MayWrite;
    if !MayWrite(cmd, RevokedSvids) {
      StepFrame(spiffe, s, cmd, RevokedSvids);
    } else {
      SvidWriters(cmd);
      if cmd.EvictNode? {
        EvictRevokes(spiffe, s, cmd.nodeId, cmd.svidExpiresAt);
      } else {
        PruneIsExact(spiffe, s, cmd.cutoff);
      }
    }
  }

  /** From a node's eviction on, whatever commands are applied, its identity stays revoked until a pruning goes past
  the expiry or the node is evicted again with an earlier one. */
  lemma {:induction false} EvictedNodeStaysRevoked(spiffe: string -> bool, s: Store, cmds: seq<Command>, n: string,
                                                   until: int)
    requires KeyedById(s.At(RevokedSvids)) && RevokedUntil(s.At(RevokedSvids), n, until)
    requires Steps(spiffe, s, cmds).Ok? && forall i :: 0 <= i < |cmds| ==> !Shortens(cmds[i], n, until)
    ensures RevokedUntil(Steps(spiffe, s, cmds).value.At(RevokedSvids), n, until)
    decreases |cmds|
  {
    hide Step, Shortens, KeyedById, RevokedUntil;
    if cmds != [] {
      StepKeepsRevoked(spiffe, s, cmds[0], n, until);
      EvictedNodeStaysRevoked(spiffe, Step(spiffe, s, cmds[0]).value, cmds[1..], n, until);
    }
  }
}
