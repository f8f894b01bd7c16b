/** Delegations move from active to revoked and are never lost, in every run of commands. */
module Delegations {
  import opened Decimal
  import opened Records
  import opened Bytes
  import opened Keys
  import opened Storage
  import opened Commands

  /** SPIFFE parsing accepts only identifiers within the standard's length limit. */
  ghost predicate Bounded(spiffe: string -> bool) {
    forall id :: spiffe(id) ==> |id| <= MAX_SPIFFE_ID
  }

  /** A delegation record carries a parsed SPIFFE ID. */
  predicate Typed(spiffe: string -> bool, cmd: Command) {
    cmd.IssueDelegation? ==> spiffe(cmd.delegation.nodeId)
  }

  predicate KeyedRow(k: string, v: Value) {
    && v.DelegationV? && |v.delegation.nodeId| <= MAX_SPIFFE_ID
    && k == DelegationKey(v.delegation.nodeId, v.delegation.delegationId)
  }

  /** Every active delegation is stored under the key its own fields give. */
  ghost predicate WellKeyed(active: Table) {
    forall k :: k in active ==> KeyedRow(k, active[k])
  }

  /** The keys of one node's delegations. */
  function KeysOfNode(active: Table, node: string): set<string> {
    set k | k in active && active[k].DelegationV? && active[k].delegation.nodeId == node
  }

  // ----- eviction -----

  /** The prefix scan of an eviction finds exactly the node's delegations. */
  lemma ScanIsExact(active: Table, node: string)
    requires WellKeyed(active) && |node| <= MAX_SPIFFE_ID
    ensures (set k | k in active.Keys && DelegationPrefix(node) <= k) == KeysOfNode(active, node)
  {
    forall k | k in active
      ensures DelegationPrefix(node) <= k <==> active[k].delegation.nodeId == node
    {
      var d := active[k].delegation;
      DelegationPrefixExact(node, d.nodeId, d.delegationId);
    }
  }

  lemma RevokeSnoc(active: Table, keys: seq<string>)
    requires keys != [] && keys[|keys| - 1] in active && KeyedRow(keys[|keys| - 1], active[keys[|keys| - 1]])
    ensures var last := keys[|keys| - 1];
            RevokeOps(RowsAt(active, keys))
            == RevokeOps(RowsAt(active, keys[..|keys| - 1]))
               + [Del(ActiveDelegations, last), Put(RevokedDelegations, last, active[last])]
  {
    var rows := RowsAt(active, keys);
    assert rows[..|rows| - 1] == RowsAt(active, keys[..|keys| - 1]);
  }

  /** Revoking scanned rows moves their keys, with their records, from active to revoked. */
  lemma {:induction false} RevokeOpsMove(s: Store, active: Table, keys: seq<string>)
    requires forall k :: k in keys ==> k in active && KeyedRow(k, active[k])
    ensures Commit(s, RevokeOps(RowsAt(active, keys))).At(ActiveDelegations)
         == s.At(ActiveDelegations) - (set k | k in keys)
    ensures Commit(s, RevokeOps(RowsAt(active, keys))).At(RevokedDelegations)
         == s.At(RevokedDelegations) + Part(active, keys)
  {
    if keys != [] {
      var init, last := keys[..|keys| - 1], keys[|keys| - 1];
      assert keys == init + [last];
      RevokeOpsMove(s, active, init);
      RevokeSnoc(active, keys);
      var before := Commit(s, RevokeOps(RowsAt(active, init)));
      CommitTwo(s, RevokeOps(RowsAt(active, init)), Del(ActiveDelegations, last),
                Put(RevokedDelegations, last, active[last]));
      ExecOther(before, Del(ActiveDelegations, last), RevokedDelegations);
      ExecOther(Exec(before, Del(ActiveDelegations, last)), Put(RevokedDelegations, last, active[last]),
                ActiveDelegations);
      PartSnoc(s.At(RevokedDelegations), active, init, last);
      MinusSnoc(s.At(ActiveDelegations), init, last);
    }
  }

  lemma MinusSnoc(t: Table, keys: seq<string>, last: string)
    ensures t - (set k | k in keys + [last]) == (t - (set k | k in keys)) - {last}
  {
  }

  /** The four parts of an eviction's batch, grouped around the revocations. */
  lemma EvictParts(spiffe: string -> bool, nodes: Table, active: Table, placements: Table, n: string,
                   expiresAt: int, batch: seq<Op>)
    returns (before: seq<Op>, after: seq<Op>)
    requires EvictBatch(spiffe, nodes, active, placements, n, expiresAt) == Ok(batch)
    ensures batch == before + RevokeOps(DelegationRows(active, n)) + after
    ensures forall op :: op in before ==> op.ks.Nodes?
    ensures forall op :: op in after ==> op.ks.Placements? || op.ks.RevokedSvids?
  {
    var hosted := Select(Rows(placements), OnNode(n));
    RemoveOpsTouch(hosted);
    before := [Put(Nodes, n, NodeV(EvictedRecord(nodes, n).value))];
    after := RemoveOps(hosted) + [Put(RevokedSvids, n, RevokedSvidV(n, expiresAt))];
  }

  /** The delegation tables after an eviction are those after its revocations. */
  lemma EvictRevokes(spiffe: string -> bool, s: Store, n: string, expiresAt: int, batch: seq<Op>, ks: Keyspace)
    requires EvictBatch(spiffe, s.At(Nodes), s.At(ActiveDelegations), s.At(Placements), n, expiresAt) == Ok(batch)
    requires ks.ActiveDelegations? || ks.RevokedDelegations?
    ensures Commit(s, batch).At(ks) == Commit(s, RevokeOps(DelegationRows(s.At(ActiveDelegations), n))).At(ks)
  {
    var before, after := EvictParts(spiffe, s.At(Nodes), s.At(ActiveDelegations), s.At(Placements), n, expiresAt,
                                    batch);
    CommitMiddle(s, before, RevokeOps(DelegationRows(s.At(ActiveDelegations), n)), after, ks);
  }

  /** A table whose keys of one node have moved to another table. */
  ghost predicate Moved(active: Table, revoked: Table, active': Table, revoked': Table, n: string) {
    && active' == active - KeysOfNode(active, n)
    && revoked' == revoked + (map k | k in KeysOfNode(active, n) && k in active :: active[k])
  }

  lemma ScanMoves(s: Store, n: string)
    requires WellKeyed(s.At(ActiveDelegations)) && |n| <= MAX_SPIFFE_ID
    ensures var next := Commit(s, RevokeOps(DelegationRows(s.At(ActiveDelegations), n)));
            Moved(s.At(ActiveDelegations), s.At(RevokedDelegations),
                  next.At(ActiveDelegations), next.At(RevokedDelegations), n)
  {
    hide Commit, RevokeOps, WellKeyed, KeysOfNode, DelegationPrefix, KeyedRow;
    var active := s.At(ActiveDelegations);
    var keys := PrefixKeys(active, DelegationPrefix(n));
    ScanKeys(active, n);
    RevokeOpsMove(s, active, keys);
    PartOfSet(active, keys, KeysOfNode(active, n));
  }

  /** The keys of the scan are the node's, each well keyed. */
  lemma ScanKeys(active: Table, n: string)
    requires WellKeyed(active) && |n| <= MAX_SPIFFE_ID
    ensures (set k | k in PrefixKeys(active, DelegationPrefix(n))) == KeysOfNode(active, n)
    ensures forall k :: k in PrefixKeys(active, DelegationPrefix(n)) ==> k in active && KeyedRow(k, active[k])
  {
    hide DelegationPrefix, KeyedRow;
    ScanIsExact(active, n);
    AscendingElements(KeysOfNode(active, n));
  }

  lemma PartOfSet(t: Table, keys: seq<string>, ks: set<string>)
    requires (set k | k in keys) == ks
    ensures Part(t, keys) == (map k | k in ks && k in t :: t[k])
  {
    assert forall k :: k in keys <==> k in ks;
  }

  /** Evicting a node moves exactly its delegations from active to revoked, records unchanged, and
  touches no other node's. */
  lemma EvictMovesExactly(spiffe: string -> bool, s: Store, n: string, expiresAt: int, batch: seq<Op>)
    requires Bounded(spiffe) && WellKeyed(s.At(ActiveDelegations))
    requires EvictBatch(spiffe, s.At(Nodes), s.At(ActiveDelegations), s.At(Placements), n, expiresAt) == Ok(batch)
    ensures Moved(s.At(ActiveDelegations), s.At(RevokedDelegations),
                  Commit(s, batch).At(ActiveDelegations), Commit(s, batch).At(RevokedDelegations), n)
  {
    EvictRevokes(spiffe, s, n, expiresAt, batch, ActiveDelegations);
    EvictRevokes(spiffe, s, n, expiresAt, batch, RevokedDelegations);
    ScanMoves(s, n);
  }

  // ----- every run -----

  /** What every command keeps: the keying, the revoked keys, the delegations known either way, and
  the absence of active delegations for nodes other than `issuedTo`. */
  ghost predicate Kept(s: Store, next: Store, issuedTo: Option<string>) {
    && WellKeyed(next.At(ActiveDelegations))
    && s.At(RevokedDelegations).Keys <= next.At(RevokedDelegations).Keys
    && s.At(ActiveDelegations).Keys + s.At(RevokedDelegations).Keys
       <= next.At(ActiveDelegations).Keys + next.At(RevokedDelegations).Keys
    && (forall n :: issuedTo != Some(n) && KeysOfNode(s.At(ActiveDelegations), n) == {}
                    ==> KeysOfNode(next.At(ActiveDelegations), n) == {})
  }

  lemma MovedIsKept(s: Store, next: Store, n: string)
    requires WellKeyed(s.At(ActiveDelegations))
    requires Moved(s.At(ActiveDelegations), s.At(RevokedDelegations),
                   next.At(ActiveDelegations), next.At(RevokedDelegations), n)
    ensures Kept(s, next, None)
  {
    var active, revoked := s.At(ActiveDelegations), s.At(RevokedDelegations);
    forall m | KeysOfNode(active, m) == {}
      ensures KeysOfNode(next.At(ActiveDelegations), m) == {}
    {
      assert KeysOfNode(next.At(ActiveDelegations), m) <= KeysOfNode(active, m);
    }
  }

  /** Revoking one delegation moves its key, or does nothing when it is not active. */
  lemma RevokeMoves(spiffe: string -> bool, s: Store, n: string, d: string, batch: seq<Op>)
    requires RevokeBatch(spiffe, s.At(ActiveDelegations), n, d) == Ok(batch)
    ensures var key := DelegationKey(n, d);
            && Commit(s, batch).At(ActiveDelegations) == s.At(ActiveDelegations) - {key}
            && Commit(s, batch).At(RevokedDelegations)
               == if key in s.At(ActiveDelegations)
                  then s.At(RevokedDelegations)[key := s.At(ActiveDelegations)[key]]
                  else s.At(RevokedDelegations)
  {
    var key := DelegationKey(n, d);
    if key in s.At(ActiveDelegations) {
      var a, b := Del(ActiveDelegations, key), Put(RevokedDelegations, key, s.At(ActiveDelegations)[key]);
      CommitPair(s, a, b);
      ExecOther(s, a, RevokedDelegations);
      ExecOther(Exec(s, a), b, ActiveDelegations);
    }
  }

  lemma RevokeIsKept(spiffe: string -> bool, s: Store, n: string, d: string, batch: seq<Op>)
    requires WellKeyed(s.At(ActiveDelegations))
    requires RevokeBatch(spiffe, s.At(ActiveDelegations), n, d) == Ok(batch)
    ensures Kept(s, Commit(s, batch), None)
  {
    RevokeMoves(spiffe, s, n, d, batch);
    var active := s.At(ActiveDelegations);
    var active' := Commit(s, batch).At(ActiveDelegations);
    forall m | KeysOfNode(active, m) == {}
      ensures KeysOfNode(active', m) == {}
    {
      assert KeysOfNode(active', m) <= KeysOfNode(active, m);
    }
  }

  lemma IssueIsKept(s: Store, d: DelegationRecord)
    requires WellKeyed(s.At(ActiveDelegations)) && |d.nodeId| <= MAX_SPIFFE_ID
    ensures Kept(s, Commit(s, [Put(ActiveDelegations, DelegationKey(d.nodeId, d.delegationId), DelegationV(d))]),
                 Some(d.nodeId))
  {
    var op := Put(ActiveDelegations, DelegationKey(d.nodeId, d.delegationId), DelegationV(d));
    CommitOne(s, op);
    var active, active' := s.At(ActiveDelegations), Exec(s, op).At(ActiveDelegations);
    ExecOther(s, op, RevokedDelegations);
    forall m | d.nodeId != m && KeysOfNode(active, m) == {}
      ensures KeysOfNode(active', m) == {}
    {
      assert KeysOfNode(active', m) <= KeysOfNode(active, m);
    }
  }

  function IssuedTo(cmd: Command): Option<string> {
    if cmd.IssueDelegation? then Some(cmd.delegation.nodeId) else None
  }

  /** What one command does to the delegations of a well-keyed store. */
  lemma StepKeepsDelegations(spiffe: string -> bool, s: Store, cmd: Command)
    requires Bounded(spiffe) && Typed(spiffe, cmd) && WellKeyed(s.At(ActiveDelegations))
    requires Step(spiffe, s, cmd).Ok?
    ensures Kept(s, Step(spiffe, s, cmd).value, IssuedTo(cmd))
  {
    if cmd.EvictNode? {
      EvictStepKept(spiffe, s, cmd);
    } else if cmd.RevokeDelegation? {
      RevokeIsKept(spiffe, s, cmd.nodeId, cmd.delegationId, Batch(spiffe, Reads(s), cmd).value);
    } else if cmd.IssueDelegation? {
      IssueIsKept(s, cmd.delegation);
    } else {
      OtherStepKept(spiffe, s, cmd);
    }
  }

  lemma EvictStepKept(spiffe: string -> bool, s: Store, cmd: Command)
    requires Bounded(spiffe) && WellKeyed(s.At(ActiveDelegations))
    requires cmd.EvictNode? && Step(spiffe, s, cmd).Ok?
    ensures Kept(s, Step(spiffe, s, cmd).value, None)
  {
    var batch := Batch(spiffe, Reads(s), cmd).value;
    EvictMovesExactly(spiffe, s, cmd.nodeId, cmd.svidExpiresAt, batch);
    MovedIsKept(s, Commit(s, batch), cmd.nodeId);
  }

  lemma SameIsKept(s: Store, next: Store)
    requires WellKeyed(s.At(ActiveDelegations))
    requires next.At(ActiveDelegations) == s.At(ActiveDelegations)
    requires next.At(RevokedDelegations) == s.At(RevokedDelegations)
    ensures Kept(s, next, None)
  {
  }

  lemma DelegationWriters(cmd: Command)
    ensures MayWrite(cmd, ActiveDelegations) ==> cmd.EvictNode? || cmd.RevokeDelegation? || cmd.IssueDelegation?
    ensures MayWrite(cmd, RevokedDelegations) ==> cmd.EvictNode? || cmd.RevokeDelegation?
  {
  }

  lemma OtherStepKept(spiffe: string -> bool, s: Store, cmd: Command)
    requires WellKeyed(s.At(ActiveDelegations)) && Step(spiffe, s, cmd).Ok?
    requires !cmd.EvictNode? && !cmd.RevokeDelegation? && !cmd.IssueDelegation?
    ensures Kept(s, Step(spiffe, s, cmd).value, None)
  {
    DelegationWriters(cmd);
    StepFrame(spiffe, s, cmd, ActiveDelegations);
    StepFrame(spiffe, s, cmd, RevokedDelegations);
    SameIsKept(s, Step(spiffe, s, cmd).value);
  }

  /** In every run, delegations stay well keyed, none is ever dropped from active and revoked taken
  together, and no revoked key is ever removed. */
  lemma {:induction false} DelegationsNeverLost(spiffe: string -> bool, s: Store, cmds: seq<Command>)
    requires Bounded(spiffe) && WellKeyed(s.At(ActiveDelegations))
    requires forall i :: 0 <= i < |cmds| ==> Typed(spiffe, cmds[i])
    requires Steps(spiffe, s, cmds).Ok?
    ensures var end := Steps(spiffe, s, cmds).value;
            && WellKeyed(end.At(ActiveDelegations))
            && s.At(RevokedDelegations).Keys <= end.At(RevokedDelegations).Keys
            && s.At(ActiveDelegations).Keys + s.At(RevokedDelegations).Keys
               <= end.At(ActiveDelegations).Keys + end.At(RevokedDelegations).Keys
    decreases |cmds|
  {
    if cmds != [] {
      StepKeepsDelegations(spiffe, s, cmds[0]);
      DelegationsNeverLost(spiffe, Step(spiffe, s, cmds[0]).value, cmds[1..]);
    }
  }

  lemma {:induction false} NoneActiveStays(spiffe: string -> bool, s: Store, n: string, cmds: seq<Command>)
    requires Bounded(spiffe) && WellKeyed(s.At(ActiveDelegations)) && KeysOfNode(s.At(ActiveDelegations), n) == {}
    requires forall i :: 0 <= i < |cmds| ==>
               Typed(spiffe, cmds[i]) && !(cmds[i].IssueDelegation? && cmds[i].delegation.nodeId == n)
    requires Steps(spiffe, s, cmds).Ok?
    ensures KeysOfNode(Steps(spiffe, s, cmds).value.At(ActiveDelegations), n) == {}
    decreases |cmds|
  {
    if cmds != [] {
      StepKeepsDelegations(spiffe, s, cmds[0]);
      NoneActiveStays(spiffe, Step(spiffe, s, cmds[0]).value, n, cmds[1..]);
    }
  }

  /** From an eviction until a delegation is issued to the node again, no run of commands leaves the
  node an active delegation, and every delegation it had stays revoked. */
  lemma EvictedNodeHoldsNothing(spiffe: string -> bool, s: Store, n: string, expiresAt: int, cmds: seq<Command>)
    requires Bounded(spiffe) && WellKeyed(s.At(ActiveDelegations))
    requires forall i :: 0 <= i < |cmds| ==>
               Typed(spiffe, cmds[i]) && !(cmds[i].IssueDelegation? && cmds[i].delegation.nodeId == n)
    requires Steps(spiffe, s, [EvictNode(n, expiresAt)] + cmds).Ok?
    ensures var end := Steps(spiffe, s, [EvictNode(n, expiresAt)] + cmds).value;
            && KeysOfNode(end.At(ActiveDelegations), n) == {}
            && KeysOfNode(s.At(ActiveDelegations), n) <= end.At(RevokedDelegations).Keys
  {
    assert ([EvictNode(n, expiresAt)] + cmds)[1..] == cmds;
    var batch := EvictBatch(spiffe, s.At(Nodes), s.At(ActiveDelegations), s.At(Placements), n, expiresAt).value;
    EvictMovesExactly(spiffe, s, n, expiresAt, batch);
    StepKeepsDelegations(spiffe, s, EvictNode(n, expiresAt));
    var next := Commit(s, batch);
    assert KeysOfNode(next.At(ActiveDelegations), n) == {};
    NoneActiveStays(spiffe, next, n, cmds);
    DelegationsNeverLost(spiffe, next, cmds);
  }
}
