/** What `applied_state` reports after a log: the position of its last entry and its last change of membership. */
module AppliedState {
  import opened Decimal
  import opened Records
  import opened Storage
  import opened Commands
  import opened Machine
  import opened Replication
  import opened Snapshots

  /** `applied_state`: the last applied position and membership; `Err` on a row that does not decode. */
  function Applied(s: Store): Result<(Option<LogId>, Option<(LogId, string)>)> {
    var t := s.At(RaftState);
    if LAST_APPLIED in t && !t[LAST_APPLIED].LogIdV? then Err
    else if LAST_MEMBERSHIP in t && !t[LAST_MEMBERSHIP].MembershipV? then Err
    else Ok((if LAST_APPLIED in t then Some(t[LAST_APPLIED].logId) else None,
             if LAST_MEMBERSHIP in t then Some((t[LAST_MEMBERSHIP].membershipAt, t[LAST_MEMBERSHIP].membership))
             else None))
  }

  /** The last change of membership in a log, or the one before it. */
  function LastMembership(log: seq<Entry>, before: Option<(LogId, string)>): Option<(LogId, string)> {
    if log == [] then before
    else
      var e := log[|log| - 1];
      if e.payload.Membership? then Some((e.logId, e.payload.members)) else LastMembership(log[..|log| - 1], before)
  }

  lemma PayloadBookkeeping(f: Applier, s: Store, e: Entry)
    requires Contained(f) && PayloadOps(f, s, e).Ok?
    ensures Commit(s, PayloadOps(f, s, e).value).At(RaftState)
         == if e.payload.Membership? then
              s.At(RaftState)[LAST_MEMBERSHIP := MembershipV(e.logId, e.payload.members)]
            else s.At(RaftState)
  {
    hide Contained;
    var ops := PayloadOps(f, s, e).value;
    match e.payload
    case Blank =>
    case Normal(cmd, _) =>
      CommandSparesSnapshot(f, Reads(s), cmd);
      CommitFrame(s, ops, RaftState);
    case Membership(members) =>
      CommitOne(s, Put(RaftState, LAST_MEMBERSHIP, MembershipV(e.logId, members)));
  }

  lemma AppliedStep(f: Applier, m: Machine, e: Entry)
    requires Contained(f) && ApplyEntry(f, m, e).Ok? && Applied(m.store).Ok?
    ensures var next := Applied(ApplyEntry(f, m, e).value.store);
            next == Ok((Some(e.logId), LastMembership([e], Applied(m.store).value.1)))
  {
    hide Contained, PayloadOps, StampOps, Commit;
    var ops, stamp := PayloadOps(f, m.store, e).value, StampOps(e, m.version + 1);
    PayloadBookkeeping(f, m.store, e);
    CommitConcat(m.store, ops, stamp);
    StampEffect(Commit(m.store, ops), e, m.version + 1);
    assert |LAST_APPLIED| != |LAST_MEMBERSHIP|;
    assert [e][..0] == [];
  }

  lemma {:induction false} LastMembershipHead(e: Entry, rest: seq<Entry>, before: Option<(LogId, string)>)
    ensures LastMembership([e] + rest, before) == LastMembership(rest, LastMembership([e], before))
  {
    if rest == [] {
      assert [e] + rest == [e];
    } else {
      LastMembershipHead(e, rest[..|rest| - 1], before);
      assert ([e] + rest)[..|rest|] == [e] + rest[..|rest| - 1];
    }
  }

  /** After a log that applied, the machine reports the position of its last entry and the last change of membership. */
  lemma {:induction false} AppliedStateTracks(f: Applier, m: Machine, log: seq<Entry>)
    requires Contained(f) && log != [] && !ApplyAll(f, m, log).failed && Applied(m.store).Ok?
    ensures Applied(ApplyAll(f, m, log).machine.store)
         == Ok((Some(log[|log| - 1].logId), LastMembership(log, Applied(m.store).value.1)))
    decreases |log|
  {
    hide Contained, ApplyEntry, Applied, LastMembership;
    var next := ApplyEntry(f, m, log[0]).value;
    AppliedStep(f, m, log[0]);
    LastMembershipHead(log[0], log[1..], Applied(m.store).value.1);
    assert [log[0]] + log[1..] == log;
    if |log| > 1 {
      AppliedStateTracks(f, next, log[1..]);
    } else {
      NoLog(f, next, log[0], Applied(m.store).value.1);
      assert log[1..] == [] && log == [log[0]];
    }
  }

  lemma NoLog(f: Applier, m: Machine, e: Entry, before: Option<(LogId, string)>)
    ensures ApplyAll(f, m, []) == Run(m, false) && LastMembership([], before) == before
  {
  }
}
