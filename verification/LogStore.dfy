/** The Raft log under big-endian byte keys refines a log keyed by index. */
module LogStore {
  import opened Decimal
  import opened Records
  import opened Bytes
  import opened Keys
  import opened Machine

  const LIMIT: nat := 0x1_0000_0000_0000_0000

  type Index = i: nat | i < LIMIT

  /** The log as Raft sees it. */
  datatype Log = Log(entries: map<nat, Entry>, purged: Option<LogId>)

  datatype Bound = Included(at: Index) | Excluded(at: Index) | Unbounded

  predicate InRange(lo: Bound, hi: Bound, i: nat) {
    && (match lo case Included(n) => n <= i case Excluded(n) => n < i case Unbounded => true)
    && (match hi case Included(n) => i <= n case Excluded(n) => i < n case Unbounded => true)
  }

  predicate KeyInRange(lo: Bound, hi: Bound, k: string) {
    && (match lo case Included(n) => AtMost(U64Be(n), k) case Excluded(n) => Less(U64Be(n), k) case Unbounded => true)
    && (match hi case Included(n) => AtMost(k, U64Be(n)) case Excluded(n) => Less(k, U64Be(n)) case Unbounded => true)
  }

  /** A range of byte keys is the range of indices it was made from. */
  lemma ByteRangeIsIndexRange(lo: Bound, hi: Bound, i: Index)
    ensures KeyInRange(lo, hi, U64Be(i)) <==> InRange(lo, hi, i)
  {
    if !lo.Unbounded? {
      U64BeOrder(lo.at, i);
    }
    if !hi.Unbounded? {
      U64BeOrder(i, hi.at);
    }
  }

  type KeyedLog = map<string, Entry>

  /** The byte-keyed table holds exactly the entries of the log, each under its own index. */
  ghost predicate Represents(t: KeyedLog, entries: map<nat, Entry>) {
    && (forall i :: i in entries ==> i < LIMIT && entries[i].logId.index == i)
    && (forall i :: i in entries ==> U64Be(i) in t && t[U64Be(i)] == entries[i])
    && (forall k :: k in t ==> t[k].logId.index in entries && k == U64Be(t[k].logId.index))
  }

  /** `range`: the keys of a byte range in key order. */
  function RangeKeys(t: KeyedLog, lo: Bound, hi: Bound): seq<string> {
    Ascending(set k | k in t.Keys && KeyInRange(lo, hi, k))
  }

  lemma RangeKeysAre(t: KeyedLog, lo: Bound, hi: Bound)
    ensures StrictlyAscending(RangeKeys(t, lo, hi))
    ensures forall k :: k in RangeKeys(t, lo, hi) <==> k in t && KeyInRange(lo, hi, k)
  {
    AscendingElements(set k | k in t.Keys && KeyInRange(lo, hi, k));
    AscendingSorted(set k | k in t.Keys && KeyInRange(lo, hi, k));
  }

  // ----- the operations on the log keyed by index -----

  function Appended(entries: map<nat, Entry>, more: seq<Entry>): map<nat, Entry> {
    if more == [] then entries
    else
      var last := more[|more| - 1];
      Appended(entries, more[..|more| - 1])[last.logId.index := last]
  }

  function Truncated(entries: map<nat, Entry>, at: nat): map<nat, Entry> {
    map i | i in entries && i < at :: entries[i]
  }

  function Purged(entries: map<nat, Entry>, upTo: nat): map<nat, Entry> {
    map i | i in entries && i > upTo :: entries[i]
  }

  class FjallLog {
    var raftLog: KeyedLog
    var lastPurged: Option<LogId>
    ghost var entries: map<nat, Entry>

    ghost predicate Valid()
      reads this
    {
      Represents(raftLog, entries)
    }

    constructor ()
      ensures Valid() && entries == map[] && lastPurged == None
    {
      raftLog, lastPurged, entries := map[], None, map[];
    }

    /** `try_get_log_entries`: exactly the entries of the index range, in ascending order. */
    method TryGetLogEntries(lo: Bound, hi: Bound) returns (found: seq<Entry>)
      requires Valid()
      ensures Reads(entries, lo, hi, found)
    {
      var keys := RangeKeys(raftLog, lo, hi);
      RangeKeysAre(raftLog, lo, hi);
      found := [];
      for n := 0 to |keys|
        invariant |found| == n
        invariant forall j :: 0 <= j < n ==> keys[j] in raftLog && found[j] == raftLog[keys[j]]
      {
        assert keys[n] in keys;
        found := found + [raftLog[keys[n]]];
      }
      ScanReads(raftLog, entries, lo, hi, keys, found);
    }

    /** `get_log_state`: the watermark, and the id of the last entry if there is one. */
    method GetLogState() returns (purged: Option<LogId>, last: Option<LogId>)
      requires Valid()
      ensures purged == lastPurged
      ensures last.None? <==> entries == map[]
      ensures last.Some? ==>
                exists i :: i in entries && last.value == entries[i].logId && forall j :: j in entries ==> j <= i
    {
      purged, last := lastPurged, None;
      var keys := RangeKeys(raftLog, Unbounded, Unbounded);
      RangeKeysAre(raftLog, Unbounded, Unbounded);
      LastIsHighest(raftLog, entries, keys);
      if keys != [] {
        assert keys[|keys| - 1] in keys;
        last := Some(raftLog[keys[|keys| - 1]].logId);
      }
    }

    /** `append`. */
    method Append(more: seq<Entry>)
      requires Valid() && forall e :: e in more ==> e.logId.index < LIMIT
      modifies this
      ensures Valid() && entries == Appended(old(entries), more) && lastPurged == old(lastPurged)
    {
      for n := 0 to |more|
        invariant Valid() && entries == Appended(old(entries), more[..n]) && lastPurged == old(lastPurged)
      {
        assert more[..n + 1][..n] == more[..n];
        var e := more[n];
        assert e in more;
        PutRepresents(raftLog, entries, e);
        raftLog := raftLog[U64Be(e.logId.index) := e];
        entries := entries[e.logId.index := e];
      }
      assert more[..|more|] == more;
    }

    /** `truncate`: the suffix from the given entry on goes. */
    method Truncate(id: LogId)
      requires Valid() && id.index < LIMIT
      modifies this
      ensures Valid() && entries == Truncated(old(entries), id.index) && lastPurged == old(lastPurged)
    {
      var keys := RangeKeys(raftLog, Included(id.index), Unbounded);
      RangeKeysAre(raftLog, Included(id.index), Unbounded);
      DropRepresents(raftLog, entries, keys, Truncated(entries, id.index), Included(id.index), Unbounded);
      RemoveKeys(keys);
      entries := Truncated(entries, id.index);
    }

    /** `purge`: the prefix up to the given entry goes, and the watermark moves to it. */
    method Purge(id: LogId)
      requires Valid() && id.index < LIMIT
      modifies this
      ensures Valid() && entries == Purged(old(entries), id.index) && lastPurged == Some(id)
    {
      var keys := RangeKeys(raftLog, Unbounded, Included(id.index));
      RangeKeysAre(raftLog, Unbounded, Included(id.index));
      DropRepresents(raftLog, entries, keys, Purged(entries, id.index), Unbounded, Included(id.index));
      RemoveKeys(keys);
      entries := Purged(entries, id.index);
      lastPurged := Some(id);
    }

    method RemoveKeys(keys: seq<string>)
      modifies `raftLog
      ensures raftLog == Without(old(raftLog), keys)
    {
      for n := 0 to |keys|
        invariant raftLog == Without(old(raftLog), keys[..n])
      {
        raftLog := raftLog - {keys[n]};
      }
    }
  }

  function Without(t: KeyedLog, keys: seq<string>): KeyedLog {
    map k | k in t && k !in keys :: t[k]
  }

  /** What a range read owes: the entries in range, all of them, in ascending index order. */
  ghost predicate Reads(entries: map<nat, Entry>, lo: Bound, hi: Bound, found: seq<Entry>) {
    && (forall e :: e in found ==>
         e.logId.index in entries && entries[e.logId.index] == e && InRange(lo, hi, e.logId.index))
    && (forall i :: i in entries && InRange(lo, hi, i) ==> entries[i] in found)
    && (forall m, n :: 0 <= m < n < |found| ==> found[m].logId.index < found[n].logId.index)
  }

  lemma ScanReads(t: KeyedLog, entries: map<nat, Entry>, lo: Bound, hi: Bound, keys: seq<string>, found: seq<Entry>)
    requires Represents(t, entries) && StrictlyAscending(keys) && |found| == |keys|
    requires forall k :: k in keys <==> k in t && KeyInRange(lo, hi, k)
    requires forall j :: 0 <= j < |keys| ==> keys[j] in t && found[j] == t[keys[j]]
    ensures Reads(entries, lo, hi, found)
  {
    forall e | e in found
      ensures e.logId.index in entries && entries[e.logId.index] == e && InRange(lo, hi, e.logId.index)
    {
      var j :| 0 <= j < |found| && found[j] == e;
      assert keys[j] in keys;
      ByteRangeIsIndexRange(lo, hi, e.logId.index);
    }
    forall i | i in entries && InRange(lo, hi, i)
      ensures entries[i] in found
    {
      ByteRangeIsIndexRange(lo, hi, i);
      assert U64Be(i) in keys;
      var j :| 0 <= j < |keys| && keys[j] == U64Be(i);
      assert found[j] == entries[i];
    }
    forall m, n | 0 <= m < n < |found|
      ensures found[m].logId.index < found[n].logId.index
    {
      U64BeOrder(found[m].logId.index, found[n].logId.index);
    }
  }

  lemma LastIsHighest(t: KeyedLog, entries: map<nat, Entry>, keys: seq<string>)
    requires Represents(t, entries) && StrictlyAscending(keys) && forall k :: k in keys <==> k in t
    ensures keys == [] <==> entries == map[]
    ensures keys != [] ==>
              var e := t[keys[|keys| - 1]];
              e.logId.index in entries && entries[e.logId.index] == e && forall j :: j in entries ==> j <= e.logId.index
  {
    if keys == [] {
      assert forall i :: i in entries ==> U64Be(i) in keys;
      assert entries == map[];
    } else {
      var top := keys[|keys| - 1];
      assert top in keys;
      var e := t[top];
      forall j | j in entries
        ensures j <= e.logId.index
      {
        assert U64Be(j) in keys;
        var m :| 0 <= m < |keys| && keys[m] == U64Be(j);
        if m < |keys| - 1 {
          assert Less(keys[m], top);
        }
        U64BeOrder(j, e.logId.index);
      }
    }
  }

  lemma PutRepresents(t: KeyedLog, entries: map<nat, Entry>, e: Entry)
    requires Represents(t, entries) && e.logId.index < LIMIT
    ensures Represents(t[U64Be(e.logId.index) := e], entries[e.logId.index := e])
  {
    var entries' := entries[e.logId.index := e];
    var t' := t[U64Be(e.logId.index) := e];
    forall i | i in entries'
      ensures U64Be(i) in t' && t'[U64Be(i)] == entries'[i]
    {
      U64BeOrder(i, e.logId.index);
    }
  }

  /** Dropping a byte range drops the index range. */
  lemma DropRepresents(t: KeyedLog, entries: map<nat, Entry>, keys: seq<string>, kept: map<nat, Entry>, lo: Bound,
                       hi: Bound)
    requires Represents(t, entries)
    requires forall k :: k in keys <==> k in t && KeyInRange(lo, hi, k)
    requires forall i :: i in kept <==> i in entries && !InRange(lo, hi, i)
    requires forall i :: i in kept ==> kept[i] == entries[i]
    ensures Represents(Without(t, keys), kept)
  {
    var t' := Without(t, keys);
    forall i | i in kept
      ensures U64Be(i) in t' && t'[U64Be(i)] == kept[i]
    {
      ByteRangeIsIndexRange(lo, hi, i);
    }
    forall k | k in t'
      ensures t'[k].logId.index in kept && k == U64Be(t'[k].logId.index)
    {
      ByteRangeIsIndexRange(lo, hi, t[k].logId.index);
    }
  }

  // ----- runs -----

  datatype Action = DoAppend(more: seq<Entry>) | DoTruncate(at: LogId) | DoPurge(upTo: LogId)

  function Act(log: Log, a: Action): Log {
    match a
    case DoAppend(more) => log.(entries := Appended(log.entries, more))
    case DoTruncate(at) => log.(entries := Truncated(log.entries, at.index))
    case DoPurge(upTo) => Log(Purged(log.entries, upTo.index), Some(upTo))
  }

  function Start(log: Log): nat {
    if log.purged.None? then 0 else log.purged.value.index + 1
  }

  /** The log holds every index from just above the watermark up to `end`, and no other. */
  ghost predicate Dense(log: Log, end: nat) {
    && Start(log) <= end
    && forall i :: i in log.entries <==> Start(log) <= i < end
  }

  ghost predicate Contiguous(log: Log) {
    exists end: nat :: Dense(log, end)
  }

  /** What Raft may ask next: appends continue the log, and the watermark never moves back. */
  ghost predicate Permitted(log: Log, a: Action) {
    match a
    case DoAppend(more) =>
      exists end: nat :: Dense(log, end) && forall j :: 0 <= j < |more| ==> more[j].logId.index == end + j
    case DoTruncate(_) => true
    case DoPurge(upTo) => upTo.index + 1 >= Start(log)
  }

  lemma {:induction false} AppendKeepsDense(log: Log, more: seq<Entry>, end: nat)
    requires Dense(log, end) && forall j :: 0 <= j < |more| ==> more[j].logId.index == end + j
    ensures Dense(Act(log, DoAppend(more)), end + |more|)
  {
    if more != [] {
      AppendKeepsDense(log, more[..|more| - 1], end);
    }
  }

  lemma ActKeepsContiguous(log: Log, a: Action)
    requires Contiguous(log) && Permitted(log, a)
    ensures Contiguous(Act(log, a))
  {
    match a
    case DoAppend(more) =>
      var end: nat :| Dense(log, end) && forall j :: 0 <= j < |more| ==> more[j].logId.index == end + j;
      AppendKeepsDense(log, more, end);
    case DoTruncate(at) =>
      var end: nat :| Dense(log, end);
      var cut := if at.index < Start(log) then Start(log) else if at.index < end then at.index else end;
      assert Dense(Act(log, a), cut);
    case DoPurge(upTo) =>
      var end: nat :| Dense(log, end);
      assert Dense(Act(log, a), if upTo.index + 1 < end then end else upTo.index + 1);
  }

  lemma {:induction false} AppendedAt(entries: map<nat, Entry>, more: seq<Entry>, at: nat, i: nat)
    requires forall j :: 0 <= j < |more| ==> more[j].logId.index == at + j
    ensures i in Appended(entries, more) <==> i in entries || at <= i < at + |more|
    ensures at <= i < at + |more| ==> Appended(entries, more)[i] == more[i - at]
    ensures i in entries && !(at <= i < at + |more|) ==> Appended(entries, more)[i] == entries[i]
  {
    if more != [] {
      AppendedAt(entries, more[..|more| - 1], at, i);
    }
  }

  /** Truncating and appending replaces a suffix: below the cut the log is as it was, from the cut on it is what was
  appended, and nothing of the old suffix is left. */
  lemma SuffixIsReplaced(log: Log, cut: LogId, more: seq<Entry>, i: nat)
    requires forall j :: 0 <= j < |more| ==> more[j].logId.index == cut.index + j
    ensures var after := Act(Act(log, DoTruncate(cut)), DoAppend(more));
            && after.purged == log.purged
            && (i in after.entries <==> (i in log.entries && i < cut.index) || cut.index <= i < cut.index + |more|)
            && (i in log.entries && i < cut.index ==> after.entries[i] == log.entries[i])
            && (cut.index <= i < cut.index + |more| ==> after.entries[i] == more[i - cut.index])
  {
    AppendedAt(Truncated(log.entries, cut.index), more, cut.index, i);
  }

  function Acts(log: Log, actions: seq<Action>): Log {
    if actions == [] then log else Act(Acts(log, actions[..|actions| - 1]), actions[|actions| - 1])
  }

  /** In every run the indices stay contiguous above the watermark. */
  lemma {:induction false} LogStaysContiguous(actions: seq<Action>)
    requires forall n :: 0 <= n < |actions| ==> Permitted(Acts(Log(map[], None), actions[..n]), actions[n])
    ensures Contiguous(Acts(Log(map[], None), actions))
  {
    if actions == [] {
      assert Dense(Log(map[], None), 0);
    } else {
      var init := actions[..|actions| - 1];
      forall n | 0 <= n < |init|
        ensures Permitted(Acts(Log(map[], None), init[..n]), init[n])
      {
        assert init[..n] == actions[..n] && init[n] == actions[n];
      }
      LogStaysContiguous(init);
      assert Permitted(Acts(Log(map[], None), actions[..|actions| - 1]), actions[|actions| - 1]);
      ActKeepsContiguous(Acts(Log(map[], None), init), actions[|actions| - 1]);
    }
  }

  /** A contiguous log that is not empty reports the entry just below its end. */
  lemma HighestIsEnd(log: Log, end: nat, i: nat)
    requires Dense(log, end) && i in log.entries && forall j :: j in log.entries ==> j <= i
    ensures i + 1 == end
  {
    assert i + 1 < end ==> i + 1 in log.entries;
  }
}
