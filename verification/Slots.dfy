/** Which slots a reconciliation pass schedules: the ones without an ordinal record. Records are never
deleted, so a slot is scheduled once and a freed slot is not scheduled again. */
module Slots {
  import opened Records
  import opened Bytes
  import opened Keys
  import opened Storage
  import opened Commands
  import opened Scheduler
  import opened NodeEviction
  import opened PlacementRuns

  datatype Slot = Slot(role: string, ordinal: nat)

  function RecordKey(spec: WorkloadSpec, slot: Slot): string {
    OrdinalKey(spec.tenantId, spec.workloadId, slot.role, slot.ordinal)
  }

  predicate Asked(spec: WorkloadSpec, slot: Slot) {
    slot.role in spec.replicas && slot.ordinal < spec.replicas[slot.role]
  }

  predicate Readable(ordinals: Table, key: string) {
    key in ordinals ==> ordinals[key].OrdinalV?
  }

  /** By role, then by ordinal. */
  predicate Earlier(a: Slot, b: Slot) {
    Less(a.role, b.role) || (a.role == b.role && a.ordinal < b.ordinal)
  }

  ghost predicate InOrder(slots: seq<Slot>) {
    forall i, j :: 0 <= i < j < |slots| ==> Earlier(slots[i], slots[j])
  }

  /** The slots a pass schedules: asked for, and without a record. */
  ghost predicate IsPending(spec: WorkloadSpec, ordinals: Table, slot: Slot) {
    Asked(spec, slot) && RecordKey(spec, slot) !in ordinals
  }

  /** What has been collected once every slot before (`role`, `ordinal`) is visited. */
  ghost predicate Gathered(spec: WorkloadSpec, ordinals: Table, slots: seq<Slot>, role: string, ordinal: nat) {
    && InOrder(slots)
    && (forall x :: x in slots <==> IsPending(spec, ordinals, x) && Earlier(x, Slot(role, ordinal)))
    && (forall x :: Asked(spec, x) && Earlier(x, Slot(role, ordinal)) ==> Readable(ordinals, RecordKey(spec, x)))
  }

  lemma GatherOne(spec: WorkloadSpec, ordinals: Table, slots: seq<Slot>, role: string, ordinal: nat)
    requires Gathered(spec, ordinals, slots, role, ordinal) && Asked(spec, Slot(role, ordinal))
    requires Readable(ordinals, RecordKey(spec, Slot(role, ordinal)))
    ensures Gathered(spec, ordinals,
                     if RecordKey(spec, Slot(role, ordinal)) in ordinals then slots else slots + [Slot(role, ordinal)],
                      role, ordinal + 1)
  {
    hide RecordKey, Readable;
    var next := Slot(role, ordinal);
    LessIrreflexive(role);
    forall x: Slot
      ensures Earlier(x, Slot(role, ordinal + 1)) <==> Earlier(x, next) || x == next
    {
    }
    forall i | 0 <= i < |slots|
      ensures Earlier(slots[i], next)
    {
      assert slots[i] in slots;
    }
  }

  /** Moving on to the next role visits nothing new. */
  lemma NextRole(spec: WorkloadSpec, ordinals: Table, slots: seq<Slot>, roles: seq<string>, n: nat)
    requires StrictlyAscending(roles) && (forall r :: r in roles <==> r in spec.replicas) && n + 1 < |roles|
    requires Gathered(spec, ordinals, slots, roles[n], spec.replicas[roles[n]])
    ensures Gathered(spec, ordinals, slots, roles[n + 1], 0)
  {
    hide RecordKey, Readable;
    forall x | Asked(spec, x)
      ensures Earlier(x, Slot(roles[n + 1], 0)) <==> Earlier(x, Slot(roles[n], spec.replicas[roles[n]]))
    {
      RoleGap(roles, n, x.role);
    }
  }

  lemma RoleGap(roles: seq<string>, n: nat, role: string)
    requires StrictlyAscending(roles) && n + 1 < |roles| && role in roles
    ensures Less(role, roles[n + 1]) <==> Less(role, roles[n]) || role == roles[n]
  {
    var m :| 0 <= m < |roles| && roles[m] == role;
    if m <= n {
      assert Less(roles[m], roles[n + 1]);
    } else {
      if m > n + 1 {
        LessAsymmetric(roles[n + 1], roles[m]);
      } else {
        LessIrreflexive(role);
      }
      LessAsymmetric(roles[n], roles[m]);
    }
  }

  lemma StartGathering(spec: WorkloadSpec, ordinals: Table, roles: seq<string>)
    requires StrictlyAscending(roles) && (forall r :: r in roles <==> r in spec.replicas) && roles != []
    ensures Gathered(spec, ordinals, [], roles[0], 0)
  {
    forall x | Asked(spec, x)
      ensures !Earlier(x, Slot(roles[0], 0))
    {
      var m :| 0 <= m < |roles| && roles[m] == x.role;
      if m == 0 {
        LessIrreflexive(x.role);
      } else {
        LessAsymmetric(roles[0], roles[m]);
      }
    }
  }

  lemma DoneGathering(spec: WorkloadSpec, ordinals: Table, slots: seq<Slot>, roles: seq<string>)
    requires StrictlyAscending(roles) && (forall r :: r in roles <==> r in spec.replicas) && roles != []
    requires Gathered(spec, ordinals, slots, roles[|roles| - 1], spec.replicas[roles[|roles| - 1]])
    ensures PassSchedules(spec, ordinals, slots)
  {
    hide RecordKey, Readable;
    var last := roles[|roles| - 1];
    forall x | Asked(spec, x)
      ensures Earlier(x, Slot(last, spec.replicas[last]))
    {
      var m :| 0 <= m < |roles| && roles[m] == x.role;
      if m < |roles| - 1 {
        assert Less(roles[m], last);
      }
    }
  }

  /** In order and once each, exactly the pending slots; every record met along the way is readable. */
  ghost predicate PassSchedules(spec: WorkloadSpec, ordinals: Table, slots: seq<Slot>) {
    && InOrder(slots)
    && (forall x :: x in slots <==> IsPending(spec, ordinals, x))
    && (forall x :: Asked(spec, x) ==> Readable(ordinals, RecordKey(spec, x)))
  }

  predicate HasPlacement(placements: seq<Placement>, spec: WorkloadSpec, slot: Slot) {
    exists i ::
      0 <= i < |placements| && Occupies(placements[i], spec.tenantId, spec.workloadId, slot.role, slot.ordinal)
  }

  /** The first pass of `reconcile_all` for one spec. A record of an occupied slot is skipped if its placement
  exists, and then every record is skipped, so placements do not matter. */
  method PendingSlots(spec: WorkloadSpec, ordinals: Table, placements: seq<Placement>) returns (r: Result<seq<Slot>>)
    ensures r.Err? <==> exists x :: Asked(spec, x) && !Readable(ordinals, RecordKey(spec, x))
    ensures r.Ok? ==> PassSchedules(spec, ordinals, r.value)
  {
    hide Gathered, PassSchedules, RecordKey, InOrder, Earlier;
    var roles := Ascending(spec.replicas.Keys);
    AscendingElements(spec.replicas.Keys);
    AscendingSorted(spec.replicas.Keys);
    if roles == [] {
      NothingAsked(spec, ordinals);
      PassReads(spec, ordinals, []);
      return Ok([]);
    }
    var slots := [];
    StartGathering(spec, ordinals, roles);
    for n := 0 to |roles|
      invariant if n < |roles| then Gathered(spec, ordinals, slots, roles[n], 0)
                else PassSchedules(spec, ordinals, slots)
    {
      var role := roles[n];
      assert role in roles;
      for o := 0 to spec.replicas[role]
        invariant Gathered(spec, ordinals, slots, role, o)
      {
        var slot := Slot(role, o);
        var key := RecordKey(spec, slot);
        if !Readable(ordinals, key) {
          assert Asked(spec, slot);
          return Err;
        }
        GatherOne(spec, ordinals, slots, role, o);
        if key in ordinals && ordinals[key].ordinal.podId.Some? && HasPlacement(placements, spec, slot) {
          continue;
        }
        if key in ordinals {
          continue;
        }
        slots := slots + [slot];
      }
      if n + 1 < |roles| {
        NextRole(spec, ordinals, slots, roles, n);
      } else {
        DoneGathering(spec, ordinals, slots, roles);
      }
    }
    PassReads(spec, ordinals, slots);
    return Ok(slots);
  }

  lemma PassReads(spec: WorkloadSpec, ordinals: Table, slots: seq<Slot>)
    requires PassSchedules(spec, ordinals, slots)
    ensures forall x :: Asked(spec, x) ==> Readable(ordinals, RecordKey(spec, x))
  {
  }

  lemma NothingAsked(spec: WorkloadSpec, ordinals: Table)
    requires spec.replicas.Keys == {}
    ensures PassSchedules(spec, ordinals, [])
  {
  }

  /** A pass takes up exactly the ordinals below a role's count that nothing is recorded for. */
  lemma PassMeans(spec: WorkloadSpec, ordinals: Table, slots: seq<Slot>, role: string, ordinal: nat)
    requires PassSchedules(spec, ordinals, slots)
    ensures Slot(role, ordinal) in slots <==>
              && role in spec.replicas && ordinal < spec.replicas[role]
              && OrdinalKey(spec.tenantId, spec.workloadId, role, ordinal) !in ordinals
  {
  }

  // ----- records are never deleted -----

  lemma {:induction false} DropOpsPut(ps: seq<Placement>)
    ensures OnlyPuts(DropOps(ps), Ordinals)
  {
    if ps != [] {
      DropOpsPut(ps[..|ps| - 1]);
    }
  }

  lemma WritersOnlyPut(spiffe: string -> bool, v: View, cmd: Command)
    requires MayWrite(cmd, Ordinals)
    ensures Batch(spiffe, v, cmd).Ok? && OnlyPuts(Batch(spiffe, v, cmd).value, Ordinals)
  {
    hide DropOps, Select, Rows, ManifestOps, FindSlot;
    match cmd {
      case DeleteWorkload(t, w) => DropOpsPut(Select(Rows(v.placements), OfWorkload(t, w)));
      case ScaleWorkload(w) =>
        DropOpsPut(Select(Rows(v.placements), BeyondReplicas(w.tenantId, w.workloadId, Replicas(w))));
      case ApplyManifests(updates) => ManifestOpsPut(updates, Ordinals);
      case RecordOrdinalAssignment(_) =>
      case ReassignPodId(_, _, _, _, _) =>
    }
  }

  /** No command deletes an ordinal record. */
  lemma StepKeepsRecords(spiffe: string -> bool, s: Store, cmd: Command)
    requires Step(spiffe, s, cmd).Ok?
    ensures s.At(Ordinals).Keys <= Step(spiffe, s, cmd).value.At(Ordinals).Keys
  {
    hide MayWrite, Batch, Commit, OnlyPuts;
    if MayWrite(cmd, Ordinals) {
      WritersOnlyPut(spiffe, Reads(s), cmd);
      PutsKeepKeys(s, Batch(spiffe, Reads(s), cmd).value, Ordinals);
    } else {
      StepFrame(spiffe, s, cmd, Ordinals);
    }
  }

  lemma {:induction false} RunKeepsRecords(spiffe: string -> bool, s: Store, cmds: seq<Command>)
    requires Steps(spiffe, s, cmds).Ok?
    ensures s.At(Ordinals).Keys <= Steps(spiffe, s, cmds).value.At(Ordinals).Keys
    decreases |cmds|
  {
    hide Step;
    if cmds != [] {
      StepKeepsRecords(spiffe, s, cmds[0]);
      RunKeepsRecords(spiffe, Step(spiffe, s, cmds[0]).value, cmds[1..]);
    }
  }

  /** A slot that once had a record is never scheduled by a pass again, whatever commands follow: not when its
  pod was drained, scaled away or lost with its node. */
  lemma RecordedSlotIsNeverPending(spiffe: string -> bool, s: Store, cmds: seq<Command>, end: Store, spec: WorkloadSpec,
                                   slot: Slot, slots: seq<Slot>)
    requires Steps(spiffe, s, cmds) == Ok(end) && RecordKey(spec, slot) in s.At(Ordinals)
    requires PassSchedules(spec, end.At(Ordinals), slots)
    ensures slot !in slots
  {
    hide Steps, RecordKey;
    RunKeepsRecords(spiffe, s, cmds);
  }

  lemma RecordStepKeys(spiffe: string -> bool, s: Store, o: OrdinalAssignment)
    ensures Step(spiffe, s, RecordOrdinalAssignment(o)).Ok?
    ensures OrdinalKey(o.tenantId, o.service, o.role, o.ordinal)
            in Step(spiffe, s, RecordOrdinalAssignment(o)).value.At(Ordinals)
  {
    hide OrdinalKey;
    CommitOne(s, Put(Ordinals, OrdinalKey(o.tenantId, o.service, o.role, o.ordinal), OrdinalV(o)));
  }

  /** A slot is scheduled at most once: committing a decision for it records it before anything else. */
  lemma CommittedSlotIsNeverPending(spiffe: string -> bool, s: Store, pod: PendingPod, node: string, cmds: seq<Command>,
                                    end: Store, spec: WorkloadSpec, slots: seq<Slot>)
    requires Steps(spiffe, s, CommitCommands(pod, node) + cmds) == Ok(end)
    requires spec.tenantId == pod.tenantId && spec.workloadId == pod.service
    requires PassSchedules(spec, end.At(Ordinals), slots)
    ensures Slot(pod.role, pod.ordinal) !in slots
  {
    hide Step, OrdinalKey, PassSchedules;
    var record := CommitCommands(pod, node)[0];
    var rest := [CommitCommands(pod, node)[1]] + cmds;
    RecordStepKeys(spiffe, s, record.ordinal);
    var next := Step(spiffe, s, record).value;
    assert CommitCommands(pod, node) + cmds == [record] + rest;
    StepsHead(spiffe, s, record, rest, next);
    RecordedSlotIsNeverPending(spiffe, next, rest, end, spec, Slot(pod.role, pod.ordinal), slots);
  }

  /** The slot of a drained pod is not scheduled again: the record that frees it also hides it. */
  lemma DrainedSlotIsNeverPending(spiffe: string -> bool, s: Store, v: Placement, cmds: seq<Command>, end: Store,
                                  spec: WorkloadSpec, slots: seq<Slot>)
    requires Steps(spiffe, s, DrainCommands([v]) + cmds) == Ok(end)
    requires spec.tenantId == v.tenantId && spec.workloadId == v.service
    requires PassSchedules(spec, end.At(Ordinals), slots)
    ensures Slot(v.role, v.ordinal) !in slots
  {
    hide Step, OrdinalKey, PassSchedules;
    var remove, record := RemovePlacement(v.podId), RecordOrdinalAssignment(Freed(v));
    RemoveStep(spiffe, s, v.podId);
    var s1 := Step(spiffe, s, remove).value;
    RecordStepKeys(spiffe, s1, Freed(v));
    var s2 := Step(spiffe, s1, record).value;
    assert [v][1..] == [];
    assert DrainCommands([v]) + cmds == [remove] + ([record] + cmds);
    StepsHead(spiffe, s, remove, [record] + cmds, s1);
    StepsHead(spiffe, s1, record, cmds, s2);
    RecordedSlotIsNeverPending(spiffe, s2, cmds, end, spec, Slot(v.role, v.ordinal), slots);
  }
}
