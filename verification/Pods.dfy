/** From slots to pods: names, requests, order and priorities. Names leave out the tenant, so pods of different
workloads can share one. */
module Pods {
  import opened Decimal
  import opened Records
  import opened Bytes
  import opened Keys
  import opened Storage
  import opened Commands
  import opened Sorting
  import opened Taints
  import opened Scheduler
  import opened Preemption
  import opened PlacementRuns
  import opened Slots

  // ----- pods -----

  function PodName(workload: string, role: string, ordinal: nat): string {
    workload + ['-'] + role + ['-'] + PrintNat(ordinal)
  }

  /** What a pod asks for: half a core and 512 MiB unless its spec says otherwise. */
  function Needs(spec: WorkloadSpec): Resources {
    if spec.podSpec.Some? && spec.podSpec.value.resources.Some? then
      var r := spec.podSpec.value.resources.value;
      Resources(r.vcpus * 1000, r.memoryMb * 1024 * 1024)
    else Resources(500, 512 * 1024 * 1024)
  }

  function PriorityIn(spec: WorkloadSpec): int {
    if spec.podSpec.Some? then spec.podSpec.value.priority else 0
  }

  /** The pending pod of a slot. */
  function PodFor(spec: WorkloadSpec, slot: Slot): PendingPod {
    PendingPod(
      PodName(spec.workloadId, slot.role, slot.ordinal), spec.tenantId, spec.workloadId, slot.role, slot.ordinal,
      Needs(spec), PriorityIn(spec), if spec.podSpec.Some? then spec.podSpec.value.tolerations else [])
  }

  /** A pod carries its slot, and from its spec the tenant and workload, the request (half a core and 512 MiB unless
  given in cores and MiB), the priority and the tolerations. */
  lemma PodCarriesSpec(spec: WorkloadSpec, slot: Slot)
    ensures var pod := PodFor(spec, slot);
            && pod.tenantId == spec.tenantId && pod.service == spec.workloadId
            && pod.role == slot.role && pod.ordinal == slot.ordinal
            && (spec.podSpec.None? ==>
                  pod.resources == Resources(500, 536870912) && pod.priority == 0 && pod.tolerations == [])
            && (spec.podSpec.Some? ==>
                  var p := spec.podSpec.value;
                  && pod.priority == p.priority && pod.tolerations == p.tolerations
                  && (p.resources.None? ==> pod.resources == Resources(500, 536870912))
                  && (p.resources.Some? ==>
                        && pod.resources.cpu == 1000 * p.resources.value.vcpus
                        && pod.resources.memory == 1048576 * p.resources.value.memoryMb))
  {
    hide PodName;
  }

  // ----- collecting -----

  function PodsFor(spec: WorkloadSpec, slots: seq<Slot>): (pods: seq<PendingPod>)
    ensures |pods| == |slots| && forall i :: 0 <= i < |slots| ==> pods[i] == PodFor(spec, slots[i])
  {
    seq(|slots|, i requires 0 <= i < |slots| => PodFor(spec, slots[i]))
  }

  /** The pending pods of the specs, spec by spec. */
  ghost predicate Collected(specs: seq<WorkloadSpec>, ordinals: Table, pods: seq<PendingPod>)
    decreases |specs|, 1
  {
    if specs == [] then pods == []
    else exists slots :: PassSchedules(specs[|specs| - 1], ordinals, slots) && EndsWith(specs, ordinals, pods, slots)
  }

  ghost predicate EndsWith(specs: seq<WorkloadSpec>, ordinals: Table, pods: seq<PendingPod>, slots: seq<Slot>)
    requires specs != []
    decreases |specs|, 0
  {
    var n := |pods| - |slots|;
    n >= 0 && Collected(specs[..|specs| - 1], ordinals, pods[..n]) && pods[n..] == PodsFor(specs[|specs| - 1], slots)
  }

  /** The first step of `reconcile_all`; it fails on the first record that cannot be read. */
  method CollectPending(specs: seq<WorkloadSpec>, ordinals: Table, placements: seq<Placement>)
    returns (r: Result<seq<PendingPod>>)
    ensures r.Err? <==> exists i, x ::
              0 <= i < |specs| && Asked(specs[i], x) && !Readable(ordinals, RecordKey(specs[i], x))
    ensures r.Ok? ==> Collected(specs, ordinals, r.value)
  {
    hide PassSchedules, Readable, RecordKey, Asked, PodFor;
    var pods := [];
    for n := 0 to |specs|
      invariant Collected(specs[..n], ordinals, pods)
      invariant forall i, x :: 0 <= i < n && Asked(specs[i], x) ==> Readable(ordinals, RecordKey(specs[i], x))
    {
      var slots := PendingSlots(specs[n], ordinals, placements);
      if slots.Err? {
        return Err;
      }
      PassReads(specs[n], ordinals, slots.value);
      var more := PodsFor(specs[n], slots.value);
      assert specs[..n + 1][..n] == specs[..n] && (pods + more)[..|pods|] == pods && (pods + more)[|pods|..] == more;
      assert EndsWith(specs[..n + 1], ordinals, pods + more, slots.value);
      pods := pods + more;
    }
    assert specs[..|specs|] == specs;
    return Ok(pods);
  }

  /** The pods are of different slots. */
  ghost predicate DistinctSlots(pods: seq<PendingPod>) {
    forall i, j :: 0 <= i < j < |pods| ==> !OneSlot(pods[i], pods[j])
  }

  predicate OneSlot(a: PendingPod, b: PendingPod) {
    a.tenantId == b.tenantId && a.service == b.service && a.role == b.role && a.ordinal == b.ordinal
  }

  lemma {:induction false} CollectedFrom(specs: seq<WorkloadSpec>, ordinals: Table, pods: seq<PendingPod>,
                                         p: PendingPod)
    requires Collected(specs, ordinals, pods) && p in pods
    ensures exists i :: 0 <= i < |specs| && p.tenantId == specs[i].tenantId && p.service == specs[i].workloadId
  {
    hide PassSchedules;
    var n := |specs| - 1;
    var slots :| PassSchedules(specs[n], ordinals, slots) && EndsWith(specs, ordinals, pods, slots);
    var rest := pods[..|pods| - |slots|];
    assert pods == rest + PodsFor(specs[n], slots);
    if p in rest {
      CollectedFrom(specs[..n], ordinals, rest, p);
    } else {
      var j :| 0 <= j < |slots| && PodsFor(specs[n], slots)[j] == p;
    }
  }

  /** One spec for each workload gives one pod for each slot. */
  lemma {:induction false} CollectedSlotsDiffer(specs: seq<WorkloadSpec>, ordinals: Table, pods: seq<PendingPod>)
    requires OneSpecEach(specs) && Collected(specs, ordinals, pods)
    ensures DistinctSlots(pods)
  {
    if specs != [] {
      hide InOrder, IsPending, Readable, RecordKey, PodFor, DistinctSlots, OneSlot;
      var n := |specs| - 1;
      var slots :| PassSchedules(specs[n], ordinals, slots) && EndsWith(specs, ordinals, pods, slots);
      var rest, more := pods[..|pods| - |slots|], PodsFor(specs[n], slots);
      assert pods == rest + more;
      CollectedSlotsDiffer(specs[..n], ordinals, rest);
      SlotsOfOneSpec(specs[n], slots);
      forall i, j | 0 <= i < |rest| && 0 <= j < |more|
        ensures !OneSlot(rest[i], more[j])
      {
        OtherSpec(specs, ordinals, rest, rest[i], slots[j]);
      }
      JoinDistinctSlots(rest, more);
    }
  }

  lemma SlotsOfOneSpec(spec: WorkloadSpec, slots: seq<Slot>)
    requires InOrder(slots)
    ensures DistinctSlots(PodsFor(spec, slots))
  {
    hide PodName, Needs;
    forall i, j | 0 <= i < j < |slots|
      ensures !OneSlot(PodsFor(spec, slots)[i], PodsFor(spec, slots)[j])
    {
      assert Earlier(slots[i], slots[j]);
      LessIrreflexive(slots[i].role);
    }
  }

  lemma OtherSpec(specs: seq<WorkloadSpec>, ordinals: Table, rest: seq<PendingPod>, p: PendingPod, slot: Slot)
    requires OneSpecEach(specs) && specs != [] && Collected(specs[..|specs| - 1], ordinals, rest) && p in rest
    ensures !OneSlot(p, PodFor(specs[|specs| - 1], slot))
  {
    hide PodName, Needs, Collected;
    CollectedFrom(specs[..|specs| - 1], ordinals, rest, p);
  }

  lemma JoinDistinctSlots(a: seq<PendingPod>, b: seq<PendingPod>)
    requires DistinctSlots(a) && DistinctSlots(b)
    requires forall i, j :: 0 <= i < |a| && 0 <= j < |b| ==> !OneSlot(a[i], b[j])
    ensures DistinctSlots(a + b)
  {
    hide OneSlot;
  }

  // ----- order -----

  /** Higher priority first, then the lower pod id. */
  predicate First(a: PendingPod, b: PendingPod) {
    a.priority > b.priority || (a.priority == b.priority && AtMost(a.podId, b.podId))
  }

  lemma FirstIsTotalPreorder()
    ensures TotalPreorder(First)
  {
    AtMostIsTotalPreorder();
    forall a, b
      ensures First(a, b) || First(b, a)
    {
      assert AtMost(a.podId, b.podId) || AtMost(b.podId, a.podId);
    }
    forall a, b, c | First(a, b) && First(b, c)
      ensures First(a, c)
    {
      if AtMost(a.podId, b.podId) && AtMost(b.podId, c.podId) {
        assert AtMost(a.podId, c.podId);
      }
    }
  }

  /** `order_pending`. */
  method OrderPending(pods: seq<PendingPod>) returns (ordered: seq<PendingPod>)
    ensures ordered == Sort(pods, First) && multiset(ordered) == multiset(pods) && |ordered| == |pods|
    ensures forall i, j :: 0 <= i < j < |ordered| ==>
              ordered[i].priority > ordered[j].priority
              || (ordered[i].priority == ordered[j].priority
                  && (ordered[i].podId == ordered[j].podId || Less(ordered[i].podId, ordered[j].podId)))
  {
    FirstIsTotalPreorder();
    SortPermutes(pods, First);
    SortSorted(pods, First);
    ordered := Sort(pods, First);
  }

  // ----- priorities -----

  predicate IsSpecOf(spec: WorkloadSpec, p: Placement) {
    spec.tenantId == p.tenantId && spec.workloadId == p.service
  }

  /** `workload_priority_map` with its default: the priority of the placement's workload, 0 when that workload is
  not in the pass. A later spec of the same workload wins. */
  function PriorityOf(specs: seq<WorkloadSpec>): Priority {
    (p: Placement) => PriorityAmong(specs, p)
  }

  function PriorityAmong(specs: seq<WorkloadSpec>, p: Placement): int {
    if specs == [] then 0
    else if IsSpecOf(specs[|specs| - 1], p) then PriorityIn(specs[|specs| - 1])
    else PriorityAmong(specs[..|specs| - 1], p)
  }

  ghost predicate OneSpecEach(specs: seq<WorkloadSpec>) {
    forall i, j :: 0 <= i < j < |specs| ==>
      specs[i].tenantId != specs[j].tenantId || specs[i].workloadId != specs[j].workloadId
  }

  lemma {:induction false} PriorityOfMember(specs: seq<WorkloadSpec>, i: nat, p: Placement)
    requires OneSpecEach(specs) && i < |specs| && IsSpecOf(specs[i], p)
    ensures PriorityAmong(specs, p) == PriorityIn(specs[i])
  {
    var n := |specs| - 1;
    if i < n {
      assert !IsSpecOf(specs[n], p);
      PriorityOfMember(specs[..n], i, p);
    }
  }

  lemma {:induction false} PriorityOfStranger(specs: seq<WorkloadSpec>, p: Placement)
    requires forall i :: 0 <= i < |specs| ==> !IsSpecOf(specs[i], p)
    ensures PriorityAmong(specs, p) == 0
  {
    if specs != [] {
      PriorityOfStranger(specs[..|specs| - 1], p);
    }
  }

  /** A pod never preempts pods of its own workload: they rank with it. */
  lemma OwnWorkloadIsSafe(specs: seq<WorkloadSpec>, i: nat, slot: Slot, node: string, p: Placement)
    requires OneSpecEach(specs) && i < |specs| && IsSpecOf(specs[i], p)
    ensures !Evictable(PriorityOf(specs), PodFor(specs[i], slot), node, p)
  {
    PriorityOfMember(specs, i, p);
  }

  /** A workload outside the pass ranks 0 whatever its own priority, so any pod of the pass with a priority above
  0 may evict it: a pod of another workload is evictable exactly when that ranking is below the pod's. */
  lemma StrangersAreEvictableIff(specs: seq<WorkloadSpec>, pod: PendingPod, node: string, p: Placement)
    requires forall i :: 0 <= i < |specs| ==> !IsSpecOf(specs[i], p)
    ensures Evictable(PriorityOf(specs), pod, node, p) <==> p.nodeId == node && pod.priority > 0
  {
    PriorityOfStranger(specs, p);
  }

  // ----- names -----

  /** One of two (workload, role) pairs arises from the other by moving the hyphen that joins them. */
  ghost predicate Shifts(w: string, r: string, w': string, r': string) {
    exists x :: w' == w + ['-'] + x && r == x + ['-'] + r'
  }

  /** The joined workload and role of two pods are the same text. */
  ghost predicate JoinsAlike(w: string, r: string, w': string, r': string) {
    (w == w' && r == r') || Shifts(w, r, w', r') || Shifts(w', r', w, r)
  }

  lemma JoinShifts(w: string, r: string, w': string, r': string)
    requires w + ['-'] + r == w' + ['-'] + r' && |w| < |w'|
    ensures Shifts(w, r, w', r')
  {
    var l, m := w + ['-'] + r, w' + ['-'] + r';
    var x := w'[|w| + 1..];
    assert l[|w|] == '-' && m[|w|] == w'[|w|];
    assert l[..|w|] == w && m[..|w|] == w'[..|w|];
    assert w' == w + ['-'] + x;
    assert l[|w| + 1..] == r;
    assert m[|w| + 1..] == x + ['-'] + r';
  }

  lemma ShiftJoins(w: string, r: string, w': string, r': string)
    requires Shifts(w, r, w', r')
    ensures w + ['-'] + r == w' + ['-'] + r'
  {
    var x :| w' == w + ['-'] + x && r == x + ['-'] + r';
    assert w + ['-'] + (x + ['-'] + r') == (w + ['-'] + x) + ['-'] + r';
  }

  lemma JoinIff(w: string, r: string, w': string, r': string)
    ensures w + ['-'] + r == w' + ['-'] + r' <==> JoinsAlike(w, r, w', r')
  {
    hide Shifts;
    if w + ['-'] + r == w' + ['-'] + r' {
      if |w| < |w'| {
        JoinShifts(w, r, w', r');
      } else if |w'| < |w| {
        JoinShifts(w', r', w, r);
      } else {
        assert (w + ['-'] + r)[..|w|] == w && (w' + ['-'] + r')[..|w|] == w';
        assert (w + ['-'] + r)[|w| + 1..] == r && (w' + ['-'] + r')[|w| + 1..] == r';
      }
    }
    if Shifts(w, r, w', r') {
      ShiftJoins(w, r, w', r');
    }
    if Shifts(w', r', w, r) {
      ShiftJoins(w', r', w, r);
    }
  }

  /** Two slots, of whatever tenants, get one pod name exactly when their ordinals agree and their workloads and
  roles are the same or differ only by where a hyphen divides them. */
  lemma NamesCollideIff(w: string, r: string, o: nat, w': string, r': string, o': nat)
    ensures PodName(w, r, o) == PodName(w', r', o') <==> o == o' && JoinsAlike(w, r, w', r')
  {
    hide JoinsAlike, PrintNat;
    JoinIff(w, r, w', r');
    if PodName(w, r, o) == PodName(w', r', o') {
      assert '-' !in PrintNat(o) && '-' !in PrintNat(o') by {
        DigitsOnly(o);
        DigitsOnly(o');
      }
      LastSeparator(w + ['-'] + r, w' + ['-'] + r', PrintNat(o), PrintNat(o'), '-');
      DigitsOfPrintNat(o);
      DigitsOfPrintNat(o');
    }
  }

  lemma DigitsOnly(n: nat)
    ensures '-' !in PrintNat(n)
  {
    assert AllDigits(PrintNat(n));
  }

  /** Where roles have no hyphen, a name tells the workload, the role and the ordinal, but not the tenant. */
  lemma NamesWithoutHyphens(w: string, r: string, o: nat, w': string, r': string, o': nat)
    requires '-' !in r && '-' !in r'
    ensures PodName(w, r, o) == PodName(w', r', o') <==> w == w' && r == r' && o == o'
  {
    NamesCollideIff(w, r, o, w', r', o');
  }

  // ----- what a collision costs -----

  /** Placements are stored under the names the passes gave them. */
  ghost predicate Named(t: Table) {
    forall k :: k in t && t[k].PlacementV? ==>
      t[k].placement.podId == k && k == PodName(t[k].placement.service, t[k].placement.role, t[k].placement.ordinal)
  }

  predicate SameSlot(pod: PendingPod, p: Placement) {
    Occupies(p, pod.tenantId, pod.service, pod.role, pod.ordinal)
  }

  /** The placement's slot is given the pod's name. */
  ghost predicate Namesake(pod: PendingPod, p: Placement) {
    p.ordinal == pod.ordinal && JoinsAlike(p.service, p.role, pod.service, pod.role)
  }

  /** A stored placement of another slot whose name the pod would take. */
  ghost predicate Shadows(t: Table, pod: PendingPod, k: string) {
    k in t && t[k].PlacementV? && !SameSlot(pod, t[k].placement) && Namesake(pod, t[k].placement)
  }

  /** Every placement of another slot is still there. */
  ghost predicate OthersKept(t: Table, t': Table, pod: PendingPod) {
    forall k :: k in t && t[k].PlacementV? && !SameSlot(pod, t[k].placement) ==> k in t' && t'[k] == t[k]
  }

  lemma NameOf(t: Table, spec: WorkloadSpec, slot: Slot, k: string)
    requires Named(t) && k in t && t[k].PlacementV?
    ensures k == PodFor(spec, slot).podId <==> Namesake(PodFor(spec, slot), t[k].placement)
  {
    hide JoinsAlike, PodName;
    var p := t[k].placement;
    NamesCollideIff(p.service, p.role, p.ordinal, spec.workloadId, slot.role, slot.ordinal);
  }

  /** Committing a pod keeps every other slot's placement exactly when no stored placement, of whatever tenant,
  goes by its name. */
  lemma CommitKeepsOthersIff(spiffe: string -> bool, s: Store, spec: WorkloadSpec, slot: Slot, node: string)
    requires Named(s.At(Placements))
    ensures Steps(spiffe, s, CommitCommands(PodFor(spec, slot), node)).Ok?
    ensures OthersKept(s.At(Placements),
                       Steps(spiffe, s, CommitCommands(PodFor(spec, slot), node)).value.At(Placements),
                       PodFor(spec, slot))
            <==> forall k :: !Shadows(s.At(Placements), PodFor(spec, slot), k)
  {
    hide Steps, Named, JoinsAlike, PodName, Needs;
    var t, pod := s.At(Placements), PodFor(spec, slot);
    CommitEffect(spiffe, s, pod, node);
    forall k | k in t && t[k].PlacementV?
      ensures k == pod.podId <==> Namesake(pod, t[k].placement)
    {
      NameOf(t, spec, slot, k);
    }
    PutKeepsOthersIff(t, pod, node);
  }

  lemma PutKeepsOthersIff(t: Table, pod: PendingPod, node: string)
    requires forall k :: k in t && t[k].PlacementV? ==> (k == pod.podId <==> Namesake(pod, t[k].placement))
    ensures OthersKept(t, t[pod.podId := PlacementV(PlacementFor(pod, node))], pod) <==> forall k :: !Shadows(t, pod, k)
  {
    hide Namesake;
    var t' := t[pod.podId := PlacementV(PlacementFor(pod, node))];
    assert SameSlot(pod, PlacementFor(pod, node));
    if OthersKept(t, t', pod) {
      forall k
        ensures !Shadows(t, pod, k)
      {
        assert k == pod.podId ==> t'[k].placement == PlacementFor(pod, node);
      }
    }
    if forall k :: !Shadows(t, pod, k) {
      forall k | k in t && t[k].PlacementV? && !SameSlot(pod, t[k].placement)
        ensures k in t' && t'[k] == t[k]
      {
        assert !Shadows(t, pod, k);
      }
    }
  }

  /** The pod of a slot that is committed over another tenant's is lost for good: the other slot keeps its record,
  so no later pass schedules it. */
  lemma ShadowedPodIsLost(spiffe: string -> bool, s: Store, spec: WorkloadSpec, slot: Slot, node: string,
                          lost: Placement, cmds: seq<Command>, end: Store, owner: WorkloadSpec, slots: seq<Slot>)
    requires Named(s.At(Placements)) && lost.podId in s.At(Placements)
             && s.At(Placements)[lost.podId] == PlacementV(lost)
    requires Shadows(s.At(Placements), PodFor(spec, slot), lost.podId)
    requires SlotKey(lost) in s.At(Ordinals) && IsSpecOf(owner, lost)
    requires Steps(spiffe, s, CommitCommands(PodFor(spec, slot), node) + cmds) == Ok(end)
    requires PassSchedules(owner, end.At(Ordinals), slots)
    ensures Steps(spiffe, s, CommitCommands(PodFor(spec, slot), node)).Ok?
    ensures var after := Steps(spiffe, s, CommitCommands(PodFor(spec, slot), node)).value.At(Placements);
            lost.podId in after && after[lost.podId] != PlacementV(lost)
    ensures Slot(lost.role, lost.ordinal) !in slots
  {
    hide Steps, Named, JoinsAlike, PodName, Needs, PassSchedules, OrdinalKey;
    var pod := PodFor(spec, slot);
    CommitEffect(spiffe, s, pod, node);
    NameOf(s.At(Placements), spec, slot, lost.podId);
    RecordedSlotIsNeverPending(spiffe, s, CommitCommands(pod, node) + cmds, end, owner, Slot(lost.role, lost.ordinal),
                               slots);
  }
}
