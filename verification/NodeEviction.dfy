/** `evict_node` from its guard loop to the table of placements: whichever commands it proposes, no
budgeted group falls below its minimum on the way. */
module NodeEviction {
  import opened Decimal
  import opened Records
  import opened Storage
  import opened Commands
  import opened PlacementTable
  import opened Disruption
  import opened Drain

  /** The commands that take pods off a node one at a time, freeing the slot of each. */
  function DrainCommands(victims: seq<Placement>): seq<Command> {
    if victims == [] then []
    else [RemovePlacement(victims[0].podId), RecordOrdinalAssignment(Freed(victims[0]))] + DrainCommands(victims[1..])
  }

  function PartialDrain(node: string, victims: seq<Placement>): seq<Command> {
    [SetNodeSchedulable(node, false)] + DrainCommands(victims)
  }

  lemma {:induction false} DrainCommandsSnoc(victims: seq<Placement>, p: Placement)
    ensures DrainCommands(victims + [p])
         == DrainCommands(victims) + [RemovePlacement(p.podId), RecordOrdinalAssignment(Freed(p))]
  {
    if victims == [] {
      assert victims + [p] == [p] && [p][1..] == [];
    } else {
      DrainCommandsSnoc(victims[1..], p);
      assert (victims + [p])[1..] == victims[1..] + [p];
    }
  }

  /** `evict_node`: the commands proposed, whether the eviction was accepted, and the pods of a partial
  drain. A node id that is not a SPIFFE id is refused before anything is proposed. */
  method EvictNodeCommands(spiffe: string -> bool, typed: (string, string) -> bool, workloads: Table, placements: Table,
                           node: string, force: bool, expiresAt: int)
    returns (accepted: bool, cmds: seq<Command>, victims: seq<Placement>)
    requires KeyedByPod(placements)
    ensures accepted <==>
              spiffe(node) && (force || AllAllowed(typed, workloads, placements, node, GroupsOn(placements, node)))
    ensures accepted ==> cmds == [EvictNode(node, expiresAt)]
    ensures !accepted && spiffe(node) ==>
              Planned(typed, workloads, placements, node, GroupsOn(placements, node), false, victims)
              && cmds == PartialDrain(node, victims)
    ensures !spiffe(node) ==> cmds == []
  {
    hide KeyedByPod, GroupsOn, Quota, QuotasMet, VictimsStored, AllAllowed;
    victims := [];
    if !spiffe(node) {
      return false, [], [];
    }
    if !force {
      var allAllowed;
      allAllowed, victims := PlanDrain(typed, workloads, placements, node);
      if !allAllowed {
        cmds := [SetNodeSchedulable(node, false)];
        for i := 0 to |victims|
          invariant cmds == PartialDrain(node, victims[..i])
        {
          DrainCommandsSnoc(victims[..i], victims[i]);
          assert victims[..i + 1] == victims[..i] + [victims[i]];
          cmds := cmds + [RemovePlacement(victims[i].podId), RecordOrdinalAssignment(Freed(victims[i]))];
        }
        assert victims[..|victims|] == victims;
        return false, cmds, victims;
      }
    }
    return true, [EvictNode(node, expiresAt)], [];
  }

  // ----- what the commands do to the placements -----

  lemma RemoveStep(spiffe: string -> bool, s: Store, pod: string)
    ensures Step(spiffe, s, RemovePlacement(pod)).Ok?
    ensures Step(spiffe, s, RemovePlacement(pod)).value.At(Placements) == s.At(Placements) - {pod}
  {
    CommitOne(s, Del(Placements, pod));
  }

  lemma RecordStep(spiffe: string -> bool, s: Store, o: OrdinalAssignment)
    ensures Step(spiffe, s, RecordOrdinalAssignment(o)).Ok?
    ensures Step(spiffe, s, RecordOrdinalAssignment(o)).value.At(Placements) == s.At(Placements)
  {
    StepFrame(spiffe, s, RecordOrdinalAssignment(o), Placements);
  }

  lemma StepsHead(spiffe: string -> bool, s: Store, cmd: Command, rest: seq<Command>, next: Store)
    requires Step(spiffe, s, cmd) == Ok(next)
    ensures Steps(spiffe, s, [cmd] + rest) == Steps(spiffe, next, rest)
  {
    hide Step;
    assert ([cmd] + rest)[1..] == rest;
  }

  lemma MinusHead(t: Table, victims: seq<Placement>, k: nat)
    requires 0 < k <= |victims|
    ensures (t - {victims[0].podId}) - PodIds(victims[1..][..k - 1]) == t - PodIds(victims[..k])
  {
    var p := victims[0];
    assert victims[..k] == [p] + victims[1..][..k - 1];
    PodIdsConcat([p], victims[1..][..k - 1]);
    assert PodIds([p]) == {p.podId} by {
      PodIdsSnoc([], p);
      assert [] + [p] == [p];
    }
  }

  lemma NoPodIds()
    ensures PodIds([]) == {}
  {
  }

  /** After any prefix of a drain, exactly a prefix of the victims is gone. */
  lemma {:induction false} DrainPrefix(spiffe: string -> bool, s: Store, victims: seq<Placement>, n: nat)
    requires n <= |DrainCommands(victims)|
    ensures (n + 1) / 2 <= |victims|
    ensures Steps(spiffe, s, DrainCommands(victims)[..n]).Ok?
    ensures Steps(spiffe, s, DrainCommands(victims)[..n]).value.At(Placements)
         == s.At(Placements) - PodIds(victims[..(n + 1) / 2])
    decreases |victims|
  {
    hide Step, Freed, PodIds;
    if n == 0 {
      NoPodIds();
      assert DrainCommands(victims)[..0] == [];
    } else {
      var v := victims[0];
      var rest := DrainCommands(victims[1..]);
      var remove, record := RemovePlacement(v.podId), RecordOrdinalAssignment(Freed(v));
      RemoveStep(spiffe, s, v.podId);
      var s1 := Step(spiffe, s, remove).value;
      RecordStep(spiffe, s1, Freed(v));
      var s2 := Step(spiffe, s1, record).value;
      var m := if n == 1 then 0 else n - 2;
      DrainPrefix(spiffe, s2, victims[1..], m);
      MinusHead(s.At(Placements), victims, (n + 1) / 2);
      if n == 1 {
        assert DrainCommands(victims)[..1] == [remove] + [];
        StepsHead(spiffe, s, remove, [], s1);
        NoPodIds();
      } else {
        assert DrainCommands(victims)[..n] == [remove] + ([record] + rest[..m]);
        StepsHead(spiffe, s, remove, [record] + rest[..m], s1);
        StepsHead(spiffe, s1, record, rest[..m], s2);
      }
    }
  }

  /** After any prefix of a partial drain that the machine accepted, a prefix of the victims is gone. */
  lemma PartialPrefix(spiffe: string -> bool, s: Store, node: string, victims: seq<Placement>, n: nat)
    requires n <= |PartialDrain(node, victims)|
    requires Steps(spiffe, s, PartialDrain(node, victims)[..n]).Ok?
    ensures n / 2 <= |victims|
    ensures Steps(spiffe, s, PartialDrain(node, victims)[..n]).value.At(Placements)
         == s.At(Placements) - PodIds(victims[..n / 2])
  {
    hide Step;
    if n == 0 {
      assert PodIds(victims[..0]) == {};
    } else {
      var cordon := SetNodeSchedulable(node, false);
      var rest := DrainCommands(victims)[..n - 1];
      assert PartialDrain(node, victims)[..n] == [cordon] + rest;
      assert ([cordon] + rest)[0] == cordon;
      var s1 := Step(spiffe, s, cordon).value;
      StepFrame(spiffe, s, cordon, Placements);
      StepsHead(spiffe, s, cordon, rest, s1);
      DrainPrefix(spiffe, s1, victims, n - 1);
    }
  }

  // ----- the budgets -----

  function Lesser(a: nat, b: nat): nat {
    if a < b then a else b
  }

  lemma PrefixIds(victims: seq<Placement>, k: nat)
    requires k <= |victims|
    ensures PodIds(victims[..k]) <= PodIds(victims)
  {
    assert victims == victims[..k] + victims[k..];
    PodIdsConcat(victims[..k], victims[k..]);
  }

  /** Victims are keys on the node, so what a group loses is what its keys there lose. */
  lemma VictimsOnNode(t: Table, node: string, victims: seq<Placement>, groups: set<Group>, g: Group)
    requires VictimsStored(t, node, victims, groups)
    ensures PodIds(victims) * Placed(t, g) == PodIds(victims) * OnNodeKeys(t, node, g)
  {
    forall k | k in PodIds(victims)
      ensures k in t && t[k].PlacementV? && t[k].placement.nodeId == node
    {
      var i :| 0 <= i < |victims| && victims[i].podId == k;
    }
  }

  lemma KeysOnNode(t: Table, node: string, g: Group)
    ensures g in GroupsOn(t, node) || OnNodeKeys(t, node, g) == {}
  {
    if k :| k in OnNodeKeys(t, node, g) {
      assert GroupOf(t[k].placement) == g;
    }
  }

  /** A group loses exactly its quota over a whole drain. */
  lemma DrainLosesQuota(quota: Group -> nat, t: Table, node: string, victims: seq<Placement>, g: Group)
    requires VictimsStored(t, node, victims, GroupsOn(t, node)) && QuotasMet(quota, t, node, victims, GroupsOn(t, node))
    ensures |Placed(t - PodIds(victims), g)|
         == |Placed(t, g)| - if g in GroupsOn(t, node) then quota(g) else 0
  {
    VictimsOnNode(t, node, victims, GroupsOn(t, node), g);
    PlacedAfter(t, PodIds(victims), g);
    var lost := PodIds(victims) * Placed(t, g);
    assert Placed(t, g) - PodIds(victims) == Placed(t, g) - lost;
    CardinalMinus(Placed(t, g), lost);
    if g !in GroupsOn(t, node) {
      KeysOnNode(t, node, g);
      assert lost == {};
    }
  }

  /** A group's quota never exceeds its room above the minimum, and is all of it when the guard denies. */
  lemma QuotaIsRoom(typed: (string, string) -> bool, workloads: Table, t: Table, node: string, g: Group,
                    spec: WorkloadSpec, min: nat)
    requires LookupSpec(workloads, g.tenant, g.workload) == Found(spec) && RoleMinimum(spec, g.role) == Some(min)
    ensures var quota := Quota(typed, workloads, t, node)(g);
            var healthy := |Placed(t, g)|;
            && quota <= (if healthy >= min then healthy - min else 0)
            && (typed(g.tenant, g.role) && !GroupAllowed(typed, workloads, t, node, g) && healthy >= min ==>
                  quota == healthy - min)
  {
  }

  lemma LostOnNode(t: Table, node: string, g: Group)
    ensures Placed(t - Selected(t, OnNode(node)), g) == Placed(t, g) - OnNodeKeys(t, node, g)
    ensures OnNodeKeys(t, node, g) <= Placed(t, g)
  {
    PlacedAfter(t, Selected(t, OnNode(node)), g);
  }

  /** A full eviction the guard allowed leaves every budgeted group its minimum. */
  lemma FullEvictionKeepsBudget(typed: (string, string) -> bool, workloads: Table, t: Table, node: string, g: Group,
                                spec: WorkloadSpec, min: nat)
    requires LookupSpec(workloads, g.tenant, g.workload) == Found(spec) && RoleMinimum(spec, g.role) == Some(min)
    requires AllAllowed(typed, workloads, t, node, GroupsOn(t, node))
    ensures |Placed(t - Selected(t, OnNode(node)), g)| >= Lesser(|Placed(t, g)|, min)
  {
    LostOnNode(t, node, g);
    CardinalMinus(Placed(t, g), OnNodeKeys(t, node, g));
    if g in GroupsOn(t, node) {
      assert GroupAllowed(typed, workloads, t, node, g);
      AllowedLeavesMinimum(workloads, t, g, |OnNodeKeys(t, node, g)|, spec, min);
    } else {
      KeysOnNode(t, node, g);
    }
  }

  /** The guard refused to let all of the group's pods on the node go, although it has its minimum. */
  ghost predicate DeniedWithRoom(typed: (string, string) -> bool, s: Store, node: string, g: Group, min: nat) {
    && g in GroupsOn(s.At(Placements), node) && typed(g.tenant, g.role)
    && !GroupAllowed(typed, s.At(Workloads), s.At(Placements), node, g)
    && |Placed(s.At(Placements), g)| >= min
  }

  /** After every accepted prefix of a partial drain each budgeted group still has its minimum, or all it
  had; once the drain is complete a group the guard denied at or above its minimum has exactly that. */
  lemma PartialDrainKeepsBudget(spiffe: string -> bool, typed: (string, string) -> bool, s: Store, node: string,
                                victims: seq<Placement>, n: nat, g: Group, spec: WorkloadSpec, min: nat)
    requires Planned(typed, s.At(Workloads), s.At(Placements), node, GroupsOn(s.At(Placements), node), false, victims)
    requires LookupSpec(s.At(Workloads), g.tenant, g.workload) == Found(spec) && RoleMinimum(spec, g.role) == Some(min)
    requires n <= |PartialDrain(node, victims)| && Steps(spiffe, s, PartialDrain(node, victims)[..n]).Ok?
    ensures var left := |Placed(Steps(spiffe, s, PartialDrain(node, victims)[..n]).value.At(Placements), g)|;
            var healthy := |Placed(s.At(Placements), g)|;
            && left >= Lesser(healthy, min)
            && (n == |PartialDrain(node, victims)| && DeniedWithRoom(typed, s, node, g, min) ==> left == min)
  {
    hide Steps, AllAllowed, GroupAllowed, Quota, VictimsStored, QuotasMet, LookupSpec, RoleMinimum;
    hide PodIds, Placed, GroupsOn, DrainCommands;
    var t := s.At(Placements);
    PartialPrefix(spiffe, s, node, victims, n);
    PrefixIds(victims, n / 2);
    PlacedAfter(t, PodIds(victims[..n / 2]), g);
    PlacedAfter(t, PodIds(victims), g);
    CardinalSubset(Placed(t, g) - PodIds(victims), Placed(t, g) - PodIds(victims[..n / 2]));
    DrainLosesQuota(Quota(typed, s.At(Workloads), t, node), t, node, victims, g);
    QuotaIsRoom(typed, s.At(Workloads), t, node, g, spec, min);
    if n == |PartialDrain(node, victims)| {
      DrainLength(victims);
      assert victims[..n / 2] == victims;
    }
  }

  lemma {:induction false} DrainLength(victims: seq<Placement>)
    ensures |DrainCommands(victims)| == 2 * |victims|
  {
    if victims != [] {
      DrainLength(victims[1..]);
    }
  }

  lemma CardinalSubset(a: set<string>, b: set<string>)
    requires a <= b
    ensures |a| <= |b|
  {
    CardinalMinus(b, a);
  }

  /** A non-forced eviction the guard allowed in full, once applied, leaves every budgeted group its
  minimum or all it had. */
  lemma EvictionKeepsBudget(spiffe: string -> bool, typed: (string, string) -> bool, s: Store, node: string,
                            expiresAt: int, g: Group, spec: WorkloadSpec, min: nat)
    requires KeyedByPod(s.At(Placements))
    requires AllAllowed(typed, s.At(Workloads), s.At(Placements), node, GroupsOn(s.At(Placements), node))
    requires LookupSpec(s.At(Workloads), g.tenant, g.workload) == Found(spec) && RoleMinimum(spec, g.role) == Some(min)
    requires Step(spiffe, s, EvictNode(node, expiresAt)).Ok?
    ensures |Placed(Step(spiffe, s, EvictNode(node, expiresAt)).value.At(Placements), g)|
         >= Lesser(|Placed(s.At(Placements), g)|, min)
  {
    hide AllAllowed, GroupsOn, LookupSpec, RoleMinimum, EvictBatch, KeyedByPod, Commit, Selected, Placed;
    var batch := Batch(spiffe, Reads(s), EvictNode(node, expiresAt)).value;
    EvictRemoves(spiffe, s, node, expiresAt, batch);
    FullEvictionKeepsBudget(typed, s.At(Workloads), s.At(Placements), node, g, spec, min);
  }

  /** What `evict_node` proposes without force: everything, or what the plan allows. */
  ghost predicate Proposes(typed: (string, string) -> bool, s: Store, node: string, expiresAt: int, accepted: bool,
                           cmds: seq<Command>, victims: seq<Placement>)
  {
    var groups := GroupsOn(s.At(Placements), node);
    if accepted then
      AllAllowed(typed, s.At(Workloads), s.At(Placements), node, groups) && cmds == [EvictNode(node, expiresAt)]
    else
      Planned(typed, s.At(Workloads), s.At(Placements), node, groups, false, victims)
      && cmds == PartialDrain(node, victims)
  }

  /** However a non-forced `evict_node` ends, and wherever its proposals stop, every budgeted group keeps
  at least its minimum, or all it had. */
  lemma EvictNodeKeepsBudgets(spiffe: string -> bool, typed: (string, string) -> bool, s: Store, node: string,
                              expiresAt: int, accepted: bool, cmds: seq<Command>, victims: seq<Placement>, n: nat,
                              end: Store, g: Group, spec: WorkloadSpec, min: nat)
    requires KeyedByPod(s.At(Placements)) && Proposes(typed, s, node, expiresAt, accepted, cmds, victims)
    requires n <= |cmds| && Steps(spiffe, s, cmds[..n]) == Ok(end)
    requires LookupSpec(s.At(Workloads), g.tenant, g.workload) == Found(spec) && RoleMinimum(spec, g.role) == Some(min)
    ensures |Placed(end.At(Placements), g)| >= Lesser(|Placed(s.At(Placements), g)|, min)
  {
    hide KeyedByPod, GroupsOn, AllAllowed, Planned, LookupSpec, RoleMinimum, Placed, Step;
    if !accepted {
      PartialDrainKeepsBudget(spiffe, typed, s, node, victims, n, g, spec, min);
    } else if n == 1 {
      assert cmds[..n] == [EvictNode(node, expiresAt)] + [];
      assert Step(spiffe, s, EvictNode(node, expiresAt)).Ok?;
      StepsHead(spiffe, s, EvictNode(node, expiresAt), [], Step(spiffe, s, EvictNode(node, expiresAt)).value);
      EvictionKeepsBudget(spiffe, typed, s, node, expiresAt, g, spec, min);
    }
  }
}
