/** `evict_node`: consult the budget of every group on the node, then evict the node or drain part
of it. */
module Drain {
  import opened Decimal
  import opened Records
  import opened Bytes
  import opened Storage
  import opened Commands
  import opened PlacementTable
  import opened Disruption

  function GroupOf(p: Placement): Group {
    Group(p.tenantId, p.service, p.role)
  }

  /** The keys of a group's placements on one node. */
  function OnNodeKeys(t: Table, node: string, g: Group): set<string> {
    set k | k in t && t[k].PlacementV? && InGroup(g, t[k].placement) && t[k].placement.nodeId == node
  }

  /** The placements of one group, in list order. */
  function Members(ps: seq<Placement>, g: Group): seq<Placement> {
    if ps == [] then []
    else if GroupOf(ps[|ps| - 1]) == g then Members(ps[..|ps| - 1], g) + [ps[|ps| - 1]]
    else Members(ps[..|ps| - 1], g)
  }

  // ----- lists of placements -----

  lemma {:induction false} PodCount(ps: seq<Placement>)
    requires DistinctPods(ps)
    ensures |PodIds(ps)| == |ps|
  {
    if ps == [] {
      assert PodIds(ps) == {};
    } else {
      var init, p := ps[..|ps| - 1], ps[|ps| - 1];
      PodCount(init);
      assert ps == init + [p];
      PodIdsSnoc(init, p);
    }
  }

  ghost predicate PodsAscend(ps: seq<Placement>) {
    forall i, j :: 0 <= i < j < |ps| ==> Less(ps[i].podId, ps[j].podId)
  }

  ghost predicate PodsWithin(ps: seq<Placement>, keys: seq<string>) {
    forall i :: 0 <= i < |ps| ==> ps[i].podId in keys
  }

  lemma PodsAscendSnoc(ps: seq<Placement>, p: Placement, keys: seq<string>)
    requires PodsAscend(ps) && PodsWithin(ps, keys) && StrictlyAscending(keys + [p.podId])
    ensures PodsAscend(ps + [p]) && PodsWithin(ps + [p], keys + [p.podId])
  {
    forall i | 0 <= i < |ps|
      ensures Less(ps[i].podId, p.podId)
    {
      assert ps[i].podId in keys;
      var j :| 0 <= j < |keys| && keys[j] == ps[i].podId;
      assert (keys + [p.podId])[j] == keys[j] && (keys + [p.podId])[|keys|] == p.podId;
    }
  }

  /** A scan of a well-keyed table lists each pod once, in ascending order. */
  lemma {:induction false} SelectAscends(t: Table, keys: seq<string>, c: Criterion)
    requires KeyedByPod(t) && StrictlyAscending(keys) && forall k :: k in keys ==> k in t
    ensures PodsAscend(Select(RowsAt(t, keys), c)) && PodsWithin(Select(RowsAt(t, keys), c), keys)
  {
    if keys != [] {
      var init, last := keys[..|keys| - 1], keys[|keys| - 1];
      assert keys == init + [last];
      SelectAscends(t, init, c);
      var rows := RowsAt(t, keys);
      assert rows[..|rows| - 1] == RowsAt(t, init);
      assert rows[|rows| - 1] == t[last];
      var before := Select(RowsAt(t, init), c);
      if t[last].PlacementV? && Meets(c, t[last].placement) {
        PodsAscendSnoc(before, t[last].placement, init);
      }
    }
  }

  lemma AscendingPodsDistinct(ps: seq<Placement>)
    requires PodsAscend(ps)
    ensures DistinctPods(ps)
  {
    forall i, j | 0 <= i < j < |ps|
      ensures ps[i].podId != ps[j].podId
    {
      LessAsymmetric(ps[i].podId, ps[j].podId);
    }
  }

  lemma SelectDistinct(t: Table, c: Criterion)
    requires KeyedByPod(t)
    ensures DistinctPods(Select(Rows(t), c))
  {
    AscendingSorted(t.Keys);
    AscendingElements(t.Keys);
    SelectAscends(t, Ascending(t.Keys), c);
    AscendingPodsDistinct(Select(Rows(t), c));
  }

  lemma {:induction false} MembersOf(ps: seq<Placement>, g: Group)
    ensures forall p :: p in Members(ps, g) <==> p in ps && GroupOf(p) == g
    ensures DistinctPods(ps) ==> DistinctPods(Members(ps, g))
  {
    if ps != [] {
      var init, last := ps[..|ps| - 1], ps[|ps| - 1];
      assert ps == init + [last];
      MembersOf(init, g);
      if DistinctPods(ps) && GroupOf(last) == g {
        var ms := Members(init, g);
        forall i | 0 <= i < |ms|
          ensures ms[i].podId != last.podId
        {
          assert ms[i] in init;
          var j :| 0 <= j < |init| && init[j] == ms[i];
          assert ps[j].podId != ps[|ps| - 1].podId;
        }
      }
    }
  }

  /** A group's list on a node has the pods of its keys there. */
  lemma MembersAreKeys(t: Table, node: string, g: Group)
    requires KeyedByPod(t)
    ensures var ms := Members(Select(Rows(t), OnNode(node)), g);
            && PodIds(ms) == OnNodeKeys(t, node, g)
            && DistinctPods(ms) && |ms| == |OnNodeKeys(t, node, g)|
  {
    var ps := Select(Rows(t), OnNode(node));
    var ms := Members(ps, g);
    SelectMembers(Rows(t), OnNode(node));
    SelectDistinct(t, OnNode(node));
    MembersOf(ps, g);
    forall k
      ensures k in PodIds(ms) <==> k in OnNodeKeys(t, node, g)
    {
      if k in PodIds(ms) {
        var i :| 0 <= i < |ms| && ms[i].podId == k;
        assert ms[i] in ms;
        RowsContain(t, PlacementV(ms[i]));
      }
      if k in OnNodeKeys(t, node, g) {
        var p := t[k].placement;
        RowsContain(t, PlacementV(p));
        assert p in ms;
        var i :| 0 <= i < |ms| && ms[i] == p;
        assert ms[i].podId == k;
      }
    }
    PodCount(ms);
  }

  // ----- the plan -----

  /** The guard's answer for a group; `None` when the tenant or role cannot be typed. */
  function Answer(typed: (string, string) -> bool, workloads: Table, placements: Table, g: Group, count: nat)
    : Option<Verdict>
  {
    if typed(g.tenant, g.role) then Some(AllowDisruption(workloads, placements, g, count)) else None
  }

  /** How many of the group's `count` pods on the node may go: none unless the guard denied with room. */
  function Allowance(answer: Option<Verdict>, count: nat): nat {
    match answer
    case Some(Denied(min, healthy, _)) =>
      var room := if healthy >= min then healthy - min else 0;
      if count <= room then count else room
    case _ => 0
  }

  /** The pods of each group that may go. */
  ghost function Quota(typed: (string, string) -> bool, workloads: Table, placements: Table, node: string)
    : Group -> nat
  {
    (g: Group) =>
      var count := |OnNodeKeys(placements, node, g)|;
      Allowance(Answer(typed, workloads, placements, g, count), count)
  }

  ghost predicate GroupAllowed(typed: (string, string) -> bool, workloads: Table, placements: Table, node: string,
                               g: Group) {
    Answer(typed, workloads, placements, g, |OnNodeKeys(placements, node, g)|) == Some(Allowed)
  }

  ghost predicate AllAllowed(typed: (string, string) -> bool, workloads: Table, placements: Table, node: string,
                             groups: set<Group>)
  {
    forall g :: g in groups ==> GroupAllowed(typed, workloads, placements, node, g)
  }

  /** The groups with a pod on the node. */
  ghost function GroupsOn(t: Table, node: string): set<Group> {
    set k | k in t && t[k].PlacementV? && t[k].placement.nodeId == node :: GroupOf(t[k].placement)
  }

  ghost predicate HasGroup(ps: seq<Placement>, g: Group) {
    exists i :: 0 <= i < |ps| && GroupOf(ps[i]) == g
  }

  lemma {:induction false} NoMembers(ps: seq<Placement>, g: Group)
    requires !HasGroup(ps, g)
    ensures Members(ps, g) == []
  {
    if ps != [] {
      var init := ps[..|ps| - 1];
      assert !HasGroup(init, g) by {
        assert forall i :: 0 <= i < |init| ==> init[i] == ps[i];
      }
      NoMembers(init, g);
    }
  }

  lemma HasGroupSnoc(ps: seq<Placement>, p: Placement, g: Group)
    ensures HasGroup(ps + [p], g) <==> HasGroup(ps, g) || GroupOf(p) == g
    ensures Members(ps + [p], g) == if GroupOf(p) == g then Members(ps, g) + [p] else Members(ps, g)
  {
    var all := ps + [p];
    assert all[..|ps|] == ps && all[|ps|] == p;
    if HasGroup(ps, g) {
      var i :| 0 <= i < |ps| && GroupOf(ps[i]) == g;
      assert all[i] == ps[i];
    }
  }

  /** The groups collected so far. */
  ghost predicate Grouped(ps: seq<Placement>, groups: map<Group, seq<Placement>>) {
    forall g :: (g in groups <==> HasGroup(ps, g)) && (g in groups ==> groups[g] == Members(ps, g))
  }

  lemma GroupedSnoc(ps: seq<Placement>, p: Placement, groups: map<Group, seq<Placement>>)
    requires Grouped(ps, groups)
    ensures var g := GroupOf(p);
            Grouped(ps + [p], groups[g := (if g in groups then groups[g] else []) + [p]])
  {
    var g := GroupOf(p);
    var groups' := groups[g := (if g in groups then groups[g] else []) + [p]];
    forall h
      ensures (h in groups' <==> HasGroup(ps + [p], h)) && (h in groups' ==> groups'[h] == Members(ps + [p], h))
    {
      HasGroupSnoc(ps, p, h);
      if h == g && g !in groups {
        NoMembers(ps, g);
      }
    }
  }

  /** Group the node's placements by (tenant, workload, role). */
  method GroupPlacements(ps: seq<Placement>) returns (groups: map<Group, seq<Placement>>)
    ensures Grouped(ps, groups)
  {
    groups := map[];
    for i := 0 to |ps|
      invariant Grouped(ps[..i], groups)
    {
      var g := GroupOf(ps[i]);
      GroupedSnoc(ps[..i], ps[i], groups);
      assert ps[..i + 1] == ps[..i] + [ps[i]];
      groups := groups[g := (if g in groups then groups[g] else []) + [ps[i]]];
    }
    assert ps[..|ps|] == ps;
  }

  /** The groups of the listed placements are the groups on the node. */
  lemma ListedGroups(t: Table, node: string, g: Group)
    ensures HasGroup(Select(Rows(t), OnNode(node)), g) <==> g in GroupsOn(t, node)
  {
    var ps := Select(Rows(t), OnNode(node));
    SelectMembers(Rows(t), OnNode(node));
    if HasGroup(ps, g) {
      var i :| 0 <= i < |ps| && GroupOf(ps[i]) == g;
      assert ps[i] in ps;
      RowsContain(t, PlacementV(ps[i]));
    }
    if g in GroupsOn(t, node) {
      var k :| k in t && t[k].PlacementV? && t[k].placement.nodeId == node && GroupOf(t[k].placement) == g;
      RowsContain(t, t[k]);
      assert t[k].placement in ps;
      var i :| 0 <= i < |ps| && ps[i] == t[k].placement;
      assert GroupOf(ps[i]) == g;
    }
  }

  lemma ListedKeys(t: Table, node: string, groups: map<Group, seq<Placement>>)
    requires Grouped(Select(Rows(t), OnNode(node)), groups)
    ensures groups.Keys == GroupsOn(t, node)
  {
    forall g
      ensures g in groups <==> g in GroupsOn(t, node)
    {
      ListedGroups(t, node, g);
    }
  }

  /** Every victim is a stored placement on the node, of a group already planned. */
  ghost predicate VictimsStored(t: Table, node: string, victims: seq<Placement>, done: set<Group>) {
    forall i :: 0 <= i < |victims| ==>
      && GroupOf(victims[i]) in done
      && victims[i].podId in t && t[victims[i].podId] == PlacementV(victims[i])
      && victims[i].nodeId == node
  }

  /** Every planned group loses exactly its quota. */
  ghost predicate QuotasMet(quota: Group -> nat, t: Table, node: string, victims: seq<Placement>, done: set<Group>) {
    forall g :: g in done ==> |PodIds(victims) * OnNodeKeys(t, node, g)| == quota(g)
  }

  lemma PodIdsConcat(a: seq<Placement>, b: seq<Placement>)
    ensures PodIds(a + b) == PodIds(a) + PodIds(b)
  {
    forall x
      ensures x in PodIds(a + b) <==> x in PodIds(a) + PodIds(b)
    {
      if x in PodIds(a) {
        var i :| 0 <= i < |a| && a[i].podId == x;
        assert (a + b)[i].podId == x;
      }
      if x in PodIds(b) {
        var i :| 0 <= i < |b| && b[i].podId == x;
        assert (a + b)[|a| + i].podId == x;
      }
    }
  }

  /** Victims of other groups are not among a group's keys. */
  lemma GroupsDisjoint(t: Table, node: string, ps: seq<Placement>, g: Group)
    requires forall i :: 0 <= i < |ps| ==>
               ps[i].podId in t && t[ps[i].podId] == PlacementV(ps[i]) && GroupOf(ps[i]) != g
    ensures PodIds(ps) * OnNodeKeys(t, node, g) == {}
  {
    forall k | k in PodIds(ps)
      ensures k !in OnNodeKeys(t, node, g)
    {
      var i :| 0 <= i < |ps| && ps[i].podId == k;
    }
  }

  lemma PrefixOfMembers(t: Table, node: string, g: Group, n: nat)
    requires KeyedByPod(t) && n <= |OnNodeKeys(t, node, g)|
    ensures var ms := Members(Select(Rows(t), OnNode(node)), g);
            |ms| == |OnNodeKeys(t, node, g)| && FromGroup(t, node, g, ms[..n]) && |PodIds(ms[..n])| == n
  {
    var ms := Members(Select(Rows(t), OnNode(node)), g);
    MembersAreKeys(t, node, g);
    PodCount(ms[..n]);
    forall i | 0 <= i < n
      ensures GroupOf(ms[i]) == g && ms[i].podId in t && t[ms[i].podId] == PlacementV(ms[i]) && ms[i].nodeId == node
    {
      MemberStored(t, node, g, i);
    }
  }

  lemma MemberStored(t: Table, node: string, g: Group, i: nat)
    requires KeyedByPod(t) && i < |Members(Select(Rows(t), OnNode(node)), g)|
    ensures var p := Members(Select(Rows(t), OnNode(node)), g)[i];
            GroupOf(p) == g && p.podId in t && t[p.podId] == PlacementV(p) && p.nodeId == node
  {
    var ps := Select(Rows(t), OnNode(node));
    var p := Members(ps, g)[i];
    MembersOf(ps, g);
    assert p in Members(ps, g);
    SelectMembers(Rows(t), OnNode(node));
    RowsContain(t, PlacementV(p));
  }

  /** Some of a group's own stored placements on the node. */
  ghost predicate FromGroup(t: Table, node: string, g: Group, more: seq<Placement>) {
    forall i :: 0 <= i < |more| ==>
      GroupOf(more[i]) == g && more[i].podId in t && t[more[i].podId] == PlacementV(more[i]) && more[i].nodeId == node
  }

  lemma StoredConcat(t: Table, node: string, victims: seq<Placement>, more: seq<Placement>, done: set<Group>, g: Group)
    requires VictimsStored(t, node, victims, done) && FromGroup(t, node, g, more)
    ensures VictimsStored(t, node, victims + more, done + {g})
  {
    forall i | 0 <= i < |victims + more|
      ensures var v := (victims + more)[i];
              GroupOf(v) in done + {g} && v.podId in t && t[v.podId] == PlacementV(v) && v.nodeId == node
    {
    }
  }

  lemma QuotasConcat(quota: Group -> nat, t: Table, node: string, victims: seq<Placement>, more: seq<Placement>,
                     done: set<Group>, g: Group)
    requires g !in done && VictimsStored(t, node, victims, done) && QuotasMet(quota, t, node, victims, done)
    requires FromGroup(t, node, g, more) && |PodIds(more)| == quota(g)
    ensures QuotasMet(quota, t, node, victims + more, done + {g})
  {
    forall h | h in done + {g}
      ensures |PodIds(victims + more) * OnNodeKeys(t, node, h)| == quota(h)
    {
      if h == g {
        QuotaOfNew(quota, t, node, victims, more, done, g);
      } else {
        QuotaOfOld(t, node, victims, more, g, h);
      }
    }
  }

  lemma FromGroupKeys(t: Table, node: string, g: Group, more: seq<Placement>)
    requires FromGroup(t, node, g, more)
    ensures PodIds(more) <= OnNodeKeys(t, node, g)
  {
  }

  lemma QuotaOfNew(quota: Group -> nat, t: Table, node: string, victims: seq<Placement>, more: seq<Placement>,
                   done: set<Group>, g: Group)
    requires VictimsStored(t, node, victims, done) && g !in done
    requires FromGroup(t, node, g, more) && |PodIds(more)| == quota(g)
    ensures |PodIds(victims + more) * OnNodeKeys(t, node, g)| == quota(g)
  {
    PodIdsConcat(victims, more);
    GroupsDisjoint(t, node, victims, g);
    FromGroupKeys(t, node, g, more);
    hide PodIds, OnNodeKeys, VictimsStored, FromGroup;
    assert PodIds(victims + more) * OnNodeKeys(t, node, g) == PodIds(more);
  }

  lemma QuotaOfOld(t: Table, node: string, victims: seq<Placement>, more: seq<Placement>, g: Group, h: Group)
    requires g != h && FromGroup(t, node, g, more)
    ensures PodIds(victims + more) * OnNodeKeys(t, node, h) == PodIds(victims) * OnNodeKeys(t, node, h)
  {
    PodIdsConcat(victims, more);
    GroupsDisjoint(t, node, more, h);
  }

  /** What the plan has established once the groups in `done` are visited. */
  ghost predicate Planned(typed: (string, string) -> bool, workloads: Table, placements: Table, node: string,
                          done: set<Group>, allAllowed: bool, victims: seq<Placement>)
  {
    && (allAllowed <==> AllAllowed(typed, workloads, placements, node, done))
    && VictimsStored(placements, node, victims, done)
    && QuotasMet(Quota(typed, workloads, placements, node), placements, node, victims, done)
  }

  lemma PlanStart(typed: (string, string) -> bool, workloads: Table, placements: Table, node: string)
    ensures Planned(typed, workloads, placements, node, {}, true, [])
  {
  }

  lemma PlanStep(typed: (string, string) -> bool, workloads: Table, placements: Table, node: string, done: set<Group>,
                 allAllowed: bool, victims: seq<Placement>, g: Group, allowed: bool, more: seq<Placement>)
    requires Planned(typed, workloads, placements, node, done, allAllowed, victims) && g !in done
    requires allowed <==> GroupAllowed(typed, workloads, placements, node, g)
    requires FromGroup(placements, node, g, more)
    requires |PodIds(more)| == Quota(typed, workloads, placements, node)(g)
    ensures Planned(typed, workloads, placements, node, done + {g}, allAllowed && allowed, victims + more)
  {
    StoredConcat(placements, node, victims, more, done, g);
    QuotasConcat(Quota(typed, workloads, placements, node), placements, node, victims, more, done, g);
  }

  /** The guard loop of `evict_node`: whether every group may go, and otherwise which pods may. The
  groups are visited in any order. */
  method PlanDrain(typed: (string, string) -> bool, workloads: Table, placements: Table, node: string)
    returns (allAllowed: bool, victims: seq<Placement>)
    requires KeyedByPod(placements)
    ensures Planned(typed, workloads, placements, node, GroupsOn(placements, node), allAllowed, victims)
  {
    hide KeyedByPod, GroupsOn, Planned, FromGroup, Quota, GroupAllowed, Members, Select, HasGroup, PodIds;
    var groups := GroupPlacements(Select(Rows(placements), OnNode(node)));
    ListedKeys(placements, node, groups);
    allAllowed, victims := true, [];
    var todo := groups.Keys;
    ghost var done: set<Group> := {};
    PlanStart(typed, workloads, placements, node);
    while todo != {}
      invariant todo + done == groups.Keys && todo !! done
      invariant Planned(typed, workloads, placements, node, done, allAllowed, victims)
      decreases todo
    {
      var g :| g in todo;
      var allowed, more := PlanGroup(typed, workloads, placements, node, g, groups[g]);
      PlanStep(typed, workloads, placements, node, done, allAllowed, victims, g, allowed, more);
      allAllowed, victims := allAllowed && allowed, victims + more;
      todo, done := todo - {g}, done + {g};
    }
  }

  /** The guard's answer for one group, turned into the pods that may go. */
  method PlanGroup(typed: (string, string) -> bool, workloads: Table, placements: Table, node: string, g: Group,
                   members: seq<Placement>)
    returns (allowed: bool, more: seq<Placement>)
    requires KeyedByPod(placements) && members == Members(Select(Rows(placements), OnNode(node)), g)
    ensures allowed <==> GroupAllowed(typed, workloads, placements, node, g)
    ensures FromGroup(placements, node, g, more)
    ensures |PodIds(more)| == Quota(typed, workloads, placements, node)(g)
  {
    MembersAreKeys(placements, node, g);
    var answer := Answer(typed, workloads, placements, g, |members|);
    allowed := answer == Some(Allowed);
    PrefixOfMembers(placements, node, g, Allowance(answer, |members|));
    more := members[..Allowance(answer, |members|)];
  }
}
