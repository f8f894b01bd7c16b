/** Taints and tolerations: the scheduling filter, and the pods a NoExecute taint drives out. */
module Taints {
  import opened Records
  import opened Bytes
  import opened Sorting

  const NO_SCHEDULE := "NoSchedule"
  const PREFER_NO_SCHEDULE := "PreferNoSchedule"
  const NO_EXECUTE := "NoExecute"

  /** One toleration against one taint; an operator other than these matches nothing. */
  predicate Tolerates(tol: Toleration, taint: NodeTaint) {
    if tol.effect != "" && tol.effect != taint.effect then false
    else if tol.key == "" then tol.operator == "Exists"
    else if tol.key != taint.key then false
    else if tol.operator == "Exists" then true
    else if tol.operator == "" || tol.operator == "Equal" then tol.value == taint.value
    else false
  }

  predicate IsTolerated(tolerations: seq<Toleration>, taint: NodeTaint) {
    exists i :: 0 <= i < |tolerations| && Tolerates(tolerations[i], taint)
  }

  /** The hard filter: every NoSchedule or NoExecute taint is tolerated. */
  predicate PassesFilter(tolerations: seq<Toleration>, taints: seq<NodeTaint>) {
    forall i :: 0 <= i < |taints| && (taints[i].effect == NO_SCHEDULE || taints[i].effect == NO_EXECUTE) ==>
      IsTolerated(tolerations, taints[i])
  }

  /** The number of untolerated PreferNoSchedule taints. */
  function Penalties(tolerations: seq<Toleration>, taints: seq<NodeTaint>): nat {
    if taints == [] then 0
    else
      (if taints[0].effect == PREFER_NO_SCHEDULE && !IsTolerated(tolerations, taints[0]) then 1 else 0)
      + Penalties(tolerations, taints[1..])
  }

  // ----- NoExecute -----

  /** The grace a toleration gives a taint has run out; a grace that is not positive never does. */
  predicate Elapsed(now: int, taint: NodeTaint, tol: Toleration) {
    tol.seconds > 0 && now - taint.timeAdded > tol.seconds
  }

  /** No toleration covers the taint any longer. */
  ghost predicate Uncovered(now: int, taint: NodeTaint, tolerations: seq<Toleration>) {
    forall tol :: tol in tolerations && Tolerates(tol, taint) ==> Elapsed(now, taint, tol)
  }

  /** The pod has to leave: some NoExecute taint is not, or no longer, tolerated. */
  ghost predicate MustLeave(now: int, taints: seq<NodeTaint>, tolerations: seq<Toleration>) {
    exists taint :: taint in taints && taint.effect == NO_EXECUTE && Uncovered(now, taint, tolerations)
  }

  /** Whether one taint drives out a pod: the longest grace among the matching tolerations, and any grace
  that is not positive, decide. */
  method DrivesOut(now: int, taint: NodeTaint, tolerations: seq<Toleration>) returns (out: bool)
    ensures out <==> Uncovered(now, taint, tolerations)
  {
    var matching := [];
    for i := 0 to |tolerations|
      invariant forall tol :: tol in matching <==> tol in tolerations[..i] && Tolerates(tol, taint)
    {
      if Tolerates(tolerations[i], taint) {
        matching := matching + [tolerations[i]];
      }
    }
    assert tolerations[..|tolerations|] == tolerations;
    if matching == [] {
      return true;
    }
    var indefinite, maxGrace := false, 0;
    ghost var longest := 0;
    for i := 0 to |matching|
      invariant !indefinite
      invariant forall j :: 0 <= j < i ==> 0 < matching[j].seconds <= maxGrace
      invariant if i == 0 then maxGrace == 0 else 0 <= longest < i && matching[longest].seconds == maxGrace
    {
      if matching[i].seconds <= 0 {
        indefinite := true;
        assert matching[i] in matching;
        break;
      }
      if matching[i].seconds > maxGrace {
        maxGrace, longest := matching[i].seconds, i;
      }
    }
    if !indefinite {
      assert matching[longest] in matching;
    }
    return !indefinite && now - taint.timeAdded > maxGrace;
  }

  /** Runs of equal neighbours collapsed to one. */
  function Dedup(xs: seq<string>): seq<string> {
    if |xs| < 2 then xs
    else if xs[0] == xs[1] then Dedup(xs[1..])
    else [xs[0]] + Dedup(xs[1..])
  }

  lemma {:induction false} DedupElements(xs: seq<string>)
    ensures forall x :: x in Dedup(xs) <==> x in xs
    ensures xs != [] ==> Dedup(xs) != [] && Dedup(xs)[0] == xs[0]
  {
    if |xs| >= 2 {
      DedupElements(xs[1..]);
      assert xs == [xs[0]] + xs[1..];
    }
  }

  lemma {:induction false} DedupAscends(xs: seq<string>)
    requires Sorted(xs, AtMost)
    ensures StrictlyAscending(Dedup(xs))
  {
    if |xs| >= 2 {
      DedupAscends(xs[1..]);
      DedupElements(xs[1..]);
      if xs[0] != xs[1] {
        var rest := Dedup(xs[1..]);
        forall j | 0 <= j < |rest|
          ensures Less(xs[0], rest[j])
        {
          assert rest[j] in xs[1..];
          assert AtMost(xs[0], xs[1]);
          var m :| 0 <= m < |xs[1..]| && xs[1..][m] == rest[j];
          assert AtMost(xs[1], xs[1 + m]) by {
            if m > 0 {
              assert AtMost(xs[1], xs[1 + m]);
            }
          }
          if xs[1] != rest[j] {
            LessTransitive(xs[0], xs[1], rest[j]);
          }
        }
      }
    }
  }

  lemma AtMostIsTotalPreorder()
    ensures TotalPreorder(AtMost)
  {
    forall a, b
      ensures AtMost(a, b) || AtMost(b, a)
    {
      LessTotal(a, b);
    }
    forall a, b, c | AtMost(a, b) && AtMost(b, c)
      ensures AtMost(a, c)
    {
      if a != b && b != c {
        LessTransitive(a, b, c);
      }
    }
  }

  /** `plan_no_execute_evictions`: in ascending order and once each, exactly the pods that must leave. */
  method PlanEvictions(now: int, taints: seq<NodeTaint>, pods: seq<Placement>,
                       tolerationsFor: Placement -> seq<Toleration>)
    returns (evict: seq<string>)
    ensures StrictlyAscending(evict)
    ensures forall id :: id in evict <==> Leaves(now, taints, pods, tolerationsFor, id)
  {
    var noExecute := [];
    for i := 0 to |taints|
      invariant forall t :: t in noExecute <==> t in taints[..i] && t.effect == NO_EXECUTE
    {
      if taints[i].effect == NO_EXECUTE {
        noExecute := noExecute + [taints[i]];
      }
    }
    assert taints[..|taints|] == taints;
    evict := [];
    if noExecute == [] {
      return;
    }
    for i := 0 to |pods|
      invariant forall id :: id in evict <==> Leaves(now, taints, pods[..i], tolerationsFor, id)
    {
      var leaves := false;
      var j := 0;
      while j < |noExecute| && !leaves
        invariant 0 <= j <= |noExecute|
        invariant leaves ==> MustLeave(now, taints, tolerationsFor(pods[i]))
        invariant !leaves ==> forall k :: 0 <= k < j ==> !Uncovered(now, noExecute[k], tolerationsFor(pods[i]))
      {
        assert noExecute[j] in noExecute;
        leaves := DrivesOut(now, noExecute[j], tolerationsFor(pods[i]));
        j := j + 1;
      }
      LeavesSnoc(now, taints, pods, tolerationsFor, i);
      if leaves {
        evict := evict + [pods[i].podId];
      }
    }
    assert pods[..|pods|] == pods;
    AtMostIsTotalPreorder();
    SortPermutes(evict, AtMost);
    SortSorted(evict, AtMost);
    DedupElements(Sort(evict, AtMost));
    DedupAscends(Sort(evict, AtMost));
    evict := Dedup(Sort(evict, AtMost));
  }

  ghost predicate Leaves(now: int, taints: seq<NodeTaint>, pods: seq<Placement>,
                         tolerationsFor: Placement -> seq<Toleration>, id: string)
  {
    exists p :: p in pods && p.podId == id && MustLeave(now, taints, tolerationsFor(p))
  }

  lemma LeavesSnoc(now: int, taints: seq<NodeTaint>, pods: seq<Placement>, tolerationsFor: Placement -> seq<Toleration>,
                   i: nat)
    requires i < |pods|
    ensures forall id :: Leaves(now, taints, pods[..i + 1], tolerationsFor, id) <==>
              Leaves(now, taints, pods[..i], tolerationsFor, id)
              || (id == pods[i].podId && MustLeave(now, taints, tolerationsFor(pods[i])))
  {
    assert pods[..i + 1] == pods[..i] + [pods[i]];
    forall id
      ensures Leaves(now, taints, pods[..i + 1], tolerationsFor, id) <==>
                Leaves(now, taints, pods[..i], tolerationsFor, id)
                || (id == pods[i].podId && MustLeave(now, taints, tolerationsFor(pods[i])))
    {
      if id == pods[i].podId && MustLeave(now, taints, tolerationsFor(pods[i])) {
        assert pods[i] in pods[..i + 1];
      }
      if p :| p in pods[..i] && p.podId == id && MustLeave(now, taints, tolerationsFor(p)) {
        assert p in pods[..i + 1];
      }
    }
  }

  /** The set of pods that must leave only grows with time. */
  lemma LeavingIsMonotone(now: int, later: int, taints: seq<NodeTaint>, tolerations: seq<Toleration>)
    requires now <= later && MustLeave(now, taints, tolerations)
    ensures MustLeave(later, taints, tolerations)
  {
    var taint :| taint in taints && taint.effect == NO_EXECUTE && Uncovered(now, taint, tolerations);
    assert Uncovered(later, taint, tolerations);
  }

  /** Adding tolerations only keeps more pods. */
  lemma LeavingIsAntitone(now: int, taints: seq<NodeTaint>, fewer: seq<Toleration>, more: seq<Toleration>)
    requires (forall tol :: tol in fewer ==> tol in more) && MustLeave(now, taints, more)
    ensures MustLeave(now, taints, fewer)
  {
    var taint :| taint in taints && taint.effect == NO_EXECUTE && Uncovered(now, taint, more);
    assert Uncovered(now, taint, fewer);
  }

  /** A pod the filter would admit on the node leaves only because a grace ran out. */
  lemma AdmittedPodsLeaveOnlyByGrace(now: int, taints: seq<NodeTaint>, tolerations: seq<Toleration>)
    requires PassesFilter(tolerations, taints) && MustLeave(now, taints, tolerations)
    ensures exists taint, tol ::
              taint in taints && tol in tolerations && Tolerates(tol, taint) && Elapsed(now, taint, tol)
  {
    var taint :| taint in taints && taint.effect == NO_EXECUTE && Uncovered(now, taint, tolerations);
    var i :| 0 <= i < |taints| && taints[i] == taint;
    var j :| 0 <= j < |tolerations| && Tolerates(tolerations[j], taint);
    assert tolerations[j] in tolerations;
  }

  // ----- what tolerations cover -----

  /** The toleration is for another effect, or for another key. */
  predicate Elsewhere(tol: Toleration, taint: NodeTaint) {
    (tol.effect != "" && tol.effect != taint.effect) || (tol.key != "" && tol.key != taint.key)
  }

  /** Tolerations of other effects or other keys do not help: the pod leaves on the taint, and is not let onto the
  node. */
  lemma OthersDoNotHelp(now: int, taints: seq<NodeTaint>, tolerations: seq<Toleration>, i: nat)
    requires i < |taints| && forall tol :: tol in tolerations ==> Elsewhere(tol, taints[i])
    ensures taints[i].effect == "NoExecute" ==> MustLeave(now, taints, tolerations)
    ensures taints[i].effect == "NoExecute" || taints[i].effect == "NoSchedule" ==> !PassesFilter(tolerations, taints)
  {
    assert taints[i] in taints;
    assert forall j :: 0 <= j < |tolerations| ==> tolerations[j] in tolerations;
  }

  /** A toleration of every key and effect, without a grace, keeps a pod everywhere. */
  lemma WildcardKeeps(now: int, taints: seq<NodeTaint>, tolerations: seq<Toleration>, value: string, seconds: int)
    requires seconds <= 0 && Toleration("", "Exists", value, "", seconds) in tolerations
    ensures !MustLeave(now, taints, tolerations) && PassesFilter(tolerations, taints)
  {
    var i :| 0 <= i < |tolerations| && tolerations[i] == Toleration("", "Exists", value, "", seconds);
    forall j | 0 <= j < |taints|
      ensures IsTolerated(tolerations, taints[j])
    {
      assert Tolerates(tolerations[i], taints[j]);
    }
  }

  /** One toleration without a grace against one taint, by its operator, key, value and effect. */
  lemma OneTolerationHelpsIff(now: int, taint: NodeTaint, tol: Toleration)
    requires tol.seconds <= 0 && taint.effect == "NoExecute"
    ensures !MustLeave(now, [taint], [tol]) <==>
              && (tol.effect == "" || tol.effect == "NoExecute")
              && (|| (tol.operator == "Exists" && (tol.key == "" || tol.key == taint.key))
                  || ((tol.operator == "Equal" || tol.operator == "") && tol.key != "" && tol.key == taint.key
                      && tol.value == taint.value))
    ensures PassesFilter([tol], [taint]) <==> !MustLeave(now, [taint], [tol])
  {
    assert taint in [taint] && tol in [tol];
    assert [tol][0] == tol && [taint][0] == taint;
    assert IsTolerated([tol], taint) <==> Tolerates(tol, taint);
  }

  /** A grace keeps a pod that one toleration covers exactly until it has passed. */
  lemma GraceKeepsUntil(now: int, taint: NodeTaint, value: string, seconds: int)
    requires taint.effect == "NoExecute" && seconds > 0
    ensures MustLeave(now, [taint], [Toleration("", "Exists", value, "", seconds)]) <==> now > taint.timeAdded + seconds
  {
    var tol := Toleration("", "Exists", value, "", seconds);
    assert taint in [taint] && tol in [tol];
    assert Tolerates(tol, taint);
  }

  /** Only NoSchedule and NoExecute taints keep a pod off a node, and only NoExecute taints drive one out. */
  lemma OtherEffectsAreSoft(now: int, taints: seq<NodeTaint>, tolerations: seq<Toleration>)
    ensures (forall i :: 0 <= i < |taints| ==> taints[i].effect != "NoSchedule" && taints[i].effect != "NoExecute")
            ==> PassesFilter(tolerations, taints)
    ensures (forall i :: 0 <= i < |taints| ==> taints[i].effect != "NoExecute") ==> !MustLeave(now, taints, tolerations)
  {
  }
}
