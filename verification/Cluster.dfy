/** The scheduler's view of the cluster: what each node has left once its placements are counted. */
module Cluster {
  import opened Records
  import opened Sums

  // ----- resources -----

  datatype Dimension = Cpu | Memory

  function Amount(d: Dimension, r: Resources): nat {
    if d.Cpu? then r.cpu else r.memory
  }

  predicate FitsWithin(r: Resources, available: Resources) {
    r.cpu <= available.cpu && r.memory <= available.memory
  }

  /** Saturates at zero. */
  function Subtract(r: Resources, other: Resources): Resources {
    Resources(if r.cpu >= other.cpu then r.cpu - other.cpu else 0,
              if r.memory >= other.memory then r.memory - other.memory else 0)
  }

  function Add(r: Resources, other: Resources): Resources {
    Resources(r.cpu + other.cpu, r.memory + other.memory)
  }

  // ----- usage -----

  /** What a placement takes of one dimension on a node. */
  function On(node: string, d: Dimension): Placement -> nat {
    (p: Placement) => if p.nodeId == node then Amount(d, p.resources) else 0
  }

  function Usage(ps: seq<Placement>, node: string, d: Dimension): nat {
    Sum(ps, On(node, d))
  }

  function Used(ps: seq<Placement>, node: string): Resources {
    Resources(Usage(ps, node, Cpu), Usage(ps, node, Memory))
  }

  function Hosts(node: string): Placement -> nat {
    (p: Placement) => if p.nodeId == node then 1 else 0
  }

  lemma SumSnoc<T>(xs: seq<T>, i: nat, f: T -> nat)
    requires i < |xs|
    ensures Sum(xs[..i + 1], f) == Sum(xs[..i], f) + f(xs[i])
  {
    assert xs[..i + 1] == xs[..i] + [xs[i]];
    SumAppend(xs[..i], [xs[i]], f);
  }

  // ----- the view -----

  datatype NodeInfo = NodeInfo(
    nodeId: string,
    capacity: Resources,
    available: Resources,
    failureDomain: string,
    schedulable: bool,
    podCount: nat,
    taints: seq<NodeTaint>)

  datatype ClusterState = ClusterState(nodes: seq<NodeInfo>, placements: seq<Placement>)

  function NodeView(r: NodeRecord, ps: seq<Placement>, taints: map<string, seq<NodeTaint>>): NodeInfo {
    NodeInfo(
      r.nodeId, r.capacity, Subtract(r.capacity, Used(ps, r.nodeId)), r.failureDomain,
      r.schedulable && r.status == Active, Sum(ps, Hosts(r.nodeId)),
      if r.nodeId in taints then taints[r.nodeId] else [])
  }

  /** The nodes of the view: records whose id does not parse are skipped. */
  function Views(spiffe: string -> bool, records: seq<NodeRecord>, ps: seq<Placement>,
                 taints: map<string, seq<NodeTaint>>)
    : seq<NodeInfo>
  {
    if records == [] then []
    else
      var init, last := Views(spiffe, records[..|records| - 1], ps, taints), records[|records| - 1];
      if spiffe(last.nodeId) then init + [NodeView(last, ps, taints)] else init
  }

  method CountPlacements(ps: seq<Placement>, node: string) returns (used: Resources, podCount: nat)
    ensures used == Used(ps, node) && podCount == Sum(ps, Hosts(node))
  {
    used, podCount := Resources(0, 0), 0;
    for i := 0 to |ps|
      invariant used == Used(ps[..i], node) && podCount == Sum(ps[..i], Hosts(node))
    {
      SumSnoc(ps, i, On(node, Cpu));
      SumSnoc(ps, i, On(node, Memory));
      SumSnoc(ps, i, Hosts(node));
      if ps[i].nodeId == node {
        used := Add(used, ps[i].resources);
        podCount := podCount + 1;
      }
    }
    assert ps[..|ps|] == ps;
  }

  /** `ClusterState::build`. */
  method Build(spiffe: string -> bool, records: seq<NodeRecord>, ps: seq<Placement>,
               taints: map<string, seq<NodeTaint>>)
    returns (state: ClusterState)
    ensures state == ClusterState(Views(spiffe, records, ps, taints), ps)
  {
    var nodes := [];
    for i := 0 to |records|
      invariant nodes == Views(spiffe, records[..i], ps, taints)
    {
      var r := records[i];
      assert records[..i + 1][..i] == records[..i];
      if spiffe(r.nodeId) {
        var used, podCount := CountPlacements(ps, r.nodeId);
        nodes := nodes + [NodeInfo(r.nodeId, r.capacity, Subtract(r.capacity, used), r.failureDomain,
                                   r.schedulable && r.status == Active, podCount,
                                   if r.nodeId in taints then taints[r.nodeId] else [])];
      }
    }
    assert records[..|records|] == records;
    state := ClusterState(nodes, ps);
  }

  /** A node of the view is the view of a record whose id parses, and every such record has one. */
  lemma {:induction false} ViewsOf(spiffe: string -> bool, records: seq<NodeRecord>, ps: seq<Placement>,
                                   taints: map<string, seq<NodeTaint>>)
    ensures forall r :: r in records && spiffe(r.nodeId) ==>
              NodeView(r, ps, taints) in Views(spiffe, records, ps, taints)
    ensures forall n :: n in Views(spiffe, records, ps, taints) ==>
              exists r :: r in records && spiffe(r.nodeId) && n == NodeView(r, ps, taints)
  {
    if records != [] {
      var init, last := records[..|records| - 1], records[|records| - 1];
      assert records == init + [last];
      ViewsOf(spiffe, init, ps, taints);
      forall n | n in Views(spiffe, records, ps, taints)
        ensures exists r :: r in records && spiffe(r.nodeId) && n == NodeView(r, ps, taints)
      {
        if n in Views(spiffe, init, ps, taints) {
          var r :| r in init && spiffe(r.nodeId) && n == NodeView(r, ps, taints);
          assert r in records;
        } else {
          assert last in records;
        }
      }
    }
  }

  ghost predicate DistinctIds(nodes: seq<NodeInfo>) {
    forall i, j :: 0 <= i < j < |nodes| ==> nodes[i].nodeId != nodes[j].nodeId
  }

  lemma {:induction false} ViewsDistinct(spiffe: string -> bool, records: seq<NodeRecord>, ps: seq<Placement>,
                                         taints: map<string, seq<NodeTaint>>)
    requires DistinctRecords(records)
    ensures DistinctIds(Views(spiffe, records, ps, taints))
  {
    if records != [] {
      var init, last := records[..|records| - 1], records[|records| - 1];
      ViewsDistinct(spiffe, init, ps, taints);
      ViewsOf(spiffe, init, ps, taints);
      var before := Views(spiffe, init, ps, taints);
      forall i | 0 <= i < |before|
        ensures before[i].nodeId != last.nodeId
      {
        assert before[i] in before;
        var r :| r in init && spiffe(r.nodeId) && before[i] == NodeView(r, ps, taints);
        var k :| 0 <= k < |init| && init[k] == r;
        assert records[k].nodeId != records[|records| - 1].nodeId;
      }
    }
  }

  // ----- the order of the lists does not matter -----

  /** Two views with the same nodes and the same placements, in whatever order. */
  ghost predicate SameView(a: ClusterState, b: ClusterState) {
    multiset(a.nodes) == multiset(b.nodes) && multiset(a.placements) == multiset(b.placements)
  }

  lemma NodeViewPermuted(r: NodeRecord, ps: seq<Placement>, qs: seq<Placement>, taints: map<string, seq<NodeTaint>>)
    requires multiset(ps) == multiset(qs)
    ensures NodeView(r, ps, taints) == NodeView(r, qs, taints)
  {
    SumPermutation(ps, qs, On(r.nodeId, Cpu));
    SumPermutation(ps, qs, On(r.nodeId, Memory));
    SumPermutation(ps, qs, Hosts(r.nodeId));
  }

  lemma {:induction false} ViewsPermutedPlacements(spiffe: string -> bool, records: seq<NodeRecord>, ps: seq<Placement>,
                                                   qs: seq<Placement>, taints: map<string, seq<NodeTaint>>)
    requires multiset(ps) == multiset(qs)
    ensures Views(spiffe, records, ps, taints) == Views(spiffe, records, qs, taints)
  {
    if records != [] {
      ViewsPermutedPlacements(spiffe, records[..|records| - 1], ps, qs, taints);
      NodeViewPermuted(records[|records| - 1], ps, qs, taints);
    }
  }

  lemma {:induction false} ViewsConcat(spiffe: string -> bool, a: seq<NodeRecord>, b: seq<NodeRecord>,
                                       ps: seq<Placement>, taints: map<string, seq<NodeTaint>>)
    ensures Views(spiffe, a + b, ps, taints) == Views(spiffe, a, ps, taints) + Views(spiffe, b, ps, taints)
    decreases |b|
  {
    if b == [] {
      assert a + b == a;
    } else {
      var init := b[..|b| - 1];
      ViewsConcat(spiffe, a, init, ps, taints);
      assert (a + b)[..|a + b| - 1] == a + init;
    }
  }

  /** The view splits off any one record. */
  lemma ViewsSplit(spiffe: string -> bool, b: seq<NodeRecord>, i: nat, ps: seq<Placement>,
                   taints: map<string, seq<NodeTaint>>)
    requires i < |b|
    ensures multiset(Views(spiffe, b, ps, taints))
         == multiset(Views(spiffe, b[..i] + b[i + 1..], ps, taints)) + multiset(Views(spiffe, [b[i]], ps, taints))
  {
    hide Views;
    assert b == b[..i] + ([b[i]] + b[i + 1..]);
    ViewsConcat(spiffe, b[..i], [b[i]] + b[i + 1..], ps, taints);
    ViewsConcat(spiffe, [b[i]], b[i + 1..], ps, taints);
    ViewsConcat(spiffe, b[..i], b[i + 1..], ps, taints);
  }

  lemma {:induction false} ViewsPermuted(spiffe: string -> bool, a: seq<NodeRecord>, b: seq<NodeRecord>,
                                         ps: seq<Placement>, taints: map<string, seq<NodeTaint>>)
    requires multiset(a) == multiset(b)
    ensures multiset(Views(spiffe, a, ps, taints)) == multiset(Views(spiffe, b, ps, taints))
    decreases |a|
  {
    hide Views;
    assert |multiset(a)| == |multiset(b)|;
    if a == [] {
      assert b == [];
    } else {
      assert a[0] in multiset(b);
      var i :| 0 <= i < |b| && b[i] == a[0];
      WithoutOne(a, 0);
      WithoutOne(b, i);
      ViewsPermuted(spiffe, a[..0] + a[1..], b[..i] + b[i + 1..], ps, taints);
      ViewsSplit(spiffe, a, 0, ps, taints);
      ViewsSplit(spiffe, b, i, ps, taints);
    }
  }

  /** Listing the records or the placements in another order gives the same view. */
  lemma BuildOrderIndependent(spiffe: string -> bool, a: seq<NodeRecord>, b: seq<NodeRecord>, ps: seq<Placement>,
                              qs: seq<Placement>, taints: map<string, seq<NodeTaint>>)
    requires multiset(a) == multiset(b) && multiset(ps) == multiset(qs)
    ensures SameView(ClusterState(Views(spiffe, a, ps, taints), ps), ClusterState(Views(spiffe, b, qs, taints), qs))
  {
    ViewsPermuted(spiffe, a, b, ps, taints);
    ViewsPermutedPlacements(spiffe, b, ps, qs, taints);
  }
}
