/** What a scan of a table lists, and how a write changes a total over the listed placements. */
module TableSums {
  import opened Records
  import opened Bytes
  import opened Storage
  import opened Sums
  import opened PlacementTable

  /** A measure of the placement under a key; zero where there is none. */
  function Weight(t: Table, f: Placement -> nat): string -> nat {
    (k: string) => if k in t && t[k].PlacementV? then f(t[k].placement) else 0
  }

  lemma {:induction false} ScanSum(t: Table, keys: seq<string>, f: Placement -> nat)
    requires forall k :: k in keys ==> k in t
    ensures Sum(DecodePlacements(RowsAt(t, keys)), f) == Sum(keys, Weight(t, f))
  {
    if keys != [] {
      var init, last := keys[..|keys| - 1], keys[|keys| - 1];
      assert keys == init + [last];
      ScanSum(t, init, f);
      var rows := RowsAt(t, keys);
      assert rows[..|rows| - 1] == RowsAt(t, init) && rows[|rows| - 1] == t[last];
      SumAppend(init, [last], Weight(t, f));
      if t[last].PlacementV? {
        SumAppend(DecodePlacements(RowsAt(t, init)), [t[last].placement], f);
      }
    }
  }

  /** A total over the listed placements is a total over the keys. */
  lemma ListSum(t: Table, f: Placement -> nat)
    ensures Sum(ListPlacements(t), f) == SumOver(t.Keys, Weight(t, f))
  {
    AscendingElements(t.Keys);
    ScanSum(t, Ascending(t.Keys), f);
  }

  /** Removing a key takes its weight off the total. */
  lemma RemoveKey(t: Table, k: string, f: Placement -> nat)
    requires k in t
    ensures Sum(ListPlacements(t), f) == Weight(t, f)(k) + Sum(ListPlacements(t - {k}), f)
  {
    ListSum(t, f);
    ListSum(t - {k}, f);
    SumOverRemove(t.Keys, k, Weight(t, f));
    assert (t - {k}).Keys == t.Keys - {k};
    SumOverCongruence(t.Keys - {k}, Weight(t, f), Weight(t - {k}, f));
  }

  /** Storing a placement adds at most its own weight: whatever was under the key goes. */
  lemma PutKey(t: Table, k: string, p: Placement, f: Placement -> nat)
    ensures Sum(ListPlacements(t[k := PlacementV(p)]), f) <= Sum(ListPlacements(t), f) + f(p)
  {
    var t' := t[k := PlacementV(p)];
    RemoveKey(t', k, f);
    assert t' - {k} == t - {k};
    if k in t {
      RemoveKey(t, k, f);
    } else {
      assert t - {k} == t;
    }
  }

  /** Removing rows never raises a total. */
  lemma {:induction false} RemoveSome(t: Table, ids: set<string>, f: Placement -> nat)
    ensures Sum(ListPlacements(t - ids), f) <= Sum(ListPlacements(t), f)
    decreases |ids|
  {
    hide Sum, ListPlacements;
    if ids == {} {
      assert t - ids == t;
    } else {
      var k :| k in ids;
      var rest := ids - {k};
      RemoveSome(t, rest, f);
      assert ids == rest + {k};
      MinusOne(t, rest, k);
      if k in t {
        RemoveKey(t - rest, k, f);
      } else {
        assert (t - rest) - {k} == t - rest;
      }
    }
  }

  ghost predicate Within(t': Table, t: Table) {
    t'.Keys <= t.Keys && forall k :: k in t' ==> t'[k] == t[k]
  }

  /** A table with fewer rows has no larger total. */
  lemma FewerRows(t: Table, t': Table, f: Placement -> nat)
    requires Within(t', t)
    ensures Sum(ListPlacements(t'), f) <= Sum(ListPlacements(t), f)
  {
    hide Sum, ListPlacements;
    assert t' == t - (t.Keys - t'.Keys);
    RemoveSome(t, t.Keys - t'.Keys, f);
  }

  /** Distinct placements, each stored under its pod id. */
  ghost predicate StoredOnce(t: Table, ps: seq<Placement>) {
    && (forall i :: 0 <= i < |ps| ==> ps[i].podId in t && t[ps[i].podId] == PlacementV(ps[i]))
    && DistinctPods(ps)
  }

  /** Removing stored placements takes exactly their weights off the total. */
  lemma {:induction false} RemoveAll(t: Table, ps: seq<Placement>, f: Placement -> nat)
    requires StoredOnce(t, ps)
    ensures Sum(ListPlacements(t), f) == Sum(ps, f) + Sum(ListPlacements(t - PodIds(ps)), f)
  {
    if ps == [] {
      assert PodIds(ps) == {} && t - {} == t;
    } else {
      var init, p := ps[..|ps| - 1], ps[|ps| - 1];
      assert ps == init + [p];
      RemoveAll(t, init, f);
      SumAppend(init, [p], f);
      PodIdsSnoc(init, p);
      MinusOne(t, PodIds(init), p.podId);
      RemoveKey(t - PodIds(init), p.podId, f);
    }
  }

  // ----- what a scan lists -----

  lemma {:induction false} DecodeMembers(rows: seq<Value>)
    ensures forall p :: p in DecodePlacements(rows) <==> PlacementV(p) in rows
  {
    if rows != [] {
      var init, last := rows[..|rows| - 1], rows[|rows| - 1];
      assert rows == init + [last];
      DecodeMembers(init);
    }
  }

  lemma Listed(t: Table, p: Placement)
    ensures p in ListPlacements(t) <==> exists k :: k in t && t[k] == PlacementV(p)
  {
    DecodeMembers(Rows(t));
    RowsContain(t, PlacementV(p));
  }

  lemma {:induction false} ScanUnique(t: Table, keys: seq<string>)
    requires KeyedByPod(t) && StrictlyAscending(keys) && forall k :: k in keys ==> k in t
    ensures DistinctPods(DecodePlacements(RowsAt(t, keys)))
    ensures forall p :: p in DecodePlacements(RowsAt(t, keys)) ==> p.podId in keys
  {
    if keys != [] {
      var init, last := keys[..|keys| - 1], keys[|keys| - 1];
      assert keys == init + [last];
      ScanUnique(t, init);
      var rows := RowsAt(t, keys);
      assert rows[..|rows| - 1] == RowsAt(t, init) && rows[|rows| - 1] == t[last];
      var before := DecodePlacements(RowsAt(t, init));
      forall i | 0 <= i < |before|
        ensures before[i].podId != last
      {
        assert before[i] in before;
        var j :| 0 <= j < |init| && init[j] == before[i].podId;
        assert Less(keys[j], keys[|keys| - 1]);
        LessAsymmetric(keys[j], last);
      }
    }
  }

  /** A well-keyed table lists each pod once. */
  lemma ListUnique(t: Table)
    requires KeyedByPod(t)
    ensures DistinctPods(ListPlacements(t))
  {
    AscendingElements(t.Keys);
    AscendingSorted(t.Keys);
    ScanUnique(t, Ascending(t.Keys));
  }

  /** `list_node_records`: the rows that decode as node records. */
  function ListNodes(t: Table): seq<NodeRecord> {
    DecodeNodes(Rows(t))
  }

  function DecodeNodes(rows: seq<Value>): seq<NodeRecord> {
    if rows == [] then []
    else if rows[|rows| - 1].NodeV? then DecodeNodes(rows[..|rows| - 1]) + [rows[|rows| - 1].node]
    else DecodeNodes(rows[..|rows| - 1])
  }

  lemma {:induction false} DecodeNodeMembers(rows: seq<Value>)
    ensures forall r :: r in DecodeNodes(rows) <==> NodeV(r) in rows
  {
    if rows != [] {
      var init, last := rows[..|rows| - 1], rows[|rows| - 1];
      assert rows == init + [last];
      DecodeNodeMembers(init);
    }
  }

  lemma ListedNode(t: Table, r: NodeRecord)
    ensures r in ListNodes(t) <==> exists k :: k in t && t[k] == NodeV(r)
  {
    DecodeNodeMembers(Rows(t));
    RowsContain(t, NodeV(r));
  }

  /** Every node record is stored under its own id. */
  ghost predicate KeyedByNode(t: Table) {
    forall k :: k in t && t[k].NodeV? ==> t[k].node.nodeId == k
  }

  lemma {:induction false} ScanUniqueNodes(t: Table, keys: seq<string>)
    requires KeyedByNode(t) && StrictlyAscending(keys) && forall k :: k in keys ==> k in t
    ensures DistinctRecords(DecodeNodes(RowsAt(t, keys)))
    ensures forall r :: r in DecodeNodes(RowsAt(t, keys)) ==> r.nodeId in keys
  {
    if keys != [] {
      var init, last := keys[..|keys| - 1], keys[|keys| - 1];
      assert keys == init + [last];
      ScanUniqueNodes(t, init);
      var rows := RowsAt(t, keys);
      assert rows[..|rows| - 1] == RowsAt(t, init) && rows[|rows| - 1] == t[last];
      var before := DecodeNodes(RowsAt(t, init));
      forall i | 0 <= i < |before|
        ensures before[i].nodeId != last
      {
        assert before[i] in before;
        var j :| 0 <= j < |init| && init[j] == before[i].nodeId;
        assert Less(keys[j], keys[|keys| - 1]);
        LessAsymmetric(keys[j], last);
      }
    }
  }

  lemma ListUniqueNodes(t: Table)
    requires KeyedByNode(t)
    ensures DistinctRecords(ListNodes(t))
  {
    AscendingElements(t.Keys);
    AscendingSorted(t.Keys);
    ScanUniqueNodes(t, Ascending(t.Keys));
  }
}
