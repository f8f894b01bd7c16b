/** What the placement commands do to the table of placements. */
module PlacementTable {
  import opened Decimal
  import opened Records
  import opened Bytes
  import opened Storage
  import opened Commands

  /** Every placement is stored under its own pod identifier. */
  ghost predicate KeyedByPod(t: Table) {
    forall k :: k in t && t[k].PlacementV? ==> t[k].placement.podId == k
  }

  /** The keys of the placements a criterion selects. */
  function Selected(t: Table, c: Criterion): set<string> {
    set k | k in t && t[k].PlacementV? && Meets(c, t[k].placement)
  }

  function PodIds(ps: seq<Placement>): set<string> {
    set i | 0 <= i < |ps| :: ps[i].podId
  }

  lemma PodIdsSnoc(ps: seq<Placement>, p: Placement)
    ensures PodIds(ps + [p]) == PodIds(ps) + {p.podId}
  {
    var all := ps + [p];
    forall x
      ensures x in PodIds(all) <==> x in PodIds(ps) + {p.podId}
    {
      if x in PodIds(ps) {
        var i :| 0 <= i < |ps| && ps[i].podId == x;
        assert all[i].podId == x;
      }
      if x == p.podId {
        assert all[|ps|].podId == x;
      }
    }
  }

  // ----- selection -----

  lemma {:induction false} SelectMembers(rows: seq<Value>, c: Criterion)
    ensures forall p :: p in Select(rows, c) <==> PlacementV(p) in rows && Meets(c, p)
  {
    if rows != [] {
      var init, last := rows[..|rows| - 1], rows[|rows| - 1];
      SelectMembers(init, c);
      assert rows == init + [last];
      forall p
        ensures p in Select(rows, c) <==> PlacementV(p) in rows && Meets(c, p)
      {
        assert PlacementV(p) in rows <==> PlacementV(p) in init || PlacementV(p) == last;
      }
    }
  }

  lemma RowsContain(t: Table, v: Value)
    ensures v in Rows(t) <==> exists k :: k in t && t[k] == v
  {
    RowsMembers(t);
    if v in Rows(t) {
      var i :| 0 <= i < |Rows(t)| && Rows(t)[i] == v;
      assert Ascending(t.Keys)[i] in t;
    }
    if k :| k in t && t[k] == v {
      assert k in Ascending(t.Keys);
      var i :| 0 <= i < |Ascending(t.Keys)| && Ascending(t.Keys)[i] == k;
      assert Rows(t)[i] == v;
    }
  }

  /** The pods a scan selects are the keys of the placements that meet the criterion. */
  lemma SelectIsExact(t: Table, c: Criterion)
    requires KeyedByPod(t)
    ensures PodIds(Select(Rows(t), c)) == Selected(t, c)
  {
    var ps := Select(Rows(t), c);
    SelectMembers(Rows(t), c);
    forall k
      ensures k in PodIds(ps) <==> k in Selected(t, c)
    {
      if k in PodIds(ps) {
        var i :| 0 <= i < |ps| && ps[i].podId == k;
        assert ps[i] in ps;
        RowsContain(t, PlacementV(ps[i]));
      }
      if k in Selected(t, c) {
        var p := t[k].placement;
        RowsContain(t, PlacementV(p));
        assert p in ps;
        var i :| 0 <= i < |ps| && ps[i] == p;
        assert ps[i].podId == k;
      }
    }
  }

  // ----- removal -----

  lemma MinusOne(t: Table, ids: set<string>, id: string)
    ensures (t - ids) - {id} == t - (ids + {id})
  {
  }

  lemma {:induction false} RemoveOpsEffect(s: Store, ps: seq<Placement>)
    ensures Commit(s, RemoveOps(ps)).At(Placements) == s.At(Placements) - PodIds(ps)
  {
    if ps == [] {
      assert PodIds(ps) == {};
    } else {
      var init, p := ps[..|ps| - 1], ps[|ps| - 1];
      RemoveOpsEffect(s, init);
      CommitSnoc(s, RemoveOps(init), Del(Placements, p.podId));
      assert ps == init + [p];
      PodIdsSnoc(init, p);
      MinusOne(s.At(Placements), PodIds(init), p.podId);
    }
  }

  lemma {:induction false} DropOpsEffect(s: Store, ps: seq<Placement>)
    ensures Commit(s, DropOps(ps)).At(Placements) == s.At(Placements) - PodIds(ps)
  {
    if ps == [] {
      assert PodIds(ps) == {};
    } else {
      hide Commit;
      var init, p := ps[..|ps| - 1], ps[|ps| - 1];
      DropOpsEffect(s, init);
      var a, b := Del(Placements, p.podId), Put(Ordinals, SlotKey(p), OrdinalV(Freed(p)));
      CommitTwo(s, DropOps(init), a, b);
      ExecOther(Exec(Commit(s, DropOps(init)), a), b, Placements);
      assert ps == init + [p];
      PodIdsSnoc(init, p);
      MinusOne(s.At(Placements), PodIds(init), p.podId);
    }
  }

  // ----- slots -----

  lemma SlotKeyTail(p: Placement, t: string, w: string)
    requires p.tenantId == t && p.service == w
    ensures SlotKey(p) == (t + ":" + w + ":") + (p.role + [':'] + PrintNat(p.ordinal))
  {
  }

  /** Slots of one workload are distinct for distinct (role, ordinal). */
  lemma SlotKeyInjective(p: Placement, q: Placement)
    requires p.tenantId == q.tenantId && p.service == q.service && SlotKey(p) == SlotKey(q)
    ensures p.role == q.role && p.ordinal == q.ordinal
  {
    var head := p.tenantId + ":" + p.service + ":";
    SlotKeyTail(p, p.tenantId, p.service);
    SlotKeyTail(q, p.tenantId, p.service);
    var x, y := p.role + [':'] + PrintNat(p.ordinal), q.role + [':'] + PrintNat(q.ordinal);
    assert (head + x)[|head|..] == x && (head + y)[|head|..] == y;
    assert ':' !in PrintNat(p.ordinal) && ':' !in PrintNat(q.ordinal);
    LastSeparator(p.role, q.role, PrintNat(p.ordinal), PrintNat(q.ordinal), ':');
    DigitsOfPrintNat(p.ordinal);
    DigitsOfPrintNat(q.ordinal);
  }

  /** Dropping placements of one workload frees exactly their slots. */
  lemma {:induction false} DropOpsFree(s: Store, ps: seq<Placement>, t: string, w: string)
    requires forall p :: p in ps ==> p.tenantId == t && p.service == w
    ensures var ordinals := Commit(s, DropOps(ps)).At(Ordinals);
            && (forall p :: p in ps ==> SlotKey(p) in ordinals && ordinals[SlotKey(p)] == OrdinalV(Freed(p)))
            && (forall k :: (forall p :: p in ps ==> SlotKey(p) != k) ==>
                  (k in ordinals <==> k in s.At(Ordinals))
                  && (k in ordinals ==> ordinals[k] == s.At(Ordinals)[k]))
  {
    if ps != [] {
      var init, p := ps[..|ps| - 1], ps[|ps| - 1];
      assert ps == init + [p];
      DropOpsFree(s, init, t, w);
      var mid := Commit(s, DropOps(init));
      var a, b := Del(Placements, p.podId), Put(Ordinals, SlotKey(p), OrdinalV(Freed(p)));
      CommitTwo(s, DropOps(init), a, b);
      ExecOther(mid, a, Ordinals);
      var ordinals := mid.At(Ordinals)[SlotKey(p) := OrdinalV(Freed(p))];
      forall q | q in ps
        ensures SlotKey(q) in ordinals && ordinals[SlotKey(q)] == OrdinalV(Freed(q))
      {
        if SlotKey(q) == SlotKey(p) {
          SlotKeyInjective(p, q);
        } else {
          assert q in init;
        }
      }
      forall k | forall q :: q in ps ==> SlotKey(q) != k
        ensures (k in ordinals <==> k in s.At(Ordinals)) && (k in ordinals ==> ordinals[k] == s.At(Ordinals)[k])
      {
        assert p in ps;
        forall q | q in init
          ensures SlotKey(q) != k
        {
          assert q in ps;
        }
      }
    }
  }

  // ----- commands -----

  /** Scaling a workload removes exactly the placements beyond the new counts. */
  lemma ScalePrunes(s: Store, w: WorkloadRecord)
    requires KeyedByPod(s.At(Placements))
    ensures Commit(s, ScaleBatch(s.At(Placements), w)).At(Placements)
         == s.At(Placements) - Selected(s.At(Placements), BeyondReplicas(w.tenantId, w.workloadId, Replicas(w)))
  {
    var c := BeyondReplicas(w.tenantId, w.workloadId, Replicas(w));
    var ps := Select(Rows(s.At(Placements)), c);
    CommitMiddle(s, [PutWorkload(w)], DropOps(ps), [], Placements);
    assert [PutWorkload(w)] + DropOps(ps) + [] == ScaleBatch(s.At(Placements), w);
    DropOpsEffect(s, ps);
    SelectIsExact(s.At(Placements), c);
  }

  /** Evicting a node removes exactly the placements it hosts. */
  lemma EvictRemoves(spiffe: string -> bool, s: Store, n: string, expiresAt: int, batch: seq<Op>)
    requires KeyedByPod(s.At(Placements))
    requires EvictBatch(spiffe, s.At(Nodes), s.At(ActiveDelegations), s.At(Placements), n, expiresAt) == Ok(batch)
    ensures Commit(s, batch).At(Placements) == s.At(Placements) - Selected(s.At(Placements), OnNode(n))
  {
    var hosted := Select(Rows(s.At(Placements)), OnNode(n));
    var rows := DelegationRows(s.At(ActiveDelegations), n);
    var before := [Put(Nodes, n, NodeV(EvictedRecord(s.At(Nodes), n).value))] + RevokeOps(rows);
    var after := [Put(RevokedSvids, n, RevokedSvidV(n, expiresAt))];
    RevokeOpsTouch(rows);
    CommitMiddle(s, before, RemoveOps(hosted), after, Placements);
    assert batch == before + RemoveOps(hosted) + after;
    RemoveOpsEffect(s, hosted);
    SelectIsExact(s.At(Placements), OnNode(n));
  }

  lemma KeyedAfterRemoval(t: Table, ids: set<string>)
    requires KeyedByPod(t)
    ensures KeyedByPod(t - ids)
  {
  }
}
