/** What applied manifests leave behind: under each key the last update for it. */
module Manifests {
  import opened Decimal
  import opened Storage
  import opened Commands

  /** The update is for this table. */
  predicate Lands(u: ManifestUpdate, ks: Keyspace) {
    || (u.target.ToWorkloads? && ks.Workloads?) || (u.target.ToTenants? && ks.Tenants?)
    || (u.target.ToSagRules? && ks.SagRules?) || (u.target.ToSecrets? && ks.Secrets?)
    || (u.target.ToNodePools? && ks.NodePools?) || (u.target.ToDummyIps? && ks.DummyIps?)
    || (u.target.ToOrdinals? && ks.Ordinals?) || (u.target.ToPlacements? && ks.Placements?)
  }

  lemma LandsIff(u: ManifestUpdate, ks: Keyspace)
    ensures Lands(u, ks) <==> ManifestKeyspace(u.target) == Some(ks)
  {
  }

  /** The update is for this key of this table. */
  predicate IsFor(u: ManifestUpdate, ks: Keyspace, k: string) {
    Lands(u, ks) && u.key == k
  }

  /** The last update of a table under a key. */
  function LastAt(updates: seq<ManifestUpdate>, ks: Keyspace, k: string): Option<Value> {
    if updates == [] then None
    else
      var u := updates[|updates| - 1];
      if IsFor(u, ks, k) then Some(u.value) else LastAt(updates[..|updates| - 1], ks, k)
  }

  /** One more update leaves what was in a table unless it writes there. */
  lemma ManifestSnocAt(s: Store, updates: seq<ManifestUpdate>, ks: Keyspace)
    requires updates != []
    ensures var init, u := updates[..|updates| - 1], updates[|updates| - 1];
            Commit(s, ManifestOps(updates)).At(ks)
            == if Lands(u, ks) then Commit(s, ManifestOps(init)).At(ks)[u.key := u.value]
               else Commit(s, ManifestOps(init)).At(ks)
  {
    hide Commit, Lands, ManifestKeyspace;
    var init, u := updates[..|updates| - 1], updates[|updates| - 1];
    LandsIff(u, ks);
    if ManifestKeyspace(u.target).Some? {
      var op := Put(ManifestKeyspace(u.target).value, u.key, u.value);
      CommitSnoc(s, ManifestOps(init), op);
      if op.ks != ks {
        ExecOther(Commit(s, ManifestOps(init)), op, ks);
      }
    }
  }

  lemma {:induction false} ManifestsAt(s: Store, updates: seq<ManifestUpdate>, ks: Keyspace, k: string)
    ensures var t, t' := s.At(ks), Commit(s, ManifestOps(updates)).At(ks);
            var last := LastAt(updates, ks, k);
            && (last.Some? ==> k in t' && t'[k] == last.value)
            && (last.None? ==> (k in t' <==> k in t) && (k in t ==> t'[k] == t[k]))
  {
    hide Commit, Lands;
    if updates == [] {
      CommitNothing(s);
    } else {
      hide ManifestOps;
      ManifestsAt(s, updates[..|updates| - 1], ks, k);
      ManifestSnocAt(s, updates, ks);
    }
  }

  lemma {:induction false} LastAtIs(updates: seq<ManifestUpdate>, ks: Keyspace, k: string, i: nat)
    requires i < |updates| && IsFor(updates[i], ks, k)
    requires forall j :: i < j < |updates| ==> !IsFor(updates[j], ks, k)
    ensures LastAt(updates, ks, k) == Some(updates[i].value)
  {
    hide IsFor;
    if i < |updates| - 1 {
      LastAtIs(updates[..|updates| - 1], ks, k, i);
    }
  }

  lemma {:induction false} NoneAt(updates: seq<ManifestUpdate>, ks: Keyspace, k: string)
    requires forall i :: 0 <= i < |updates| ==> !IsFor(updates[i], ks, k)
    ensures LastAt(updates, ks, k).None?
  {
    hide IsFor;
    if updates != [] {
      NoneAt(updates[..|updates| - 1], ks, k);
    }
  }

  /** Manifests are always applied. They leave under every key of every table the value of the last update for it, and
  what was there when no update is for it; an update for an unknown table is skipped. */
  lemma LastUpdateWins(spiffe: string -> bool, s: Store, updates: seq<ManifestUpdate>, ks: Keyspace, k: string)
    ensures Step(spiffe, s, ApplyManifests(updates)).Ok?
    ensures var t, t' := s.At(ks), Step(spiffe, s, ApplyManifests(updates)).value.At(ks);
            && (forall i ::
                  0 <= i < |updates| && IsFor(updates[i], ks, k)
                  && (forall j :: i < j < |updates| ==> !IsFor(updates[j], ks, k))
                  ==> k in t' && t'[k] == updates[i].value)
            && ((forall i :: 0 <= i < |updates| ==> !IsFor(updates[i], ks, k)) ==>
                  (k in t' <==> k in t) && (k in t ==> t'[k] == t[k]))
  {
    BatchOfScans(spiffe, Reads(s), ApplyManifests(updates));
    hide Batch, Commit, ManifestOps, IsFor, LastAt;
    ManifestsAt(s, updates, ks, k);
    forall i | 0 <= i < |updates| && IsFor(updates[i], ks, k)
               && (forall j :: i < j < |updates| ==> !IsFor(updates[j], ks, k))
      ensures LastAt(updates, ks, k) == Some(updates[i].value)
    {
      LastAtIs(updates, ks, k, i);
    }
    if forall i :: 0 <= i < |updates| ==> !IsFor(updates[i], ks, k) {
      NoneAt(updates, ks, k);
    }
  }
}
