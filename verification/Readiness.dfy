/** The readiness gate: how long a started pod has been without its policy or its router. */
module Readiness {
  import opened Records
  import opened Storage
  import opened Commands
  import opened StoredRecords

  /** A started pod that is not behind its policy and router. */
  predicate Violating(r: WorkloadStatus) {
    r.started && !(r.policyEnforced && r.routerConnected)
  }

  /** Applying reports of one pod in order. */
  function Reported(spiffe: string -> bool, s: Store, reports: seq<WorkloadStatus>): Result<Store> {
    if reports == [] then Ok(s)
    else match Reported(spiffe, s, reports[..|reports| - 1])
      case Err => Err
      case Ok(before) => Step(spiffe, before, UpsertWorkloadStatus(reports[|reports| - 1]))
  }

  /** The reports from `i` on violate the gate and the one before does not. */
  ghost predicate StreakFrom(reports: seq<WorkloadStatus>, i: nat) {
    && i <= |reports|
    && (forall j :: i <= j < |reports| ==> Violating(reports[j]))
    && (i > 0 ==> !Violating(reports[i - 1]))
  }

  lemma ReportStep(spiffe: string -> bool, s: Store, r: WorkloadStatus)
    ensures Step(spiffe, s, UpsertWorkloadStatus(r)).Ok?
    ensures var t := s.At(WorkloadStatuses);
            var since := if !Violating(r) then 0
                         else if r.podId in t && t[r.podId].StatusV? && t[r.podId].status.gateViolationSince > 0
                         then t[r.podId].status.gateViolationSince
                         else r.observedAt;
            Step(spiffe, s, UpsertWorkloadStatus(r)).value.At(WorkloadStatuses)
            == t[r.podId := StatusV(r.(gateViolationSince := since))]
  {
    var cmd := UpsertWorkloadStatus(r);
    BatchOfReports(spiffe, Reads(s), cmd);
    hide Batch;
    var op := StatusBatch(s.At(WorkloadStatuses), r)[0];
    OneOp(spiffe, s, cmd, op);
  }

  /** After any reports of a pod, taken since 1970, what is stored is the last report, and with it the time of the first
  report of the streak in which the pod has violated the gate without a break, or 0 when it does not. */
  lemma {:induction false} ViolationIsDated(spiffe: string -> bool, s: Store, reports: seq<WorkloadStatus>, i: nat)
    requires reports != [] && StreakFrom(reports, i) && reports[0].podId !in s.At(WorkloadStatuses)
    requires forall j :: 0 <= j < |reports| ==> reports[j].podId == reports[0].podId && reports[j].observedAt > 0
    ensures Reported(spiffe, s, reports).Ok?
    ensures var last := reports[|reports| - 1];
            var since := if i < |reports| then reports[i].observedAt else 0;
            Reported(spiffe, s, reports).value.At(WorkloadStatuses)
            == s.At(WorkloadStatuses)[last.podId := StatusV(last.(gateViolationSince := since))]
  {
    hide Step;
    var n := |reports| - 1;
    if n == 0 {
      assert reports[..0] == [];
      ReportStep(spiffe, s, reports[0]);
    } else {
      var init := reports[..n];
      if i <= n {
        assert StreakFrom(init, i);
        ViolationIsDated(spiffe, s, init, i);
      } else {
        var j := LastStreak(init);
        ViolationIsDated(spiffe, s, init, j);
      }
      ReportStep(spiffe, Reported(spiffe, s, init).value, reports[n]);
    }
  }

  lemma {:induction false} LastStreak(reports: seq<WorkloadStatus>) returns (i: nat)
    ensures StreakFrom(reports, i)
  {
    if reports == [] || !Violating(reports[|reports| - 1]) {
      i := |reports|;
    } else {
      i := LastStreak(reports[..|reports| - 1]);
    }
  }
}
