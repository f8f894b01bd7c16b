/** Cron workloads: which instant an evaluation runs, and what a replicated checkpoint guarantees about
a whole sequence of evaluations. */
module Cron {
  import opened Decimal
  import opened Records
  import opened Keys
  import opened Storage
  import opened Commands

  datatype CronSchedule = CronSchedule(expression: string, suspend: bool)

  datatype CronWorkload = CronWorkload(
    tenantId: string,
    cronWorkloadId: string,
    schedule: Option<CronSchedule>,
    template: Option<WorkloadSpec>)

  /** Expressions that parse, and the instants (unix seconds) each one names. */
  datatype Calendar = Calendar(valid: string -> bool, names: (string, int) -> bool)

  /** The instants of a schedule after `since` and up to `now`, in order. */
  function Due(c: Calendar, expression: string, since: int, now: int): seq<int>
    decreases now - since
  {
    if now <= since then []
    else Due(c, expression, since, now - 1) + (if c.names(expression, now) then [now] else [])
  }

  /** The last of the instants due. */
  function LatestDue(c: Calendar, expression: string, since: int, now: int): Option<int> {
    var due := Due(c, expression, since, now);
    if due == [] then None else Some(due[|due| - 1])
  }

  ghost predicate NoneDue(c: Calendar, expression: string, since: int, now: int) {
    forall t :: since < t <= now ==> !c.names(expression, t)
  }

  /** The latest due instant is the last one named in (since, now], and absent exactly when none is. */
  lemma {:induction false} LatestDueIsLast(c: Calendar, expression: string, since: int, now: int)
    ensures LatestDue(c, expression, since, now).None? <==> NoneDue(c, expression, since, now)
    ensures var latest := LatestDue(c, expression, since, now);
            latest.Some? ==> since < latest.value <= now && c.names(expression, latest.value)
                             && NoneDue(c, expression, latest.value, now)
    decreases now - since
  {
    if now > since {
      LatestDueIsLast(c, expression, since, now - 1);
      var before := Due(c, expression, since, now - 1);
      if !c.names(expression, now) {
        assert before + [] == before;
      }
    }
  }

  function RunId(cronWorkloadId: string, at: int): string {
    cronWorkloadId + ['-'] + PrintInt(at)
  }

  datatype Outcome =
    | Idle
    | Failed
    | Trigger(record: WorkloadRecord, checkpoint: CronCheckpoint)

  function CheckpointKey(cron: CronWorkload): string {
    WorkloadKey(cron.tenantId, cron.cronWorkloadId)
  }

  /** The committed checkpoint under a key; `None` when there is none or it does not decode. */
  function CheckpointAt(t: Table, key: string): Option<int> {
    if key in t && t[key].CheckpointV? then Some(t[key].checkpoint.lastTriggeredAt) else None
  }

  /** `evaluate_and_trigger` up to its proposal. Without a checkpoint nothing is due. */
  function Evaluate(c: Calendar, checkpoints: Table, cron: CronWorkload, now: int): Outcome {
    if cron.schedule.None? then Failed
    else if cron.schedule.value.suspend then Idle
    else if !c.valid(cron.schedule.value.expression) then Failed
    else if CheckpointKey(cron) in checkpoints && !checkpoints[CheckpointKey(cron)].CheckpointV? then Failed
    else
      var checkpoint := CheckpointAt(checkpoints, CheckpointKey(cron));
      var since := if checkpoint.Some? then checkpoint.value else now;
      match LatestDue(c, cron.schedule.value.expression, since, now)
      case None => Idle
      case Some(latest) =>
        if cron.template.None? then Failed
        else
          var run := RunId(cron.cronWorkloadId, latest);
          var spec := cron.template.value.(workloadId := run, tenantId := cron.tenantId);
          Trigger(WorkloadRecord(cron.tenantId, run, Some(spec), ""),
                  CronCheckpoint(cron.tenantId, cron.cronWorkloadId, latest))
  }

  /** A trigger moves the checkpoint strictly forward, to a named instant no later than the clock, and
  skips nothing but missed instants before it. */
  lemma TriggerAdvances(c: Calendar, checkpoints: Table, cron: CronWorkload, now: int)
    requires Evaluate(c, checkpoints, cron, now).Trigger?
    ensures var e := Evaluate(c, checkpoints, cron, now);
            var from := CheckpointAt(checkpoints, CheckpointKey(cron));
            var to := e.checkpoint.lastTriggeredAt;
            && from.Some? && from.value < to <= now
            && c.names(cron.schedule.value.expression, to) && NoneDue(c, cron.schedule.value.expression, to, now)
            && e.record.workloadId == RunId(cron.cronWorkloadId, to) && e.record.tenantId == cron.tenantId
            && e.record.spec.Some? && e.record.spec.value.workloadId == e.record.workloadId
            && e.record.spec.value.tenantId == e.record.tenantId
            && WorkloadKey(e.checkpoint.tenantId, e.checkpoint.cronWorkloadId) == CheckpointKey(cron)
  {
    var checkpoint := CheckpointAt(checkpoints, CheckpointKey(cron));
    LatestDueIsLast(c, cron.schedule.value.expression, if checkpoint.Some? then checkpoint.value else now, now);
  }

  /** A suspended workload never starts a run, whatever is due. */
  lemma SuspendedNeverStarts(c: Calendar, checkpoints: Table, cron: CronWorkload, now: int)
    requires cron.schedule.Some? && cron.schedule.value.suspend
    ensures Evaluate(c, checkpoints, cron, now) == Idle
  {
  }

  /** An evaluation fails exactly without a schedule, or for one that is not suspended with an expression that does not
  parse, with a checkpoint that does not decode, or with something due and no template. */
  lemma EvaluationFailsIff(c: Calendar, checkpoints: Table, cron: CronWorkload, now: int)
    ensures Evaluate(c, checkpoints, cron, now).Failed? <==>
              || cron.schedule.None?
              || (!cron.schedule.value.suspend
                  && (|| !c.valid(cron.schedule.value.expression)
                      || (CheckpointKey(cron) in checkpoints && !checkpoints[CheckpointKey(cron)].CheckpointV?)
                      || (cron.template.None? && CheckpointKey(cron) in checkpoints
                          && !NoneDue(c, cron.schedule.value.expression,
                                      checkpoints[CheckpointKey(cron)].checkpoint.lastTriggeredAt, now))))
  {
    hide LatestDue, CheckpointKey;
    if cron.schedule.Some? {
      var checkpoint := CheckpointAt(checkpoints, CheckpointKey(cron));
      LatestDueIsLast(c, cron.schedule.value.expression, if checkpoint.Some? then checkpoint.value else now, now);
    }
  }

  /** A run's spec is the template in everything but its ids. */
  lemma RunFollowsTemplate(c: Calendar, checkpoints: Table, cron: CronWorkload, now: int)
    requires Evaluate(c, checkpoints, cron, now).Trigger?
    ensures var e := Evaluate(c, checkpoints, cron, now);
            && cron.template.Some? && e.record.spec.Some? && e.record.lastApplied == ""
            && e.record.spec.value == cron.template.value.(workloadId := e.record.workloadId, tenantId := cron.tenantId)
            && e.checkpoint.tenantId == cron.tenantId && e.checkpoint.cronWorkloadId == cron.cronWorkloadId
  {
    hide LatestDue;
  }

  // ----- events -----

  /** An evaluation of a cron workload under some clock reading, or any command. */
  datatype Event = Evaluated(cron: CronWorkload, now: int) | Applied(cmd: Command)

  /** The store after an event; a command that fails stops the machine. */
  function After(spiffe: string -> bool, c: Calendar, s: Store, e: Event): Result<Store> {
    match e
    case Applied(cmd) => Step(spiffe, s, cmd)
    case Evaluated(cron, now) =>
      match Evaluate(c, s.At(CronCheckpoints), cron, now)
      case Trigger(record, checkpoint) => Step(spiffe, s, TriggerCronWorkload(record, checkpoint))
      case _ => Ok(s)
  }

  /** The checkpoint a command writes, if it writes one. */
  function Written(cmd: Command): Option<CronCheckpoint> {
    if cmd.SubmitCronWorkload? || cmd.TriggerCronWorkload? then Some(cmd.checkpoint) else None
  }

  /** The event does not set the checkpoint under a key back. Submitting other cron workloads does not, nor
  does submitting the same one again with a checkpoint that is not earlier. */
  predicate KeepsAhead(s: Store, e: Event, key: string) {
    e.Applied? && Written(e.cmd).Some? ==>
      var cp := Written(e.cmd).value;
      var at := CheckpointAt(s.At(CronCheckpoints), key);
      WorkloadKey(cp.tenantId, cp.cronWorkloadId) == key && at.Some? ==> cp.lastTriggeredAt >= at.value
  }

  lemma CheckpointWriters(cmd: Command)
    ensures MayWrite(cmd, CronCheckpoints) <==> Written(cmd).Some?
  {
  }

  lemma SubmitStep(spiffe: string -> bool, s: Store, cmd: Command)
    requires cmd.SubmitCronWorkload?
    ensures Step(spiffe, s, cmd).Ok?
    ensures var cp := cmd.checkpoint;
            Step(spiffe, s, cmd).value.At(CronCheckpoints)
            == s.At(CronCheckpoints)[WorkloadKey(cp.tenantId, cp.cronWorkloadId) := CheckpointV(cp)]
  {
    hide WorkloadKey, CronKey;
    CommitPair(s, Put(Workloads, CronKey(cmd.cron.tenantId, cmd.cron.cronWorkloadId), CronV(cmd.cron)),
               Put(CronCheckpoints, WorkloadKey(cmd.checkpoint.tenantId, cmd.checkpoint.cronWorkloadId),
                   CheckpointV(cmd.checkpoint)));
  }

  lemma TriggerStep(spiffe: string -> bool, s: Store, w: WorkloadRecord, cp: CronCheckpoint)
    ensures Step(spiffe, s, TriggerCronWorkload(w, cp)).Ok?
    ensures var s' := Step(spiffe, s, TriggerCronWorkload(w, cp)).value;
            && s'.At(CronCheckpoints)
               == s.At(CronCheckpoints)[WorkloadKey(cp.tenantId, cp.cronWorkloadId) := CheckpointV(cp)]
            && s'.At(Workloads) == s.At(Workloads)[WorkloadKey(w.tenantId, w.workloadId) := WorkloadV(w)]
  {
    CommitPair(s, PutWorkload(w), Put(CronCheckpoints, WorkloadKey(cp.tenantId, cp.cronWorkloadId), CheckpointV(cp)));
  }

  /** After an evaluation that ran without error, nothing up to the clock is still due. */
  lemma NothingLeftDue(spiffe: string -> bool, c: Calendar, s: Store, cron: CronWorkload, now: int)
    requires cron.schedule.Some? && !cron.schedule.value.suspend
    requires CheckpointAt(s.At(CronCheckpoints), CheckpointKey(cron)).Some?
    requires !Evaluate(c, s.At(CronCheckpoints), cron, now).Failed?
    ensures After(spiffe, c, s, Evaluated(cron, now)).Ok?
    ensures var s' := After(spiffe, c, s, Evaluated(cron, now)).value;
            var checkpoint := CheckpointAt(s'.At(CronCheckpoints), CheckpointKey(cron));
            checkpoint.Some? && NoneDue(c, cron.schedule.value.expression, checkpoint.value, now)
  {
    hide Step, LatestDue, NoneDue;
    var since := CheckpointAt(s.At(CronCheckpoints), CheckpointKey(cron)).value;
    LatestDueIsLast(c, cron.schedule.value.expression, since, now);
    match Evaluate(c, s.At(CronCheckpoints), cron, now)
    case Idle =>
    case Trigger(w, cp) =>
      TriggerAdvances(c, s.At(CronCheckpoints), cron, now);
      TriggerStep(spiffe, s, w, cp);
  }

  /** No event moves a checkpoint back. */
  lemma CheckpointsAdvance(spiffe: string -> bool, c: Calendar, s: Store, e: Event, key: string, at: int)
    requires KeepsAhead(s, e, key) && After(spiffe, c, s, e).Ok?
    requires CheckpointAt(s.At(CronCheckpoints), key) == Some(at)
    ensures var checkpoint := CheckpointAt(After(spiffe, c, s, e).value.At(CronCheckpoints), key);
            checkpoint.Some? && checkpoint.value >= at
  {
    hide Step, MayWrite, Evaluate;
    match e
    case Applied(cmd) =>
      CheckpointWriters(cmd);
      if cmd.SubmitCronWorkload? {
        SubmitStep(spiffe, s, cmd);
      } else if cmd.TriggerCronWorkload? {
        TriggerStep(spiffe, s, cmd.workload, cmd.checkpoint);
      } else {
        StepFrame(spiffe, s, cmd, CronCheckpoints);
      }
    case Evaluated(cron, now) =>
      match Evaluate(c, s.At(CronCheckpoints), cron, now) {
        case Trigger(w, cp) =>
          TriggerAdvances(c, s.At(CronCheckpoints), cron, now);
          TriggerStep(spiffe, s, w, cp);
        case _ =>
      }
  }

  // ----- runs -----

  /** A run in which no event sets the checkpoint under `key` back. */
  ghost predicate Run(spiffe: string -> bool, c: Calendar, states: seq<Store>, events: seq<Event>, key: string) {
    && |states| == |events| + 1
    && forall i :: 0 <= i < |events| ==>
         KeepsAhead(states[i], events[i], key) && After(spiffe, c, states[i], events[i]) == Ok(states[i + 1])
  }

  /** The instant an event starts a run for. */
  function Started(c: Calendar, s: Store, e: Event): Option<int> {
    if e.Evaluated? && Evaluate(c, s.At(CronCheckpoints), e.cron, e.now).Trigger?
    then Some(Evaluate(c, s.At(CronCheckpoints), e.cron, e.now).checkpoint.lastTriggeredAt)
    else None
  }

  /** From a checkpoint at `since` the next evaluation starts a run for an instant no later than `at` exactly when
  the schedule names one between the two and none between `at` and the clock. So a checkpoint set back behind the
  run for `at` lets an instant run again, and one that is not set back does not. */
  lemma SetBackRepeatsIff(c: Calendar, s: Store, cron: CronWorkload, since: int, at: int, now: int)
    requires cron.schedule.Some? && !cron.schedule.value.suspend && c.valid(cron.schedule.value.expression)
    requires cron.template.Some? && CheckpointAt(s.At(CronCheckpoints), CheckpointKey(cron)) == Some(since)
    ensures var run := Started(c, s, Evaluated(cron, now));
            var expression := cron.schedule.value.expression;
            run.Some? && run.value <= at <==>
              NoneDue(c, expression, at, now) && exists t :: since < t <= now && t <= at && c.names(expression, t)
  {
    hide LatestDue;
    LatestDueIsLast(c, cron.schedule.value.expression, since, now);
  }

  lemma CheckpointAfterStart(spiffe: string -> bool, c: Calendar, s: Store, e: Event)
    requires Started(c, s, e).Some?
    ensures After(spiffe, c, s, e).Ok?
    ensures CheckpointAt(After(spiffe, c, s, e).value.At(CronCheckpoints), CheckpointKey(e.cron)) == Started(c, s, e)
  {
    hide Step, LatestDue, NoneDue;
    TriggerAdvances(c, s.At(CronCheckpoints), e.cron, e.now);
    var o := Evaluate(c, s.At(CronCheckpoints), e.cron, e.now);
    TriggerStep(spiffe, s, o.record, o.checkpoint);
  }

  lemma {:induction false} CheckpointStays(spiffe: string -> bool, c: Calendar, states: seq<Store>, events: seq<Event>,
                                           key: string, i: nat, j: nat, at: int)
    requires Run(spiffe, c, states, events, key) && i <= j < |states|
    requires CheckpointAt(states[i].At(CronCheckpoints), key) == Some(at)
    ensures CheckpointAt(states[j].At(CronCheckpoints), key).Some?
    ensures CheckpointAt(states[j].At(CronCheckpoints), key).value >= at
    decreases j - i
  {
    hide After, KeepsAhead;
    if i < j {
      assert After(spiffe, c, states[i], events[i]) == Ok(states[i + 1]);
      CheckpointsAdvance(spiffe, c, states[i], events[i], key, at);
      var next := CheckpointAt(states[i + 1].At(CronCheckpoints), key).value;
      CheckpointStays(spiffe, c, states, events, key, i + 1, j, next);
    }
  }

  /** In every run of evaluations, under any clock, each run of a cron workload is for a later instant
  than the one before it, and so under another run id. */
  lemma RunsAreForDistinctInstants(spiffe: string -> bool, c: Calendar, states: seq<Store>, events: seq<Event>, i: nat,
                                   j: nat)
    requires i < j < |events| < |states| && Started(c, states[i], events[i]).Some?
             && Started(c, states[j], events[j]).Some?
    requires Run(spiffe, c, states, events, CheckpointKey(events[i].cron))
    requires CheckpointKey(events[i].cron) == CheckpointKey(events[j].cron)
    ensures Started(c, states[i], events[i]).value < Started(c, states[j], events[j]).value
    ensures events[i].cron.cronWorkloadId == events[j].cron.cronWorkloadId ==>
              RunId(events[i].cron.cronWorkloadId, Started(c, states[i], events[i]).value)
              != RunId(events[j].cron.cronWorkloadId, Started(c, states[j], events[j]).value)
  {
    hide After, KeepsAhead, Evaluate;
    var a, b := Started(c, states[i], events[i]).value, Started(c, states[j], events[j]).value;
    CheckpointAfterStart(spiffe, c, states[i], events[i]);
    CheckpointStays(spiffe, c, states, events, CheckpointKey(events[i].cron), i + 1, j, a);
    TriggerAdvances(c, states[j].At(CronCheckpoints), events[j].cron, events[j].now);
    var id := events[i].cron.cronWorkloadId;
    if RunId(id, a) == RunId(id, b) {
      SameRunId(id, a, b);
    }
  }

  lemma SameRunId(id: string, a: int, b: int)
    requires RunId(id, a) == RunId(id, b)
    ensures a == b
  {
    var head := id + ['-'];
    assert (head + PrintInt(a))[|head|..] == PrintInt(a) && (head + PrintInt(b))[|head|..] == PrintInt(b);
    PrintIntInjective(a, b);
  }

  /** From 1970 on, run ids tell both the cron workload and the instant. */
  lemma RunIdInjective(id: string, a: int, id': string, b: int)
    requires a >= 0 && b >= 0 && RunId(id, a) == RunId(id', b)
    ensures id == id' && a == b
  {
    assert '-' !in PrintInt(a) && '-' !in PrintInt(b);
    LastSeparator(id, id', PrintInt(a), PrintInt(b), '-');
    PrintIntInjective(a, b);
  }
}
