/** The three-way merge of a manifest into live state against the manifest applied last. */
module Merge {
  import opened Decimal
  import opened Records

  /** Stored bytes: none, undecodable, or the value they decode to. */
  datatype Stored<T> = Absent | Garbled | Decoded(value: T)

  datatype Outcome<T> = Updated(value: T) | Unchanged | Conflicted(conflicts: seq<Conflict>)

  // ----- one field -----

  /** The values a conflict shows, before they are printed. */
  datatype Shown =
    | Nothing
    | Text(text: string)
    | Id(id: Option<string>)
    | Int(value: int)
    | Counts(counts: map<string, nat>)
    | Pairs(pairs: map<string, string>)
    | Needs(needs: Option<PodResources>)
    | Policy(policy: Option<AutoscalingPolicy>)

  function ShowText(x: string): Shown { Text(x) }

  function ShowId(x: Option<string>): Shown { Id(x) }

  function ShowInt(x: int): Shown { Int(x) }

  function ShowCounts(x: map<string, nat>): Shown { Counts(x) }

  function ShowPairs(x: map<string, string>): Shown { Pairs(x) }

  function ShowNeeds(x: Option<PodResources>): Shown { Needs(x) }

  function ShowPolicy(x: Option<AutoscalingPolicy>): Shown { Policy(x) }

  datatype Conflict = Conflict(path: string, live: Shown, manifest: Shown, last: Shown)

  /** How the manifest, live state and the baseline agree on one field. */
  datatype Field = Field(isSet: bool, live: bool, baseline: bool, conflict: Conflict)

  function FieldOf<T(==)>(path: string, want: Option<T>, live: T, last: T, show: T -> Shown): Field {
    Field(want.Some?, want.Some? && live == want.value, live == last,
          Conflict(path, show(live), if want.Some? then show(want.value) else Nothing, show(last)))
  }

  /** The manifest sets the field to something else than live state, which itself left the baseline. */
  predicate Clashes(f: Field) {
    f.isSet && !f.live && !f.baseline
  }

  predicate Changes(f: Field) {
    f.isSet && !f.live && f.baseline
  }

  datatype Progress = Progress(conflicts: seq<Conflict>, changed: bool)

  function Note(p: Progress, f: Field): Progress {
    if Clashes(f) then p.(conflicts := p.conflicts + [f.conflict])
    else if Changes(f) then p.(changed := true)
    else p
  }

  function Notes(fields: seq<Field>): Progress {
    if fields == [] then Progress([], false) else Note(Notes(fields[..|fields| - 1]), fields[|fields| - 1])
  }

  lemma NotesSnoc(fields: seq<Field>, f: Field)
    ensures Notes(fields + [f]) == Note(Notes(fields), f)
  {
    assert (fields + [f])[..|fields|] == fields;
  }

  /** The conflicts are exactly the clashing fields, and something changed exactly when a set field has to
  move and may. */
  lemma {:induction false} NotesMean(fields: seq<Field>)
    ensures forall c :: c in Notes(fields).conflicts <==> exists f :: f in fields && f.conflict == c && Clashes(f)
    ensures Notes(fields).changed <==> exists f :: f in fields && Changes(f)
  {
    if fields != [] {
      var init, last := fields[..|fields| - 1], fields[|fields| - 1];
      NotesMean(init);
      assert fields == init + [last];
      forall c
        ensures c in Notes(fields).conflicts <==> exists f :: f in fields && f.conflict == c && Clashes(f)
      {
        if f :| f in init && f.conflict == c && Clashes(f) {
          assert f in fields;
        }
        if Clashes(last) && last.conflict == c {
          assert last in fields;
        }
      }
      if f :| f in init && Changes(f) {
        assert f in fields;
      }
      if Changes(last) {
        assert last in fields;
      }
    }
  }

  /** One step of a merge: take the manifest's value unless it clashes. */
  method MergeField<T(==)>(path: string, want: Option<T>, live: T, last: T, show: T -> Shown, p: Progress)
    returns (value: T, q: Progress)
    ensures q == Note(p, FieldOf(path, want, live, last, show))
    ensures !Clashes(FieldOf(path, want, live, last, show)) ==> value == Wanted(want, live)
  {
    value, q := live, p;
    if want.Some? {
      if live != last && live != want.value {
        q := q.(conflicts := q.conflicts + [Conflict(path, show(live), show(want.value), show(last))]);
      } else if live != want.value {
        value := want.value;
        q := q.(changed := true);
      }
    }
  }

  function Wanted<T>(want: Option<T>, live: T): T {
    if want.Some? then want.value else live
  }

  /** What a merge of these fields comes to, given live state with the set fields replaced. */
  function Verdict<T>(fields: seq<Field>, applied: T): Outcome<T> {
    Concluded(Notes(fields), applied)
  }

  function Concluded<T>(p: Progress, live: T): Outcome<T> {
    if p.conflicts != [] then Conflicted(p.conflicts) else if p.changed then Updated(live) else Unchanged
  }

  ghost predicate NoClash(fields: seq<Field>) {
    forall f :: f in fields ==> !Clashes(f)
  }

  lemma ConflictFree(fields: seq<Field>)
    ensures Notes(fields).conflicts == [] <==> NoClash(fields)
  {
    NotesMean(fields);
    if !NoClash(fields) {
      var f :| f in fields && Clashes(f);
      assert f.conflict in Notes(fields).conflicts;
    }
    if Notes(fields).conflicts != [] {
      assert Notes(fields).conflicts[0] in Notes(fields).conflicts;
    }
  }

  /** A merge conflicts exactly when a set field differs from both live state and the baseline, and lists
  exactly those; it changes nothing exactly when every set field already has its value. */
  lemma VerdictMeans<T>(fields: seq<Field>, applied: T)
    ensures Verdict(fields, applied).Conflicted? <==> exists f :: f in fields && Clashes(f)
    ensures Verdict(fields, applied).Conflicted? ==>
              forall c :: c in Verdict(fields, applied).conflicts <==>
                exists f :: f in fields && f.conflict == c && Clashes(f)
    ensures Verdict(fields, applied).Unchanged? <==> forall f :: f in fields && f.isSet ==> f.live
    ensures Verdict(fields, applied).Updated? ==> Verdict(fields, applied).value == applied
  {
    NotesMean(fields);
    ConflictFree(fields);
    if Verdict(fields, applied).Unchanged? {
      forall f | f in fields && f.isSet
        ensures f.live
      {
        assert !Clashes(f) && !Changes(f);
      }
    }
  }

  // ----- field by field -----

  /** The merge reports a conflict on the field of this name. */
  ghost predicate Reports<T>(o: Outcome<T>, path: string) {
    o.Conflicted? && exists c :: c in o.conflicts && c.path == path
  }

  /** A set field differs from live state, which someone has moved off the baseline. */
  predicate Disputed<T(==)>(isSet: bool, want: T, live: T, last: T) {
    isSet && want != live && live != last
  }

  lemma ReportedIff<T>(fields: seq<Field>, applied: T, f: Field)
    requires f in fields && forall g :: g in fields && g.conflict.path == f.conflict.path ==> g == f
    ensures Reports(Verdict(fields, applied), f.conflict.path) <==> Clashes(f)
  {
    hide Notes;
    VerdictMeans(fields, applied);
    var o := Verdict(fields, applied);
    if Reports(o, f.conflict.path) {
      var c :| c in o.conflicts && c.path == f.conflict.path;
      var g :| g in fields && g.conflict == c && Clashes(g);
      assert g == f;
    }
    if Clashes(f) {
      assert f.conflict in o.conflicts;
    }
  }

  // ----- workloads -----

  datatype ManifestPod = ManifestPod(
    resources: Option<PodResources>,
    env: map<string, string>,
    labels: map<string, string>)

  datatype ManifestWorkload = ManifestWorkload(
    image: Option<string>,
    replicas: map<string, nat>,
    podSpec: Option<ManifestPod>,
    placement: Option<int>,
    autoscaling: Option<AutoscalingPolicy>)

  const DEFAULT_POD := PodSpec(None, map[], map[], 0, [], "")
  const DEFAULT_MANIFEST_POD := ManifestPod(None, map[], map[])
  const DEFAULT_WORKLOAD := WorkloadSpec("", "", "", map[], None, 0, None, map[], "")
  const DEFAULT_MANIFEST := ManifestWorkload(None, map[], None, None, None)

  function OrElse<T>(s: Stored<T>, d: T): T {
    if s.Decoded? then s.value else d
  }

  function Given<T>(o: Option<T>, d: T): T {
    if o.Some? then o.value else d
  }

  /** A map counts as set when it is not empty. */
  function NonEmpty<V>(m: map<string, V>): Option<map<string, V>> {
    if m == map[] then None else Some(m)
  }

  /** An optional field counts as set when it is present. */
  function Present<T>(o: Option<T>): Option<Option<T>> {
    if o.None? then None else Some(o)
  }

  function PodFields(m: ManifestPod, live: PodSpec, last: ManifestPod): seq<Field> {
    [FieldOf("pod_spec.resources", Present(m.resources), live.resources, last.resources, ShowNeeds),
     FieldOf("pod_spec.env", NonEmpty(m.env), live.env, last.env, ShowPairs),
     FieldOf("pod_spec.labels", NonEmpty(m.labels), live.labels, last.labels, ShowPairs)]
  }

  function HeadFields(m: ManifestWorkload, live: WorkloadSpec, last: ManifestWorkload): seq<Field> {
    [FieldOf("image", m.image, live.image, Given(last.image, ""), ShowText),
     FieldOf("replicas", NonEmpty(m.replicas), live.replicas, last.replicas, ShowCounts)]
  }

  function TailFields(m: ManifestWorkload, live: WorkloadSpec, last: ManifestWorkload): seq<Field> {
    [FieldOf("placement", m.placement, live.placement, Given(last.placement, 0), ShowInt),
     FieldOf("autoscaling", Present(m.autoscaling), live.autoscaling, last.autoscaling, ShowPolicy)]
  }

  function MiddleFields(m: ManifestWorkload, live: WorkloadSpec, last: ManifestWorkload): seq<Field> {
    if m.podSpec.Some? then
      PodFields(m.podSpec.value, Given(live.podSpec, DEFAULT_POD), Given(last.podSpec, DEFAULT_MANIFEST_POD))
    else []
  }

  function WorkloadFields(m: ManifestWorkload, live: WorkloadSpec, last: ManifestWorkload): seq<Field> {
    HeadFields(m, live, last) + MiddleFields(m, live, last) + TailFields(m, live, last)
  }

  function AppliedPod(m: ManifestPod, live: PodSpec): PodSpec {
    live.(resources := Wanted(Present(m.resources), live.resources),
          env := Wanted(NonEmpty(m.env), live.env),
          labels := Wanted(NonEmpty(m.labels), live.labels))
  }

  /** Live state with exactly the set fields replaced; a manifest with a pod spec gives an absent one the
  default. */
  function AppliedWorkload(m: ManifestWorkload, live: WorkloadSpec): WorkloadSpec {
    live.(image := Wanted(m.image, live.image),
          replicas := Wanted(NonEmpty(m.replicas), live.replicas),
          podSpec := if m.podSpec.Some? then Some(AppliedPod(m.podSpec.value, Given(live.podSpec, DEFAULT_POD)))
                     else live.podSpec,
          placement := Wanted(m.placement, live.placement),
          autoscaling := Wanted(Present(m.autoscaling), live.autoscaling))
  }

  lemma NoteTwo(done: seq<Field>, a: Field, b: Field)
    ensures Notes(done + [a, b]) == Note(Note(Notes(done), a), b)
  {
    hide Notes, Note;
    NotesSnoc(done, a);
    NotesSnoc(done + [a], b);
    assert done + [a, b] == done + [a] + [b];
  }

  lemma NoteThree(done: seq<Field>, a: Field, b: Field, c: Field)
    ensures Notes(done + [a, b, c]) == Note(Note(Note(Notes(done), a), b), c)
  {
    hide Notes, Note;
    NoteTwo(done, a, b);
    NotesSnoc(done + [a, b], c);
    assert done + [a, b, c] == done + [a, b] + [c];
  }

  method MergePod(m: ManifestPod, live: PodSpec, last: ManifestPod, p: Progress, ghost done: seq<Field>)
    returns (pod: PodSpec, q: Progress)
    requires p == Notes(done)
    ensures q == Notes(done + PodFields(m, live, last))
    ensures NoClash(PodFields(m, live, last)) ==> pod == AppliedPod(m, live)
  {
    hide Notes, Note, Clashes;
    var resources, p1 := MergeField("pod_spec.resources", Present(m.resources), live.resources, last.resources,
                                    ShowNeeds, p);
    var env, p2 := MergeField("pod_spec.env", NonEmpty(m.env), live.env, last.env, ShowPairs, p1);
    var labels, p3 := MergeField("pod_spec.labels", NonEmpty(m.labels), live.labels, last.labels, ShowPairs, p2);
    ghost var fields := PodFields(m, live, last);
    NoteThree(done, fields[0], fields[1], fields[2]);
    assert fields[0] in fields && fields[1] in fields && fields[2] in fields;
    pod, q := live.(resources := resources, env := env, labels := labels), p3;
  }

  /** `merge_workload`. */
  method MergeWorkload(m: ManifestWorkload, stored: Stored<WorkloadSpec>, applied: Stored<ManifestWorkload>)
    returns (o: Outcome<WorkloadSpec>)
    ensures var live, last := OrElse(stored, DEFAULT_WORKLOAD), OrElse(applied, DEFAULT_MANIFEST);
            o == Verdict(WorkloadFields(m, live, last), AppliedWorkload(m, live))
  {
    hide Notes, Note, Clashes;
    var live, last := OrElse(stored, DEFAULT_WORKLOAD), OrElse(applied, DEFAULT_MANIFEST);
    ghost var head, middle, tail := HeadFields(m, live, last), MiddleFields(m, live, last), TailFields(m, live, last);
    var p0 := Progress([], false);
    StartNotes();
    var image, p1 := MergeField("image", m.image, live.image, Given(last.image, ""), ShowText, p0);
    var replicas, p2 := MergeField("replicas", NonEmpty(m.replicas), live.replicas, last.replicas, ShowCounts, p1);
    NoteTwo([], head[0], head[1]);
    assert [] + head == head;
    var podSpec, p3 := live.podSpec, p2;
    if m.podSpec.Some? {
      var pod;
      pod, p3 := MergePod(m.podSpec.value, Given(live.podSpec, DEFAULT_POD), Given(last.podSpec, DEFAULT_MANIFEST_POD),
                          p2, head);
      podSpec := Some(pod);
    } else {
      assert head + middle == head;
    }
    var placement, p4 := MergeField("placement", m.placement, live.placement, Given(last.placement, 0), ShowInt, p3);
    var autoscaling, p5 := MergeField("autoscaling", Present(m.autoscaling), live.autoscaling, last.autoscaling,
                                      ShowPolicy, p4);
    NoteTwo(head + middle, tail[0], tail[1]);
    var merged := live.(image := image, replicas := replicas, podSpec := podSpec, placement := placement,
                        autoscaling := autoscaling);
    ConflictFree(head + middle + tail);
    if p5.conflicts == [] {
      NoClashParts(head, middle, tail);
      assert head[0] in head && head[1] in head && tail[0] in tail && tail[1] in tail;
    }
    o := Concluded(p5, merged);
  }

  lemma StartNotes()
    ensures Notes([]) == Progress([], false)
  {
  }

  lemma NoClashParts(a: seq<Field>, b: seq<Field>, c: seq<Field>)
    requires NoClash(a + b + c)
    ensures NoClash(a) && NoClash(b) && NoClash(c)
  {
    forall f | f in a || f in b || f in c
      ensures !Clashes(f)
    {
      assert f in a + b + c;
    }
  }

  /** Fields of a merge all agree with live state, whatever the baseline. */
  ghost predicate Settled(fields: seq<Field>) {
    forall f :: f in fields && f.isSet ==> f.live
  }

  lemma SettledParts(a: seq<Field>, b: seq<Field>, c: seq<Field>)
    requires Settled(a) && Settled(b) && Settled(c)
    ensures Settled(a + b + c)
  {
    forall f | f in a + b + c && f.isSet
      ensures f.live
    {
      assert f in a || f in b || f in c;
    }
  }

  /** Merging the same manifest into the result changes nothing, for every baseline. */
  lemma WorkloadRemergeUnchanged(m: ManifestWorkload, live: WorkloadSpec, last: ManifestWorkload)
    ensures Verdict(WorkloadFields(m, AppliedWorkload(m, live), last), AppliedWorkload(m, AppliedWorkload(m, live)))
         == Unchanged
  {
    hide Notes;
    var again := AppliedWorkload(m, live);
    SettledParts(HeadFields(m, again, last), MiddleFields(m, again, last), TailFields(m, again, last));
    VerdictMeans(WorkloadFields(m, again, last), AppliedWorkload(m, again));
  }

  /** An unchanged verdict means live state already is what the manifest asks for, up to an absent pod spec
  standing for the default one. */
  lemma WorkloadUnchangedMeans(m: ManifestWorkload, live: WorkloadSpec, last: ManifestWorkload)
    requires Verdict(WorkloadFields(m, live, last), AppliedWorkload(m, live)).Unchanged?
    ensures AppliedWorkload(m, live)
         == if m.podSpec.Some? && live.podSpec.None? then live.(podSpec := Some(DEFAULT_POD)) else live
  {
    hide Notes;
    var fields := WorkloadFields(m, live, last);
    VerdictMeans(fields, AppliedWorkload(m, live));
    var head, middle, tail := HeadFields(m, live, last), MiddleFields(m, live, last), TailFields(m, live, last);
    assert Settled(head) && Settled(middle) && Settled(tail) by {
      forall f | f in head || f in middle || f in tail
        ensures f in fields
      {
      }
    }
    assert head[0] in head && head[1] in head && tail[0] in tail && tail[1] in tail;
    if m.podSpec.Some? {
      assert middle[0] in middle && middle[1] in middle && middle[2] in middle;
    }
  }

  lemma WorkloadFieldsIn(m: ManifestWorkload, live: WorkloadSpec, last: ManifestWorkload)
    ensures forall f :: f in WorkloadFields(m, live, last) <==>
              || f in HeadFields(m, live, last)
              || f in MiddleFields(m, live, last)
              || f in TailFields(m, live, last)
  {
  }

  /** No two fields of a workload have the same name. */
  lemma WorkloadNamesDiffer(m: ManifestWorkload, live: WorkloadSpec, last: ManifestWorkload, f: Field, g: Field)
    requires f in WorkloadFields(m, live, last) && g in WorkloadFields(m, live, last)
    requires |f.conflict.path| == |g.conflict.path|
    ensures f == g
  {
    WorkloadFieldsIn(m, live, last);
  }

  lemma WorkloadReportedIff(m: ManifestWorkload, live: WorkloadSpec, last: ManifestWorkload, f: Field)
    requires f in WorkloadFields(m, live, last)
    ensures Reports(Verdict(WorkloadFields(m, live, last), AppliedWorkload(m, live)), f.conflict.path) <==> Clashes(f)
  {
    hide WorkloadFields, AppliedWorkload, Verdict, Reports, Clashes;
    forall g | g in WorkloadFields(m, live, last) && g.conflict.path == f.conflict.path
      ensures g == f
    {
      WorkloadNamesDiffer(m, live, last, f, g);
    }
    ReportedIff(WorkloadFields(m, live, last), AppliedWorkload(m, live), f);
  }

  /** Each field of a workload is reported exactly when the manifest sets it to something else than live state holds
  and live state has left the baseline; an empty map sets nothing, and an unset baseline is the field's default. */
  lemma WorkloadConflictsByField(m: ManifestWorkload, live: WorkloadSpec, last: ManifestWorkload)
    ensures var o := Verdict(WorkloadFields(m, live, last), AppliedWorkload(m, live));
            && (Reports(o, "image") <==>
                  Disputed(m.image.Some?, m.image, Some(live.image), Some(Given(last.image, ""))))
            && (Reports(o, "replicas") <==> Disputed(m.replicas != map[], m.replicas, live.replicas, last.replicas))
            && (Reports(o, "placement") <==>
                  Disputed(m.placement.Some?, m.placement, Some(live.placement), Some(Given(last.placement, 0))))
            && (Reports(o, "autoscaling") <==>
                  Disputed(m.autoscaling.Some?, m.autoscaling, live.autoscaling, last.autoscaling))
  {
    hide Verdict, Reports, WorkloadFields, AppliedWorkload;
    WorkloadFieldsIn(m, live, last);
    var head, tail := HeadFields(m, live, last), TailFields(m, live, last);
    assert head[0] in head && head[1] in head && tail[0] in tail && tail[1] in tail;
    WorkloadReportedIff(m, live, last, head[0]);
    WorkloadReportedIff(m, live, last, head[1]);
    WorkloadReportedIff(m, live, last, tail[0]);
    WorkloadReportedIff(m, live, last, tail[1]);
  }

  lemma NoPodReported(m: ManifestWorkload, live: WorkloadSpec, last: ManifestWorkload, path: string)
    requires m.podSpec.None? && |path| in {12, 15, 18}
    ensures !Reports(Verdict(WorkloadFields(m, live, last), AppliedWorkload(m, live)), path)
  {
    hide Verdict, AppliedWorkload, WorkloadFields;
    WorkloadFieldsIn(m, live, last);
    VerdictMeans(WorkloadFields(m, live, last), AppliedWorkload(m, live));
  }

  /** The same for the pod: an absent live pod stands for the default one, and a manifest without a pod sets none of its
  fields. */
  lemma PodConflictsByField(m: ManifestWorkload, live: WorkloadSpec, last: ManifestWorkload)
    ensures var o := Verdict(WorkloadFields(m, live, last), AppliedWorkload(m, live));
            var pod, was := Given(live.podSpec, DEFAULT_POD), Given(last.podSpec, DEFAULT_MANIFEST_POD);
            var want := Given(m.podSpec, DEFAULT_MANIFEST_POD);
            && (Reports(o, "pod_spec.resources") <==>
                  Disputed(want.resources.Some?, want.resources, pod.resources, was.resources))
            && (Reports(o, "pod_spec.env") <==> Disputed(want.env != map[], want.env, pod.env, was.env))
            && (Reports(o, "pod_spec.labels") <==> Disputed(want.labels != map[], want.labels, pod.labels, was.labels))
  {
    hide Verdict, Reports, WorkloadFields, AppliedWorkload;
    WorkloadFieldsIn(m, live, last);
    var middle := MiddleFields(m, live, last);
    if m.podSpec.Some? {
      assert middle[0] in middle && middle[1] in middle && middle[2] in middle;
      WorkloadReportedIff(m, live, last, middle[0]);
      WorkloadReportedIff(m, live, last, middle[1]);
      WorkloadReportedIff(m, live, last, middle[2]);
    } else {
      NoPodReported(m, live, last, "pod_spec.resources");
      NoPodReported(m, live, last, "pod_spec.env");
      NoPodReported(m, live, last, "pod_spec.labels");
    }
  }

  lemma WorkloadPaths(m: ManifestWorkload, live: WorkloadSpec, last: ManifestWorkload, f: Field)
    requires f in WorkloadFields(m, live, last)
    ensures var path := f.conflict.path;
            || path == "image" || path == "replicas" || path == "placement" || path == "autoscaling"
            || path == "pod_spec.resources" || path == "pod_spec.env" || path == "pod_spec.labels"
  {
    hide WorkloadFields;
    WorkloadFieldsIn(m, live, last);
  }

  /** A merge conflicts exactly when it reports one of the seven fields. */
  lemma WorkloadConflictsIff(m: ManifestWorkload, live: WorkloadSpec, last: ManifestWorkload)
    ensures var o := Verdict(WorkloadFields(m, live, last), AppliedWorkload(m, live));
            o.Conflicted? <==>
            || Reports(o, "image") || Reports(o, "replicas") || Reports(o, "placement") || Reports(o, "autoscaling")
            || Reports(o, "pod_spec.resources") || Reports(o, "pod_spec.env") || Reports(o, "pod_spec.labels")
  {
    hide Verdict, Clashes, WorkloadFields, AppliedWorkload;
    var o := Verdict(WorkloadFields(m, live, last), AppliedWorkload(m, live));
    assert forall path :: Reports(o, path) ==> o.Conflicted?;
    hide Reports;
    VerdictMeans(WorkloadFields(m, live, last), AppliedWorkload(m, live));
    if o.Conflicted? {
      var f :| f in WorkloadFields(m, live, last) && Clashes(f);
      WorkloadReportedIff(m, live, last, f);
      WorkloadPaths(m, live, last, f);
    }
  }

  /** A merge that goes through leaves every set field at the manifest's value and every other field, the rest of the
  record included, as it was. */
  lemma WorkloadUpdatesTo(m: ManifestWorkload, live: WorkloadSpec, last: ManifestWorkload)
    requires Verdict(WorkloadFields(m, live, last), AppliedWorkload(m, live)).Updated?
    ensures var w := Verdict(WorkloadFields(m, live, last), AppliedWorkload(m, live)).value;
            && (m.image.Some? ==> w.image == m.image.value) && (m.image.None? ==> w.image == live.image)
            && w.replicas == (if m.replicas != map[] then m.replicas else live.replicas)
            && (m.placement.Some? ==> w.placement == m.placement.value)
            && (m.placement.None? ==> w.placement == live.placement)
            && w.autoscaling == (if m.autoscaling.Some? then m.autoscaling else live.autoscaling)
            && (m.podSpec.None? ==> w.podSpec == live.podSpec)
            && (m.podSpec.Some? ==> w.podSpec.Some? && PodUpdatedTo(m.podSpec.value, Given(live.podSpec, DEFAULT_POD),
                                                                    w.podSpec.value))
            && live == w.(image := live.image, replicas := live.replicas, podSpec := live.podSpec,
                          placement := live.placement, autoscaling := live.autoscaling)
  {
    hide Notes;
    VerdictMeans(WorkloadFields(m, live, last), AppliedWorkload(m, live));
  }

  ghost predicate PodUpdatedTo(m: ManifestPod, live: PodSpec, pod: PodSpec) {
    && pod.resources == (if m.resources.Some? then m.resources else live.resources)
    && pod.env == (if m.env != map[] then m.env else live.env)
    && pod.labels == (if m.labels != map[] then m.labels else live.labels)
    && live == pod.(resources := live.resources, env := live.env, labels := live.labels)
  }

  // ----- SAG rules -----

  datatype SagRule = SagRule(from: Option<string>, to: Option<string>, action: int, otherFields: string)

  datatype ManifestSagRule = ManifestSagRule(from: Option<string>, to: Option<string>, action: Option<int>)

  const DEFAULT_SAG_RULE := SagRule(None, None, 0, "")

  function SagFields(m: ManifestSagRule, live: SagRule, last: SagRule): seq<Field> {
    [FieldOf("from", Present(m.from), live.from, last.from, ShowId),
     FieldOf("to", Present(m.to), live.to, last.to, ShowId),
     FieldOf("action", m.action, live.action, last.action, ShowInt)]
  }

  function AppliedSagRule(m: ManifestSagRule, live: SagRule): SagRule {
    live.(from := Wanted(Present(m.from), live.from), to := Wanted(Present(m.to), live.to),
          action := Wanted(m.action, live.action))
  }

  /** `merge_sag_rule`. */
  method MergeSagRule(m: ManifestSagRule, stored: Stored<SagRule>, applied: Stored<SagRule>)
    returns (o: Outcome<SagRule>)
    ensures var live, last := OrElse(stored, DEFAULT_SAG_RULE), OrElse(applied, DEFAULT_SAG_RULE);
            o == Verdict(SagFields(m, live, last), AppliedSagRule(m, live))
  {
    hide Notes, Note, Clashes;
    var live, last := OrElse(stored, DEFAULT_SAG_RULE), OrElse(applied, DEFAULT_SAG_RULE);
    ghost var fields := SagFields(m, live, last);
    var p0 := Progress([], false);
    StartNotes();
    var from, p1 := MergeField("from", Present(m.from), live.from, last.from, ShowId, p0);
    var to, p2 := MergeField("to", Present(m.to), live.to, last.to, ShowId, p1);
    var action, p3 := MergeField("action", m.action, live.action, last.action, ShowInt, p2);
    NoteThree([], fields[0], fields[1], fields[2]);
    assert [] + fields == fields;
    ConflictFree(fields);
    assert fields[0] in fields && fields[1] in fields && fields[2] in fields;
    o := Concluded(p3, live.(from := from, to := to, action := action));
  }

  lemma SagRuleRemergeUnchanged(m: ManifestSagRule, live: SagRule, last: SagRule)
    ensures Verdict(SagFields(m, AppliedSagRule(m, live), last), AppliedSagRule(m, AppliedSagRule(m, live)))
         == Unchanged
  {
    hide Notes;
    VerdictMeans(SagFields(m, AppliedSagRule(m, live), last), AppliedSagRule(m, AppliedSagRule(m, live)));
  }

  /** A rule conflicts exactly on the set fields that differ from a live value off the baseline, and otherwise takes
  every set field and keeps the rest. */
  lemma SagRuleByField(m: ManifestSagRule, live: SagRule, last: SagRule)
    ensures var o := Verdict(SagFields(m, live, last), AppliedSagRule(m, live));
            && (Reports(o, "from") <==> Disputed(m.from.Some?, m.from, live.from, last.from))
            && (Reports(o, "to") <==> Disputed(m.to.Some?, m.to, live.to, last.to))
            && (Reports(o, "action") <==>
                  Disputed(m.action.Some?, m.action, Some(live.action), Some(last.action)))
            && (o.Conflicted? <==> Reports(o, "from") || Reports(o, "to") || Reports(o, "action"))
            && (o.Updated? ==>
                  && o.value.from == (if m.from.Some? then m.from else live.from)
                  && o.value.to == (if m.to.Some? then m.to else live.to)
                  && Some(o.value.action) == (if m.action.Some? then m.action else Some(live.action))
                  && o.value.otherFields == live.otherFields)
  {
    hide Verdict;
    var fields, applied := SagFields(m, live, last), AppliedSagRule(m, live);
    assert fields[0] in fields && fields[1] in fields && fields[2] in fields;
    VerdictMeans(fields, applied);
    ReportedIff(fields, applied, fields[0]);
    ReportedIff(fields, applied, fields[1]);
    ReportedIff(fields, applied, fields[2]);
  }

  // ----- node pools -----

  datatype NodePool = NodePool(
    poolId: string,
    nodeKind: nat,
    desiredCount: nat,
    vcpus: nat,
    memoryMb: nat,
    diskGb: nat,
    regionHint: string,
    lastApplied: string)

  datatype ManifestNodePool = ManifestNodePool(
    desiredCount: Option<nat>,
    vcpus: Option<nat>,
    memoryMb: Option<nat>,
    diskGb: Option<nat>,
    regionHint: Option<string>)

  const BLANK_POOL := NodePool("", 0, 0, 0, 0, 0, "", "")

  function PoolHead(m: ManifestNodePool, live: NodePool, last: NodePool): seq<Field> {
    [FieldOf("desired_count", m.desiredCount, live.desiredCount, last.desiredCount, ShowInt),
     FieldOf("vcpus", m.vcpus, live.vcpus, last.vcpus, ShowInt),
     FieldOf("memory_mb", m.memoryMb, live.memoryMb, last.memoryMb, ShowInt)]
  }

  function PoolTail(m: ManifestNodePool, live: NodePool, last: NodePool): seq<Field> {
    [FieldOf("disk_gb", m.diskGb, live.diskGb, last.diskGb, ShowInt),
     FieldOf("region_hint", m.regionHint, live.regionHint, last.regionHint, ShowText)]
  }

  function PoolFields(m: ManifestNodePool, live: NodePool, last: NodePool): seq<Field> {
    PoolHead(m, live, last) + [] + PoolTail(m, live, last)
  }

  function AppliedPool(m: ManifestNodePool, live: NodePool): NodePool {
    live.(desiredCount := Wanted(m.desiredCount, live.desiredCount), vcpus := Wanted(m.vcpus, live.vcpus),
          memoryMb := Wanted(m.memoryMb, live.memoryMb), diskGb := Wanted(m.diskGb, live.diskGb),
          regionHint := Wanted(m.regionHint, live.regionHint))
  }

  /** `merge_node_pool`: no live pool, nothing to do; no baseline, live state is the baseline. */
  method MergeNodePool(m: ManifestNodePool, stored: Stored<NodePool>, applied: Stored<NodePool>)
    returns (o: Outcome<NodePool>)
    ensures stored.Absent? ==> o == Unchanged
    ensures !stored.Absent? ==>
              var live := OrElse(stored, BLANK_POOL);
              o == Verdict(PoolFields(m, live, OrElse(applied, live)), AppliedPool(m, live))
  {
    hide Notes, Note, Clashes;
    if stored.Absent? {
      return Unchanged;
    }
    var live := OrElse(stored, BLANK_POOL);
    var last := OrElse(applied, live);
    ghost var head, tail := PoolHead(m, live, last), PoolTail(m, live, last);
    var p0 := Progress([], false);
    StartNotes();
    var desiredCount, p1 := MergeField("desired_count", m.desiredCount, live.desiredCount, last.desiredCount, ShowInt,
                                       p0);
    var vcpus, p2 := MergeField("vcpus", m.vcpus, live.vcpus, last.vcpus, ShowInt, p1);
    var memoryMb, p3 := MergeField("memory_mb", m.memoryMb, live.memoryMb, last.memoryMb, ShowInt, p2);
    NoteThree([], head[0], head[1], head[2]);
    assert [] + head == head && head + [] == head;
    var diskGb, p4 := MergeField("disk_gb", m.diskGb, live.diskGb, last.diskGb, ShowInt, p3);
    var regionHint, p5 := MergeField("region_hint", m.regionHint, live.regionHint, last.regionHint, ShowText, p4);
    NoteTwo(head, tail[0], tail[1]);
    ConflictFree(PoolFields(m, live, last));
    if p5.conflicts == [] {
      NoClashParts(head, [], tail);
      assert head[0] in head && head[1] in head && head[2] in head && tail[0] in tail && tail[1] in tail;
    }
    o := Concluded(p5, live.(desiredCount := desiredCount, vcpus := vcpus, memoryMb := memoryMb, diskGb := diskGb,
                             regionHint := regionHint));
  }

  lemma PoolRemergeUnchanged(m: ManifestNodePool, live: NodePool, last: NodePool)
    ensures Verdict(PoolFields(m, AppliedPool(m, live), last), AppliedPool(m, AppliedPool(m, live))) == Unchanged
  {
    hide Notes;
    var again := AppliedPool(m, live);
    SettledParts(PoolHead(m, again, last), [], PoolTail(m, again, last));
    VerdictMeans(PoolFields(m, again, last), AppliedPool(m, again));
  }

  /** A pool conflicts exactly on the set fields that differ from a live value off the baseline. */
  lemma PoolConflictsByField(m: ManifestNodePool, live: NodePool, last: NodePool)
    ensures var o := Verdict(PoolFields(m, live, last), AppliedPool(m, live));
            && (Reports(o, "desired_count") <==>
                  Disputed(m.desiredCount.Some?, m.desiredCount, Some(live.desiredCount), Some(last.desiredCount)))
            && (Reports(o, "vcpus") <==> Disputed(m.vcpus.Some?, m.vcpus, Some(live.vcpus), Some(last.vcpus)))
            && (Reports(o, "memory_mb") <==>
                  Disputed(m.memoryMb.Some?, m.memoryMb, Some(live.memoryMb), Some(last.memoryMb)))
            && (Reports(o, "disk_gb") <==> Disputed(m.diskGb.Some?, m.diskGb, Some(live.diskGb), Some(last.diskGb)))
            && (Reports(o, "region_hint") <==>
                  Disputed(m.regionHint.Some?, m.regionHint, Some(live.regionHint), Some(last.regionHint)))
            && (o.Conflicted? <==>
                  || Reports(o, "desired_count") || Reports(o, "vcpus") || Reports(o, "memory_mb")
                  || Reports(o, "disk_gb") || Reports(o, "region_hint"))
  {
    hide Verdict, Reports;
    var fields, applied := PoolFields(m, live, last), AppliedPool(m, live);
    var head, tail := PoolHead(m, live, last), PoolTail(m, live, last);
    assert head[0] in head && head[1] in head && head[2] in head && tail[0] in tail && tail[1] in tail;
    VerdictMeans(fields, applied);
    ReportedIff(fields, applied, head[0]);
    ReportedIff(fields, applied, head[1]);
    ReportedIff(fields, applied, head[2]);
    ReportedIff(fields, applied, tail[0]);
    ReportedIff(fields, applied, tail[1]);
  }

  /** A pool that is updated takes every set field and keeps its name, kind, applied manifest and unset fields. */
  lemma PoolUpdatesTo(m: ManifestNodePool, live: NodePool, last: NodePool)
    requires Verdict(PoolFields(m, live, last), AppliedPool(m, live)).Updated?
    ensures var p := Verdict(PoolFields(m, live, last), AppliedPool(m, live)).value;
            && p.poolId == live.poolId && p.nodeKind == live.nodeKind && p.lastApplied == live.lastApplied
            && p.desiredCount == (if m.desiredCount.Some? then m.desiredCount.value else live.desiredCount)
            && p.vcpus == (if m.vcpus.Some? then m.vcpus.value else live.vcpus)
            && p.memoryMb == (if m.memoryMb.Some? then m.memoryMb.value else live.memoryMb)
            && p.diskGb == (if m.diskGb.Some? then m.diskGb.value else live.diskGb)
            && p.regionHint == (if m.regionHint.Some? then m.regionHint.value else live.regionHint)
  {
    hide Notes;
    VerdictMeans(PoolFields(m, live, last), AppliedPool(m, live));
  }

  /** Without a baseline a node pool never conflicts. */
  lemma PoolWithoutBaselineNeverConflicts(m: ManifestNodePool, live: NodePool)
    ensures !Verdict(PoolFields(m, live, live), AppliedPool(m, live)).Conflicted?
  {
    hide Notes;
    VerdictMeans(PoolFields(m, live, live), AppliedPool(m, live));
  }
}
