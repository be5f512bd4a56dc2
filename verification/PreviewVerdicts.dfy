/**
  * Which previews are refused, how, and with which trace in the audit log; the checks of waivers, heals and
  * jira writes.
  */
module PreviewVerdicts {
  import opened Prelude
  import opened Text
  import opened Json
  import opened PyValues
  import opened Uuids
  import opened Timestamps
  import opened Params
  import opened PolicyGate
  import opened Directory
  import opened Ledger
  import opened Transitions
  import opened Faults
  import opened Verdicts
  import H = Heals
  import J = JiraPayloads

  // ---- Waivers ----

  /** The evaluation a waiver is for: that of the id, or that of the run. */
  function EvaluationOf(f: PreviewFacts, targetType: string, target: Uuid): Option<GateEvaluation> {
    if targetType == "gate_evaluation" && target in f.evaluations then Some(f.evaluations[target])
    else if targetType == "test_run" && target in f.byRun then Some(f.byRun[target])
    else None
  }

  /** It belongs to another project than the request. */
  predicate IsForeign(e: GateEvaluation, project: Option<Uuid>) {
    project.Some? && e.project.Some? && project.value != e.project.value
  }

  function WaiverFaults(f: PreviewFacts, x: PreviewRequest): seq<Fault> {
    var e := EvaluationOf(f, x.targetType, x.targetId);
    [Quiet(!("confirm" in x.payload && x.payload["confirm"] == Bool(true)), Validation),
     Quiet(x.targetType != "gate_evaluation" && x.targetType != "test_run", Validation),
     Loud(e.None?, StateConsumed),
     Quiet(e.Some? && IsForeign(e.value, x.project), NotFound)]
  }

  /** A waiver's check fails with the first fault, and otherwise names the evaluation of its target. */
  lemma {:induction false} WaiverVerdict(f: PreviewFacts, x: PreviewRequest)
    ensures var r, e, fault := CheckWaiver(f, x), EvaluationOf(f, x.targetType, x.targetId),
            FirstFault(WaiverFaults(f, x));
            && (fault.None? ==> e.Some? && r == Ok(e.value.id))
            && (fault.Some? ==> r == Err(fault.value.error) && (fault.value.audited <==> r == Err(StateConsumed)))
  {
    var faults := WaiverFaults(f, x);
    FirstFaultIsFirst(faults);
    if Get(x.payload, "confirm") != Bool(true) {
      assert IsFirst(faults, 0);
    } else if x.targetType != "gate_evaluation" && x.targetType != "test_run" {
      assert IsFirst(faults, 1);
    } else if EvaluationOf(f, x.targetType, x.targetId).None? {
      assert IsFirst(faults, 2);
    } else if IsForeign(EvaluationOf(f, x.targetType, x.targetId).value, x.project) {
      assert IsFirst(faults, 3);
    } else {
      assert forall i | 0 <= i < |faults| :: !faults[i].present;
    }
  }

  // ---- Heals ----

  /** The cluster a heal names, if it names one by a UUID. */
  function ClusterNamed(f: H.HealFacts, payload: Payload): Option<Uuid> {
    if "failure_cluster_id" !in payload || payload["failure_cluster_id"] == Null then None
    else ParseUuid(PyStr(f.repr, payload["failure_cluster_id"]))
  }

  /** What is wrong with a stated confidence. */
  function ConfidenceFaults(f: H.HealFacts, payload: Payload, key: string): seq<Fault> {
    var stated := key in payload && payload[key] != Null;
    var reading := if stated then H.ReadConfidence(f, payload[key]) else H.Read(H.PlusInfinity);
    [Quiet(reading == H.Unreadable, Validation),
     Quiet(reading == H.Overflows, Uncaught),
     Loud(reading.Read? && H.Low(reading.c), PolicyDeny)]
  }

  function CaseFaults(f: H.HealFacts, target: Uuid, version: Option<int>): seq<Fault> {
    var known := target in f.cases;
    [Quiet(!known, NotFound),
     Quiet(known && (!f.cases[target].active || f.cases[target].currentVersion == None), StateConsumed),
     Quiet(known && version.Some? && version.value != f.cases[target].version, VersionConflict)]
  }

  function ClusterFaults(f: H.HealFacts, payload: Payload): seq<Fault> {
    var cluster := ClusterNamed(f, payload);
    [Quiet(cluster.Some? && cluster.value !in f.clusters, NotFound),
     Loud(cluster.Some? && cluster.value in f.clusters && H.Low(f.clusters[cluster.value]), PolicyDeny)]
  }

  function HealFaults(f: H.HealFacts, target: Uuid, payload: Payload, version: Option<int>): seq<Fault> {
    [Quiet(ClusterNamed(f, payload).None?, Validation)]
    + (ConfidenceFaults(f, payload, "cluster_confidence")
       + (ConfidenceFaults(f, payload, "fix_confidence")
          + (ClusterFaults(f, payload) + CaseFaults(f, target, version))))
  }

  lemma {:induction false} ConfidenceVerdict(f: H.HealFacts, payload: Payload, key: string)
    ensures var r, fault := H.CheckConfidence(f, Get(payload, key)), FirstFault(ConfidenceFaults(f, payload, key));
            && r == (if fault.Some? then Some(fault.value.error) else None)
            && (fault.Some? ==> (fault.value.audited <==> r == Some(PolicyDeny)))
  {
    var faults := ConfidenceFaults(f, payload, key);
    FirstFaultIsFirst(faults);
    var r := H.CheckConfidence(f, Get(payload, key));
    if r == Some(Validation) {
      assert IsFirst(faults, 0);
    } else if r == Some(Uncaught) {
      assert IsFirst(faults, 1);
    } else if r == Some(PolicyDeny) {
      assert IsFirst(faults, 2);
    } else {
      assert forall i | 0 <= i < |faults| :: !faults[i].present;
    }
  }

  lemma {:induction false} ClusterVerdict(f: H.HealFacts, payload: Payload)
    requires ClusterNamed(f, payload).Some?
    ensures var cluster, fault := ClusterNamed(f, payload).value, FirstFault(ClusterFaults(f, payload));
            && (fault.None? <==> cluster in f.clusters && !H.Low(f.clusters[cluster]))
            && (fault.Some? ==>
                fault.value == if cluster in f.clusters then Loud(true, PolicyDeny) else Quiet(true, NotFound))
  {
    var faults, cluster := ClusterFaults(f, payload), ClusterNamed(f, payload).value;
    FirstFaultIsFirst(faults);
    if cluster !in f.clusters {
      assert IsFirst(faults, 0);
    } else if H.Low(f.clusters[cluster]) {
      assert IsFirst(faults, 1);
    } else {
      assert forall i | 0 <= i < |faults| :: !faults[i].present;
    }
  }

  lemma {:induction false} CaseVerdict(f: H.HealFacts, target: Uuid, version: Option<int>)
    ensures var r, fault := H.CheckCase(f, target, version), FirstFault(CaseFaults(f, target, version));
            && (fault.None? ==> target in f.cases && f.cases[target].currentVersion.Some?
                                && r == Ok(f.cases[target].currentVersion.value))
            && (fault.Some? ==> r == Err(fault.value.error) && !fault.value.audited && fault.value.error != PolicyDeny)
  {
    var faults := CaseFaults(f, target, version);
    FirstFaultIsFirst(faults);
    if target !in f.cases {
      assert IsFirst(faults, 0);
    } else if !f.cases[target].active || f.cases[target].currentVersion.None? {
      assert IsFirst(faults, 1);
    } else if version.Some? && f.cases[target].version != version.value {
      assert IsFirst(faults, 2);
    } else {
      assert forall i | 0 <= i < |faults| :: !faults[i].present;
    }
  }

  /** A heal's check fails with the first fault, and otherwise gives the version the case has now. */
  lemma {:induction false} HealVerdict(f: H.HealFacts, target: Uuid, payload: Payload, version: Option<int>)
    ensures var r, fault := H.CheckHeal(f, target, payload, version),
            FirstFault(HealFaults(f, target, payload, version));
            && (fault.None? ==> target in f.cases && f.cases[target].currentVersion.Some?
                                && r == Ok(f.cases[target].currentVersion.value))
            && (fault.Some? ==> r == Err(fault.value.error) && (fault.value.audited <==> r == Err(PolicyDeny)))
  {
    var named := [Quiet(ClusterNamed(f, payload).None?, Validation)];
    var stated, fix := ConfidenceFaults(f, payload, "cluster_confidence"),
        ConfidenceFaults(f, payload, "fix_confidence");
    var cluster, testCase := ClusterFaults(f, payload), CaseFaults(f, target, version);
    FirstFaultJoin(named, stated + (fix + (cluster + testCase)));
    FirstFaultJoin(stated, fix + (cluster + testCase));
    FirstFaultJoin(fix, cluster + testCase);
    FirstFaultJoin(cluster, testCase);
    ConfidenceVerdict(f, payload, "cluster_confidence");
    ConfidenceVerdict(f, payload, "fix_confidence");
    CaseVerdict(f, target, version);
    if ClusterNamed(f, payload).Some? {
      ClusterVerdict(f, payload);
    }
  }

  // ---- Jira writes ----

  /** A defect can be written for a failure cluster or for a case result. */
  function RunOf(f: J.JiraFacts, targetType: string, target: Uuid): Option<Uuid> {
    if targetType == "failure_cluster" && target in f.clusters then f.clusters[target].testRun
    else if targetType == "case_result" && target in f.caseRuns then f.caseRuns[target]
    else None
  }

  /** The evidence and the failures a target refers to; a case result refers to none. */
  function EvidenceOf(f: J.JiraFacts, targetType: string, target: Uuid): seq<Uuid> {
    if targetType == "failure_cluster" && target in f.clusters then f.clusters[target].evidenceRefs else []
  }

  function FailuresOf(f: J.JiraFacts, targetType: string, target: Uuid): seq<Uuid> {
    if targetType == "failure_cluster" && target in f.clusters then f.clusters[target].failureRefs else []
  }

  function TargetFaults(f: J.JiraFacts, project: Uuid, targetType: string, target: Uuid): seq<Fault> {
    var cluster, result := targetType == "failure_cluster", targetType == "case_result";
    var run := RunOf(f, targetType, target);
    [Quiet(!cluster && !result, Validation),
     Quiet((cluster && target !in f.clusters) || (result && target !in f.caseRuns), NotFound),
     Quiet(run.None? || run.value !in f.runs || f.runs[run.value].project != project, NotFound),
     Loud(run.Some? && run.value in f.runs && !f.runs[run.value].failed, StateConsumed)]
  }

  lemma {:induction false} TargetVerdict(f: J.JiraFacts, project: Uuid, targetType: string, target: Uuid)
    ensures var subject, fault := J.FindSubject(f, targetType, target),
            FirstFault(TargetFaults(f, project, targetType, target));
            && (fault.None? ==> subject == Ok(J.Subject(RunOf(f, targetType, target), EvidenceOf(f, targetType, target),
                                                        FailuresOf(f, targetType, target)))
                                && J.CheckRun(f, subject.value.testRun, project).None?)
            && (fault.Some? ==> (fault.value.audited <==> fault.value.error == StateConsumed)
                                && (if subject.Err? then subject.error == fault.value.error
                                    else J.CheckRun(f, subject.value.testRun, project) == Some(fault.value.error)))
  {
    var faults := TargetFaults(f, project, targetType, target);
    FirstFaultIsFirst(faults);
    var subject := J.FindSubject(f, targetType, target);
    if subject == Err(Validation) {
      assert IsFirst(faults, 0);
    } else if subject.Err? {
      assert IsFirst(faults, 1);
    } else if J.CheckRun(f, subject.value.testRun, project) == Some(NotFound) {
      assert IsFirst(faults, 2);
    } else if J.CheckRun(f, subject.value.testRun, project).Some? {
      assert IsFirst(faults, 3);
    } else {
      assert forall i | 0 <= i < |faults| :: !faults[i].present;
    }
  }

  /** The text under a key, when there is one that is not blank. */
  predicate HasText(f: J.JiraFacts, payload: Payload, key: string) {
    key in payload && payload[key] != Null && !IsBlank(PyStr(f.repr, payload[key]))
  }

  function TextFaults(f: J.JiraFacts, project: Uuid, payload: Payload): seq<Fault> {
    [Quiet(!HasText(f, payload, "summary") && !HasText(f, payload, "description")
           && !HasText(f, payload, "repro_steps"),
           Validation),
     Quiet(!HasText(f, payload, "jira_project") && !(project in f.projectKeys && !IsBlank(f.projectKeys[project])),
           Validation)]
  }

  lemma {:induction false} HasTextOrNot(f: J.JiraFacts, payload: Payload, key: string)
    ensures HasText(f, payload, key) <==> J.TextField(f, payload, key) != []
  {
    if key in payload {
      BlankStripsToNothing(PyStr(f.repr, payload[key]));
    }
  }

  lemma {:induction false} TextVerdict(f: J.JiraFacts, project: Uuid, payload: Payload)
    ensures var t, key, fault := J.ReadTexts(f, payload), J.ProjectKey(f, project),
            FirstFault(TextFaults(f, project, payload));
            && (fault.None? <==>
                (t.summary != [] || t.description != [] || t.repro != []) && (t.jiraProject != [] || key != []))
            && (fault.Some? ==> fault.value == Quiet(true, Validation))
  {
    var faults := TextFaults(f, project, payload);
    FirstFaultIsFirst(faults);
    HasTextOrNot(f, payload, "summary");
    HasTextOrNot(f, payload, "description");
    HasTextOrNot(f, payload, "repro_steps");
    HasTextOrNot(f, payload, "jira_project");
    if project in f.projectKeys {
      BlankStripsToNothing(f.projectKeys[project]);
    }
    if faults[0].present {
      assert IsFirst(faults, 0);
    } else if faults[1].present {
      assert IsFirst(faults, 1);
    } else {
      assert forall i | 0 <= i < |faults| :: !faults[i].present;
    }
  }

  /** The payload gives a list of evidence, or something else in its place. */
  predicate GivesEvidence(payload: Payload) {
    "evidence_ids" in payload && payload["evidence_ids"] != Null
  }

  /** Some entry of the list is not a UUID, or what is given is no list. */
  ghost predicate IsUnreadable(f: J.JiraFacts, raw: Json) {
    !raw.Arr? || exists item | item in raw.items :: ParseUuid(PyStr(f.repr, item)).None?
  }

  /** The evidence attached: what the payload lists, or all the target refers to when it lists nothing. */
  ghost predicate Attaches(f: J.JiraFacts, refs: seq<Uuid>, payload: Payload, id: Uuid) {
    if !GivesEvidence(payload) || payload["evidence_ids"] == Arr([]) then id in refs
    else
      payload["evidence_ids"].Arr?
      && exists item | item in payload["evidence_ids"].items :: ParseUuid(PyStr(f.repr, item)) == Some(id)
  }

  /** The evidence is about the target or one of its failures, or the target refers to it. */
  predicate IsAbout(e: J.Evidence, id: Uuid, refs: seq<Uuid>, failures: seq<Uuid>, target: Uuid) {
    || (e.subjectType == "failure_cluster" && e.subjectId == target)
    || (e.subjectType == "case_result" && e.subjectId == target)
    || (e.subjectType == "case_result" && e.subjectId in failures)
    || id in refs
  }

  ghost function EvidenceFaults(
      f: J.JiraFacts, refs: seq<Uuid>, failures: seq<Uuid>, target: Uuid, payload: Payload): seq<Fault> {
    [Quiet(GivesEvidence(payload) && IsUnreadable(f, payload["evidence_ids"]), Validation),
     Quiet(GivesEvidence(payload) && payload["evidence_ids"] == Arr([]) && !NoDuplicates(refs), Validation)]
    + SetFaults(f, refs, failures, target, iset id: Uuid | Attaches(f, refs, payload, id))
  }

  ghost function SetFaults(
      f: J.JiraFacts, refs: seq<Uuid>, failures: seq<Uuid>, target: Uuid, attached: iset<Uuid>): seq<Fault> {
    [Quiet(exists id | id in attached :: id !in f.evidence, Validation),
     Loud(exists id | id in attached :: id in f.evidence && f.evidence[id].restricted, PolicyDeny),
     Quiet(exists id | id in attached :: id in f.evidence && !IsAbout(f.evidence[id], id, refs, failures, target),
           Validation)]
  }

  lemma {:induction false} SetVerdict(f: J.JiraFacts, subject: J.Subject, target: Uuid, ids: set<Uuid>,
                                      attached: iset<Uuid>)
    requires forall id :: id in ids <==> id in attached
    ensures var r := J.CheckEvidence(f, subject, target, ids);
            var fault := FirstFault(SetFaults(f, subject.evidenceRefs, subject.failureRefs, target, attached));
            && r == (if fault.Some? then Some(fault.value.error) else None)
            && (fault.Some? ==> (fault.value.audited <==> fault.value.error == PolicyDeny))
  {
    var faults := SetFaults(f, subject.evidenceRefs, subject.failureRefs, target, attached);
    FirstFaultIsFirst(faults);
    if !(ids <= f.evidence.Keys) {
      assert IsFirst(faults, 0);
    } else if exists id | id in ids :: f.evidence[id].restricted {
      assert IsFirst(faults, 1);
    } else if exists id | id in ids :: !J.Belongs(f, subject, target, id) {
      assert IsFirst(faults, 2);
    } else {
      assert forall i | 0 <= i < |faults| :: !faults[i].present;
    }
  }

  lemma {:induction false} ReadableList(f: J.JiraFacts, items: seq<Json>)
    ensures var r := J.ParseIds(f, items);
            && (r.Ok? <==> !IsUnreadable(f, Arr(items))) && (r.Err? ==> r.error == Validation)
  {
    if items != [] {
      ReadableList(f, items[1..]);
      assert forall item :: item in items <==> item == items[0] || item in items[1..];
    }
  }

  lemma {:induction false} ListedIds(f: J.JiraFacts, items: seq<Json>, id: Uuid)
    requires J.ParseIds(f, items).Ok?
    ensures id in J.ParseIds(f, items).value <==> exists item | item in items ::
              ParseUuid(PyStr(f.repr, item)) == Some(id)
  {
    var parsed := J.ParseIds(f, items).value;
    J.ParsedOneByOne(f, items);
    if id in parsed {
      var i :| 0 <= i < |parsed| && parsed[i] == id;
      assert J.Names(f, items[i], parsed[i]);
      assert items[i] in items;
    }
    if item :| item in items && ParseUuid(PyStr(f.repr, item)) == Some(id) {
      var i :| 0 <= i < |items| && items[i] == item;
      assert J.Names(f, items[i], parsed[i]);
    }
  }

  lemma {:induction false} RequestedAreAttached(f: J.JiraFacts, refs: seq<Uuid>, payload: Payload)
    requires J.RequestedIds(f, refs, payload).Ok?
    ensures var asked := Members(J.RequestedIds(f, refs, payload).value);
            var fallback := asked == {} && refs != [];
            && (fallback <==> GivesEvidence(payload) && payload["evidence_ids"] == Arr([]) && refs != [])
            && forall id :: id in (if fallback then Members(refs) else asked) <==> Attaches(f, refs, payload, id)
  {
    var requested := J.RequestedIds(f, refs, payload).value;
    J.NoMembers(requested);
    if GivesEvidence(payload) {
      var items := payload["evidence_ids"].items;
      forall id: Uuid ensures id in requested <==> exists item | item in items ::
          ParseUuid(PyStr(f.repr, item)) == Some(id) {
        ListedIds(f, items, id);
      }
    }
  }

  lemma {:induction false} EvidenceVerdict(f: J.JiraFacts, subject: J.Subject, target: Uuid, payload: Payload)
    ensures var r := J.EvidenceSet(f, subject, target, payload);
            var fault := FirstFault(EvidenceFaults(f, subject.evidenceRefs, subject.failureRefs, target, payload));
            && (fault.None? ==> r.Ok? && forall id :: id in r.value <==> Attaches(f, subject.evidenceRefs, payload, id))
            && (fault.Some? ==>
                r == Err(fault.value.error) && (fault.value.audited <==> fault.value.error == PolicyDeny))
  {
    var refs := subject.evidenceRefs;
    var faults := EvidenceFaults(f, refs, subject.failureRefs, target, payload);
    var attached := iset id: Uuid | Attaches(f, refs, payload, id);
    var more := SetFaults(f, refs, subject.failureRefs, target, attached);
    var front := faults[..2];
    assert faults == front + more;
    FirstFaultJoin(front, more);
    FirstFaultIsFirst(front);
    if GivesEvidence(payload) && payload["evidence_ids"].Arr? {
      ReadableList(f, payload["evidence_ids"].items);
    }
    if J.RequestedIds(f, refs, payload).Err? {
      assert IsFirst(front, 0);
    } else {
      RequestedAreAttached(f, refs, payload);
      DistinctCount(refs);
      var asked := Members(J.RequestedIds(f, refs, payload).value);
      var fallback := asked == {} && refs != [];
      var ids := if fallback then Members(refs) else asked;
      if fallback && |ids| != |refs| {
        assert IsFirst(front, 1);
      } else {
        assert forall i | 0 <= i < |front| :: !front[i].present;
        SetVerdict(f, subject, target, ids, attached);
      }
    }
  }

  ghost function JiraFaults(
      f: J.JiraFacts, project: Uuid, targetType: string, target: Uuid, payload: Payload): seq<Fault> {
    TargetFaults(f, project, targetType, target)
    + (TextFaults(f, project, payload)
       + EvidenceFaults(f, EvidenceOf(f, targetType, target), FailuresOf(f, targetType, target), target, payload))
  }

  /** A jira write's check fails with the first fault, and otherwise gives a payload. */
  lemma {:induction false} JiraVerdict(f: J.JiraFacts, project: Uuid, targetType: string, target: Uuid,
                                       payload: Payload)
    ensures var r := J.Normalise(f, project, targetType, target, payload);
            var fault := FirstFault(JiraFaults(f, project, targetType, target, payload));
            && (fault.None? ==> r.Ok?)
            && (fault.Some? ==> r == Err(fault.value.error)
                                && (fault.value.audited <==> r.error == StateConsumed || r.error == PolicyDeny))
  {
    var refs, failures := EvidenceOf(f, targetType, target), FailuresOf(f, targetType, target);
    var texts, evidence := TextFaults(f, project, payload), EvidenceFaults(f, refs, failures, target, payload);
    FirstFaultJoin(TargetFaults(f, project, targetType, target), texts + evidence);
    FirstFaultJoin(texts, evidence);
    TargetVerdict(f, project, targetType, target);
    TextVerdict(f, project, payload);
    var subject := J.FindSubject(f, targetType, target);
    if subject.Ok? {
      EvidenceVerdict(f, subject.value, target, payload);
      EvidenceErrors(f, subject.value, target, payload);
    }
  }

  lemma {:induction false} EvidenceErrors(f: J.JiraFacts, subject: J.Subject, target: Uuid, payload: Payload)
    ensures var r := J.EvidenceSet(f, subject, target, payload);
            r.Err? ==> r.error == Validation || r.error == PolicyDeny
  {
    if GivesEvidence(payload) && payload["evidence_ids"].Arr? {
      ReadableList(f, payload["evidence_ids"].items);
    }
  }

  function TextUnder(f: J.JiraFacts, payload: Payload, key: string): string {
    if HasText(f, payload, key) then Strip(PyStr(f.repr, payload[key])) else ""
  }

  lemma {:induction false} TextUnderKey(f: J.JiraFacts, payload: Payload, key: string)
    ensures TextUnder(f, payload, key) == J.TextField(f, payload, key)
  {
    HasTextOrNot(f, payload, key);
  }

  /** The description sent, or the summary, or the steps, whichever comes first. */
  function DescriptionOf(f: J.JiraFacts, payload: Payload): string {
    TextUnder(f, payload,
              if HasText(f, payload, "description") then "description"
              else if HasText(f, payload, "summary") then "summary" else "repro_steps")
  }

  /** The project named, or that of the project's settings. */
  function JiraProjectOf(f: J.JiraFacts, project: Uuid, payload: Payload): string {
    if HasText(f, payload, "jira_project") then TextUnder(f, payload, "jira_project")
    else if project in f.projectKeys then Strip(f.projectKeys[project])
    else ""
  }

  /** What is stored: description, steps, project, and the evidence attached, its texts in ascending order. */
  lemma {:induction false} JiraPayloadVerdict(
      f: J.JiraFacts, project: Uuid, targetType: string, target: Uuid, payload: Payload) returns (texts: seq<string>)
    requires FirstFault(JiraFaults(f, project, targetType, target, payload)).None?
    ensures J.Normalise(f, project, targetType, target, payload) ==
              Ok(map[J.FIELDS.description := Str(DescriptionOf(f, payload)),
                     J.FIELDS.repro := Str(TextUnder(f, payload, "repro_steps")),
                     J.FIELDS.project := Str(JiraProjectOf(f, project, payload)),
                     J.FIELDS.evidence := Arr(J.Strings(texts))])
    ensures StrictlyAscending(texts) && TextsOfAttached(texts, f, EvidenceOf(f, targetType, target), payload)
  {
    var refs, failures := EvidenceOf(f, targetType, target), FailuresOf(f, targetType, target);
    var written, evidence := TextFaults(f, project, payload), EvidenceFaults(f, refs, failures, target, payload);
    FirstFaultJoin(TargetFaults(f, project, targetType, target), written + evidence);
    FirstFaultJoin(written, evidence);
    TargetVerdict(f, project, targetType, target);
    TextVerdict(f, project, payload);
    EvidenceVerdict(f, J.FindSubject(f, targetType, target).value, target, payload);
    var ids := J.EvidenceSet(f, J.FindSubject(f, targetType, target).value, target, payload).value;
    texts := Listing(J.TextsOf(ids));
    ListedTexts(ids, texts, f, refs, payload);
    WrittenTexts(f, project, payload, ids);
  }

  lemma {:induction false} TextIsListed(ids: set<Uuid>, id: Uuid)
    ensures UuidText(id) in J.TextsOf(ids) <==> id in ids
  {
    if UuidText(id) in J.TextsOf(ids) {
      var other :| other in ids && UuidText(other) == UuidText(id);
      ParseText(id);
      ParseText(other);
    }
  }

  /** The texts are those of exactly the ids attached. */
  ghost predicate TextsOfAttached(texts: seq<string>, f: J.JiraFacts, refs: seq<Uuid>, payload: Payload) {
    && (forall id: Uuid :: UuidText(id) in texts <==> Attaches(f, refs, payload, id))
    && (forall t | t in texts :: exists id: Uuid :: UuidText(id) == t)
  }

  lemma {:induction false} ListedTexts(
      ids: set<Uuid>, texts: seq<string>, f: J.JiraFacts, refs: seq<Uuid>, payload: Payload)
    requires texts == Listing(J.TextsOf(ids)) && forall id :: id in ids <==> Attaches(f, refs, payload, id)
    ensures TextsOfAttached(texts, f, refs, payload)
  {
    SameMembers(texts, J.TextsOf(ids));
    forall id: Uuid ensures UuidText(id) in texts <==> Attaches(f, refs, payload, id) {
      TextIsListed(ids, id);
    }
    forall t | t in texts ensures exists id: Uuid :: UuidText(id) == t {
      assert t in J.TextsOf(ids);
    }
  }

  lemma {:induction false} WrittenTexts(f: J.JiraFacts, project: Uuid, payload: Payload, ids: set<Uuid>)
    ensures var t := J.ReadTexts(f, payload);
            && J.FirstNonEmpty(t.description, t.summary, t.repro) == DescriptionOf(f, payload)
            && t.repro == TextUnder(f, payload, "repro_steps")
            && (if t.jiraProject != [] then t.jiraProject else J.ProjectKey(f, project)) ==
                 JiraProjectOf(f, project, payload)
  {
    TextUnderKey(f, payload, "summary");
    TextUnderKey(f, payload, "description");
    TextUnderKey(f, payload, "repro_steps");
    TextUnderKey(f, payload, "jira_project");
    HasTextOrNot(f, payload, "summary");
    HasTextOrNot(f, payload, "description");
    HasTextOrNot(f, payload, "jira_project");
  }

  // ---- The whole preview ----

  ghost function ScopeFaults(c: Caller, x: PreviewRequest): seq<Fault> {
    var somewhere := x.project.Some?;
    [Quiet(x.action in {JiraWrite, HealApply, PerfHighRisk, ReleasePush, EnvRegister, AgentToolAction, GateWaiver}
           && !somewhere, Validation),
     Quiet(x.action == KillSwitchRestore && somewhere, Validation),
     Quiet(!somewhere && !HasRow(c.dir, c.user, None, {Owner, Admin, Tester}), Forbidden),
     Quiet(somewhere && x.project.value !in c.dir.projects, NotFound),
     Quiet(somewhere && !HasRow(c.dir, c.user, x.project, ANY), NotFound),
     Quiet(somewhere && HasRole(c.dir, c.user, x.project.value, {Viewer}), Forbidden),
     Quiet(somewhere && x.action == GateWaiver && !HasRole(c.dir, c.user, x.project.value, {Owner, Admin}), Forbidden)]
  }

  ghost function GateFaults(c: Caller, x: PreviewRequest): seq<Fault> {
    var high := HasLevel(x.action, x.payload, L3) || HasLevel(x.action, x.payload, L4);
    [Loud(x.action == CopilotWrite, StateConsumed),
     Loud(x.action == PerfHighRisk || !exists l :: HasLevel(x.action, x.payload, l), PolicyUndeclared),
     Loud(high && c.reauthRequired, Error.RequireReauth)]
  }

  ghost function CheckFaults(x: PreviewRequest, f: PreviewFacts): seq<Fault> {
    match x.action
    case HealApply =>
      [Quiet(x.targetType != "test_case", Validation)] + HealFaults(f.heal, x.targetId, x.payload, x.targetVersion)
    case JiraWrite =>
      if x.project.None? then [Quiet(true, Validation)]
      else JiraFaults(f.jira, x.project.value, x.targetType, x.targetId, x.payload)
    case GateWaiver => WaiverFaults(f, x)
    case _ => []
  }

  /** The level asks for an approval. */
  predicate NeedsApproval(x: PreviewRequest) {
    HasLevel(x.action, x.payload, L2) || HasLevel(x.action, x.payload, L3) || HasLevel(x.action, x.payload, L4)
  }

  ghost function ApproverFaults(c: Caller, x: PreviewRequest): seq<Fault> {
    [Loud(NeedsApproval(x) && !HasApprover(c.dir, x.project, c.user), StateConsumed)]
  }

  ghost function PreviewFaults(c: Caller, x: PreviewRequest, f: PreviewFacts): seq<Fault> {
    ScopeFaults(c, x) + (GateFaults(c, x) + (CheckFaults(x, f) + ApproverFaults(c, x)))
  }

  lemma {:induction false} ScopeVerdict(c: Caller, x: PreviewRequest)
    ensures var r, fault := CheckScope(c, x), FirstFault(ScopeFaults(c, x));
            && r == (if fault.Some? then Some(fault.value.error) else None)
            && (fault.Some? ==> !fault.value.audited)
  {
    var faults := ScopeFaults(c, x);
    FirstFaultIsFirst(faults);
    RowsTell(c.dir, c.user);
    if x.project.Some? {
      ProjectRowsTell(c.dir, c.user, x.project.value);
      ScopedVerdict(c, x);
    } else if ProjectScoped(x.action) {
      assert IsFirst(faults, 0);
    } else if !HasNonViewerRole(c.dir, c.user) {
      assert IsFirst(faults, 2);
    } else {
      assert forall i | 0 <= i < |faults| :: !faults[i].present;
    }
  }

  lemma {:induction false} ScopedVerdict(c: Caller, x: PreviewRequest)
    requires x.project.Some?
    ensures var r, fault := CheckScope(c, x), FirstFault(ScopeFaults(c, x));
            && r == (if fault.Some? then Some(fault.value.error) else None)
            && (fault.Some? ==> !fault.value.audited)
  {
    var faults, role := ScopeFaults(c, x), RoleIn(c.dir.members, x.project.value, c.user);
    FirstFaultIsFirst(faults);
    ProjectRowsTell(c.dir, c.user, x.project.value);
    if OrgScoped(x.action) {
      assert IsFirst(faults, 1);
    } else if x.project.value !in c.dir.projects {
      assert IsFirst(faults, 3);
    } else if role.None? {
      assert IsFirst(faults, 4);
    } else if role.value.Viewer? {
      assert IsFirst(faults, 5);
    } else if x.action.GateWaiver? && !IsOwnerAdmin(role.value) {
      assert IsFirst(faults, 6);
    } else {
      assert forall i | 0 <= i < |faults| :: !faults[i].present;
    }
  }

  lemma {:induction false} GateVerdict(c: Caller, x: PreviewRequest)
    ensures var e, fault := EvaluateGate(x.action, x.payload, c.reauthRequired), FirstFault(GateFaults(c, x));
            && (fault.None? <==> e.gate.Allow? || e.gate.RequireApproval?)
            && (e.gate.Deny? ==>
                  fault == Some(Loud(true, if e.denyReason == Some(DenyState) then StateConsumed
                                     else PolicyUndeclared)))
            && (e.gate.RequireReauth? ==> fault == Some(Loud(true, Error.RequireReauth)))
            && (fault.None? ==> (e.gate.RequireApproval? <==> NeedsApproval(x)))
  {
    var faults, e := GateFaults(c, x), EvaluateGate(x.action, x.payload, c.reauthRequired);
    FirstFaultIsFirst(faults);
    GateIsDecidedByLevel(x.action, x.payload, c.reauthRequired);
    if e.gate.Deny? {
      assert if x.action.CopilotWrite? then IsFirst(faults, 0) else IsFirst(faults, 1);
    } else if e.gate.RequireReauth? {
      assert IsFirst(faults, 2);
    } else {
      assert forall i | 0 <= i < |faults| :: !faults[i].present;
    }
  }

  lemma {:induction false} CheckVerdict(x: PreviewRequest, f: PreviewFacts)
    ensures var r, fault := CheckAction(f, x), FirstFault(CheckFaults(x, f));
            && (fault.None? ==> r.Checked?)
            && (fault.Some? ==> r == Unfit(fault.value.error, fault.value.audited))
  {
    match x.action
    case HealApply =>
      HealVerdict(f.heal, x.targetId, x.payload, x.targetVersion);
      FirstFaultJoin([Quiet(x.targetType != "test_case", Validation)],
                     HealFaults(f.heal, x.targetId, x.payload, x.targetVersion));
    case JiraWrite =>
      if x.project.Some? {
        JiraVerdict(f.jira, x.project.value, x.targetType, x.targetId, x.payload);
      }
    case GateWaiver => WaiverVerdict(f, x);
    case _ =>
  }

  ghost predicate Refuses(v: Verdict, fault: Option<Fault>) {
    match fault
    case None => v.Accepted?
    case Some(first) => v == Refused(first.error, first.audited)
  }

  lemma {:induction false} JudgedPreview(c: Caller, x: PreviewRequest, f: PreviewFacts)
    ensures Refuses(JudgePreview(c, x, f), FirstFault(PreviewFaults(c, x, f)))
  {
    FirstFaultJoin(ScopeFaults(c, x), GateFaults(c, x) + (CheckFaults(x, f) + ApproverFaults(c, x)));
    FirstFaultJoin(GateFaults(c, x), CheckFaults(x, f) + ApproverFaults(c, x));
    FirstFaultJoin(CheckFaults(x, f), ApproverFaults(c, x));
    ScopeVerdict(c, x);
    GateVerdict(c, x);
    CheckVerdict(x, f);
    ApproversAreRows(c.dir, x.project, c.user);
    FirstFaultIsFirst(ApproverFaults(c, x));
  }

  /**
    * Any preview that is no replay: it is answered exactly when nothing is wrong, and otherwise refused for the first
    * thing that is, with one failed audit entry or none, and nothing else is left behind.
    */
  lemma {:induction false} PreviewVerdict(
      h: Hasher, ttl: int, s: State, now: Stamp, c: Caller, x: PreviewRequest, f: PreviewFacts, previewId: Uuid,
      id: Uuid)
    requires Replay(s, ActionPreviewCommand, x.key, x.hash).None?
    ensures var (t, r) := Preview(h, ttl, s, now, c, x, f, previewId, id);
            var fault := FirstFault(PreviewFaults(c, x, f));
            && Obeys(r, PreviewFaults(c, x, f))
            && (fault.Some? ==>
                t.audit == s.audit + LeftBehind(fault.value, c, x, previewId) && t == s.(audit := t.audit))
  {
    JudgedPreview(c, x, f);
  }

  function LeftBehind(fault: Fault, c: Caller, x: PreviewRequest, previewId: Uuid): seq<AuditEntry> {
    if fault.audited then [AuditEntry(AuditPreview, previewId, c.user, x.project, Some(x.hash), false)] else []
  }
}
