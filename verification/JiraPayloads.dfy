/** Normalisation of a jira_write payload: what is hashed and stored instead of what the caller sent. */
module JiraPayloads {
  import opened Prelude
  import opened Text
  import opened Json
  import opened PyValues
  import opened Uuids
  import opened Params

  datatype Cluster = Cluster(testRun: Option<Uuid>, evidenceRefs: seq<Uuid>, failureRefs: seq<Uuid>)
  datatype Run = Run(project: Uuid, failed: bool)
  datatype Evidence = Evidence(restricted: bool, subjectType: string, subjectId: Uuid)

  /** The rows of other modules the check looks up, and how Python prints containers. */
  datatype JiraFacts = JiraFacts(
    repr: Json -> string,
    clusters: map<Uuid, Cluster>,
    caseRuns: map<Uuid, Option<Uuid>>,
    runs: map<Uuid, Run>,
    projectKeys: map<Uuid, string>,
    evidence: map<Uuid, Evidence>)

  datatype FieldNames = FieldNames(summary: string, description: string, repro: string, project: string,
                                   evidence: string)

  const FIELDS := FieldNames("summary", "description", "repro_steps", "jira_project", "evidence_ids")

  predicate DistinctNames(k: FieldNames) {
    && k.summary !in {k.description, k.repro, k.project, k.evidence}
    && k.description !in {k.repro, k.project, k.evidence}
    && k.repro !in {k.project, k.evidence}
    && k.project != k.evidence
  }

  lemma {:induction false} FieldNamesDiffer()
    ensures DistinctNames(FIELDS)
  {
    assert |FIELDS.summary| == 7 && |FIELDS.description| == |FIELDS.repro| == 11;
    assert |FIELDS.project| == |FIELDS.evidence| == 12;
    assert FIELDS.description[0] == 'd' && FIELDS.repro[0] == 'r' && FIELDS.project[0] == 'j'
           && FIELDS.evidence[0] == 'e';
  }

  // ---- The object a defect is written for ----

  datatype Subject = Subject(testRun: Option<Uuid>, evidenceRefs: seq<Uuid>, failureRefs: seq<Uuid>)

  function FindSubject(facts: JiraFacts, targetType: string, target: Uuid): Result<Subject> {
    if targetType == "failure_cluster" then
      if target !in facts.clusters then Err(NotFound)
      else
        var c := facts.clusters[target];
        Ok(Subject(c.testRun, c.evidenceRefs, c.failureRefs))
    else if targetType == "case_result" then
      if target !in facts.caseRuns then Err(NotFound) else Ok(Subject(facts.caseRuns[target], [], []))
    else Err(Validation)
  }

  /** The run must exist, belong to the project and have failed. */
  function CheckRun(facts: JiraFacts, run: Option<Uuid>, project: Uuid): Option<Error> {
    if run.None? || run.value !in facts.runs || facts.runs[run.value].project != project then Some(NotFound)
    else if !facts.runs[run.value].failed then Some(StateConsumed)
    else None
  }

  // ---- Texts ----

  function TextField(facts: JiraFacts, payload: Payload, key: string): string {
    var raw := Get(payload, key);
    if raw.Null? then "" else Strip(PyStr(facts.repr, raw))
  }

  /** get_project_jira_project_key. */
  function ProjectKey(facts: JiraFacts, project: Uuid): string {
    if project in facts.projectKeys then Strip(facts.projectKeys[project]) else ""
  }

  // ---- Evidence ids ----

  function ParseIds(facts: JiraFacts, items: seq<Json>): (r: Result<seq<Uuid>>)
    ensures r.Ok? ==> |r.value| == |items|
  {
    if items == [] then Ok([])
    else
      var id, rest := ParseUuid(PyStr(facts.repr, items[0])), ParseIds(facts, items[1..]);
      if id.None? || rest.Err? then Err(Validation) else Ok([id.value] + rest.value)
  }

  /** The ids asked for: those of the payload, or those of the cluster when the payload has no list. */
  function RequestedIds(facts: JiraFacts, refs: seq<Uuid>, payload: Payload): Result<seq<Uuid>> {
    var raw := Get(payload, FIELDS.evidence);
    if raw.Null? then Ok(refs)
    else if !raw.Arr? then Err(Validation)
    else ParseIds(facts, raw.items)
  }

  /** Some subject of the evidence is the target or one of its failures, or the cluster refers to it. */
  predicate Belongs(facts: JiraFacts, subject: Subject, target: Uuid, id: Uuid)
    requires id in facts.evidence
  {
    var e := facts.evidence[id];
    || (e.subjectType == "failure_cluster" && e.subjectId == target)
    || (e.subjectType == "case_result" && (e.subjectId == target || e.subjectId in subject.failureRefs))
    || id in subject.evidenceRefs
  }

  /** What is wrong with a set of evidence ids. */
  function CheckEvidence(facts: JiraFacts, subject: Subject, target: Uuid, ids: set<Uuid>): Option<Error> {
    if !(ids <= facts.evidence.Keys) then Some(Validation)
    else if exists id | id in ids :: facts.evidence[id].restricted then Some(PolicyDeny)
    else if exists id | id in ids :: !Belongs(facts, subject, target, id) then Some(Validation)
    else None
  }

  /**
    * The set of evidence ids to attach.  When the caller's list is empty the cluster's own references are
    * taken as they are, and a repeated reference makes the row count differ from the list.
    */
  function EvidenceSet(facts: JiraFacts, subject: Subject, target: Uuid, payload: Payload): Result<set<Uuid>> {
    match RequestedIds(facts, subject.evidenceRefs, payload)
    case Err(e) => Err(e)
    case Ok(requested) =>
      var asked := Members(requested);
      var fallback := asked == {} && subject.evidenceRefs != [];
      var ids := if fallback then Members(subject.evidenceRefs) else asked;
      if fallback && |ids| != |subject.evidenceRefs| then Err(Validation)
      else
        var wrong := CheckEvidence(facts, subject, target, ids);
        if wrong.Some? then Err(wrong.value) else Ok(ids)
  }

  function TextsOf(ids: set<Uuid>): set<string> {
    set id | id in ids :: UuidText(id)
  }

  /** The normalised payload. */
  function JiraPayload(k: FieldNames, description: string, repro: string, project: string, ids: set<Uuid>): Payload {
    map[k.description := Str(description),
        k.repro := Str(repro),
        k.project := Str(project),
        k.evidence := Arr(Strings(Listing(TextsOf(ids))))]
  }

  function Strings(texts: seq<string>): (r: seq<Json>)
    ensures |r| == |texts|
  {
    seq(|texts|, i requires 0 <= i < |texts| => Str(texts[i]))
  }

  function FirstNonEmpty(a: string, b: string, c: string): string {
    if a != [] then a else if b != [] then b else c
  }

  datatype Texts = Texts(summary: string, description: string, repro: string, jiraProject: string)

  function ReadTexts(facts: JiraFacts, payload: Payload): Texts {
    Texts(TextField(facts, payload, FIELDS.summary), TextField(facts, payload, FIELDS.description),
          TextField(facts, payload, FIELDS.repro), TextField(facts, payload, FIELDS.project))
  }

  /** The answer once the run is known to be right. */
  function Compose(t: Texts, projectKey: string, evidence: Result<set<Uuid>>): Result<Payload> {
    var jiraProject := if t.jiraProject != [] then t.jiraProject else projectKey;
    if t.summary == [] && t.description == [] && t.repro == [] then Err(Validation)
    else if jiraProject == [] then Err(Validation)
    else if evidence.Err? then Err(evidence.error)
    else Ok(JiraPayload(FIELDS, FirstNonEmpty(t.description, t.summary, t.repro), t.repro, jiraProject, evidence.value))
  }

  /** _validate_jira_write_preview. */
  function Normalise(facts: JiraFacts, project: Uuid, targetType: string, target: Uuid, payload: Payload)
    : Result<Payload>
  {
    match FindSubject(facts, targetType, target)
    case Err(e) => Err(e)
    case Ok(subject) =>
      match CheckRun(facts, subject.testRun, project)
      case Some(e) => Err(e)
      case None =>
        Compose(ReadTexts(facts, payload), ProjectKey(facts, project), EvidenceSet(facts, subject, target, payload))
  }

  // ---- Only the set of evidence ids matters ----

  /** Everything but the evidence list is the same. */
  ghost predicate SameButEvidence(p: Payload, q: Payload) {
    && Get(p, FIELDS.summary) == Get(q, FIELDS.summary) && Get(p, FIELDS.description) == Get(q, FIELDS.description)
    && Get(p, FIELDS.repro) == Get(q, FIELDS.repro) && Get(p, FIELDS.project) == Get(q, FIELDS.project)
  }

  /** The payload has a list that names exactly these ids. */
  ghost predicate NamesIds(facts: JiraFacts, payload: Payload, ids: set<Uuid>) {
    var raw := Get(payload, FIELDS.evidence);
    raw.Arr? && ListNamesIds(facts, raw.items, ids)
  }

  /** The items name exactly these ids, in whatever order, repetition and letter case. */
  ghost predicate ListNamesIds(facts: JiraFacts, items: seq<Json>, ids: set<Uuid>) {
    && (forall i :: 0 <= i < |items| ==> NamesOneOf(facts, items[i], ids))
    && (forall id | id in ids :: exists i :: 0 <= i < |items| && Names(facts, items[i], id))
  }

  ghost predicate Names(facts: JiraFacts, item: Json, id: Uuid) {
    ParseUuid(PyStr(facts.repr, item)) == Some(id)
  }

  ghost predicate NamesOneOf(facts: JiraFacts, item: Json, ids: set<Uuid>) {
    var id := ParseUuid(PyStr(facts.repr, item));
    id.Some? && id.value in ids
  }

  lemma {:induction false} ParsedIds(facts: JiraFacts, items: seq<Json>, ids: set<Uuid>)
    requires forall i :: 0 <= i < |items| ==> NamesOneOf(facts, items[i], ids)
    ensures var r := ParseIds(facts, items);
            r.Ok? && forall i :: 0 <= i < |items| ==> Some(r.value[i]) == ParseUuid(PyStr(facts.repr, items[i]))
  {
    if items != [] {
      assert NamesOneOf(facts, items[0], ids);
      forall i | 0 <= i < |items[1..]| ensures NamesOneOf(facts, items[1..][i], ids) {
        assert NamesOneOf(facts, items[i + 1], ids);
      }
      ParsedIds(facts, items[1..], ids);
    }
  }

  lemma {:induction false} RequestedSet(facts: JiraFacts, refs: seq<Uuid>, payload: Payload, ids: set<Uuid>)
    requires NamesIds(facts, payload, ids)
    ensures var r := RequestedIds(facts, refs, payload); r.Ok? && Members(r.value) == ids
  {
    var items := Get(payload, FIELDS.evidence).items;
    ParsedIds(facts, items, ids);
    var parsed := ParseIds(facts, items).value;
    forall id ensures id in parsed <==> id in ids {
      if id in parsed {
        var i :| 0 <= i < |parsed| && parsed[i] == id;
        assert NamesOneOf(facts, items[i], ids);
      }
      if id in ids {
        var i :| 0 <= i < |items| && Names(facts, items[i], id);
        assert parsed[i] == id;
      }
    }
  }

  lemma {:induction false} SameEvidenceSet(
      facts: JiraFacts, subject: Subject, target: Uuid, p: Payload, q: Payload, ids: set<Uuid>)
    requires NamesIds(facts, p, ids) && NamesIds(facts, q, ids)
    ensures EvidenceSet(facts, subject, target, p) == EvidenceSet(facts, subject, target, q)
  {
    RequestedSet(facts, subject.evidenceRefs, p, ids);
    RequestedSet(facts, subject.evidenceRefs, q, ids);
  }

  /** Two payloads naming the same evidence have the same outcome, hence the same parameter hash. */
  lemma {:induction false} OnlyTheEvidenceSetMatters(
      facts: JiraFacts, project: Uuid, targetType: string, target: Uuid, p: Payload, q: Payload, ids: set<Uuid>)
    requires SameButEvidence(p, q) && NamesIds(facts, p, ids) && NamesIds(facts, q, ids)
    ensures Normalise(facts, project, targetType, target, p) == Normalise(facts, project, targetType, target, q)
  {
    assert ReadTexts(facts, p) == ReadTexts(facts, q);
    forall subject: Subject {
      SameEvidenceSet(facts, subject, target, p, q, ids);
    }
  }

  /** A text that differs from str(uuid) only in letter case names that id. */
  lemma {:induction false} LetterCaseDoesNotMatter(facts: JiraFacts, id: Uuid, text: string, ids: set<Uuid>)
    requires SameUpToCase(text, UuidText(id)) && id in ids
    ensures NamesOneOf(facts, Str(text), ids) && Names(facts, Str(text), id)
  {
    ParseCasedText(id, text);
  }

  // ---- The result is canonical ----

  lemma {:induction false} PayloadLookups(
      k: FieldNames, description: string, repro: string, project: string, ids: set<Uuid>)
    requires DistinctNames(k)
    ensures var q := JiraPayload(k, description, repro, project, ids);
            && Get(q, k.summary) == Null && Get(q, k.description) == Str(description) && Get(q, k.repro) == Str(repro)
            && Get(q, k.project) == Str(project) && Get(q, k.evidence) == Arr(Strings(Listing(TextsOf(ids))))
  {
  }

  lemma {:induction false} TextNamesId(facts: JiraFacts, id: Uuid)
    ensures Names(facts, Str(UuidText(id)), id)
  {
    ParseText(id);
  }

  lemma {:induction false} TextsNameIds(facts: JiraFacts, texts: seq<string>, ids: set<Uuid>)
    requires forall t :: t in texts <==> t in TextsOf(ids)
    ensures ListNamesIds(facts, Strings(texts), ids)
  {
    var items := Strings(texts);
    forall i | 0 <= i < |items| ensures NamesOneOf(facts, items[i], ids) {
      assert texts[i] in TextsOf(ids);
      var id :| id in ids && UuidText(id) == texts[i];
      TextNamesId(facts, id);
      assert Names(facts, items[i], id);
    }
    forall id | id in ids ensures exists i :: 0 <= i < |items| && Names(facts, items[i], id) {
      assert UuidText(id) in TextsOf(ids);
      var i :| 0 <= i < |texts| && texts[i] == UuidText(id);
      TextNamesId(facts, id);
      assert Names(facts, items[i], id);
    }
  }

  lemma {:induction false} NormalisedNamesItsIds(facts: JiraFacts, payload: Payload, ids: set<Uuid>)
    requires Get(payload, FIELDS.evidence) == Arr(Strings(Listing(TextsOf(ids))))
    ensures NamesIds(facts, payload, ids)
  {
    var texts := Listing(TextsOf(ids));
    assert forall t :: t in texts <==> t in Members(texts);
    TextsNameIds(facts, texts, ids);
  }

  lemma {:induction false} TextFieldIsStripped(facts: JiraFacts, payload: Payload, key: string)
    ensures Strip(TextField(facts, payload, key)) == TextField(facts, payload, key)
  {
    var raw := Get(payload, key);
    if raw.Null? {
      assert Strip("") == "";
    } else {
      StripIsIdempotent(PyStr(facts.repr, raw));
    }
  }

  lemma {:induction false} ProjectKeyIsStripped(facts: JiraFacts, project: Uuid)
    ensures Strip(ProjectKey(facts, project)) == ProjectKey(facts, project)
  {
    if project in facts.projectKeys {
      StripIsIdempotent(facts.projectKeys[project]);
    } else {
      assert Strip("") == "";
    }
  }

  /** What an accepted payload turns into. */
  lemma {:induction false} AcceptedPayload(
      facts: JiraFacts, project: Uuid, targetType: string, target: Uuid, p: Payload)
    returns (subject: Subject, ids: set<Uuid>, description: string, repro: string, jiraProject: string)
    requires Normalise(facts, project, targetType, target, p).Ok?
    ensures FindSubject(facts, targetType, target) == Ok(subject) && EvidenceSet(facts, subject, target, p) == Ok(ids)
    ensures CheckRun(facts, subject.testRun, project) == None
    ensures Normalise(facts, project, targetType, target, p) ==
              Ok(JiraPayload(FIELDS, description, repro, jiraProject, ids))
    ensures description != [] && jiraProject != []
    ensures Strip(description) == description && Strip(repro) == repro && Strip(jiraProject) == jiraProject
  {
    subject := FindSubject(facts, targetType, target).value;
    ids := EvidenceSet(facts, subject, target, p).value;
    var t := ReadTexts(facts, p);
    description, repro := FirstNonEmpty(t.description, t.summary, t.repro), t.repro;
    jiraProject := if t.jiraProject != [] then t.jiraProject else ProjectKey(facts, project);
    TextFieldIsStripped(facts, p, FIELDS.summary);
    TextFieldIsStripped(facts, p, FIELDS.description);
    TextFieldIsStripped(facts, p, FIELDS.repro);
    TextFieldIsStripped(facts, p, FIELDS.project);
    ProjectKeyIsStripped(facts, project);
  }

  /** Normalising again what normalisation produced changes nothing. */
  lemma {:induction false} NormaliseIsIdempotent(
      facts: JiraFacts, project: Uuid, targetType: string, target: Uuid, p: Payload)
    ensures var r := Normalise(facts, project, targetType, target, p);
            r.Ok? ==> Normalise(facts, project, targetType, target, r.value) == r
  {
    var r := Normalise(facts, project, targetType, target, p);
    if r.Ok? {
      var subject, ids, description, repro, jiraProject := AcceptedPayload(facts, project, targetType, target, p);
      var q := r.value;
      FieldNamesDiffer();
      PayloadLookups(FIELDS, description, repro, jiraProject, ids);
      NormalisedNamesItsIds(facts, q, ids);
      RequestedSet(facts, subject.evidenceRefs, q, ids);
      EvidenceSetAgain(facts, subject, target, p, q, ids);
      assert ReadTexts(facts, q) == Texts("", description, repro, jiraProject);
    }
  }

  lemma {:induction false} EvidenceSetAgain(
      facts: JiraFacts, subject: Subject, target: Uuid, p: Payload, q: Payload, ids: set<Uuid>)
    requires EvidenceSet(facts, subject, target, p) == Ok(ids)
    requires var r := RequestedIds(facts, subject.evidenceRefs, q); r.Ok? && Members(r.value) == ids
    ensures EvidenceSet(facts, subject, target, q) == Ok(ids)
  {
    assert subject.evidenceRefs != [] ==> subject.evidenceRefs[0] in Members(subject.evidenceRefs);
  }

  /** The payload leaves the choice of evidence to the cluster: it has no list, or an empty one. */
  predicate NamesNoEvidence(p: Payload) {
    Get(p, FIELDS.evidence).Null? || Get(p, FIELDS.evidence) == Arr([])
  }

  /** What is attached is what the payload names, or all the cluster refers to when it names nothing. */
  lemma {:induction false} AttachedIsNamed(facts: JiraFacts, subject: Subject, target: Uuid, p: Payload, ids: set<Uuid>)
    requires EvidenceSet(facts, subject, target, p) == Ok(ids)
    ensures NamesNoEvidence(p) ==> ids == Members(subject.evidenceRefs)
    ensures !NamesNoEvidence(p) ==> NamesIds(facts, p, ids)
    ensures !NamesNoEvidence(p) ==> forall named | NamesIds(facts, p, named) :: named == ids
  {
    if !NamesNoEvidence(p) {
      var items := Get(p, FIELDS.evidence).items;
      var parsed := RequestedIds(facts, subject.evidenceRefs, p).value;
      ParsedNames(facts, items);
      assert parsed[0] in Members(parsed);
      assert NamesIds(facts, p, Members(parsed));
      forall named | NamesIds(facts, p, named) ensures named == ids {
        RequestedSet(facts, subject.evidenceRefs, p, named);
      }
    }
  }

  /** A list that can be read names the ids it was read as. */
  lemma {:induction false} ParsedNames(facts: JiraFacts, items: seq<Json>)
    requires ParseIds(facts, items).Ok?
    ensures var parsed := ParseIds(facts, items).value;
            |parsed| == |items| && ListNamesIds(facts, items, Members(parsed))
  {
    var parsed := ParseIds(facts, items).value;
    ParsedOneByOne(facts, items);
    forall i | 0 <= i < |items| ensures NamesOneOf(facts, items[i], Members(parsed)) {
      assert parsed[i] in parsed;
    }
    forall id | id in Members(parsed) ensures exists i :: 0 <= i < |items| && Names(facts, items[i], id) {
      var i :| 0 <= i < |parsed| && parsed[i] == id;
      assert Names(facts, items[i], id);
    }
  }

  lemma {:induction false} ParsedOneByOne(facts: JiraFacts, items: seq<Json>)
    requires ParseIds(facts, items).Ok?
    ensures var parsed := ParseIds(facts, items).value;
            |parsed| == |items| && forall i :: 0 <= i < |items| ==> Names(facts, items[i], parsed[i])
  {
    if items != [] {
      ParsedOneByOne(facts, items[1..]);
    }
  }

  /**
    * The evidence list of a normalised payload is strictly ascending and names exactly the ids the payload named,
    * or those the cluster refers to when it named none, all of them unrestricted and belonging to the target.
    */
  lemma {:induction false} NormalisedEvidence(
      facts: JiraFacts, project: Uuid, targetType: string, target: Uuid, p: Payload)
    returns (ids: set<Uuid>, texts: seq<string>)
    requires Normalise(facts, project, targetType, target, p).Ok?
    ensures var q := Normalise(facts, project, targetType, target, p).value;
            Get(q, FIELDS.evidence) == Arr(Strings(texts)) && StrictlyAscending(texts) && Members(texts) == TextsOf(ids)
    ensures ids <= facts.evidence.Keys && forall id | id in ids :: !facts.evidence[id].restricted
    ensures !NamesNoEvidence(p) ==> NamesIds(facts, p, ids)
    ensures !NamesNoEvidence(p) ==> forall named | NamesIds(facts, p, named) :: named == ids
    ensures NamesNoEvidence(p) ==> ids == Members(FindSubject(facts, targetType, target).value.evidenceRefs)
    ensures forall id | id in ids :: Belongs(facts, FindSubject(facts, targetType, target).value, target, id)
  {
    var subject, attached, description, repro, jiraProject := AcceptedPayload(facts, project, targetType, target, p);
    ids := attached;
    AttachedIsNamed(facts, subject, target, p, ids);
    FieldNamesDiffer();
    PayloadLookups(FIELDS, description, repro, jiraProject, ids);
    texts := Listing(TextsOf(ids));
  }

  // ---- The check itself ----

  /** The dedupe loop: first occurrences, in order. */
  method Dedupe(ids: seq<Uuid>) returns (deduped: seq<Uuid>)
    ensures NoDuplicates(deduped) && Members(deduped) == Members(ids)
  {
    deduped := [];
    var seen: set<Uuid> := {};
    for i := 0 to |ids|
      invariant seen == Members(deduped) == Members(ids[..i])
      invariant NoDuplicates(deduped)
    {
      assert ids[..i + 1] == ids[..i] + [ids[i]];
      assert Members(ids[..i + 1]) == Members(ids[..i]) + {ids[i]};
      if ids[i] !in seen {
        seen := seen + {ids[i]};
        assert Members(deduped + [ids[i]]) == Members(deduped) + {ids[i]};
        deduped := deduped + [ids[i]];
      }
    }
    assert ids[..|ids|] == ids;
  }

  function After(ids: seq<Uuid>, rest: Result<seq<Uuid>>): Result<seq<Uuid>> {
    if rest.Ok? then Ok(ids + rest.value) else rest
  }

  lemma {:induction false} AfterOneMore(ids: seq<Uuid>, id: Uuid, rest: Result<seq<Uuid>>)
    ensures After(ids, After([id], rest)) == After(ids + [id], rest)
  {
    if rest.Ok? {
      assert ids + ([id] + rest.value) == (ids + [id]) + rest.value;
    }
  }

  /** Reads the ids of the payload's list one by one; the first that is no UUID refuses the list. */
  method ReadIds(facts: JiraFacts, items: seq<Json>) returns (r: Result<seq<Uuid>>)
    ensures r == ParseIds(facts, items)
  {
    var ids: seq<Uuid> := [];
    assert items[0..] == items;
    assert ParseIds(facts, items).Ok? ==> [] + ParseIds(facts, items).value == ParseIds(facts, items).value;
    for i := 0 to |items|
      invariant ParseIds(facts, items) == After(ids, ParseIds(facts, items[i..]))
    {
      var id := ParseUuid(PyStr(facts.repr, items[i]));
      assert items[i..][0] == items[i] && items[i..][1..] == items[i + 1..];
      if id.None? {
        return Err(Validation);
      }
      AfterOneMore(ids, id.value, ParseIds(facts, items[i + 1..]));
      ids := ids + [id.value];
    }
    assert ids + [] == ids;
    return Ok(ids);
  }

  /** The rows found for a list of ids are as many as the list iff no id repeats and none is unknown. */
  lemma {:induction false} RowCount(facts: JiraFacts, ids: seq<Uuid>, rows: set<Uuid>)
    requires rows == set id | id in ids && id in facts.evidence
    ensures |rows| == |ids| <==> NoDuplicates(ids) && Members(ids) <= facts.evidence.Keys
  {
    DistinctCount(ids);
    assert rows <= Members(ids);
    SubsetCount(rows, Members(ids));
    assert rows == Members(ids) <==> Members(ids) <= facts.evidence.Keys;
  }

  lemma {:induction false} DistinctTexts(ids: seq<Uuid>, texts: seq<string>)
    requires NoDuplicates(ids)
    requires |texts| == |ids| && forall i :: 0 <= i < |ids| ==> texts[i] == UuidText(ids[i])
    ensures NoDuplicates(texts) && Members(texts) == TextsOf(Members(ids))
  {
    forall i, j | 0 <= i < j < |texts| ensures texts[i] != texts[j] {
      if texts[i] == texts[j] { UuidTextIsInjective(ids[i], ids[j]); }
    }
    forall t ensures t in Members(texts) <==> t in TextsOf(Members(ids)) {
      if t in TextsOf(Members(ids)) {
        var id :| id in Members(ids) && UuidText(id) == t;
        var i :| 0 <= i < |ids| && ids[i] == id;
        assert texts[i] == t;
      }
    }
  }

  lemma {:induction false} SortedTexts(ids: seq<Uuid>, texts: seq<string>)
    requires NoDuplicates(ids)
    requires |texts| == |ids| && forall i :: 0 <= i < |ids| ==> texts[i] == UuidText(ids[i])
    ensures Sorted(texts) == Listing(TextsOf(Members(ids)))
  {
    DistinctTexts(ids, texts);
    SortedDistinct(texts);
  }

  /** The row count, the classification and the subjects of a list of evidence ids. */
  method CheckIds(facts: JiraFacts, subject: Subject, target: Uuid, ids: seq<Uuid>) returns (wrong: Option<Error>)
    ensures wrong == if !NoDuplicates(ids) then Some(Validation)
              else CheckEvidence(facts, subject, target, Members(ids))
  {
    var rows := set id | id in ids && id in facts.evidence;
    RowCount(facts, ids, rows);
    if |rows| != |ids| {
      return Some(Validation);
    }
    if exists id | id in rows :: facts.evidence[id].restricted {
      return Some(PolicyDeny);
    }
    if exists id | id in rows :: !Belongs(facts, subject, target, id) {
      return Some(Validation);
    }
    return None;
  }

  lemma {:induction false} NothingToCheck(facts: JiraFacts, subject: Subject, target: Uuid)
    ensures CheckEvidence(facts, subject, target, {}) == None
  {
  }

  lemma {:induction false} NoMembers(ids: seq<Uuid>)
    ensures ids == [] <==> Members(ids) == {}
  {
    assert ids != [] ==> ids[0] in Members(ids);
  }

  /** The evidence part of the check, up to the sorted texts. */
  method NormaliseEvidence(facts: JiraFacts, subject: Subject, target: Uuid, payload: Payload)
    returns (r: Result<seq<string>>)
    ensures match EvidenceSet(facts, subject, target, payload)
            case Ok(ids) => r == Ok(Listing(TextsOf(ids)))
            case Err(e) => r == Err(e)
  {
    var raw := Get(payload, FIELDS.evidence);
    var requested: seq<Uuid>;
    if raw.Null? {
      requested := subject.evidenceRefs;
    } else if !raw.Arr? {
      return Err(Validation);
    } else {
      var parsed := ReadIds(facts, raw.items);
      if parsed.Err? {
        return Err(parsed.error);
      }
      requested := parsed.value;
    }
    var ids := Dedupe(requested);
    NoMembers(ids);
    if ids == [] && subject.evidenceRefs != [] {
      ids := subject.evidenceRefs;
    }
    DistinctCount(ids);
    if ids == [] {
      NothingToCheck(facts, subject, target);
      assert Members(ids) == {};
    } else {
      var wrong := CheckIds(facts, subject, target, ids);
      if wrong.Some? {
        return Err(wrong.value);
      }
    }
    var texts := seq(|ids|, i requires 0 <= i < |ids| => UuidText(ids[i]));
    SortedTexts(ids, texts);
    return Ok(Sorted(texts));
  }

  method ValidateJiraWritePreview(facts: JiraFacts, project: Uuid, targetType: string, target: Uuid, payload: Payload)
    returns (r: Result<Payload>)
    ensures r == Normalise(facts, project, targetType, target, payload)
  {
    var subject := FindSubject(facts, targetType, target);
    if subject.Err? {
      return Err(subject.error);
    }
    var wrongRun := CheckRun(facts, subject.value.testRun, project);
    if wrongRun.Some? {
      return Err(wrongRun.value);
    }
    var t := ReadTexts(facts, payload);
    if t.summary == [] && t.description == [] && t.repro == [] {
      return Err(Validation);
    }
    var jiraProject := t.jiraProject;
    if jiraProject == [] {
      jiraProject := ProjectKey(facts, project);
      if jiraProject == [] {
        return Err(Validation);
      }
    }
    var evidence := NormaliseEvidence(facts, subject.value, target, payload);
    if evidence.Err? {
      return Err(evidence.error);
    }
    var description := FirstNonEmpty(t.description, t.summary, t.repro);
    return Ok(map[FIELDS.description := Str(description), FIELDS.repro := Str(t.repro),
                  FIELDS.project := Str(jiraProject), FIELDS.evidence := Arr(Strings(evidence.value))]);
  }
}
