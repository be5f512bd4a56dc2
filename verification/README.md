# Approvals of side effects: a verified model

The system lets people and agents ask for actions with side effects (jira writes, release pushes, environment
registrations, high-risk performance runs and so on). A policy gate decides whether such an action needs an
approval; approvals are rows of a ledger that another owner or admin decides, that expire, that can be resubmitted,
and that set off commands in other modules. This project models that ledger and proves what holds over every
sequence of calls.

## How it is organised

| files | what they hold |
|---|---|
| `Prelude`, `Text`, `PyValues` | options and results, code-point order and sorting, digits and stripping, Python's view of JSON values |
| `Json`, `Uuids`, `Timestamps`, `Base64Url` | texts and their readers: sorted compact JSON, UUIDs, ISO timestamps, padded base64url |
| `Params`, `CanonicalJson`, `Cursors` | the text behind the parameter hash, a grammar of which it is the one text, and the text of a cursor |
| `Keyset`, `CursorWalks`, `InvocationLogs` | keyset paging, following cursor texts, and the invocation log, an append-only table that grows while it is paged |
| `KillSwitch`, `Environments` | the two approval effects whose code is known: loosening controls, activating an environment |
| `PolicyGate`, `Directory`, `Heals`, `JiraPayloads` | what may enter the ledger: levels, gate, memberships, the checks of heals and jira payloads |
| `Ledger`, `Transitions`, `Listings` | the tables and what each entry point does to them and answers |
| `Faults`, `Verdicts`, `PreviewVerdicts` | for each entry point what can be wrong with a call, in the order in which it is looked for, said of stored rows, member rows, clock and request alone |
| `Secrets`, `Views`, `Answers`, `Effects` | what a call that succeeds answers and leaves behind, field by field; what is shown of secrets; what a decision comes to |
| `Invariants`, `Preservation`, `Steps`, `Runs` | the invariant, that every step keeps it, and whole runs |
| `Decisions`, `Previews`, `Resubmissions`, `Idempotency` | theorems over runs |
| `Checks` | what the own checks of heals, jira writes and waivers guarantee of the requests in the ledger |
| `ApprovalPages`, `ApprovalWalks`, `TimesToLive`, `RunWalks` | the paged listing against its meaning, page by page and walk by walk, at one moment and while the system runs, and when it is right |
| `Workbenches` | the workbench list against its meaning |
| `StandingCalls`, `LazyEager` | lazy against eager expiry: answers, rows and commands |
| `ApprovalService` | a class with mutable tables, one method per entry point, proved against the transitions |

A run (`Runs.IsRun`) is any sequence of calls from an empty ledger, with any callers, directories and clock readings;
steps of other modules may change the organisation's controls and its environments. Every call that creates a request
reads the time-to-live setting anew, so a run may change it; results that need it to stay the same say so. The theorems
hold at every point of every run. `ApprovalService.Service.Serve` shows that every call on the mutable tables is a step of a run.

## What the model assumes

- One organisation per store. Each request is one atomic step: decisions and resubmissions lock the row
  (`backend/app/modules/approval_policy/service.py:1133-1138`, `1543-1548`); reads that expire rows do not, so that
  requests are served one after the other is an assumption.
- A refused call may still change the state, because the router commits before it maps the error
  (`backend/app/modules/approval_policy/router.py:313-315`); every transition says what is left behind.
- The digest is a parameter. `Transitions.Hasher` stands for `compute_param_hash`; `Transitions.HashWith` ties it to a
  digest of the canonical text, whose injectivity is proved; results about hashes name the two texts that would have
  to be a collision of the digest.
- New ids (uuid4) are unused and clocks show valid dates; clocks are required not to run backwards only in `LazyEager`
  and, for listings under status EXPIRED, in `RunWalks`.
- What a call learns from the identity tables is a `Directory` given with the call. The queries for approvers do not
  order their rows; the storage order of the directory stands for any order.
- Rows of other modules that a preview looks up, the number float() reads from a text, and the answers of other modules
  to commands (`Outcomes`) are given with the call. The release and performance commands are taken not to raise.
- Creation times are civil times with offset; expiry times are instants. `updated_at` is written by the service and
  read by no branch, so it is not modelled. An idempotency record always holds its response.
- An environment is never put back to PENDING_APPROVAL: only its registration sets that status.

## What comes out differently from what one might expect

- The branch that invalidates a request because its hash differs (`backend/app/modules/approval_policy/service.py:1179-1185`)
  is never taken in any run; `Steps.HashNeverMismatches` and `Decisions.RefusedDecision` say so.
- A key is looked up before the approval it names, and the request hash is that of the body alone, so a replayed
  decision is answered from the record whatever approval the path names.
- Listings under status PENDING or perspective inbox drop rows after the fetch, and a full window that loses one is
  taken for the last page (`backend/app/modules/approval_policy/service.py:1006-1021`). This never does harm while the
  time-to-live setting stays the same, because then requests expire in the order they were created
  (`TimesToLive.EveryPageOfEveryRunIsRight`). Exactly when no pending request that has two newer pending ones outlives one
  of them is every page right (`ApprovalPages.EveryPageIsRightExactlyWhen`). After the setting is lowered from 100 seconds
  to 10 between two registrations, an owner who lists pending requests one to a page is shown a last page
  without the oldest request, which still pends (`TimesToLive.LoweredSettingLosesRow`).
- A resubmission does not repeat the check its action had at the preview. A first request (one that is no resubmission)
  for a heal, a jira write or a waiver was checked as it is stored (`Checks.RequestsWereChecked`); of the payload of a
  resubmitted one only plain secrets are looked for (`Checks.OnlySecretsMatter`), so that a resubmitted heal may state
  a confidence that no preview lets pass (`Checks.ResubmittedHealMayBeDoubtful`).
- float() raises OverflowError for an integer beyond the floating-point numbers, and the check of a heal catches
  TypeError and ValueError only (`backend/app/modules/approval_policy/service.py:234-249`); the answer is then an
  internal error (`Uncaught`).
- The workbench fetches three times as many rows as it shows and filters them afterwards; when that is enough is
  `Workbenches.WorkbenchIsRightExactlyWhen`.

## Model

| member | source | states |
|---|---|---|
| Json.ParsePrint | backend/app/modules/approval_policy/service.py:98 | the text written for any value reads back as that value (grammar of sections 4 to 7 of RFC 8259) |
| CanonicalJson.PrintIsTheSpelling | backend/app/modules/approval_policy/service.py:98 | the text written is the only one in canonical form: members in strictly ascending order at every depth, no white space, short escapes where there are any and lower-case hexadecimal ones elsewhere, numbers without leading zeros |
| CanonicalJson.SpellingIsRead | backend/app/modules/approval_policy/service.py:98 | a text in canonical form is read as the one value it spells |
| CanonicalJson.CanonicalTextLayout | backend/app/modules/approval_policy/service.py:88-98 | the hashed text member by member: action_type, expected_target_version, payload, project_id, target_object_id, target_object_type, the two optional ones left out when absent |
| Params.CanonicalTextIsInjective | backend/app/modules/approval_policy/service.py:79-99 | two parameter tuples, absent and present optional parts included, have the same text only if they are equal |
| Params.CanonicalTextReadsBack | backend/app/modules/approval_policy/service.py:88-98 | a reader recovers all six parameters from the text that is hashed |
| Params.HashBindsParameters | backend/app/modules/approval_policy/service.py:79-99 | equal hashes mean equal parameters, unless the two canonical texts are different texts with the same digest |
| Uuids.ParseCasedText | backend/app/modules/approval_policy/service.py:354-358 | a UUID text is read back whatever the case of its letters |
| Uuids.UuidTextIsTheSpelling | backend/app/modules/approval_policy/service.py:91-95 | str(uuid) is the one text in groups of 8, 4, 4, 4 and 12 lower-case digits that is read as the UUID |
| Timestamps.ParseIsoText | backend/app/modules/approval_policy/repository.py:22-38 | every timestamp with offset, microseconds in either or in neither, is read back from its ISO text |
| Timestamps.InstantCountsDays | backend/app/modules/approval_policy/repository.py:229-245 | creation times are compared as instants that count every day once, through months and leap years |
| Base64Url.DecodeEncode | backend/app/modules/approval_policy/repository.py:22-38 | padded base64url (section 5 of RFC 4648) decodes to the text that was encoded |
| Cursors.CursorRoundTrip | backend/app/modules/approval_policy/repository.py:22-38 | decoding an encoded cursor gives the timestamp and the id back |
| Keyset.WalkIsSound | backend/app/modules/ai_governance/repository.py:247-291 | pages of a growing table are strictly descending, below the cursor and from the table |
| Keyset.WalkShowsStanding | backend/app/modules/ai_governance/repository.py:247-291 | a walk that ends has shown every row that was in the table all the while, whatever else came and went |
| Keyset.WalkIsComplete | backend/app/modules/ai_governance/repository.py:247-291 | a walk that ends has shown every row that was there when it began |
| Keyset.PageCountIsCeiling | backend/app/modules/ai_governance/service.py:105-125 | the number of pages is the ceiling of rows over limit, at least one |
| Keyset.Query | backend/app/modules/ai_governance/repository.py:247-291 | filter, sort and cut give the first rows below the cursor |
| CursorWalks.FollowingIsWalking | backend/app/modules/ai_governance/service.py:105-125 | following cursor texts is walking the tables by key |
| InvocationLogs.InvocationLog.Insert | backend/app/modules/ai_governance/repository.py:189-229 | an insert adds its row and touches no other |
| InvocationLogs.InvocationLog.List | backend/app/modules/ai_governance/service.py:363-412 | the listing answers its page, has-more flag and next cursor, or its refusal |
| InvocationLogs.LogVerdict | backend/app/modules/ai_governance/service.py:375-393 | owners and admins are answered for positive limits, known results and readable cursors, and everybody else with the error that says which is wrong |
| InvocationLogs.PagingUnderInserts | backend/app/modules/ai_governance/service.py:105-125 | following next_cursor while rows are inserted shows no row twice, newest first, only matching rows, and at the end every row present at the start |
| InvocationLogs.PagingOfFixedTable | backend/app/modules/ai_governance/service.py:363-412 | on a fixed table a finished walk has shown exactly the matching rows in max(1, ceil(n / limit)) pages |
| KillSwitch.Organization.ApplyRestore | backend/app/modules/identity_tenancy/command_port.py:66-84 | controls are loosened in place and the version grows by one; a target that names no switch changes nothing |
| KillSwitch.RestoreTurnsOff | backend/app/modules/identity_tenancy/command_port.py:16-84 | a restore succeeds exactly when its target names a switch by level and id, turns off that one and no other, and clears the banner with the global switch or with the last ability or module |
| KillSwitch.RestoresComeToTheirSet | backend/app/modules/identity_tenancy/command_port.py:39-63 | any list of restores ends in the original lists minus the restored names, in order, with a version per restore |
| KillSwitch.RestoresCommute | backend/app/modules/identity_tenancy/command_port.py:39-63 | order and repetition of restores do not matter for flag, lists and banner |
| KillSwitch.RestoreUndoesTighten | backend/app/modules/identity_tenancy/command_port.py:39-63 | restoring a switch that was just tightened gives flag and lists back if and only if it was not tightened before |
| Environments.EnvironmentRegistry.ActivateAfterEnvRegister | backend/app/modules/execution_registry/command_port.py:11-33 | compare-and-set from PENDING_APPROVAL to ACTIVE, with version and config version, or an error and no change |
| Environments.ActivatesExactlyWhen | backend/app/modules/execution_registry/command_port.py:11-33 | an environment is activated exactly when it waits for approval, with the next version as that of its configuration too; no other environment changes |
| Environments.ActivatesOnce | backend/app/modules/execution_registry/command_port.py:11-33 | of two activations the second fails |
| PolicyGate.LevelIsAsListed | backend/app/modules/approval_policy/policy_gate.py:17-64 | the level of each action, and that an agent's action has the level it declares |
| PolicyGate.GateIsDecidedByLevel | backend/app/modules/approval_policy/policy_gate.py:67-104 | denied without a level and for performance runs, allowed at L0 and L1, approval at L2 and, unless the session must authenticate again, at L3 and L4 |
| Directory.CandidateIsFound | backend/app/modules/identity_tenancy/query_port.py:61-102 | an approver is found exactly when an owner or admin other than the excluded user exists, and is one |
| Directory.RoleIsFound | backend/app/modules/identity_tenancy/query_port.py:43-58 | a role is found exactly for members of the project |
| Faults.RowsTell | backend/app/modules/identity_tenancy/query_port.py:102-127 | having a membership, being an owner or admin, and having a role other than viewer, each by member rows |
| Faults.ApproversAreRows | backend/app/modules/identity_tenancy/query_port.py:61-99 | the approver found is another owner or admin of the project, or without a project one of the organisation who is not disabled, and one is found if there is one |
| Faults.ReadersAreRows | backend/app/modules/approval_policy/service.py:885-907 | who may see a request, by member rows: initiator, approver, escalation target, owners and admins, and members of a project of the initiator |
| Heals.ValidateHealApplyPreview | backend/app/modules/approval_policy/service.py:217-273 | the check statement by statement gives the version to roll back to or its refusal, an uncaught overflow of float() included |
| Heals.VersionPinsHeal | backend/app/modules/approval_policy/service.py:262-273 | naming a version pins a heal: those that pass without one pass with exactly the version the case has now, to the same effect, and are otherwise in conflict |
| Heals.HigherConfidencePasses | backend/app/modules/approval_policy/service.py:232-256 | a heal that passes also passes with higher confidences and without stating them, to the same effect |
| JiraPayloads.Dedupe | backend/app/modules/approval_policy/service.py:360-366 | the loop keeps each id once |
| JiraPayloads.ValidateJiraWritePreview | backend/app/modules/approval_policy/service.py:276-404 | the check step by step gives the normalised payload or its refusal |
| JiraPayloads.OnlyTheEvidenceSetMatters | backend/app/modules/approval_policy/service.py:347-404 | payloads that name the same set of evidence have the same outcome |
| JiraPayloads.LetterCaseDoesNotMatter | backend/app/modules/approval_policy/service.py:354-358 | an id names the same evidence in any letter case |
| JiraPayloads.NormaliseIsIdempotent | backend/app/modules/approval_policy/service.py:326-404 | normalising a normalised payload returns it unchanged |
| JiraPayloads.NormalisedEvidence | backend/app/modules/approval_policy/service.py:347-404 | the stored evidence list is strictly ascending and names exactly the ids the payload named, or all those of the target when it named none; they are unrestricted and attached to the target |
| Ledger.RedactMasks | backend/app/modules/approval_policy/service.py:102-111 | the card masks every secret in nested objects, keeps every key and every other value, and changes nothing that is masked already |
| Secrets.SecretsHavePaths | backend/app/modules/approval_policy/service.py:209-214 | a payload is refused exactly when some path of keys leads to a secret given as text that is not blank |
| Secrets.ShownIsMasked | backend/app/modules/approval_policy/service.py:102-111 | in what is shown of a payload no value under a secret's key is left, at any depth of nested objects |
| PreviewVerdicts.WaiverVerdict | backend/app/modules/approval_policy/service.py:407-439 | a waiver's check fails with the first of its faults and otherwise names the evaluation of its target: the one of that id, or the one of that run |
| PreviewVerdicts.HealVerdict | backend/app/modules/approval_policy/service.py:217-273 | a heal's check fails with the first of its faults and otherwise gives the version the case has now |
| PreviewVerdicts.JiraVerdict | backend/app/modules/approval_policy/service.py:276-396 | a jira write's check fails with the first of its faults, about target, run, texts and evidence |
| PreviewVerdicts.JiraPayloadVerdict | backend/app/modules/approval_policy/service.py:326-404 | otherwise description, steps, project and evidence are stored as said, the evidence by exactly the ids attached, in ascending order |
| PreviewVerdicts.PreviewVerdict | backend/app/modules/approval_policy/service.py:455-740 | a preview that is no replay is answered exactly when none of its faults is present, and otherwise refused for the first, with one failed audit entry or none and nothing else left |
| Answers.PreviewLeaves | backend/app/modules/approval_policy/service.py:693-818 | an answered preview: answer, card, hash, level, request, audit entry, record and key, field by field |
| Answers.RegistrationLeaves | backend/app/modules/approval_policy/command_port.py:44-104 | a registration asks for its environment exactly when there is an approver; the request, field by field |
| Answers.PerfRunLeaves | backend/app/modules/approval_policy/command_port.py:125-184 | a high-risk run asks to be resumed exactly when somebody started it and there is an approver; the request, field by field |
| Answers.LazyExpireExpires | backend/app/modules/approval_policy/service.py:863-882 | a late row becomes expired as late with one version more, and exactly a performance run is cancelled |
| Verdicts.GetVerdict | backend/app/modules/approval_policy/service.py:1036-1064 | a request is shown exactly to members who may read it, and to others does not exist |
| Answers.GetLeaves | backend/app/modules/approval_policy/service.py:850-860 | what is shown of a request: the row as it stands, its payload with secrets masked, who started its chain |
| Verdicts.PreviewReadVerdict | backend/app/modules/approval_policy/service.py:1070-1085 | a stored preview is shown up to and including the instant of its expiry |
| Verdicts.ListVerdict | backend/app/modules/approval_policy/service.py:949-976 | a listing is answered exactly when limit, action, memberships, project and cursor are in order, and otherwise with the first error |
| Previews.TakenPreview | backend/app/modules/approval_policy/service.py:720-818 | a preview creates one pending request, by the caller for somebody else and with the time to live, exactly when the gate required approval |
| Previews.TakenEnvApproval | backend/app/modules/approval_policy/command_port.py:44-104 | a registration asks for the environment at level L3 by its initiator for somebody else, with the time to live, or finds no approver and changes nothing |
| Previews.TakenPerfApproval | backend/app/modules/approval_policy/command_port.py:125-184 | a performance run is asked for at level L3 by its starter for somebody else, or nothing changes |
| Previews.RefusedPreview | backend/app/modules/approval_policy/service.py:522-690 | a refused preview leaves at most one failed audit entry |
| Previews.EvidenceSpellingIsNotHashed | backend/app/modules/approval_policy/service.py:661-700 | jira previews that name the same evidence get the same verdict and hash the same parameters |
| Steps.AcceptedIsAdmissible | backend/app/modules/approval_policy/service.py:474-740 | what the checks let through has the level of its action, L2 or above when approval is required, and an approver other than the caller |
| Steps.HashNeverMismatches | backend/app/modules/approval_policy/service.py:1171-1185 | the hash recomputed at a decision is the stored one |
| Steps.SettleIsOk | backend/app/modules/approval_policy/service.py:1187-1485 | the effects of a decision leave a row of the right shape, at most one fitting command, and activate an environment only by compare-and-set |
| Steps.LazyExpireKeeps | backend/app/modules/approval_policy/service.py:863-882 | lazy expiry keeps the invariant and loses nothing recorded |
| Steps.PreviewKeeps | backend/app/modules/approval_policy/service.py:442-818 | a preview keeps the invariant, whatever its outcome |
| Steps.EnvApprovalKeeps | backend/app/modules/approval_policy/command_port.py:44-104 | creating an env_register approval keeps the invariant |
| Steps.PerfApprovalKeeps | backend/app/modules/approval_policy/command_port.py:125-184 | creating a perf_high_risk approval keeps the invariant |
| Steps.DecideKeeps | backend/app/modules/approval_policy/service.py:1092-1512 | a decision keeps the invariant, whatever its outcome |
| Steps.ResubmitKeeps | backend/app/modules/approval_policy/service.py:1515-1715 | a resubmission keeps the invariant, whatever its outcome |
| Steps.GetKeeps | backend/app/modules/approval_policy/service.py:1036-1067 | reading a request keeps the invariant |
| Steps.ListKeeps | backend/app/modules/approval_policy/service.py:935-1033 | listing requests keeps the invariant |
| Runs.InvariantAt | backend/app/modules/approval_policy/service.py:442-1715 | the invariant (rows, history, origins, previews, environments) holds at every point of every run |
| Runs.LaterAt | backend/app/modules/approval_policy/service.py:863-882 | over any run rows only leave PENDING, and audit entries, commands, previews and idempotency records are never lost or rewritten |
| Decisions.DecisionIsTakenExactlyWhen | backend/app/modules/approval_policy/service.py:1108-1192 | a decision that is not a replay is taken if and only if it is well formed, by the row's approver, an owner or admin, not after expiry, on version 1 |
| Verdicts.DecisionVerdict | backend/app/modules/approval_policy/service.py:1108-1185 | a decision that is no replay is taken exactly when none of its faults is present, and otherwise answered with the first: form, role, existence, lateness, status, version, four eyes, approver |
| Effects.DecisionLeaves | backend/app/modules/approval_policy/service.py:1187-1512 | a taken decision, aspect by aspect: whether the request is executed, with the result the other module's answer calls for, the command and its target, the effect's own audit entry, environments, controls, key and answer |
| Effects.EveryDecisionLeaves | backend/app/modules/approval_policy/service.py:1187-1512 | at every point of every run each decided request was decided by one step, which left it as it is |
| Effects.ExecutedAsAnswered | backend/app/modules/approval_policy/service.py:1214-1485 | an executed request is ok exactly if the module it was for said so at the step that decided it |
| Decisions.TakenDecision | backend/app/modules/approval_policy/service.py:1187-1500 | a taken decision changes its row from PENDING to decided by the caller, and no other row |
| Decisions.TakenDecisionEnds | backend/app/modules/approval_policy/service.py:1187-1256 | approval ends in APPROVED or EXECUTED, rejection in REJECTED, or in EXECUTED for a performance run |
| Decisions.RefusedDecision | backend/app/modules/approval_policy/service.py:1142-1185 | the error of a refused decision says what it leaves: a failed audit entry for four-eyes, the expiry of a late row, otherwise nothing |
| Decisions.DecidedAtMostOnce | backend/app/modules/approval_policy/service.py:1142-1192 | at most one decision is taken on a request in any run |
| Decisions.OneCommandPerRequest | backend/app/modules/approval_policy/service.py:1197-1485 | at most one command is ever issued for a request, and none while it is pending |
| Decisions.PerfRunIsToldOnce | backend/app/modules/approval_policy/service.py:875-882 | a performance request has issued no command while pending and exactly one run command afterwards, never rests in APPROVED or REJECTED, expires only by time, and is never resubmitted |
| Decisions.PerfDecisionTellsRun | backend/app/modules/approval_policy/service.py:1233-1256 | approval resumes the run, rejection cancels it, and the request is executed |
| Decisions.FourEyesOverRuns | backend/app/modules/approval_policy/service.py:1152-1192 | the approver differs from the initiator, never changes, and is who decided every decided request |
| Decisions.AuditAgreesWithLedger | backend/app/modules/approval_policy/service.py:1487-1500 | the log holds exactly one successful decision entry for a decided request and none for any other |
| Decisions.SettledForever | backend/app/modules/approval_policy/service.py:869-874 | version, result and reason are those of the status; a request that left PENDING never changes; which actions can rest in which status |
| Decisions.ParametersStayBound | backend/app/modules/approval_policy/service.py:693-769 | stored hash, card hash and level are those of the stored parameters at every point of a run, and the parameters never change |
| Decisions.DecidedIsWhatWasPreviewed | backend/app/modules/approval_policy/service.py:1171-1185 | a request holds the parameters its preview showed the hash of, unless the two canonical texts are a collision of the digest |
| Decisions.ActivatedByOneRequest | backend/app/modules/approval_policy/service.py:1287-1313 | at most one request per environment is ever executed |
| Decisions.LaterRegistrationRests | backend/app/modules/approval_policy/service.py:1287-1313 | once an environment was activated by a request, a later approval for it rests in APPROVED and changes no environment |
| Resubmissions.TakenResubmission | backend/app/modules/approval_policy/service.py:1624-1685 | the origin is dead, expired as late or withdrawn if it was pending, and the successor is pending, for the same thing, by the caller for somebody else |
| Verdicts.ResubmissionVerdict | backend/app/modules/approval_policy/service.py:1531-1655 | a resubmission that is no replay is taken exactly when none of its faults is present, and otherwise answered with the first: existence, role, version and status as they stand, membership and viewer role in the project, secrets, level, authentication, approver |
| Answers.ResubmissionLeaves | backend/app/modules/approval_policy/service.py:1565-1715 | a taken resubmission: origin, successor, audit entry, key and answer, field by field |
| Resubmissions.RefusedResubmission | backend/app/modules/approval_policy/service.py:1531-1655 | a refused resubmission at most expires a late origin |
| Resubmissions.PathsAreChains | backend/app/modules/approval_policy/service.py:1565-1577 | along a path of resubmissions requests are in creation order, for one action, target and project, name the root's initiator, and all but the last are dead |
| Resubmissions.AliveIsLast | backend/app/modules/approval_policy/service.py:1657-1685 | only the last request of a path can be pending, approved or successfully executed |
| Resubmissions.EveryRequestHasOneRoot | backend/app/modules/approval_policy/service.py:1665-1685 | every request hangs by exactly one path from a request that is no resubmission |
| Resubmissions.ResubmittedStaysDead | backend/app/modules/approval_policy/service.py:1565-1577 | a request with a successor stays expired, rejected or unsuccessfully executed |
| Checks.RequestsWereChecked | backend/app/modules/approval_policy/service.py:584-700 | at every point of every run a request that is no resubmission and no creation by another module passed its action's own check, at the step that made it, with the payload, snapshot and evaluation it still has |
| Checks.HealRequestsWereFit | backend/app/modules/approval_policy/service.py:587-609 | in any run no first heal request states a low confidence or names a doubtful cluster, and its card shows the version the case had at the preview |
| Checks.JiraRequestsNameTheirEvidence | backend/app/modules/approval_policy/service.py:616-661 | in any run the evidence of a first jira request was unrestricted and attached to its target at the preview, and is listed in ascending order without repetition |
| Checks.WaiverRequestsWereFit | backend/app/modules/approval_policy/service.py:407-439 | in any run a first waiver was confirmed, and its card names the evaluation of its target, of its project |
| Checks.CardsShowRequests | backend/app/modules/approval_policy/service.py:114-164 | at every point of every run the card of a request shows its action, target, level and hash, and its payload with every secret masked |
| Checks.CardTellsResubmission | backend/app/modules/approval_policy/service.py:709-718 | in any run the card of a heal shows a snapshot, and that of a waiver an evaluation, if and only if the request is no resubmission |
| Checks.OnlySecretsMatter | backend/app/modules/approval_policy/service.py:1592-1613 | of the payload of a heal, jira write or waiver a resubmission looks only at whether it holds a plain secret |
| Checks.ResubmittedHealMayBeDoubtful | backend/app/modules/approval_policy/service.py:1592-1640 | a heal that may be resubmitted may be so with a stated confidence of zero, which passes no preview |
| Idempotency.RecordedKeyAnswers | backend/app/modules/approval_policy/service.py:1114-1125 | under a recorded key nothing changes, and the answer is the recorded one or a conflict |
| Idempotency.SameKeySameAnswer | backend/app/modules/approval_policy/service.py:455-465 | a key once answered gives that answer for the same body at any later time, and a conflict for another, without change |
| Idempotency.OneApprovalPerKey | backend/app/modules/approval_policy/service.py:1531-1541 | all calls under one key create at most one approval |
| Idempotency.PreviewAnswersAreRecords | backend/app/modules/approval_policy/service.py:769-818 | a preview key's answer is the stored preview and names an existing approval with the bound hash exactly when the gate required one |
| Idempotency.PreviewRecordsAreAnswers | backend/app/modules/approval_policy/service.py:795-818 | every stored preview is the answer of some key |
| ApprovalPages.SelectedIsSeen | backend/app/modules/approval_policy/service.py:885-932 | the SQL visibility condition implies that the caller may see the row |
| ApprovalPages.SelectedAndKept | backend/app/modules/approval_policy/repository.py:206-219 | the rewritten status condition, lazy expiry and the later filters select exactly the rows that match as they stand |
| ApprovalPages.ListingShowsMatches | backend/app/modules/approval_policy/service.py:979-1033 | a listing shows the fetched rows that match, as they stand, and only expires rows that are overdue |
| ApprovalPages.UnlimitedIsExact | backend/app/modules/approval_policy/service.py:979-1016 | without a limit every matching row is listed, under every filter |
| ApprovalPages.PageIsExact | backend/app/modules/approval_policy/service.py:1006-1025 | a page is the first matching rows below the cursor, for every filter when requests expire in the order they were created and for filters that drop nothing always |
| ApprovalPages.PageIsRightExactlyWhen | backend/app/modules/approval_policy/service.py:1006-1021 | a limited page is right if and only if no overdue row is lost from the fetched window or nothing matching lies beyond it |
| ApprovalPages.EveryPageIsRightExactlyWhen | backend/app/modules/approval_policy/service.py:995-1021 | whatever is asked, by whom and when, every page of a table is right if and only if no pending request with two newer pending ones outlives one of them |
| ApprovalPages.OutOfOrderLosesRow | backend/app/modules/approval_policy/service.py:1006-1021 | on any table out of order, any owner or admin who lists pending requests with the limit that just leaves out the outliving one gets a last page without it |
| TimesToLive.OneTtlAt | backend/app/modules/approval_policy/command_port.py:84-104 | while the setting stays the same, every stored request expires exactly that long after its creation, at every point of a run |
| TimesToLive.EveryPageOfEveryRunIsRight | backend/app/modules/approval_policy/service.py:935-1033 | at every point of every run with one setting, every page is right, under every filter and perspective |
| TimesToLive.EveryWalkOfEveryRunIsExact | backend/app/modules/approval_policy/service.py:1018-1025 | from every such point, following the cursors shows each matching request exactly once, in as many pages as needed |
| TimesToLive.LoweredSettingLosesRow | backend/app/modules/approval_policy/service.py:1006-1021 | a run of three registrations, the setting lowered from 100 seconds to 10 after the first: when the first is about to expire, an owner's page of pending requests says it is the last and does not show it |
| ApprovalWalks.FollowingIsExact | backend/app/modules/approval_policy/service.py:1018-1025 | on a fixed store and clock a finished walk has shown each matching row exactly once, in as many pages as needed, for every filter when requests expire in order |
| ApprovalWalks.FollowingIsSound | backend/app/modules/approval_policy/service.py:935-1033 | under any filter, on any table, a walk repeats nothing and shows only matching rows |
| ApprovalWalks.FollowingShowsRowsAsTheyStand | backend/app/modules/approval_policy/service.py:821-848 | every item of a walk shows its row field by field, overdue rows expired |
| RunWalks.RunWalkRepeatsNothing | backend/app/modules/approval_policy/service.py:935-1033 | a walk whose calls are steps of a run, with any other calls in between, is newest first, repeats nothing and shows only what matched at one of its calls, under any filter |
| RunWalks.RunWalkMissesNothing | backend/app/modules/approval_policy/service.py:995-1025 | such a walk, once ended, has shown every request that matched at each of its calls, under every filter where requests expire in order and always under filters that drop nothing |
| RunWalks.EveryRunWalkMissesNothing | backend/app/modules/approval_policy/service.py:995-1025 | while the time-to-live setting stays the same, under every filter and perspective |
| RunWalks.WalkingARun | backend/app/modules/approval_policy/service.py:979-1025 | under filters that do not ask for PENDING, every request shown still matches at the last call, and once ended every request that matched at the first call has been shown |
| RunWalks.StandingEvolvesAt | backend/app/modules/approval_policy/service.py:863-882 | under a clock that does not run backwards, requests as they stand only leave PENDING and never change afterwards, whatever was called in between |
| LazyEager.CallersCannotTell | backend/app/modules/approval_policy/service.py:863-882 | over every run with an advancing clock each call is answered as by a system that expires every overdue row at once, limited PENDING and inbox listings whenever the stored requests expire in order |
| LazyEager.CallersNeverCanTell | backend/app/modules/approval_policy/service.py:863-882 | while the setting stays the same every call is answered alike, without exception |
| LazyEager.ListingsAgree | backend/app/modules/approval_policy/service.py:979-1033 | a listing is answered alike if and only if its page is right |
| LazyEager.RunsAgreeAt | backend/app/modules/approval_policy/service.py:863-882 | at every point of such runs both systems hold the same rows once overdue ones are expired, and every request stands to have caused the same commands |
| LazyEager.CommandsAgreeAt | backend/app/modules/approval_policy/service.py:875-882 | when a call is served, the eager system has issued for every request what the lazy one has, and the cancellation of a late performance run besides |
| LazyEager.WorkbenchesAgree | backend/app/modules/approval_policy/repository.py:250-283 | the workbench query answers the same with and without eager expiry, over-fetch bound included |
| LazyEager.PathsAgreeOnLateness | backend/app/modules/approval_policy/repository.py:207-219 | lazy expiry, the EXPIRED filter and the workbench agree: exactly expires_at is still in time |
| ApprovalService.Service.ExpireIfNeeded | backend/app/modules/approval_policy/service.py:863-882 | in place: an overdue pending row expires and a waiting run is cancelled |
| ApprovalService.Service.Create | backend/app/modules/approval_policy/repository.py:84-134 | the row is added and becomes the newest |
| ApprovalService.Service.Lookup | backend/app/modules/approval_policy/repository.py:41-55 | the recorded answer, a conflict, or nothing |
| ApprovalService.Service.Judge | backend/app/modules/approval_policy/service.py:474-740 | the checks of a preview, statement by statement, give the verdict of the transition |
| ApprovalService.Service.Preview | backend/app/modules/approval_policy/service.py:442-818 | answers and leaves what the preview transition says |
| ApprovalService.Service.GetPreview | backend/app/modules/approval_policy/service.py:1070-1085 | the stored preview until it expires |
| ApprovalService.Service.Get | backend/app/modules/approval_policy/service.py:1036-1067 | answers and leaves what the read transition says |
| ApprovalService.Service.SettleDecision | backend/app/modules/approval_policy/service.py:1187-1485 | status, approver, version, execution result, commands, controls and environments after the effects of a decision |
| ApprovalService.Service.Decide | backend/app/modules/approval_policy/service.py:1092-1512 | answers and leaves what the decision transition says, step by step, failures included |
| ApprovalService.Service.Resubmit | backend/app/modules/approval_policy/service.py:1515-1715 | answers and leaves what the resubmission transition says, failures included |
| ApprovalService.Service.CreateEnvRegisterApproval | backend/app/modules/approval_policy/command_port.py:44-104 | a pending row bound to the environment, or no approver and no change |
| ApprovalService.Service.CreatePerfHighRiskApproval | backend/app/modules/approval_policy/command_port.py:125-184 | a pending row bound to the run, or no approver and no change |
| ApprovalService.Service.Sift | backend/app/modules/approval_policy/service.py:995-1014 | the loop over the fetched rows expires those seen and keeps those that still fit |
| ApprovalService.Service.List | backend/app/modules/approval_policy/service.py:935-1033 | answers and leaves what the listing transition says |
| ApprovalService.Service.ShowWaiting | backend/app/modules/approval_policy/query_port.py:103-118 | the loop stops at the limit with the first visible rows |
| ApprovalService.Service.Workbench | backend/app/modules/approval_policy/query_port.py:82-118 | the newest visible waiting rows out of three times the limit |
| Workbenches.WorkbenchIsRightExactlyWhen | backend/app/modules/approval_policy/query_port.py:82-118 | the list shows the newest requests waiting in the projects or in none that the caller may read, each field by field, if and only if enough of them are among the rows fetched or none lies beyond |
| Workbenches.OwnersGetTheNewest | backend/app/modules/approval_policy/query_port.py:38-63 | owners and admins always get the newest waiting requests |
| ApprovalService.Service.Serve | backend/app/modules/approval_policy/router.py:213-405 | any call on the mutable tables is a step of a run: it keeps the invariant and loses nothing recorded |

## Left out

- HTTP routing, request parsing, sessions, cookies, events, logging and error envelopes; that the router commits before mapping an error is kept.
- The database and the ORM: tables are maps and sequences, filters are predicates, ORDER BY is a specified sort, locks are atomic steps.
- Interleaving of requests inside a step: reads that expire rows take no lock, and two of them at once are not modelled.
- Heals.ReadConfidence: the number float() reads from a text is given with the call, and so are stored confidences; an integer is compared by its exact value, which rounding never carries across the threshold; JSON floats are not in the value type.
- Transitions.Decide: commands into release, run, test-case, integration and quality modules are oracles; what those modules do is not part of this model.
- Json.ParsePrint: floats and lone surrogates are not in the value type.
- Uuids.ParseUuid: the reader requires 32 hexadecimal digits after removing prefixes, braces and dashes, and is not claimed for texts outside that, for which Python's int() accepts underscores and other digits.
- Cursors.DecodeCursor: accepts at least the texts the encoder writes, and some others (members in another order, further members, numbers with leading zeros); Python's base64, JSON and ISO readers accept more and other spellings of a cursor.
- KillSwitch.RestoreUndoesTighten: the banner is not compared, because tightening overwrites it.
- find_pending_perf_high_risk, which reads the raw status without lazy expiry.
- Action summaries, rollback texts and other wording of the card; the card keeps action, target, redacted payload, level, snapshot, evaluation and hash.
- escalate_to is never set by this code; it is modelled as a field that stays empty.
- Model routes, connection tests, the cost dashboard and other operations of the governance module: one-branch facts or copies of the log listing.
- Copilot, generation and provider modules, mock servers, seed scripts, migrations and the frontend.
