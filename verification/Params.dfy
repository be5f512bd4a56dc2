/** What an approval is bound to: the parameters, their canonical text and its hash. */
module Params {
  import opened Prelude
  import opened Json
  import opened Uuids

  type Payload = map<string, Json>

  datatype Params = Params(
    actionType: string,
    targetType: string,
    targetId: Uuid,
    projectId: Option<Uuid>,
    payload: Payload,
    targetVersion: Option<int>)

  /** The names of the serialised entries. */
  datatype Keys = Keys(
    actionType: string, payload: string, targetId: string, targetType: string, project: string, version: string)

  const KEYS := Keys(
    "action_type", "payload", "target_object_id", "target_object_type", "project_id", "expected_target_version")

  predicate Distinct(k: Keys) {
    && k.actionType !in {k.payload, k.targetId, k.targetType, k.project, k.version}
    && k.payload !in {k.targetId, k.targetType, k.project, k.version}
    && k.targetId !in {k.targetType, k.project, k.version}
    && k.targetType !in {k.project, k.version}
    && k.project != k.version
  }

  lemma {:induction false} KeysAreDistinct()
    ensures Distinct(KEYS)
  {
    assert |KEYS.actionType| == 11 && |KEYS.payload| == 7 && |KEYS.targetId| == 16;
    assert |KEYS.targetType| == 18 && |KEYS.project| == 10 && |KEYS.version| == 23;
  }

  /** The dictionary that is serialised; the two optional entries are left out when absent. */
  function Fields(k: Keys, p: Params): map<string, Json> {
    map[k.actionType := Str(p.actionType),
        k.payload := Obj(p.payload),
        k.targetId := Str(UuidText(p.targetId)),
        k.targetType := Str(p.targetType)]
    + (if p.projectId.Some? then map[k.project := Str(UuidText(p.projectId.value))] else map[])
    + (if p.targetVersion.Some? then map[k.version := Num(p.targetVersion.value)] else map[])
  }

  function CanonicalText(p: Params): string {
    Print(Obj(Fields(KEYS, p)))
  }

  /** compute_param_hash: `sha` stands for the hexadecimal SHA-256 digest of a text. */
  function ParamHash(sha: string -> string, p: Params): string {
    sha(CanonicalText(p))
  }

  // ---- Recovering the parameters ----

  function StringAt(f: map<string, Json>, key: string): Option<string> {
    if key in f && f[key].Str? then Some(f[key].s) else None
  }

  function UuidAt(f: map<string, Json>, key: string): Option<Uuid> {
    var text := StringAt(f, key);
    if text.Some? then ParseUuid(text.value) else None
  }

  function ReadFields(k: Keys, f: map<string, Json>): Option<Params> {
    var action, target, id := StringAt(f, k.actionType), StringAt(f, k.targetType), UuidAt(f, k.targetId);
    if action.None? || target.None? || id.None? || k.payload !in f || !f[k.payload].Obj? then None
    else
      var version := if k.version in f && f[k.version].Num? then Some(f[k.version].n) else None;
      Some(Params(action.value, target.value, id.value, UuidAt(f, k.project), f[k.payload].fields, version))
  }

  function ReadParams(text: string): Option<Params> {
    match Parse(text)
    case Some(Obj(f)) => ReadFields(KEYS, f)
    case _ => None
  }

  /** Each parameter stands under its own name, an absent one under none. */
  lemma {:induction false} FieldLookups(k: Keys, p: Params)
    requires Distinct(k)
    ensures var f := Fields(k, p);
            && StringAt(f, k.actionType) == Some(p.actionType) && StringAt(f, k.targetType) == Some(p.targetType)
            && StringAt(f, k.targetId) == Some(UuidText(p.targetId))
            && k.payload in f && f[k.payload] == Obj(p.payload)
            && StringAt(f, k.project) == (if p.projectId.Some? then Some(UuidText(p.projectId.value)) else None)
            && (k.version in f <==> p.targetVersion.Some?)
            && (p.targetVersion.Some? ==> f[k.version] == Num(p.targetVersion.value))
  {
  }

  lemma {:induction false} UuidIsRead(f: map<string, Json>, key: string, u: Option<Uuid>)
    requires StringAt(f, key) == (if u.Some? then Some(UuidText(u.value)) else None)
    ensures UuidAt(f, key) == u
  {
    if u.Some? {
      ParseText(u.value);
    }
  }

  lemma {:induction false} FieldsReadBack(k: Keys, p: Params)
    requires Distinct(k)
    ensures ReadFields(k, Fields(k, p)) == Some(p)
  {
    var f := Fields(k, p);
    FieldLookups(k, p);
    UuidIsRead(f, k.targetId, Some(p.targetId));
    UuidIsRead(f, k.project, p.projectId);
  }

  /** The parameters can be read back from the text that is hashed. */
  lemma {:induction false} CanonicalTextReadsBack(p: Params)
    ensures ReadParams(CanonicalText(p)) == Some(p)
  {
    KeysAreDistinct();
    FieldsReadBack(KEYS, p);
    ParsePrint(Obj(Fields(KEYS, p)));
  }

  /** Different parameters, absent and present optional ones included, have different canonical texts. */
  lemma {:induction false} CanonicalTextIsInjective(p: Params, q: Params)
    requires CanonicalText(p) == CanonicalText(q)
    ensures p == q
  {
    CanonicalTextReadsBack(p);
    CanonicalTextReadsBack(q);
  }

  /** Two different texts with the same digest. */
  predicate Collision(sha: string -> string, s: string, t: string) {
    s != t && sha(s) == sha(t)
  }

  /** Equal hashes mean equal parameters, unless their two canonical texts are a collision of the digest. */
  lemma {:induction false} HashBindsParameters(sha: string -> string, p: Params, q: Params)
    ensures ParamHash(sha, p) == ParamHash(sha, q) <==> p == q || Collision(sha, CanonicalText(p), CanonicalText(q))
  {
    if CanonicalText(p) == CanonicalText(q) {
      CanonicalTextIsInjective(p, q);
    }
  }
}
