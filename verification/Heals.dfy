/** The check of a heal_apply preview: confidences, the failure cluster and the test case. */
module Heals {
  import opened Prelude
  import opened Json
  import opened PyValues
  import opened Uuids
  import opened Params

  datatype TestCase = TestCase(active: bool, currentVersion: Option<Uuid>, version: int)

  // ---- Confidences ----

  /** A floating-point number, by its exact value. */
  datatype Float = NotANumber | MinusInfinity | PlusInfinity | Finite(x: real)

  /** The floating-point number nearest to 0.7. */
  const THRESHOLD: real := 3152519739159347.0 / 4503599627370496.0

  /** c < 0.7, which no comparison with a NaN is. */
  predicate Low(c: Float) {
    c.MinusInfinity? || (c.Finite? && c.x < THRESHOLD)
  }

  /** What float() does: a number, a ValueError or TypeError, or an OverflowError. */
  datatype Reading = Read(c: Float) | Unreadable | Overflows

  /** 2^1024 - 2^970, the least integer that rounds beyond the floating-point numbers. */
  function FloatEnd(): int {
    Pow16(256) - 4 * Pow16(242)
  }

  /**
    * What the check looks up: the text of a list or dictionary, the number a text stands for, the confidences of
    * failure clusters and the test cases.
    */
  datatype HealFacts = HealFacts(
    repr: Json -> string, parse: string -> Option<Float>, clusters: map<Uuid, Float>, cases: map<Uuid, TestCase>)

  /** float(v); that an integer is rounded never carries it across the threshold. */
  function ReadConfidence(f: HealFacts, v: Json): Reading {
    match v
    case Bool(b) => Read(Finite(if b then 1.0 else 0.0))
    case Num(n) => if -FloatEnd() < n < FloatEnd() then Read(Finite(n as real)) else Overflows
    case Str(s) => if f.parse(s).Some? then Read(f.parse(s).value) else Unreadable
    case _ => Unreadable
  }

  /** A confidence the payload states must be a number and not be low; an overflow is caught nowhere. */
  function CheckConfidence(f: HealFacts, stated: Json): Option<Error> {
    if stated.Null? then None
    else
      match ReadConfidence(f, stated)
      case Read(c) => if Low(c) then Some(PolicyDeny) else None
      case Unreadable => Some(Validation)
      case Overflows => Some(Uncaught)
  }

  // ---- The check ----

  /** _validate_heal_apply_preview: the version to roll back to, or why not. */
  function CheckHeal(f: HealFacts, target: Uuid, payload: Payload, expectedVersion: Option<int>): Result<Uuid> {
    var raw := Get(payload, "failure_cluster_id");
    var cluster := ParseUuid(PyStr(f.repr, raw));
    var stated := CheckConfidence(f, Get(payload, "cluster_confidence"));
    var fix := CheckConfidence(f, Get(payload, "fix_confidence"));
    if raw.Null? || cluster.None? then Err(Validation)
    else if stated.Some? then Err(stated.value)
    else if fix.Some? then Err(fix.value)
    else if cluster.value !in f.clusters then Err(NotFound)
    else if Low(f.clusters[cluster.value]) then Err(PolicyDeny)
    else CheckCase(f, target, expectedVersion)
  }

  function CheckCase(f: HealFacts, target: Uuid, expectedVersion: Option<int>): Result<Uuid> {
    if target !in f.cases then Err(NotFound)
    else
      var testCase := f.cases[target];
      if !testCase.active || testCase.currentVersion.None? then Err(StateConsumed)
      else if expectedVersion.Some? && testCase.version != expectedVersion.value then Err(VersionConflict)
      else Ok(testCase.currentVersion.value)
  }

  /** The check as it runs, leaving at the first fault. */
  method ValidateHealApplyPreview(f: HealFacts, target: Uuid, payload: Payload, expectedVersion: Option<int>)
    returns (r: Result<Uuid>)
    ensures r == CheckHeal(f, target, payload, expectedVersion)
  {
    var raw := Get(payload, "failure_cluster_id");
    if raw.Null? {
      return Err(Validation);
    }
    var cluster := ParseUuid(PyStr(f.repr, raw));
    if cluster.None? {
      return Err(Validation);
    }
    var fault := CheckConfidence(f, Get(payload, "cluster_confidence"));
    if fault.Some? {
      return Err(fault.value);
    }
    fault := CheckConfidence(f, Get(payload, "fix_confidence"));
    if fault.Some? {
      return Err(fault.value);
    }
    if cluster.value !in f.clusters {
      return Err(NotFound);
    }
    if Low(f.clusters[cluster.value]) {
      return Err(PolicyDeny);
    }
    if target !in f.cases {
      return Err(NotFound);
    }
    var testCase := f.cases[target];
    if !testCase.active || testCase.currentVersion.None? {
      return Err(StateConsumed);
    }
    if expectedVersion.Some? && testCase.version != expectedVersion.value {
      return Err(VersionConflict);
    }
    return Ok(testCase.currentVersion.value);
  }

  // ---- What a passed heal rests on ----

  const CONFIDENCES := ["cluster_confidence", "fix_confidence"]

  /** The value states no confidence, or one that is a number and not low. */
  predicate Confident(f: HealFacts, stated: Json) {
    stated.Null? || (ReadConfidence(f, stated).Read? && !Low(ReadConfidence(f, stated).c))
  }

  /**
    * No stated confidence is low, the cluster is known with confidence, and the case is active at the
    * expected version.
    */
  predicate Healable(f: HealFacts, target: Uuid, payload: Payload, expectedVersion: Option<int>) {
    && (forall key | key in CONFIDENCES :: Confident(f, Get(payload, key)))
    && !Get(payload, "failure_cluster_id").Null?
    && (var cluster := ParseUuid(PyStr(f.repr, Get(payload, "failure_cluster_id")));
        cluster.Some? && cluster.value in f.clusters && !Low(f.clusters[cluster.value]))
    && target in f.cases && f.cases[target].active && f.cases[target].currentVersion.Some?
    && (expectedVersion.Some? ==> f.cases[target].version == expectedVersion.value)
  }

  /** A heal passes exactly when it is healable, and then rolls back to the version the case has now. */
  lemma {:induction false} HealPassesExactlyWhen(
      f: HealFacts, target: Uuid, payload: Payload, expectedVersion: Option<int>)
    ensures var r := CheckHeal(f, target, payload, expectedVersion);
            && (r.Ok? <==> Healable(f, target, payload, expectedVersion))
            && (r.Ok? ==> Some(r.value) == f.cases[target].currentVersion)
  {
    assert CONFIDENCES[0] in CONFIDENCES && CONFIDENCES[1] in CONFIDENCES;
  }

  /**
    * Naming a version pins a heal to it: of the heals that pass without naming one, exactly those of the version the
    * case has now pass with one, to the same effect, and the others are in conflict.
    */
  lemma {:induction false} VersionPinsHeal(f: HealFacts, target: Uuid, payload: Payload, version: int)
    ensures var free, pinned := CheckHeal(f, target, payload, None), CheckHeal(f, target, payload, Some(version));
            && (pinned.Ok? <==> free.Ok? && f.cases[target].version == version)
            && (free.Ok? ==> pinned == if f.cases[target].version == version then free else Err(VersionConflict))
            && (free.Err? ==> pinned == free)
  {
    HealPassesExactlyWhen(f, target, payload, None);
    HealPassesExactlyWhen(f, target, payload, Some(version));
  }

  /** What is stated is nothing, or a number at least as high. */
  predicate StatesAtLeast(f: HealFacts, stated: Json, other: Json) {
    || other.Null?
    || (!stated.Null? && ReadConfidence(f, stated).Read? && ReadConfidence(f, other).Read?
        && ReachesUp(ReadConfidence(f, stated).c, ReadConfidence(f, other).c))
  }

  predicate ReachesUp(c: Float, d: Float) {
    c == d || c.MinusInfinity? || d.PlusInfinity? || (c.Finite? && d.Finite? && c.x <= d.x)
  }

  /** A heal that passes does so with any higher confidences, and without stating them, to the same effect. */
  lemma {:induction false} HigherConfidencePasses(
      f: HealFacts, target: Uuid, payload: Payload, other: Payload, expectedVersion: Option<int>)
    requires CheckHeal(f, target, payload, expectedVersion).Ok?
    requires Get(other, "failure_cluster_id") == Get(payload, "failure_cluster_id")
    requires forall key | key in CONFIDENCES :: StatesAtLeast(f, Get(payload, key), Get(other, key))
    ensures CheckHeal(f, target, other, expectedVersion) == CheckHeal(f, target, payload, expectedVersion)
  {
    HealPassesExactlyWhen(f, target, payload, expectedVersion);
    HealPassesExactlyWhen(f, target, other, expectedVersion);
  }
}
