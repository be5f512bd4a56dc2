/** The policy gate: which side-effect level an action has, and what the gate makes of it. */
module PolicyGate {
  import opened Prelude
  import opened Params

  datatype Action =
    | JiraWrite | HealApply | PerfHighRisk | ReleasePush | EnvRegister
    | AgentToolAction | GateWaiver | KillSwitchRestore | CopilotWrite
    | Undeclared(name: string)

  function ActionName(a: Action): string {
    match a
    case JiraWrite => "jira_write"
    case HealApply => "heal_apply"
    case PerfHighRisk => "perf_high_risk"
    case ReleasePush => "release_push"
    case EnvRegister => "env_register"
    case AgentToolAction => "agent_tool_action"
    case GateWaiver => "gate_waiver"
    case KillSwitchRestore => "kill_switch_restore"
    case CopilotWrite => "copilot_write"
    case Undeclared(name) => name
  }

  datatype Level = L0 | L1 | L2 | L3 | L4

  function LevelNamed(s: string): Option<Level> {
    if s == "L0" then Some(L0)
    else if s == "L1" then Some(L1)
    else if s == "L2" then Some(L2)
    else if s == "L3" then Some(L3)
    else if s == "L4" then Some(L4)
    else None
  }

  /** resolve_side_effect_level. */
  function ResolveLevel(a: Action, payload: Payload): Option<Level> {
    match a
    case JiraWrite => Some(L2)
    case EnvRegister => Some(L3)
    case HealApply => Some(L3)
    case PerfHighRisk => Some(L3)
    case GateWaiver => Some(L3)
    case KillSwitchRestore => Some(L3)
    case ReleasePush => Some(L4)
    case AgentToolAction =>
      if "declared_side_effect_level" in payload && payload["declared_side_effect_level"].Str?
      then LevelNamed(payload["declared_side_effect_level"].s)
      else None
    case CopilotWrite => None
    case Undeclared(_) => None
  }

  datatype Gate = Allow | Deny | RequireApproval | RequireReauth
  datatype DenyReason = DenyUndeclared | DenyState

  datatype Evaluation = Evaluation(gate: Gate, level: Option<Level>, denyReason: Option<DenyReason>)

  /** evaluate_policy_gate. */
  function EvaluateGate(a: Action, payload: Payload, reauthRequired: bool): Evaluation {
    if a.Undeclared? then Evaluation(Deny, None, Some(DenyUndeclared))
    else if a.CopilotWrite? then Evaluation(Deny, None, Some(DenyState))
    else
      var level := ResolveLevel(a, payload);
      if level.None? then Evaluation(Deny, None, Some(DenyUndeclared))
      else if a.PerfHighRisk? then Evaluation(Deny, level, Some(DenyUndeclared))
      else
        match level.value
        case L0 => Evaluation(Allow, level, None)
        case L1 => Evaluation(Allow, level, None)
        case L2 => Evaluation(RequireApproval, level, None)
        case L3 => Evaluation(if reauthRequired then Gate.RequireReauth else RequireApproval, level, None)
        case L4 => Evaluation(if reauthRequired then Gate.RequireReauth else RequireApproval, level, None)
  }

  predicate ProjectScoped(a: Action) {
    a in {JiraWrite, HealApply, PerfHighRisk, ReleasePush, EnvRegister, AgentToolAction, GateWaiver}
  }

  predicate OrgScoped(a: Action) {
    a.KillSwitchRestore?
  }

  // ---- What the levels are ----

  function LevelName(l: Level): string {
    match l
    case L0 => "L0"
    case L1 => "L1"
    case L2 => "L2"
    case L3 => "L3"
    case L4 => "L4"
  }

  /** Jira writes are L2, release pushes L4, other declared actions L3; an agent's action has the level it declares. */
  predicate HasLevel(a: Action, payload: Payload, l: Level) {
    match a
    case JiraWrite => l == L2
    case ReleasePush => l == L4
    case AgentToolAction =>
      && "declared_side_effect_level" in payload && payload["declared_side_effect_level"].Str?
      && payload["declared_side_effect_level"].s == LevelName(l)
    case CopilotWrite => false
    case Undeclared(_) => false
    case _ => l == L3
  }

  lemma {:induction false} LevelNamesDiffer(s: string, l: Level)
    ensures LevelNamed(s) == Some(l) <==> s == LevelName(l)
  {
    assert LevelName(L0)[1] == '0' && LevelName(L1)[1] == '1' && LevelName(L2)[1] == '2';
    assert LevelName(L3)[1] == '3' && LevelName(L4)[1] == '4';
  }

  lemma {:induction false} LevelIsAsListed(a: Action, payload: Payload, l: Level)
    ensures ResolveLevel(a, payload) == Some(l) <==> HasLevel(a, payload, l)
  {
    if a.AgentToolAction? && "declared_side_effect_level" in payload && payload["declared_side_effect_level"].Str? {
      LevelNamesDiffer(payload["declared_side_effect_level"].s, l);
    }
  }

  /**
    * The gate by levels: an action without one, and a performance run, is denied, L0 and L1 are allowed, L2 requires
    * an approval, and so do L3 and L4 unless the session must authenticate again.
    */
  lemma {:induction false} GateIsDecidedByLevel(a: Action, payload: Payload, reauth: bool)
    ensures var e := EvaluateGate(a, payload, reauth);
            var declared := exists l :: HasLevel(a, payload, l);
            var high := HasLevel(a, payload, L3) || HasLevel(a, payload, L4);
            && (e.gate.Deny? <==> a.PerfHighRisk? || !declared)
            && (e.gate.Allow? <==> HasLevel(a, payload, L0) || HasLevel(a, payload, L1))
            && (e.gate.RequireApproval? <==> HasLevel(a, payload, L2) || (high && !a.PerfHighRisk? && !reauth))
            && (e.gate.RequireReauth? <==> high && !a.PerfHighRisk? && reauth)
            && (e.gate.Deny? ==> e.denyReason == Some(if a.CopilotWrite? then DenyState else DenyUndeclared))
            && (forall l :: HasLevel(a, payload, l) <==> e.level == Some(l))
  {
    forall l: Level ensures ResolveLevel(a, payload) == Some(l) <==> HasLevel(a, payload, l) {
      LevelIsAsListed(a, payload, l);
    }
    var level := ResolveLevel(a, payload);
    assert level.Some? ==> HasLevel(a, payload, level.value);
  }
}
