/** Tightened capabilities of an organisation and their approved restoration. */
module KillSwitch {
  import opened Prelude
  import opened Json
  import opened PyValues

  datatype Banner = Absent | Cleared | Scope(name: string)

  /** capability_controls; a missing entry takes its default when the controls are next changed. */
  datatype Controls = Controls(
    globalTightened: Option<bool>, capabilities: Option<seq<string>>, modules: Option<seq<string>>,
    connectors: Option<seq<string>>, banner: Banner)

  datatype Target = Global | Ability(id: string) | Module(id: string) | Connector(id: string)

  function OrElse<T>(o: Option<T>, default: T): Option<T> {
    if o.Some? then o else Some(default)
  }

  /** The setdefault loop over DEFAULT_CAPABILITY_CONTROLS. */
  function Fill(c: Controls): (f: Controls)
    ensures f.globalTightened.Some? && f.capabilities.Some? && f.modules.Some? && f.connectors.Some?
  {
    Controls(OrElse(c.globalTightened, false), OrElse(c.capabilities, []), OrElse(c.modules, []),
             OrElse(c.connectors, []), c.banner)
  }

  /** _normalize_target: which switch a restore names. */
  function NormalizeTarget(repr: Json -> string, target: map<string, Json>): Result<Target> {
    var level := if "level" in target then PyStr(repr, target["level"]) else "";
    if level == "global" then Ok(Global)
    else if level == "ability" then
      var raw := GetOr(target, "capability_id", "id");
      if raw.Null? then Err(Validation) else Ok(Ability(PyStr(repr, raw)))
    else if level == "module" then
      var raw := GetOr(target, "module", "id");
      if raw.Null? then Err(Validation) else Ok(Module(PyStr(repr, raw)))
    else if level == "connector" then
      var raw := GetOr(target, "connector_id", "id");
      if raw.Null? then Err(Validation) else Ok(Connector(PyStr(repr, raw)))
    else Err(Validation)
  }

  /** The names of `names` outside `gone`, in their order. */
  function Minus(names: seq<string>, gone: set<string>): (r: seq<string>)
    ensures forall x :: x in r <==> x in names && x !in gone
  {
    if names == [] then []
    else if names[0] in gone then Minus(names[1..], gone)
    else [names[0]] + Minus(names[1..], gone)
  }

  /** _loosen_controls. */
  function Loosen(c: Controls, t: Target): Controls {
    var f := Fill(c);
    match t
    case Global => f.(globalTightened := Some(false), banner := Cleared)
    case Ability(id) =>
      var rest := Minus(f.capabilities.value, {id});
      f.(capabilities := Some(rest),
         banner := if rest == [] && !f.globalTightened.value then Cleared else f.banner)
    case Module(id) =>
      var rest := Minus(f.modules.value, {id});
      f.(modules := Some(rest),
         banner := if rest == [] && !f.globalTightened.value then Cleared else f.banner)
    case Connector(id) => f.(connectors := Some(Minus(f.connectors.value, {id})))
  }

  datatype Org = Org(controls: Controls, version: int)

  /** apply_kill_switch_restore on an organisation that exists. */
  function Restore(repr: Json -> string, org: Org, target: map<string, Json>): Result<Org> {
    match NormalizeTarget(repr, target)
    case Ok(t) => Ok(Org(Loosen(org.controls, t), org.version + 1))
    case Err(e) => Err(e)
  }

  class Organization {
    var controls: Controls
    var version: int

    function State(): Org
      reads this
    {
      Org(controls, version)
    }

    constructor (c: Controls, v: int)
      ensures State() == Org(c, v)
    {
      controls, version := c, v;
    }

    /** Loosens the controls in place; a target that names no switch changes nothing. */
    method ApplyRestore(repr: Json -> string, target: map<string, Json>) returns (r: Result<int>)
      modifies this
      ensures var next := Restore(repr, old(State()), target);
              State() == (if next.Ok? then next.value else old(State())) &&
              r == (if next.Ok? then Ok(version) else Err(next.error))
    {
      var normal := NormalizeTarget(repr, target);
      if normal.Err? {
        return Err(normal.error);
      }
      var updated := Fill(controls);
      match normal.value {
        case Global =>
          updated := updated.(globalTightened := Some(false));
          updated := updated.(banner := Cleared);
        case Ability(id) =>
          updated := updated.(capabilities := Some(Minus(updated.capabilities.value, {id})));
          if updated.capabilities.value == [] && !updated.globalTightened.value {
            updated := updated.(banner := Cleared);
          }
        case Module(id) =>
          updated := updated.(modules := Some(Minus(updated.modules.value, {id})));
          if updated.modules.value == [] && !updated.globalTightened.value {
            updated := updated.(banner := Cleared);
          }
        case Connector(id) =>
          updated := updated.(connectors := Some(Minus(updated.connectors.value, {id})));
      }
      controls := updated;
      version := version + 1;
      return Ok(version);
    }
  }

  // ---- What one restore does ----

  /** The id under its own key if that holds something, otherwise under "id". */
  predicate NamesId(repr: Json -> string, target: map<string, Json>, key: string, id: string) {
    if key in target && Truthy(target[key]) then id == PyStr(repr, target[key])
    else "id" in target && target["id"] != Null && id == PyStr(repr, target["id"])
  }

  /** The switch a target names. */
  predicate NamesSwitch(repr: Json -> string, target: map<string, Json>, t: Target) {
    && "level" in target
    && (var level := PyStr(repr, target["level"]);
        match t
        case Global => level == "global"
        case Ability(id) => level == "ability" && NamesId(repr, target, "capability_id", id)
        case Module(id) => level == "module" && NamesId(repr, target, "module", id)
        case Connector(id) => level == "connector" && NamesId(repr, target, "connector_id", id))
  }

  lemma {:induction false} TargetIsNamed(repr: Json -> string, target: map<string, Json>, t: Target)
    ensures NormalizeTarget(repr, target) == Ok(t) <==> NamesSwitch(repr, target, t)
    ensures NormalizeTarget(repr, target).Err? ==> NormalizeTarget(repr, target) == Err(Validation)
  {
    LevelsDiffer();
  }

  lemma {:induction false} LevelsDiffer()
    ensures "global" != "ability" && "global" != "module" && "global" != "connector"
    ensures "ability" != "module" && "ability" != "connector" && "module" != "connector"
  {
    assert "global"[0] == 'g' && "ability"[0] == 'a' && "module"[0] == 'm' && "connector"[0] == 'c';
  }

  /** The names listed, none if there is no list. */
  function Names(o: Option<seq<string>>): seq<string> {
    if o.Some? then o.value else []
  }

  /** `rest` is `names` without `gone`, otherwise in the same order. */
  ghost predicate IsWithout(names: seq<string>, gone: string, rest: seq<string>) {
    if names == [] then rest == []
    else if names[0] == gone then IsWithout(names[1..], gone, rest)
    else rest != [] && rest[0] == names[0] && IsWithout(names[1..], gone, rest[1..])
  }

  lemma {:induction false} MinusIsWithout(names: seq<string>, gone: string, rest: seq<string>)
    ensures IsWithout(names, gone, rest) <==> rest == Minus(names, {gone})
  {
    if names != [] {
      if names[0] == gone {
        MinusIsWithout(names[1..], gone, rest);
      } else if rest != [] {
        MinusIsWithout(names[1..], gone, rest[1..]);
        assert rest == [rest[0]] + rest[1..];
      }
    }
  }

  /**
    * One switch is off and no other is touched; the banner goes with the global switch, or with the last
    * ability or module while the global switch is off.
    */
  ghost predicate IsLoosened(c: Controls, t: Target, d: Controls) {
    var stays := c.globalTightened == Some(true) && t != Global;
    && d.globalTightened == Some(stays)
    && d.capabilities.Some? && d.modules.Some? && d.connectors.Some?
    && (if t.Ability? then IsWithout(Names(c.capabilities), t.id, d.capabilities.value)
        else d.capabilities.value == Names(c.capabilities))
    && (if t.Module? then IsWithout(Names(c.modules), t.id, d.modules.value) else d.modules.value == Names(c.modules))
    && (if t.Connector? then IsWithout(Names(c.connectors), t.id, d.connectors.value)
        else d.connectors.value == Names(c.connectors))
    && d.banner ==
       (if t == Global || (!stays && t.Ability? && d.capabilities.value == [])
          || (!stays && t.Module? && d.modules.value == [])
        then Cleared else c.banner)
  }

  lemma {:induction false} FillDefaults(c: Controls)
    ensures Fill(c) == Controls(Some(c.globalTightened == Some(true)), Some(Names(c.capabilities)),
                                Some(Names(c.modules)), Some(Names(c.connectors)), c.banner)
  {
    assert c.globalTightened.Some? ==> (c.globalTightened.value <==> c.globalTightened == Some(true));
  }

  lemma {:induction false} LoosenLoosens(c: Controls, t: Target)
    ensures IsLoosened(c, t, Loosen(c, t))
  {
    FillDefaults(c);
    match t
    case Global =>
    case Ability(id) => MinusIsWithout(Names(c.capabilities), id, Loosen(c, t).capabilities.value);
    case Module(id) => MinusIsWithout(Names(c.modules), id, Loosen(c, t).modules.value);
    case Connector(id) => MinusIsWithout(Names(c.connectors), id, Loosen(c, t).connectors.value);
  }

  /** A restore succeeds exactly when its target names a switch, and then turns off that one, with one version more. */
  lemma {:induction false} RestoreTurnsOff(repr: Json -> string, org: Org, target: map<string, Json>)
    ensures var r := Restore(repr, org, target);
            && (r.Ok? <==> exists t :: NamesSwitch(repr, target, t))
            && (r.Err? ==> r.error == Validation)
            && (forall t | NamesSwitch(repr, target, t) ::
                  r.Ok? && IsLoosened(org.controls, t, r.value.controls) && r.value.version == org.version + 1)
  {
    var normal := NormalizeTarget(repr, target);
    forall t ensures normal == Ok(t) <==> NamesSwitch(repr, target, t) {
      TargetIsNamed(repr, target, t);
    }
    if normal.Ok? {
      assert NamesSwitch(repr, target, normal.value);
      LoosenLoosens(org.controls, normal.value);
    } else {
      TargetIsNamed(repr, target, Global);
    }
  }

  // ---- Any number of restores, in any order ----

  function RestoreAll(org: Org, ts: seq<Target>): Org {
    if ts == [] then org
    else
      var before := RestoreAll(org, ts[..|ts| - 1]);
      Org(Loosen(before.controls, ts[|ts| - 1]), before.version + 1)
  }

  function AbilityNames(ts: set<Target>): set<string> {
    set t | t in ts && t.Ability? :: t.id
  }

  function ModuleNames(ts: set<Target>): set<string> {
    set t | t in ts && t.Module? :: t.id
  }

  function ConnectorNames(ts: set<Target>): set<string> {
    set t | t in ts && t.Connector? :: t.id
  }

  /** What a set of restores comes to: nothing in it depends on an order. */
  function Restored(c: Controls, ts: set<Target>): Controls {
    var f := Fill(c);
    var capabilities := Minus(f.capabilities.value, AbilityNames(ts));
    var modules := Minus(f.modules.value, ModuleNames(ts));
    var tightened := f.globalTightened.value && Global !in ts;
    var cleared := Global in ts ||
                   (!tightened && AbilityNames(ts) != {} && capabilities == []) ||
                   (!tightened && ModuleNames(ts) != {} && modules == []);
    Controls(Some(tightened), Some(capabilities), Some(modules),
             Some(Minus(f.connectors.value, ConnectorNames(ts))),
             if cleared then Cleared else f.banner)
  }

  lemma {:induction false} MinusNothing(names: seq<string>)
    ensures Minus(names, {}) == names
  {
    if names != [] {
      MinusNothing(names[1..]);
      assert names == [names[0]] + names[1..];
    }
  }

  lemma {:induction false} MinusTwice(names: seq<string>, a: set<string>, b: set<string>)
    ensures Minus(Minus(names, a), b) == Minus(names, a + b)
  {
    if names != [] {
      MinusTwice(names[1..], a, b);
      if names[0] !in a {
        assert Minus(names, a)[1..] == Minus(names[1..], a);
      }
    }
  }

  lemma {:induction false} NamesOfMore(ts: set<Target>, t: Target)
    ensures AbilityNames(ts + {t}) == if t.Ability? then AbilityNames(ts) + {t.id} else AbilityNames(ts)
    ensures ModuleNames(ts + {t}) == if t.Module? then ModuleNames(ts) + {t.id} else ModuleNames(ts)
    ensures ConnectorNames(ts + {t}) == if t.Connector? then ConnectorNames(ts) + {t.id} else ConnectorNames(ts)
    ensures t.Ability? ==> t.id in AbilityNames(ts + {t})
    ensures t.Module? ==> t.id in ModuleNames(ts + {t})
  {
    assert t in ts + {t};
  }

  lemma {:induction false} LoosenRestored(c: Controls, ts: set<Target>, t: Target)
    ensures Loosen(Restored(c, ts), t) == Restored(c, ts + {t})
  {
    var f := Fill(c);
    NamesOfMore(ts, t);
    match t
    case Global =>
    case Ability(id) => MinusTwice(f.capabilities.value, AbilityNames(ts), {id});
    case Module(id) => MinusTwice(f.modules.value, ModuleNames(ts), {id});
    case Connector(id) => MinusTwice(f.connectors.value, ConnectorNames(ts), {id});
  }

  lemma {:induction false} MembersOfMore(ts: seq<Target>)
    requires ts != []
    ensures Members(ts) == Members(ts[..|ts| - 1]) + {ts[|ts| - 1]}
  {
    var init, t := ts[..|ts| - 1], ts[|ts| - 1];
    assert ts == init + [t];
    assert forall x :: x in ts <==> x in init || x == t;
  }

  lemma {:induction false} LoosenFills(c: Controls, t: Target)
    ensures Loosen(Fill(c), t) == Loosen(c, t) && Fill(Loosen(c, t)) == Loosen(c, t)
  {
    assert Fill(Fill(c)) == Fill(c);
  }

  /** Restores commute, repeat harmlessly and only loosen; the version counts them. */
  lemma {:induction false} RestoresComeToTheirSet(org: Org, ts: seq<Target>)
    ensures var after := RestoreAll(org, ts);
            Fill(after.controls) == Restored(org.controls, Members(ts)) && after.version == org.version + |ts|
  {
    var f := Fill(org.controls);
    if ts == [] {
      MinusNothing(f.capabilities.value);
      MinusNothing(f.modules.value);
      MinusNothing(f.connectors.value);
      assert Members(ts) == {};
      assert AbilityNames({}) == {} && ModuleNames({}) == {} && ConnectorNames({}) == {};
    } else {
      var init, t := ts[..|ts| - 1], ts[|ts| - 1];
      RestoresComeToTheirSet(org, init);
      LoosenRestored(org.controls, Members(init), t);
      LoosenFills(RestoreAll(org, init).controls, t);
      MembersOfMore(ts);
    }
  }

  /** Two runs of restores naming the same switches leave the same controls. */
  lemma {:induction false} RestoresCommute(org: Org, ts: seq<Target>, us: seq<Target>)
    requires Members(ts) == Members(us)
    ensures Fill(RestoreAll(org, ts).controls) == Fill(RestoreAll(org, us).controls)
  {
    RestoresComeToTheirSet(org, ts);
    RestoresComeToTheirSet(org, us);
  }

  // ---- Tightening and restoring ----

  function Added(names: seq<string>, id: string): seq<string> {
    if id in names then names else names + [id]
  }

  /** _tighten_controls. */
  function Tighten(c: Controls, t: Target): Controls {
    var f := Fill(c);
    match t
    case Global => f.(globalTightened := Some(true), banner := Scope("global"))
    case Ability(id) => f.(capabilities := Some(Added(f.capabilities.value, id)), banner := Scope(id))
    case Module(id) => f.(modules := Some(Added(f.modules.value, id)), banner := Scope(id))
    case Connector(id) => f.(connectors := Some(Added(f.connectors.value, id)), banner := Scope(id))
  }

  /** Whether a switch is on. */
  predicate IsTightened(c: Controls, t: Target) {
    var f := Fill(c);
    match t
    case Global => f.globalTightened.value
    case Ability(id) => id in f.capabilities.value
    case Module(id) => id in f.modules.value
    case Connector(id) => id in f.connectors.value
  }

  lemma {:induction false} MinusOfAppended(names: seq<string>, id: string)
    ensures Minus(names + [id], {id}) == Minus(names, {id})
  {
    if names != [] {
      assert (names + [id])[1..] == names[1..] + [id];
      MinusOfAppended(names[1..], id);
    }
  }

  lemma {:induction false} MinusAbsent(names: seq<string>, id: string)
    ensures Minus(names, {id}) == names <==> id !in names
  {
    if names != [] {
      if names[0] != id {
        MinusAbsent(names[1..], id);
        assert names == [names[0]] + names[1..];
      } else {
        MinusIsNoLonger(names[1..], {id});
      }
    }
  }

  lemma {:induction false} MinusIsNoLonger(names: seq<string>, gone: set<string>)
    ensures |Minus(names, gone)| <= |names|
  {
    if names != [] { MinusIsNoLonger(names[1..], gone); }
  }

  /** Restoring what was just tightened gives back flag and lists if and only if it was not tightened before. */
  lemma {:induction false} RestoreUndoesTighten(c: Controls, t: Target)
    ensures Loosen(Tighten(c, t), t).(banner := Absent) == Fill(c).(banner := Absent) <==> !IsTightened(c, t)
  {
    var f := Fill(c);
    match t
    case Global =>
    case Ability(id) =>
      MinusOfAppended(f.capabilities.value, id);
      MinusAbsent(f.capabilities.value, id);
    case Module(id) =>
      MinusOfAppended(f.modules.value, id);
      MinusAbsent(f.modules.value, id);
    case Connector(id) =>
      MinusOfAppended(f.connectors.value, id);
      MinusAbsent(f.connectors.value, id);
  }
}
