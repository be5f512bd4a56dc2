/**
  * The commands a request stands to have caused at a moment: those issued, and the cancellation that is due
  * if it is late.
  */
module StandingCalls {
  import opened Prelude
  import opened Uuids
  import opened Timestamps
  import opened Ledger
  import opened Transitions
  import opened Invariants
  import opened Steps
  import opened Listings

  /** A late performance request still has to cancel its run. */
  function CancelsDue(a: Approval, now: int): seq<CommandKind> {
    if Overdue(a, now) && IsPerfRun(a) then [CancelRun] else []
  }

  function Calls(s: State, id: Uuid, now: int): seq<CommandKind> {
    CommandsOf(s.commands, id) + (if id in s.approvals then CancelsDue(s.approvals[id], now) else [])
  }

  ghost predicate SameCalls(s: State, e: State, now: int) {
    forall id: Uuid :: Calls(s, id, now) == Calls(e, id, now)
  }

  /** From `s` to `t` only the request `who` causes more commands. */
  ghost predicate AddsCalls(s: State, t: State, now: int, who: Uuid, kinds: seq<CommandKind>) {
    forall id: Uuid :: Calls(t, id, now) == Calls(s, id, now) + (if id == who then kinds else [])
  }

  lemma {:induction false} SameCallsAfter(
      s: State, e: State, t: State, u: State, now: int, who: Uuid, kinds: seq<CommandKind>)
    requires SameCalls(s, e, now) && AddsCalls(s, t, now, who, kinds) && AddsCalls(e, u, now, who, kinds)
    ensures SameCalls(t, u, now)
  {
    forall id: Uuid ensures Calls(t, id, now) == Calls(u, id, now) {
      assert Calls(s, id, now) == Calls(e, id, now);
    }
  }

  lemma {:induction false} AddsJoin(s: State, t: State, u: State, now: int, who: Uuid, kinds: seq<CommandKind>)
    requires SameCalls(s, t, now) && AddsCalls(t, u, now, who, kinds)
    ensures AddsCalls(s, u, now, who, kinds)
  {
    forall id: Uuid ensures Calls(u, id, now) == Calls(s, id, now) + (if id == who then kinds else []) {
      assert Calls(s, id, now) == Calls(t, id, now);
    }
  }

  lemma {:induction false} SameAdds(s: State, t: State, now: int, who: Uuid)
    requires SameCalls(s, t, now)
    ensures AddsCalls(s, t, now, who, [])
  {
    forall id: Uuid ensures Calls(t, id, now) == Calls(s, id, now) + (if id == who then [] else []) {
      assert Calls(s, id, now) == Calls(t, id, now);
    }
  }

  lemma {:induction false} Untouched(s: State, t: State, now: int)
    requires t.approvals == s.approvals && t.commands == s.commands
    ensures SameCalls(s, t, now)
  {
  }

  lemma {:induction false} AddsThenUntouched(s: State, t: State, u: State, now: int, who: Uuid, kinds: seq<CommandKind>)
    requires AddsCalls(s, t, now, who, kinds) && u.approvals == t.approvals && u.commands == t.commands
    ensures AddsCalls(s, u, now, who, kinds)
  {
    forall id: Uuid ensures Calls(u, id, now) == Calls(s, id, now) + (if id == who then kinds else []) {
      assert Calls(t, id, now) == Calls(s, id, now) + (if id == who then kinds else []);
    }
  }

  function Kinds(c: Option<Command>): seq<CommandKind> {
    if c.Some? then [c.value.kind] else []
  }

  // ---- Elementary changes ----

  /** Expiring a late row turns the cancellation that was due into one that was issued. */
  lemma {:induction false} LazyExpireCalls(s: State, id: Uuid, now: int)
    requires id in s.approvals
    ensures SameCalls(s, LazyExpire(s, id, now), now)
  {
    var t, a := LazyExpire(s, id, now), s.approvals[id];
    var c := if Overdue(a, now) && IsPerfRun(a) then Some(Command(CancelRun, id, a.targetId)) else None;
    assert t.commands == WithCommand(s.commands, c);
    CommandsOfWith(s.commands, c, id);
    forall x: Uuid ensures Calls(s, x, now) == Calls(t, x, now) {
      if x != id {
        assert CommandsOf(t.commands, x) == CommandsOf(s.commands, x);
      }
    }
  }

  lemma {:induction false} ExpireAllCalls(s: State, ids: seq<Uuid>, now: int)
    requires forall id | id in ids :: id in s.approvals
    ensures SameCalls(s, ExpireAll(s, ids, now), now)
    decreases |ids|
  {
    if ids != [] {
      var t := LazyExpire(s, ids[0], now);
      var u := ExpireAll(t, ids[1..], now);
      LazyExpireCalls(s, ids[0], now);
      ExpireAllCalls(t, ids[1..], now);
      forall id: Uuid ensures Calls(s, id, now) == Calls(u, id, now) {
        assert Calls(s, id, now) == Calls(t, id, now) && Calls(t, id, now) == Calls(u, id, now);
      }
    }
  }

  /** A row that is not late is replaced by one that is not, with a command on its behalf or without. */
  lemma {:induction false} WriteCalls(s: State, t: State, now: int, id: Uuid, b: Approval, c: Option<Command>)
    requires id in s.approvals && !Overdue(s.approvals[id], now) && !Overdue(b, now)
    requires t.approvals == s.approvals[id := b] && t.commands == WithCommand(s.commands, c)
    requires c.Some? ==> c.value.approval == id
    ensures AddsCalls(s, t, now, id, Kinds(c))
  {
    CommandsOfWith(s.commands, c, id);
    forall x: Uuid ensures Calls(t, x, now) == Calls(s, x, now) + (if x == id then Kinds(c) else []) {
      if x != id {
        assert CommandsOf(t.commands, x) == CommandsOf(s.commands, x);
      }
    }
  }

  lemma {:induction false} InsertCalls(s: State, a: Approval, now: int)
    requires a.id !in s.approvals
    ensures AddsCalls(s, Insert(s, a), now, a.id, CancelsDue(a, now))
  {
  }

  // ---- Decision ----

  /** The command a decision sends, on the row as it stands. */
  function DecisionSends(h: Hasher, s: State, c: Caller, x: DecisionRequest, o: Outcomes): seq<CommandKind>
    requires x.approvalId in s.approvals
  {
    var a := s.approvals[x.approvalId];
    if JudgeDecision(h, a, c.user, x).None? then Kinds(Settle(a, c.user, x, o, s.envs, s.org).command) else []
  }

  lemma {:induction false} SettledLeavesPending(a: Approval, c: Caller, x: DecisionRequest, o: Outcomes, s: State)
    ensures var st := Settle(a, c.user, x, o, s.envs, s.org);
            st.row.id == a.id && !st.row.status.Pending? && (st.command.Some? ==> st.command.value.approval == a.id)
  {
    SettledFor(a, c.user, x, o, s.envs, s.org);
    ApprovedStatus(DecidedRow(a, c.user, Approve), c.user, x.hash, o, s.envs, s.org);
  }

  lemma {:induction false} AcceptedDecisionCalls(
      s: State, now: int, a: Approval, c: Caller, x: DecisionRequest, o: Outcomes)
    requires x.approvalId in s.approvals && a == s.approvals[x.approvalId] && a.id == x.approvalId && !Overdue(a, now)
    ensures AddsCalls(s, AcceptDecision(s, a, c, x, o).0, now, x.approvalId,
                      Kinds(Settle(a, c.user, x, o, s.envs, s.org).command))
  {
    var st := Settle(a, c.user, x, o, s.envs, s.org);
    var t := ApplySettlement(s, st);
    SettledLeavesPending(a, c, x, o, s);
    assert t.approvals == s.approvals[x.approvalId := st.row] && t.commands == WithCommand(s.commands, st.command);
    WriteCalls(s, t, now, x.approvalId, st.row, st.command);
    var entry, answer := DecisionAudit(a, c.user, x, true), Decided(Serialize(st.row, c.user));
    assert RememberDecision(Log(t, entry), x, answer).commands == t.commands;
    AddsThenUntouched(s, t, RememberDecision(Log(t, entry), x, answer), now, x.approvalId, Kinds(st.command));
  }

  lemma {:induction false} DecidedRowCalls(h: Hasher, s: State, now: int, c: Caller, x: DecisionRequest, o: Outcomes)
    requires x.approvalId in s.approvals && s.approvals[x.approvalId].id == x.approvalId
    requires !Overdue(s.approvals[x.approvalId], now)
    ensures AddsCalls(s, DecideRow(h, s, c, x, o).0, now, x.approvalId, DecisionSends(h, s, c, x, o))
  {
    var a := s.approvals[x.approvalId];
    var verdict := JudgeDecision(h, a, c.user, x);
    var t := DecideRow(h, s, c, x, o).0;
    if verdict.None? {
      AcceptedRow(h, s, c, x, o);
      AcceptedDecisionCalls(s, now, a, c, x, o);
    } else if verdict == Some(ParamHashMismatch) {
      assert t.commands == WithCommand(s.commands, None);
      WriteCalls(s, t, now, x.approvalId, ExpiredRow(a, Invalidated), None);
    } else {
      RefusedRow(h, s, c, x, o, verdict.value);
      Untouched(s, t, now);
      SameAdds(s, t, now, x.approvalId);
    }
  }

  // ---- Resubmission ----

  lemma {:induction false} AcceptedResubmissionCalls(
      s: State, now: int, c: Caller, x: ResubmitRequest, successor: Approval)
    requires x.originId in s.approvals && !Overdue(s.approvals[x.originId], now) && successor.id !in s.approvals
    ensures AddsCalls(s, AcceptResubmission(s, s.approvals[x.originId], c, x, successor).0, now, successor.id,
                      CancelsDue(successor, now))
  {
    var origin := s.approvals[x.originId];
    var s1 := s.(approvals := s.approvals[x.originId := WithdrawnRow(origin)]);
    assert s1.commands == WithCommand(s.commands, None);
    WriteCalls(s, s1, now, x.originId, WithdrawnRow(origin), None);
    forall id: Uuid ensures Calls(s, id, now) == Calls(s1, id, now) {
      assert Calls(s1, id, now) == Calls(s, id, now) + (if id == x.originId then Kinds(None) else []);
    }
    var s2 := Insert(s1, successor);
    InsertCalls(s1, successor, now);
    AddsJoin(s, s1, s2, now, successor.id, CancelsDue(successor, now));
    AddsThenUntouched(s, s2, AcceptResubmission(s, origin, c, x, successor).0, now, successor.id,
                      CancelsDue(successor, now));
  }

  /** What a resubmission adds: nothing, unless its successor is late at once. */
  function ResubmissionSends(
      h: Hasher, ttl: int, s: State, now: Stamp, c: Caller, x: ResubmitRequest, id: Uuid): seq<CommandKind>
    requires x.originId in s.approvals
  {
    var origin := s.approvals[x.originId];
    var r := JudgeResubmission(c, origin, x);
    if r.NotResubmitted? then [] else CancelsDue(ResubmittedRow(h, ttl, now, c, origin, x, r, id), Instant(now))
  }

  lemma {:induction false} ResubmittedRowCalls(
      h: Hasher, ttl: int, s: State, now: Stamp, c: Caller, x: ResubmitRequest, id: Uuid)
    requires x.originId in s.approvals && !Overdue(s.approvals[x.originId], Instant(now)) && id !in s.approvals
    ensures AddsCalls(s, ResubmitRow(h, ttl, s, now, c, x, id).0, Instant(now), id,
                      ResubmissionSends(h, ttl, s, now, c, x, id))
  {
    var origin := s.approvals[x.originId];
    var r := JudgeResubmission(c, origin, x);
    if r.NotResubmitted? {
      Untouched(s, s, Instant(now));
      SameAdds(s, s, Instant(now), id);
    } else {
      var successor := ResubmittedRow(h, ttl, now, c, origin, x, r, id);
      assert successor.id == id;
      AcceptedResubmissionCalls(s, Instant(now), c, x, successor);
    }
  }

  // ---- Expiring everything at once ----

  /** The cancellations due, in the order the requests were created. */
  function DueCommands(created: seq<Uuid>, rows: Approvals, now: int): seq<Command> {
    if created == [] then []
    else
      var id := created[|created| - 1];
      DueCommands(created[..|created| - 1], rows, now)
      + (if id in rows && CancelsDue(rows[id], now) != [] then [Command(CancelRun, id, rows[id].targetId)] else [])
  }

  lemma {:induction false} DueIsIssued(commands: seq<Command>, created: seq<Uuid>, rows: Approvals, now: int, id: Uuid)
    requires NoDuplicates(created)
    ensures CommandsOf(commands + DueCommands(created, rows, now), id) ==
            CommandsOf(commands, id) + (if id in created && id in rows then CancelsDue(rows[id], now) else [])
  {
    if created == [] {
      assert commands + DueCommands(created, rows, now) == commands;
    } else {
      var init, last := created[..|created| - 1], created[|created| - 1];
      DueIsIssued(commands, init, rows, now, id);
      assert id in created <==> id in init || id == last;
      assert last !in init;
      OneMoreDue(commands, created, rows, now, id);
    }
  }

  lemma {:induction false} OneMoreDue(commands: seq<Command>, created: seq<Uuid>, rows: Approvals, now: int, id: Uuid)
    requires created != []
    ensures var init, last := created[..|created| - 1], created[|created| - 1];
            CommandsOf(commands + DueCommands(created, rows, now), id) ==
            CommandsOf(commands + DueCommands(init, rows, now), id)
            + (if id == last && last in rows then CancelsDue(rows[last], now) else [])
  {
    var init, last := created[..|created| - 1], created[|created| - 1];
    var before := commands + DueCommands(init, rows, now);
    var c := if last in rows && CancelsDue(rows[last], now) != []
        then Some(Command(CancelRun, last, rows[last].targetId)) else None;
    assert commands + DueCommands(created, rows, now) == WithCommand(before, c);
    CommandsOfWith(before, c, last);
  }
}
