/** The invariant is kept by the elementary changes to the tables. */
module Preservation {
  import opened Prelude
  import opened Uuids
  import opened Environments
  import opened Ledger
  import opened Transitions
  import opened Invariants

  // ---- One row leaves PENDING ----

  lemma {:induction false} RowsAfterChange(h: Hasher, rows: Approvals, id: Uuid, b: Approval)
    requires RowsOk(h, rows) && id in rows && Evolves(rows[id], b) && RowOk(h, b)
    ensures RowsOk(h, rows[id := b])
  {
  }

  lemma {:induction false} OriginsAfterChange(rows: Approvals, created: seq<Uuid>, id: Uuid, b: Approval)
    requires OriginsOk(rows, created) && id in rows && Evolves(rows[id], b)
    ensures OriginsOk(rows[id := b], created)
  {
    var after := rows[id := b];
    forall x | x in after ensures OriginOk(after[x], after, created) {
      assert OriginOk(rows[x], rows, created);
    }
  }

  lemma {:induction false} PreviewsAfterChange(
      rows: Approvals, idem: map<IdemKey, IdemRecord>, previews: map<Uuid, PreviewRecord>, id: Uuid, b: Approval)
    requires PreviewsOk(rows, idem, previews) && id in rows && Evolves(rows[id], b)
    ensures PreviewsOk(rows[id := b], idem, previews)
  {
    forall p | p in previews ensures PreviewLinks(previews[p].payload, rows[id := b]) {
      assert PreviewLinks(previews[p].payload, rows);
    }
  }

  lemma {:induction false} EnvsAfterChange(rows: Approvals, envs: Envs, id: Uuid, b: Approval)
    requires EnvsOk(rows, envs) && id in rows && Evolves(rows[id], b)
    requires Activated(b) ==> Activated(rows[id])
    ensures EnvsOk(rows[id := b], envs)
  {
  }

  /** Activation: the environment was waiting, so no earlier approval had activated it. */
  lemma {:induction false} EnvsAfterActivation(rows: Approvals, envs: Envs, next: Envs, id: Uuid, b: Approval)
    requires EnvsOk(rows, envs) && id in rows && Evolves(rows[id], b)
    requires Activate(envs, b.targetId) == Ok(next)
    ensures EnvsOk(rows[id := b], next)
  {
    var after := rows[id := b];
    forall x | x in after && Activated(after[x])
      ensures after[x].targetId in next && next[after[x].targetId].status != PendingApproval
    {
    }
  }

  /** The audit and command history of every other row stays as it was. */
  ghost predicate OthersUntouched(
      id: Uuid, audit: seq<AuditEntry>, audit': seq<AuditEntry>, commands: seq<Command>, commands': seq<Command>)
  {
    forall x: Uuid | x != id ::
        Deciders(audit', x) == Deciders(audit, x) && CommandsOf(commands', x) == CommandsOf(commands, x)
  }

  lemma {:induction false} HistoryOfOther(
      a: Approval, id: Uuid, audit: seq<AuditEntry>, audit': seq<AuditEntry>, commands: seq<Command>,
      commands': seq<Command>)
    requires a.id != id && RowHistoryOk(a, audit, commands) && OthersUntouched(id, audit, audit', commands, commands')
    ensures RowHistoryOk(a, audit', commands')
  {
    var x := a.id;
    assert Deciders(audit', x) == Deciders(audit, x) && CommandsOf(commands', x) == CommandsOf(commands, x);
  }

  lemma {:induction false} HistoryAfterChange(
      rows: Approvals, audit: seq<AuditEntry>, commands: seq<Command>, id: Uuid, b: Approval,
      audit': seq<AuditEntry>, commands': seq<Command>)
    requires HistoryOk(rows, audit, commands) && id in rows && Evolves(rows[id], b)
    requires forall x | x in rows :: rows[x].id == x
    requires OthersUntouched(id, audit, audit', commands, commands')
    requires RowHistoryOk(b, audit', commands')
    ensures HistoryOk(rows[id := b], audit', commands')
  {
    var after := rows[id := b];
    forall x | x in after ensures RowHistoryOk(after[x], audit', commands') {
      if x != id {
        assert rows[x].id == x && RowHistoryOk(rows[x], audit, commands);
        HistoryOfOther(rows[x], id, audit, audit', commands, commands');
      }
    }
    forall x: Uuid | x !in after ensures Deciders(audit', x) == [] && CommandsOf(commands', x) == [] {
      assert Deciders(audit', x) == Deciders(audit, x) && CommandsOf(commands', x) == CommandsOf(commands, x);
    }
  }

  // ---- A row is added ----

  lemma {:induction false} RowsAfterInsert(h: Hasher, rows: Approvals, a: Approval)
    requires RowsOk(h, rows) && a.id !in rows && RowOk(h, a)
    ensures RowsOk(h, rows[a.id := a])
  {
  }

  lemma {:induction false} PrecedesInMore(created: seq<Uuid>, id: Uuid, x: Uuid, y: Uuid)
    requires Precedes(created, x, y)
    ensures Precedes(created + [id], x, y)
  {
    var i, j :| 0 <= i < j < |created| && created[i] == x && created[j] == y;
    assert (created + [id])[i] == x && (created + [id])[j] == y;
  }

  lemma {:induction false} PrecedesNewest(created: seq<Uuid>, id: Uuid, x: Uuid)
    requires x in created
    ensures Precedes(created + [id], x, id)
  {
    var i :| 0 <= i < |created| && created[i] == x;
    assert (created + [id])[i] == x && (created + [id])[|created|] == id;
  }

  lemma {:induction false} CreatedAfterInsert(rows: Approvals, created: seq<Uuid>, a: Approval)
    requires CreatedOk(rows, created) && a.id !in rows
    ensures CreatedOk(rows[a.id := a], created + [a.id])
  {
  }

  lemma {:induction false} OriginsAfterInsert(rows: Approvals, created: seq<Uuid>, a: Approval)
    requires OriginsOk(rows, created) && a.id !in rows
    requires OriginOk(a, rows[a.id := a], created + [a.id])
    ensures OriginsOk(rows[a.id := a], created + [a.id])
  {
    var after := rows[a.id := a];
    CreatedAfterInsert(rows, created, a);
    forall x | x in after ensures OriginOk(after[x], after, created + [a.id]) {
      if x != a.id {
        assert OriginOk(rows[x], rows, created);
        if rows[x].origin.Some? {
          PrecedesInMore(created, a.id, rows[x].origin.value, rows[x].id);
        }
      }
    }
  }

  lemma {:induction false} HistoryAfterInsert(
      rows: Approvals, audit: seq<AuditEntry>, commands: seq<Command>, a: Approval)
    requires HistoryOk(rows, audit, commands) && a.id !in rows && a.status.Pending?
    ensures HistoryOk(rows[a.id := a], audit, commands)
  {
  }

  lemma {:induction false} PreviewsAfterInsert(
      rows: Approvals, idem: map<IdemKey, IdemRecord>, previews: map<Uuid, PreviewRecord>, a: Approval)
    requires PreviewsOk(rows, idem, previews) && a.id !in rows
    ensures PreviewsOk(rows[a.id := a], idem, previews)
  {
    forall p | p in previews ensures PreviewLinks(previews[p].payload, rows[a.id := a]) {
      assert PreviewLinks(previews[p].payload, rows);
    }
  }

  lemma {:induction false} EnvsAfterInsert(rows: Approvals, envs: Envs, a: Approval)
    requires EnvsOk(rows, envs) && a.id !in rows && a.status.Pending?
    ensures EnvsOk(rows[a.id := a], envs)
  {
  }

  // ---- Audit entries that are no decisions, and idempotency records of other commands ----

  lemma {:induction false} HistoryAfterEntry(
      rows: Approvals, audit: seq<AuditEntry>, commands: seq<Command>, e: AuditEntry)
    requires HistoryOk(rows, audit, commands) && !(e.action.AuditDecision? && e.ok)
    ensures HistoryOk(rows, audit + [e], commands)
  {
    forall id: Uuid ensures Deciders(audit + [e], id) == Deciders(audit, id) {
      DecidersOfMore(audit, e, id);
    }
    forall id | id in rows ensures RowHistoryOk(rows[id], audit + [e], commands) {
      assert RowHistoryOk(rows[id], audit, commands);
    }
  }

  lemma {:induction false} PreviewsAfterRecord(
      rows: Approvals, idem: map<IdemKey, IdemRecord>, previews: map<Uuid, PreviewRecord>, k: IdemKey, r: IdemRecord)
    requires PreviewsOk(rows, idem, previews) && k !in idem
    requires k.command.ActionPreviewCommand? ==> AnswersPreview(r.response, previews)
    ensures PreviewsOk(rows, idem[k := r], previews)
  {
    forall p | p in previews ensures IsAnswer(previews[p].payload, idem[k := r]) {
      assert IsAnswer(previews[p].payload, idem);
      var j :| j in idem && j.command.ActionPreviewCommand? && idem[j].response == PreviewMade(previews[p].payload);
      assert j in idem[k := r] && idem[k := r][j] == idem[j];
    }
  }

  /** A preview is recorded together with the answer to its key. */
  lemma {:induction false} PreviewsAfterPreview(
      rows: Approvals, idem: map<IdemKey, IdemRecord>, previews: map<Uuid, PreviewRecord>, k: IdemKey, hash: string,
      record: PreviewRecord)
    requires PreviewsOk(rows, idem, previews)
    requires k.command.ActionPreviewCommand? && k !in idem && record.payload.previewId !in previews
    requires PreviewLinks(record.payload, rows)
    ensures PreviewsOk(rows, idem[k := IdemRecord(hash, PreviewMade(record.payload))],
                       previews[record.payload.previewId := record])
  {
    var idem' := idem[k := IdemRecord(hash, PreviewMade(record.payload))];
    var previews' := previews[record.payload.previewId := record];
    forall p | p in previews' ensures IsAnswer(previews'[p].payload, idem') {
      if p == record.payload.previewId {
        assert k in idem' && idem'[k].response == PreviewMade(previews'[p].payload);
      } else {
        assert IsAnswer(previews[p].payload, idem);
        var j :| j in idem && j.command.ActionPreviewCommand? && idem[j].response == PreviewMade(previews[p].payload);
        assert j in idem' && idem'[j] == idem[j];
      }
    }
    forall j | j in idem' && j.command.ActionPreviewCommand? ensures AnswersPreview(idem'[j].response, previews') {
      if j != k {
        assert AnswersPreview(idem[j].response, previews);
      }
    }
  }

  // ---- Another module changes an environment ----

  lemma {:induction false} EnvsAfterOtherChange(rows: Approvals, envs: Envs, id: Uuid, e: Env)
    requires EnvsOk(rows, envs) && (id in envs ==> e.status != PendingApproval)
    ensures EnvsOk(rows, envs[id := e])
  {
  }
}
