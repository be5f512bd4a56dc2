/** What callers are shown of a request, field by field. */
module Views {
  import opened Prelude
  import opened Uuids
  import opened Params
  import opened PolicyGate
  import opened Ledger
  import opened Secrets

  /** The item of a listing, a decision or a resubmission. */
  predicate ItemShows(item: Item, a: Approval, caller: Uuid) {
    && item.id == a.id && item.version == a.version && item.status == a.status
    && item.action == a.action && item.level == a.level
    && item.targetType == a.targetType && item.targetId == a.targetId
    && item.paramHash == a.paramHash && item.card == a.card
    && item.initiator == a.initiator && item.approver == a.approver && item.escalateTo == a.escalateTo
    && item.fourEyesSelf == (caller == a.initiator)
    && item.createdAt == a.createdAt && item.expiresAt == a.expiresAt && item.expiredReason == a.expiredReason
    && item.origin == a.origin
    && item.executionResult == (if a.status == Executed then a.executionResult else None)
  }

  /** An item is what it shows. */
  lemma {:induction false} SerializeShows(item: Item, a: Approval, caller: Uuid)
    ensures ItemShows(item, a, caller) <==> item == Serialize(a, caller)
  {
  }

  /** The entry of a workbench. */
  predicate WaitingItemShows(item: WaitingItem, a: Approval) {
    && item.id == a.id && item.version == a.version && item.status == a.status && item.action == a.action
    && item.targetType == a.targetType && item.targetId == a.targetId
    && item.initiator == a.initiator && item.escalateTo == a.escalateTo && item.expiresAt == a.expiresAt
  }

  lemma {:induction false} SerializeWaitingShows(item: WaitingItem, a: Approval)
    ensures WaitingItemShows(item, a) <==> item == SerializeWaiting(a)
  {
  }

  /** The card of a request: what it asks for, with secrets masked, at which level and under which hash. */
  predicate CardShows(card: Card, a: Approval) {
    && card.action == a.action && card.targetType == a.targetType && card.targetId == a.targetId
    && card.level == a.level && card.paramHash == a.paramHash && ShowsPayload(card.payloadRedacted, a.payload)
  }

  /** One request in full: the item, the payload with secrets masked, and who started its chain. */
  predicate DetailShows(r: Response, a: Approval, caller: Uuid) {
    r.Shown? && ItemShows(r.item, a, caller) && ShowsPayload(r.payloadRedacted, a.payload)
    && r.originalInitiator == a.originalInitiator
  }

  lemma {:induction false} BuiltCardShows(
      action: Action, targetType: string, target: Uuid, payload: Payload, level: Level, hash: string)
    ensures var card := BuildCard(action, targetType, target, payload, level, hash);
            && card.action == action && card.targetType == targetType && card.targetId == target
            && card.level == level && card.paramHash == hash && ShowsPayload(card.payloadRedacted, payload)
            && card.snapshot == None && card.gateEvaluation == None
  {
    RedactedPayloadShows(payload);
  }
}
