/** The invariant of the funding tables, part by part, and what one write to one intent's rows must
    satisfy for each part to survive it. */
module CryptoInvariants {
  import opened Wrappers
  import opened CryptoDomain
  import opened CryptoProtocol
  import CryptoAmount
  import EligibilityPolicy

  // ---- the rows of one intent ----

  ghost predicate ReferenceAgrees(f: File) {
    && f.session.provider == f.intent.provider
    && f.session.providerReference == f.intent.providerReference
    && (f.session.status == Active <==> f.intent.providerReference.Some?)
  }

  ghost predicate NeedsReference(status: FundingStatus) {
    status in {AwaitingPayment, Detected, Confirming, Confirmed, ReconciliationRequired}
  }

  ghost predicate SessionAgrees(f: File) {
    && ReferenceAgrees(f)
    && (f.intent.status == ProviderPending ==> f.session.status == Creating)
    && (NeedsReference(f.intent.status) ==> f.intent.providerReference.Some?)
  }

  /** The CHECK constraints on statuses and times, and confirmation strictly before expiry. */
  ghost predicate ShapeOk(it: Intent) {
    && (it.status == Confirmed <==> it.confirmedAt.Some?)
    && (it.status in {Failed, CreationFailed} ==> it.failedAt.Some?)
    && (it.confirmedAt.Some? ==> it.confirmedAt.value < it.expiresAt)
  }

  ghost predicate LogStep(log: seq<Transition>, k: nat, playerId: string)
    requires k < |log|
  {
    && log[k].version == k + 2
    && log[k].playerId == playerId
    && CanTransition(log[k].from, log[k].to)
    && log[k].from == (if k == 0 then ProviderPending else log[k - 1].to)
  }

  /** The log is a gapless chain of allowed steps from creation to the stored status. */
  ghost predicate LogReplays(f: File) {
    && f.intent.version == 1 + |f.log|
    && f.intent.status == (if f.log == [] then ProviderPending else f.log[|f.log| - 1].to)
    && forall k :: 0 <= k < |f.log| ==> LogStep(f.log, k, f.intent.playerId)
  }

  /** The amount's rational value lies between those of the two bounds of its asset's policy. */
  ghost predicate WithinBounds(cfg: Config, asset: string, amount: string) {
    && asset in cfg.policies
    && var policy := cfg.policies[asset];
       var p := CryptoAmount.Parse(amount, policy.decimals);
       var low := CryptoAmount.Parse(policy.minimum, policy.decimals);
       var high := CryptoAmount.Parse(policy.maximum, policy.decimals);
       && p.Some? && low.Some? && high.Some?
       && CryptoAmount.Rational(low.value) <= CryptoAmount.Rational(p.value) <= CryptoAmount.Rational(high.value)
  }

  ghost predicate Funded(cfg: Config, it: Intent) {
    && it.provider == cfg.provider
    && it.requestHash == RequestHash(it.asset, it.requestedAmount)
    && it.asset in cfg.policies
    && WithinBounds(cfg, it.asset, it.requestedAmount)
    && var p := CryptoAmount.Parse(it.requestedAmount, cfg.policies[it.asset].decimals);
       p.Some? && p.value.canonical == it.requestedAmount
  }

  ghost predicate Justified(decisions: map<Id, Decision>, playerId: string, e: Option<Eligibility>) {
    && e.Some? && e.value.decisionId in decisions
    && var d := decisions[e.value.decisionId];
       && d.playerId == playerId && d.operation == EligibilityPolicy.Deposit && d.allowed
       && EligibilityPolicy.PermitsDeposit(d.snapshot)
       && d.policyVersion == e.value.policyVersion && d.evaluatedAt == e.value.evaluatedAt
  }

  ghost predicate FileOk(cfg: Config, decisions: map<Id, Decision>, i: Id, f: File) {
    && f.intent.id == i
    && SessionAgrees(f)
    && ShapeOk(f.intent)
    && LogReplays(f)
    && Funded(cfg, f.intent)
    && Justified(decisions, f.intent.playerId, f.intent.eligibility)
  }

  /** How an intent row may change over time: identity columns never, the provider reference once,
      a terminal status never, and on the payment path stage and provider time only forwards. */
  ghost predicate Evolves(a: Intent, b: Intent) {
    && b == a.(status := b.status, providerReference := b.providerReference, paymentUrl := b.paymentUrl,
               confirmedAt := b.confirmedAt, failedAt := b.failedAt, lastEventAt := b.lastEventAt, version := b.version)
    && (a.providerReference.Some? ==> b.providerReference == a.providerReference)
    && (IsTerminal(a.status) ==>
          b.status == a.status && b.confirmedAt == a.confirmedAt && b.lastEventAt == a.lastEventAt)
    && a.version <= b.version
    && (!IsTerminal(b.status) ==>
          && Stage(a.status) <= Stage(b.status)
          && (a.lastEventAt.Some? ==> b.lastEventAt.Some? && a.lastEventAt.value <= b.lastEventAt.value))
  }

  lemma EvolvesTransitive(a: Intent, b: Intent, c: Intent)
    requires Evolves(a, b) && Evolves(b, c)
    ensures Evolves(a, c)
  {
  }

  // ---- tables ----

  ghost predicate Filed(cfg: Config, db: Db) {
    && db.sessions.Keys == db.intents.Keys && db.log.Keys == db.intents.Keys
    && forall i :: i in db.intents ==> FileOk(cfg, db.decisions, i, FileOf(db, i))
  }

  ghost predicate ReferencesUnique(intents: map<Id, Intent>) {
    forall i, j :: i in intents && j in intents && i != j && intents[i].provider == intents[j].provider
                   && intents[i].providerReference.Some?
                   ==> intents[i].providerReference != intents[j].providerReference
  }

  ghost predicate KeysUnique(intents: map<Id, Intent>) {
    forall i, j :: i in intents && j in intents && i != j && intents[i].playerId == intents[j].playerId
                   ==> intents[i].idempotencyKey != intents[j].idempotencyKey
  }

  /** Order of the provider stages an event can move an intent to; the two failures come last. */
  function Rank(status: ProviderStatus): nat {
    match status
    case PaymentDetected => 1
    case PaymentConfirming => 2
    case PaymentConfirmed => 3
    case _ => 4
  }

  /** Which reasons go with which outcome. */
  ghost predicate OutcomeOk(processing: Processing, reason: Reason) {
    match processing
    case Received => false
    case Processed => reason.Applied?
    case IgnoredStale => reason == StaleEvent
    case IgnoredExpired => reason == IntentExpired
    case Rejected =>
      reason in {FutureTimestamp, UnknownReference, OwnershipMismatch, TerminalIntent, AssetMismatch, AmountMismatch}
  }

  ghost predicate RowOk(intents: map<Id, Intent>, row: EventRow) {
    && OutcomeOk(row.processing, row.reason)
    && (row.intentId.None? <==> row.reason in {FutureTimestamp, UnknownReference})
    && row.processedAt == Some(row.receivedAt)
    && row.acceptedAt == (if row.processing == Processed then Some(row.receivedAt) else None)
    && (row.intentId.Some? ==> row.intentId.value in intents)
    && (row.processing == Processed ==>
          && row.intentId.Some?
          && row.reason == Applied(TargetStatus(row.event.status))
          && Superseded(intents[row.intentId.value], row.event))
  }

  /** A processed event lies behind the intent as long as the intent is open. */
  ghost predicate Superseded(it: Intent, e: ProviderEvent) {
    !IsTerminal(it.status) ==>
      it.lastEventAt.Some? && e.occurredAt <= it.lastEventAt.value && Rank(e.status) <= Stage(it.status)
  }

  ghost predicate BothProcessed(a: EventRow, b: EventRow) {
    a.processing == Processed && b.processing == Processed && a.intentId == b.intentId
  }

  ghost predicate Before(a: ProviderEvent, b: ProviderEvent) {
    a.occurredAt < b.occurredAt && Rank(a.status) < Rank(b.status)
  }

  ghost predicate EventsOk(db: Db) {
    && (forall k :: 0 <= k < |db.events| ==> RowOk(db.intents, db.events[k]))
    && (forall j, k :: 0 <= j < k < |db.events| ==> !SameIdentity(db.events[j].event, db.events[k].event))
    && (forall j, k :: 0 <= j < k < |db.events| && BothProcessed(db.events[j], db.events[k])
                       ==> Before(db.events[j].event, db.events[k].event))
  }

  /** The event confirmed a payment. */
  ghost predicate IsConfirmation(row: EventRow) {
    row.processing == Processed && row.event.status == PaymentConfirmed
  }

  /** Rows of the confirmations, in the order they were stored. */
  ghost function Confirmations(events: seq<EventRow>): (rows: seq<Id>)
    ensures forall k :: 0 <= k < |rows| ==> rows[k] < |events| && IsConfirmation(events[rows[k]])
  {
    if events == [] then []
    else
      var n := |events| - 1;
      Confirmations(events[..n]) + if IsConfirmation(events[n]) then [n] else []
  }

  ghost function ExactUnits(cfg: Config, asset: string, amount: Option<string>): nat {
    if asset !in cfg.policies || amount.None? then 0
    else
      var p := CryptoAmount.Parse(amount.value, cfg.policies[asset].decimals);
      if p.Some? then p.value.units else 0
  }

  ghost predicate MatchesIntent(a: Attestation, it: Intent) {
    && a.intentId == it.id && a.playerId == it.playerId && a.asset == it.asset
    && a.externalAmount == it.requestedAmount && a.provider == it.provider
    && it.providerReference == Some(a.providerReference)
    && it.status == Confirmed && it.confirmedAt == Some(a.confirmedAt) && a.issuedAt == a.confirmedAt
    && it.eligibility == Some(a.eligibility)
  }

  ghost predicate MatchesEvent(cfg: Config, a: Attestation, row: EventRow) {
    && IsConfirmation(row)
    && row.intentId == Some(a.intentId) && row.event.eventId == a.providerEventId
    && row.event.asset == Some(a.asset) && row.receivedAt == a.confirmedAt
    && a.asset in cfg.policies && a.scale == cfg.policies[a.asset].decimals
    && a.atomicUnits == ExactUnits(cfg, a.asset, row.event.amount) && a.atomicUnits > 0
    && a.atomicUnits == ExactUnits(cfg, a.asset, Some(a.externalAmount))
    && a.processingUntil == a.issuedAt + cfg.processingWindow
  }

  ghost predicate HasAttestation(attestations: seq<Attestation>, i: Id) {
    exists k :: 0 <= k < |attestations| && attestations[k].intentId == i
  }

  ghost predicate Attested(cfg: Config, db: Db) {
    && (forall k :: 0 <= k < |db.attestations| ==>
          && db.attestations[k].intentId in db.intents
          && MatchesIntent(db.attestations[k], db.intents[db.attestations[k].intentId]))
    && (forall j, k :: 0 <= j < k < |db.attestations| ==> db.attestations[j].intentId != db.attestations[k].intentId)
    && (forall i :: i in db.intents && db.intents[i].status == Confirmed ==> HasAttestation(db.attestations, i))
  }

  /** Attestations, their evidence and the confirmations correspond one to one, in order. */
  ghost predicate Corresponds(cfg: Config, db: Db) {
    && |db.attestations| == |Confirmations(db.events)|
    && |db.evidence| == |db.attestations|
    && (forall k :: 0 <= k < |db.attestations| ==>
          && db.evidence[k] == ConfirmedEvidence(k, db.attestations[k])
          && db.attestations[k].confirmationEvent == Confirmations(db.events)[k]
          && MatchesEvent(cfg, db.attestations[k], db.events[Confirmations(db.events)[k]]))
  }

  /** The outcomes that leave a reconciliation record behind. */
  ghost predicate NeedsRecord(row: EventRow) {
    || row.reason == UnknownReference
    || (&& ExternallyMoved(row.event.status)
        && row.reason in {IntentExpired, TerminalIntent, AssetMismatch, AmountMismatch})
  }

  ghost function RecordsOf(recs: seq<Reconciliation>, row: Id): nat {
    if recs == [] then 0
    else RecordsOf(recs[..|recs| - 1], row) + if recs[|recs| - 1].eventRow == Some(row) then 1 else 0
  }

  ghost predicate RecordsTerminal(db: Db) {
    forall k :: 0 <= k < |db.reconciliations| && db.reconciliations[k].intentId.Some? ==>
      && db.reconciliations[k].intentId.value in db.intents
      && IsTerminal(db.intents[db.reconciliations[k].intentId.value].status)
  }

  ghost predicate RecordsCounted(db: Db) {
    && (forall k :: 0 <= k < |db.reconciliations| && db.reconciliations[k].eventRow.Some?
                    ==> db.reconciliations[k].eventRow.value < |db.events|)
    && (forall k: nat :: k < |db.events| ==>
          RecordsOf(db.reconciliations, k) == if NeedsRecord(db.events[k]) then 1 else 0)
  }

  ghost predicate Inv(cfg: Config, db: Db) {
    && Filed(cfg, db)
    && ReferencesUnique(db.intents)
    && KeysUnique(db.intents)
    && EventsOk(db)
    && Attested(cfg, db)
    && Corresponds(cfg, db)
    && RecordsTerminal(db)
    && RecordsCounted(db)
  }

  // ---- what handling one event must guarantee about one intent ----

  ghost predicate Newer(it: Intent, e: ProviderEvent) {
    && !IsTerminal(it.status)
    && (it.lastEventAt.Some? ==> it.lastEventAt.value < e.occurredAt)
    && Stage(it.status) < Rank(e.status)
  }

  ghost predicate GoodRow(a: Intent, h: Handled, e: ProviderEvent, now: Time) {
    && h.row == Marked(e, Some(a.id), h.row.processing, h.row.reason, now)
    && OutcomeOk(h.row.processing, h.row.reason) && h.row.reason !in {FutureTimestamp, UnknownReference}
    && (h.row.processing == Processed ==>
          h.row.reason == Applied(TargetStatus(e.status)) && Newer(a, e) && Superseded(h.file.intent, e))
  }

  ghost predicate GoodRecord(h: Handled, eventRow: Id) {
    && (h.rec.Some? <==> NeedsRecord(h.row))
    && (h.rec.Some? ==> h.rec.value.eventRow == Some(eventRow) && h.rec.value.intentId == Some(h.file.intent.id)
                        && IsTerminal(h.file.intent.status))
  }

  ghost predicate GoodAttestation(cfg: Config, a: Intent, h: Handled, eventRow: Id) {
    && (h.att.Some? <==> IsConfirmation(h.row))
    && (h.att.Some? <==> a.status != Confirmed && h.file.intent.status == Confirmed)
    && (h.att.Some? ==> MatchesIntent(h.att.value, h.file.intent) && MatchesEvent(cfg, h.att.value, h.row)
                        && h.att.value.confirmationEvent == eventRow)
  }

  ghost predicate Good(cfg: Config, decisions: map<Id, Decision>, a: Intent, h: Handled, e: ProviderEvent, eventRow: Id,
                       now: Time)
  {
    && FileOk(cfg, decisions, a.id, h.file)
    && Evolves(a, h.file.intent)
    && GoodRow(a, h, e, now)
    && GoodRecord(h, eventRow)
    && GoodAttestation(cfg, a, h, eventRow)
  }
}
