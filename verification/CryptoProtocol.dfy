/** What each funding transaction does to the tables, as functions of the tables before it. */
module CryptoProtocol {
  import opened Wrappers
  import opened Batches
  import opened CryptoDomain
  import CryptoAmount
  import EligibilityPolicy

  datatype Error =
    | StateConflict | VersionConflict | UniqueViolation | MissingEvidence | InvalidAmount | InvalidUuid | NotFound

  /** The rows that belong to one intent: the intent, its provider session and its transition log. */
  datatype File = File(intent: Intent, session: ProviderSession, log: seq<Transition>)

  // ---- one intent ----

  /** A nullable column of an UPDATE: left alone, or set. */
  datatype Patch<+T> = Keep | Set(value: Option<T>)

  function Patched<T>(old_: Option<T>, patch: Patch<T>): Option<T> {
    match patch
    case Keep => old_
    case Set(v) => v
  }

  datatype Change = Change(
    to: FundingStatus, trigger: Trigger, eventRow: Option<Id>,
    reference: Patch<string>, url: Patch<string>,
    confirmedAt: Patch<Time>, failedAt: Patch<Time>, eventAt: Patch<Time>)

  function PlainChange(to: FundingStatus, trigger: Trigger): Change {
    Change(to, trigger, None, Keep, Keep, Keep, Keep, Keep)
  }

  /** The change that goes with an activated session; it writes the session's columns once more. */
  function Activation(trigger: Trigger, eventRow: Option<Id>, reference: string, url: Option<string>): Change {
    PlainChange(AwaitingPayment, trigger).(eventRow := eventRow, reference := Set(Some(reference)), url := Set(url))
  }

  function Changed(it: Intent, c: Change): Intent {
    it.(status := c.to,
        providerReference := Patched(it.providerReference, c.reference),
        paymentUrl := Patched(it.paymentUrl, c.url),
        confirmedAt := Patched(it.confirmedAt, c.confirmedAt),
        failedAt := Patched(it.failedAt, c.failedAt),
        lastEventAt := Patched(it.lastEventAt, c.eventAt),
        version := it.version + 1)
  }

  function LogRow(it: Intent, c: Change): Transition {
    Transition(it.status, c.to, it.version + 1, it.playerId, c.trigger, c.eventRow)
  }

  /** The single writer of intent statuses. */
  function Move(f: File, c: Change): Result<File, Error> {
    if !CanTransition(f.intent.status, c.to) then Err(StateConflict)
    else Ok(f.(intent := Changed(f.intent, c), log := f.log + [LogRow(f.intent, c)]))
  }

  function Activated(f: File, reference: string, url: Option<string>): File {
    f.(intent := f.intent.(providerReference := Some(reference), paymentUrl := url),
       session := f.session.(providerReference := Some(reference), status := Active))
  }

  function SessionFailing(f: File): File {
    if f.session.status == Creating then f.(session := f.session.(status := SessionFailed)) else f
  }

  /** An event for a session whose creation response has not arrived yet activates it. */
  function Recovered(f: File, reference: string, eventRow: Id): Result<File, Error> {
    Move(Activated(f, reference, None),
         Activation(ProviderEventBeforeSessionResponse, Some(eventRow), reference, None))
  }

  function Discrepancy(cfg: Config, it: Intent, e: ProviderEvent): Option<ReconciliationKind> {
    if e.asset != Some(it.asset) then Some(WrongAsset)
    else if e.amount.None? then Some(AmountUndetermined)
    else if it.asset !in cfg.policies then Some(WrongAsset)
    else
      var decimals := cfg.policies[it.asset].decimals;
      var actual := CryptoAmount.Parse(e.amount.value, decimals);
      var expected := CryptoAmount.Parse(it.requestedAmount, decimals);
      if actual.None? || expected.None? then Some(AmountUndetermined)
      else
        var comparison := CryptoAmount.Compare(actual.value, expected.value);
        if comparison < 0 then Some(Underpaid) else if comparison > 0 then Some(Overpaid) else None
  }

  function Reconcile(it: Intent, eventRow: Id, kind: ReconciliationKind, e: ProviderEvent, now: Time): Reconciliation {
    Reconciliation(Some(it.id), Some(eventRow), kind, Some(it.asset), e.asset, Some(it.requestedAmount), e.amount, now)
  }

  function Marked(e: ProviderEvent, intentId: Option<Id>, processing: Processing, reason: Reason, now: Time): EventRow {
    EventRow(e, now, intentId, processing, reason, Some(now), if processing == Processed then Some(now) else None)
  }

  /** The attestation of a confirmed intent, when all its evidence is there. */
  function Attest(cfg: Config, it: Intent, e: ProviderEvent, eventRow: Id, now: Time): Result<Attestation, Error> {
    if it.asset !in cfg.policies || it.providerReference.None? || it.eligibility.None? then Err(MissingEvidence)
    else
      var decimals := cfg.policies[it.asset].decimals;
      var amount := CryptoAmount.Parse(it.requestedAmount, decimals);
      if amount.None? then Err(InvalidAmount)
      else Ok(Attestation(it.id, it.playerId, it.asset, it.requestedAmount, it.provider, it.providerReference.value,
                          now, eventRow, e.eventId, amount.value.units, decimals, it.eligibility.value, now,
                          now + cfg.processingWindow))
  }

  /** Everything one event writes about the intent it belongs to. */
  datatype Handled = Handled(file: File, row: EventRow, rec: Option<Reconciliation>, att: Option<Attestation>)

  predicate ClaimsOther(it: Intent, e: ProviderEvent) {
    || e.claimedIntent.NotUuid?
    || (e.claimedIntent.Uuid? && !(e.claimedIntent.id == it.id && e.claimedIntent.exactSpelling))
    || (e.claimedPlayer.Some? && e.claimedPlayer.value != it.playerId)
  }

  function Handle(cfg: Config, f: File, e: ProviderEvent, eventRow: Id, now: Time): Result<Handled, Error> {
    var it := f.intent;
    if ClaimsOther(it, e) then
      Ok(Handled(f, Marked(e, Some(it.id), Rejected, OwnershipMismatch, now), None, None))
    else if it.status == Expired || (it.expiresAt <= now && it.status != Confirmed) then
      HandleLate(f, e, eventRow, now)
    else if ExternallyMoved(e.status) && it.status in {Failed, CreationFailed} then
      Ok(Handled(f, Marked(e, Some(it.id), Rejected, TerminalIntent, now),
                 Some(Reconcile(it, eventRow, PaymentOnTerminalIntent, e, now)), None))
    else if ExternallyMoved(e.status) && Discrepancy(cfg, it, e).Some? then
      HandleDiscrepancy(f, e, eventRow, now, Discrepancy(cfg, it, e).value)
    else if IsStale(e.occurredAt, it.createdAt, it.lastEventAt, it.status, TargetStatus(e.status)) then
      Ok(Handled(f, Marked(e, Some(it.id), IgnoredStale, StaleEvent, now), None, None))
    else
      HandleApplied(cfg, f, e, eventRow, now)
  }

  function HandleLate(f: File, e: ProviderEvent, eventRow: Id, now: Time): Result<Handled, Error> {
    var moved := if f.intent.status in {Expired, Failed, CreationFailed, ReconciliationRequired} then Ok(f)
                 else Move(f, PlainChange(Expired, ProviderEventExpiryGuard));
    match moved
    case Err(x) => Err(x)
    case Ok(g) =>
      var rec := if ExternallyMoved(e.status) then Some(Reconcile(g.intent, eventRow, PaymentAfterExpiry, e, now))
                 else None;
      Ok(Handled(g, Marked(e, Some(g.intent.id), IgnoredExpired, IntentExpired, now), rec, None))
  }

  function DiscrepancyChange(e: ProviderEvent, eventRow: Id): Change {
    PlainChange(ReconciliationRequired, ProviderDiscrepancy).(
      eventRow := Some(eventRow), eventAt := Set(Some(e.occurredAt)))
  }

  function HandleDiscrepancy(f: File, e: ProviderEvent, eventRow: Id, now: Time,
                             kind: ReconciliationKind): Result<Handled, Error>
  {
    var change := DiscrepancyChange(e, eventRow);
    var moved := if f.intent.status in {Confirmed, Failed, CreationFailed, ReconciliationRequired} then Ok(f)
                 else Move(f, change);
    match moved
    case Err(x) => Err(x)
    case Ok(g) =>
      var reason := if kind == WrongAsset then AssetMismatch else AmountMismatch;
      Ok(Handled(g, Marked(e, Some(g.intent.id), Rejected, reason, now),
                 Some(Reconcile(f.intent, eventRow, kind, e, now)), None))
  }

  function AppliedChange(e: ProviderEvent, eventRow: Id, now: Time): Change {
    var target := TargetStatus(e.status);
    PlainChange(target, ProviderEventTrigger).(
      eventRow := Some(eventRow),
      confirmedAt := if target == Confirmed then Set(Some(now)) else Keep,
      failedAt := if target == Failed then Set(Some(now)) else Keep,
      eventAt := Set(Some(e.occurredAt)))
  }

  function CreationFailure(now: Time): Change {
    PlainChange(CreationFailed, ProviderCreationFailed).(failedAt := Set(Some(now)))
  }

  function HandleApplied(cfg: Config, f: File, e: ProviderEvent, eventRow: Id, now: Time): Result<Handled, Error> {
    var target := TargetStatus(e.status);
    match Move(f, AppliedChange(e, eventRow, now))
    case Err(x) => Err(x)
    case Ok(g) =>
      var row := Marked(e, Some(g.intent.id), Processed, Applied(target), now);
      if target != Confirmed then Ok(Handled(g, row, None, None))
      else match Attest(cfg, g.intent, e, eventRow, now)
        case Err(x) => Err(x)
        case Ok(a) => Ok(Handled(g, row, None, Some(a)))
  }

  // ---- the tables ----

  /** A stored eligibility decision. */
  datatype Decision = Decision(
    playerId: string, operation: EligibilityPolicy.Operation, allowed: bool,
    snapshot: EligibilityPolicy.Snapshot, policyVersion: string, evaluatedAt: Time)

  datatype Db = Db(
    intents: map<Id, Intent>,
    sessions: map<Id, ProviderSession>,     // by intent: funding_intent_id is unique
    log: map<Id, seq<Transition>>,          // rows of one intent in insertion order
    events: seq<EventRow>,
    reconciliations: seq<Reconciliation>,
    attestations: seq<Attestation>,
    evidence: seq<Evidence>,
    decisions: map<Id, Decision>)

  predicate HasFile(db: Db, i: Id) { i in db.intents && i in db.sessions && i in db.log }

  function FileOf(db: Db, i: Id): File
    requires HasFile(db, i)
  {
    File(db.intents[i], db.sessions[i], db.log[i])
  }

  function Put(db: Db, i: Id, f: File): Db {
    db.(intents := db.intents[i := f.intent], sessions := db.sessions[i := f.session], log := db.log[i := f.log])
  }

  /** INSERT ... ON CONFLICT DO NOTHING under the unique (provider event, kind) index. */
  function InsertReconciliation(db: Db, r: Reconciliation): Db {
    if r.eventRow.Some? &&
       (exists k :: 0 <= k < |db.reconciliations| &&
                    db.reconciliations[k].eventRow == r.eventRow && db.reconciliations[k].kind == r.kind)
    then db
    else db.(reconciliations := db.reconciliations + [r])
  }

  /** INSERT ... ON CONFLICT (funding_intent_id) DO NOTHING, with its evidence row when inserted. */
  function InsertAttestation(db: Db, a: Attestation): Db {
    if exists k :: 0 <= k < |db.attestations| && db.attestations[k].intentId == a.intentId then db
    else db.(attestations := db.attestations + [a],
             evidence := db.evidence + [ConfirmedEvidence(|db.attestations|, a)])
  }

  function Commit(db: Db, i: Id, h: Handled): Db {
    var db1 := Put(db, i, h.file).(events := db.events + [h.row]);
    var db2 := if h.rec.Some? then InsertReconciliation(db1, h.rec.value) else db1;
    if h.att.Some? then InsertAttestation(db2, h.att.value) else db2
  }

  /** No other intent or session of this provider holds the reference. */
  predicate ReferenceFree(db: Db, i: Id, reference: string) {
    && (forall j :: j in db.intents && j != i && i in db.intents && db.intents[j].provider == db.intents[i].provider
                    ==> db.intents[j].providerReference != Some(reference))
    && (forall j :: j in db.sessions && j != i && i in db.sessions && db.sessions[j].provider == db.sessions[i].provider
                    ==> db.sessions[j].providerReference != Some(reference))
  }

  ghost predicate HoldsReference(db: Db, i: Id, provider: string, reference: string) {
    i in db.intents && db.intents[i].provider == provider && db.intents[i].providerReference == Some(reference)
  }

  ghost function FindByReference(db: Db, provider: string, reference: string): (r: Option<Id>)
    ensures r.Some? ==> HoldsReference(db, r.value, provider, reference)
    ensures r.None? ==> forall i :: !HoldsReference(db, i, provider, reference)
  {
    if exists i :: HoldsReference(db, i, provider, reference)
    then var i :| HoldsReference(db, i, provider, reference); Some(i)
    else None
  }

  ghost predicate HoldsKey(db: Db, i: Id, player: string, key: string) {
    i in db.intents && db.intents[i].playerId == player && db.intents[i].idempotencyKey == key
  }

  ghost function FindByKey(db: Db, player: string, key: string): (r: Option<Id>)
    ensures r.Some? ==> HoldsKey(db, r.value, player, key)
    ensures r.None? ==> forall i :: !HoldsKey(db, i, player, key)
  {
    if exists i :: HoldsKey(db, i, player, key)
    then var i :| HoldsKey(db, i, player, key); Some(i)
    else None
  }

  predicate SameIdentity(a: ProviderEvent, b: ProviderEvent) {
    a.provider == b.provider && a.eventId == b.eventId
  }

  function FindEvent(events: seq<EventRow>, e: ProviderEvent): (r: Option<Id>)
    ensures r.Some? ==> r.value < |events| && SameIdentity(events[r.value].event, e)
    ensures r.None? ==> forall k :: 0 <= k < |events| ==> !SameIdentity(events[k].event, e)
  {
    if events == [] then None
    else if SameIdentity(events[|events| - 1].event, e) then Some(|events| - 1)
    else FindEvent(events[..|events| - 1], e)
  }

  // ---- the provider callback ----

  datatype Response =
    | Answer(eventRow: Id, processing: Processing, fundingStatus: Option<FundingStatus>, reason: Reason)
    | Duplicate(eventRow: Id)
    | IdentityConflict(eventRow: Id)
    | Raised(error: Error)

  datatype Located = Unknown | Found(id: Id, file: File) | Broken(error: Error)

  ghost function Locate(db: Db, e: ProviderEvent): Located {
    var known := FindByReference(db, e.provider, e.reference);
    if known.Some? then
      if HasFile(db, known.value) then Found(known.value, FileOf(db, known.value)) else Broken(NotFound)
    else match e.claimedIntent
      case NoClaim => Unknown
      case NotUuid => Broken(InvalidUuid)
      case Uuid(i, _) =>
        if !HasFile(db, i) || db.intents[i].provider != e.provider || db.intents[i].status != ProviderPending then
          Unknown
        else if !ReferenceFree(db, i, e.reference) then Broken(UniqueViolation)
        else match Recovered(FileOf(db, i), e.reference, |db.events|)
          case Err(x) => Broken(x)
          case Ok(f) => Found(i, f)
  }

  function RejectUnlinked(db: Db, e: ProviderEvent, reason: Reason, now: Time): Db {
    db.(events := db.events + [Marked(e, None, Rejected, reason, now)])
  }

  function UnknownRecord(e: ProviderEvent, eventRow: Id, now: Time): Reconciliation {
    Reconciliation(None, Some(eventRow), UnknownProviderReference, None, e.asset, None, e.amount, now)
  }

  ghost function Callback(cfg: Config, db: Db, e: ProviderEvent, now: Time): (Db, Response) {
    var stored := FindEvent(db.events, e);
    var row := |db.events|;
    if stored.Some? then
      var first := db.events[stored.value].event;
      if first.payloadHash != e.payloadHash || first.reference != e.reference || first.eventType != e.eventType
      then (db, IdentityConflict(stored.value))
      else (db, Duplicate(stored.value))
    else if e.occurredAt > now + cfg.maxFutureSkew then
      (RejectUnlinked(db, e, FutureTimestamp, now), Answer(row, Rejected, None, FutureTimestamp))
    else match Locate(db, e)
      case Broken(x) => (db, Raised(x))
      case Unknown =>
        (InsertReconciliation(RejectUnlinked(db, e, UnknownReference, now), UnknownRecord(e, row, now)),
         Answer(row, Rejected, None, UnknownReference))
      case Found(i, f) =>
        match Handle(cfg, f, e, row, now)
        case Err(x) => (db, Raised(x))
        case Ok(h) => (Commit(db, i, h), Answer(row, h.row.processing, Some(h.file.intent.status), h.row.reason))
  }

  // ---- creating an intent ----

  const POLICY_VERSION := "eligibility-policy-v1"

  datatype Request = Request(playerId: string, key: string, asset: string, amount: string)

  /** A create call first stores an eligibility decision for a deposit, whatever it says. */
  function Evaluated(request: Request, s: EligibilityPolicy.Snapshot, now: Time): Decision {
    var verdict := EligibilityPolicy.Evaluate(EligibilityPolicy.Deposit, s);
    Decision(request.playerId, EligibilityPolicy.Deposit, verdict.allowed, s, POLICY_VERSION, now)
  }

  /** What a create call asks for once its input has been validated. */
  datatype Accepted = Accepted(playerId: string, key: string, asset: string, canonical: string, decisionId: Id)

  function ValidAmount(cfg: Config, asset: string, amount: string): Option<string> {
    if asset !in cfg.policies then None
    else
      var policy := cfg.policies[asset];
      var parsed := CryptoAmount.Parse(amount, policy.decimals);
      var minimum := CryptoAmount.Parse(policy.minimum, policy.decimals);
      var maximum := CryptoAmount.Parse(policy.maximum, policy.decimals);
      if parsed.None? || minimum.None? || maximum.None? then None
      else if CryptoAmount.Compare(parsed.value, minimum.value) < 0 then None
      else if CryptoAmount.Compare(parsed.value, maximum.value) > 0 then None
      else Some(parsed.value.canonical)
  }

  function FreshFile(cfg: Config, id: Id, a: Accepted, d: Decision, now: Time): File {
    File(Intent(id, a.playerId, a.asset, a.canonical, ProviderPending, cfg.provider, a.key,
                RequestHash(a.asset, a.canonical),
                Some(Eligibility(a.decisionId, d.policyVersion, d.evaluatedAt)), None, None, now + cfg.intentTtl,
                None, None, None, 1, now),
         ProviderSession(cfg.provider, None, Creating), [])
  }

  /** The first transaction of a create call: the intent already stored under its key, or a new one. */
  ghost function Prepare(cfg: Config, db: Db, a: Accepted, d: Decision, id: Id, now: Time): (Db, Result<Id, Error>) {
    var existing := FindByKey(db, a.playerId, a.key);
    if existing.Some? then (db, Ok(existing.value))
    else if id in db.intents then (db, Err(UniqueViolation))
    else (Put(db, id, FreshFile(cfg, id, a, d, now)), Ok(id))
  }

  /** The second transaction of a create call, after the provider returned a session. */
  ghost function Activate(db: Db, i: Id, reference: string, url: Option<string>): (Db, Result<Intent, Error>) {
    if !HasFile(db, i) then (db, Err(NotFound))
    else
      var f := FileOf(db, i);
      if f.intent.providerReference.Some? && f.intent.providerReference.value != reference then (db, Err(StateConflict))
      else if !ReferenceFree(db, i, reference) then (db, Err(UniqueViolation))
      else
        var g := Activated(f, reference, url);
        if f.intent.status != ProviderPending then (Put(db, i, g), Ok(g.intent))
        else match Move(g, Activation(ProviderSessionCreated, None, reference, url))
          case Err(x) => (db, Err(x))
          case Ok(h) => (Put(db, i, h), Ok(h.intent))
  }

  /** The other second transaction, after the provider refused for good. */
  function MarkCreationFailed(db: Db, i: Id, now: Time): (Db, Result<Intent, Error>) {
    if !HasFile(db, i) then (db, Err(NotFound))
    else
      var f := FileOf(db, i);
      if f.intent.status != ProviderPending then (db, Ok(f.intent))
      else match Move(SessionFailing(f), CreationFailure(now))
        case Err(x) => (db, Err(x))
        case Ok(g) => (Put(db, i, g), Ok(g.intent))
  }

  // ---- the expiry sweep ----

  predicate Due(it: Intent, now: Time) {
    it.status in {ProviderPending, AwaitingPayment, Detected, Confirming} && it.expiresAt <= now
  }

  /** What the locking query may return: distinct due intents, at most the limit of them.
      Rows locked by others are skipped, so it need not be the first ones. */
  predicate DueBatch(db: Db, now: Time, limit: nat, ids: seq<Id>) {
    && Distinct(ids) && |ids| <= limit
    && forall k :: 0 <= k < |ids| ==> ids[k] in db.intents && Due(db.intents[ids[k]], now)
  }

  function ExpiredRecord(it: Intent, now: Time): Reconciliation {
    Reconciliation(Some(it.id), None, ExpiredAfterPaymentDetected, Some(it.asset), Some(it.asset),
                   Some(it.requestedAmount), None, now)
  }

  function ExpireOne(db: Db, i: Id, now: Time): Result<Db, Error> {
    if !HasFile(db, i) then Err(NotFound)
    else
      var f := FileOf(db, i);
      match Move(f, PlainChange(Expired, ExpiryWorker))
      case Err(x) => Err(x)
      case Ok(g) =>
        var db1 := if f.intent.status in {Detected, Confirming} then
                     InsertReconciliation(db, ExpiredRecord(f.intent, now))
                   else db;
        Ok(Put(db1, i, g))
  }

  /** One sweep transaction over the rows its query returned; an error rolls all of it back. */
  function Sweep(db: Db, ids: seq<Id>, now: Time): Result<Db, Error>
    decreases |ids|
  {
    if ids == [] then Ok(db)
    else match ExpireOne(db, ids[0], now)
      case Err(x) => Err(x)
      case Ok(db1) => Sweep(db1, ids[1..], now)
  }
}
