/** The vocabulary of crypto funding: statuses, the transition table, provider events,
    and the rows of the funding tables. Times are milliseconds; row ids stand for UUIDs. */
module CryptoDomain {
  import opened Wrappers

  type Id = nat
  type Time = int

  datatype FundingStatus =
    | ProviderPending | AwaitingPayment | Detected | Confirming | Confirmed
    | Failed | Expired | ReconciliationRequired | CreationFailed

  predicate CanTransition(from: FundingStatus, to: FundingStatus) {
    match from
    case ProviderPending => to in {AwaitingPayment, CreationFailed, Failed, Expired}
    case AwaitingPayment => to in {Detected, Confirming, Confirmed, Failed, Expired, ReconciliationRequired}
    case Detected => to in {Confirming, Confirmed, Failed, Expired, ReconciliationRequired}
    case Confirming => to in {Confirmed, Failed, Expired, ReconciliationRequired}
    case _ => false
  }

  predicate IsTerminal(status: FundingStatus) {
    status in {Confirmed, Failed, Expired, ReconciliationRequired, CreationFailed}
  }

  // ---- provider events ----

  datatype ProviderStatus = PaymentDetected | PaymentConfirming | PaymentConfirmed | PaymentFailed | PaymentExpired

  function TargetStatus(status: ProviderStatus): FundingStatus {
    match status
    case PaymentDetected => Detected
    case PaymentConfirming => Confirming
    case PaymentConfirmed => Confirmed
    case PaymentFailed => Failed
    case PaymentExpired => Expired
  }

  /** The event reports that value moved outside the system. */
  predicate ExternallyMoved(status: ProviderStatus) {
    status in {PaymentDetected, PaymentConfirming, PaymentConfirmed}
  }

  /** The intent id an event claims. Identity columns are UUIDs: a claim may be no UUID at all,
      or spell an existing one differently from the stored text. */
  datatype ClaimedIntent = NoClaim | Uuid(id: Id, exactSpelling: bool) | NotUuid

  datatype ProviderEvent = ProviderEvent(
    provider: string, eventId: string, reference: string,
    claimedIntent: ClaimedIntent, claimedPlayer: Option<string>,
    eventType: string, status: ProviderStatus, occurredAt: Time,
    asset: Option<string>, amount: Option<string>, payloadHash: string)

  /** Position of a status on the payment path; -1 for those outside it. */
  function Stage(status: FundingStatus): int {
    match status
    case AwaitingPayment => 0
    case Detected => 1
    case Confirming => 2
    case Confirmed => 3
    case _ => -1
  }

  predicate IsStale(occurredAt: Time, createdAt: Time, lastEventAt: Option<Time>, current: FundingStatus,
                    target: FundingStatus)
  {
    || IsTerminal(current)
    || occurredAt < createdAt
    || (lastEventAt.Some? && occurredAt <= lastEventAt.value)
    || (Stage(current) != -1 && Stage(target) != -1 && Stage(target) <= Stage(current))
  }

  // ---- rows ----

  /** The eligibility columns of an intent are null together or set together. */
  datatype Eligibility = Eligibility(decisionId: Id, policyVersion: string, evaluatedAt: Time)

  /** The request hash is modelled as an injective function of what it hashes. */
  datatype RequestHash = RequestHash(asset: string, amount: string)

  datatype Intent = Intent(
    id: Id, playerId: string, asset: string, requestedAmount: string, status: FundingStatus,
    provider: string, idempotencyKey: string, requestHash: RequestHash, eligibility: Option<Eligibility>,
    providerReference: Option<string>, paymentUrl: Option<string>, expiresAt: Time,
    confirmedAt: Option<Time>, failedAt: Option<Time>, lastEventAt: Option<Time>,
    version: nat, createdAt: Time)

  datatype SessionStatus = Creating | Active | SessionFailed

  datatype ProviderSession = ProviderSession(provider: string, providerReference: Option<string>, status: SessionStatus)

  datatype Trigger =
    | ProviderSessionCreated | ProviderEventBeforeSessionResponse | ProviderCreationFailed
    | ProviderEventTrigger | ProviderEventExpiryGuard | ProviderDiscrepancy | ExpiryWorker

  datatype Transition = Transition(
    from: FundingStatus, to: FundingStatus, version: nat, playerId: string, trigger: Trigger, eventRow: Option<Id>)

  datatype Processing = Received | Processed | IgnoredStale | IgnoredExpired | Rejected

  datatype Reason =
    | NoReason | FutureTimestamp | UnknownReference | OwnershipMismatch | IntentExpired
    | TerminalIntent | AssetMismatch | AmountMismatch | StaleEvent | Applied(status: FundingStatus)

  /** A stored provider event; its row id is its position in the table. */
  datatype EventRow = EventRow(
    event: ProviderEvent, receivedAt: Time, intentId: Option<Id>,
    processing: Processing, reason: Reason, processedAt: Option<Time>, acceptedAt: Option<Time>)

  datatype ReconciliationKind =
    | Underpaid | Overpaid | WrongAsset | AmountUndetermined | PaymentAfterExpiry
    | PaymentOnTerminalIntent | UnknownProviderReference | ExpiredAfterPaymentDetected

  datatype Reconciliation = Reconciliation(
    intentId: Option<Id>, eventRow: Option<Id>, kind: ReconciliationKind,
    expectedAsset: Option<string>, actualAsset: Option<string>,
    expectedAmount: Option<string>, actualAmount: Option<string>, createdAt: Time)

  /** A confirmed-funding attestation, with the row it is stored in. */
  datatype Attestation = Attestation(
    intentId: Id, playerId: string, asset: string, externalAmount: string,
    provider: string, providerReference: string, confirmedAt: Time,
    confirmationEvent: Id, providerEventId: string, atomicUnits: nat, scale: nat,
    eligibility: Eligibility, issuedAt: Time, processingUntil: Time)

  /** A security-evidence outbox row for an attestation. */
  datatype Evidence = ConfirmedEvidence(sourceEvent: Id, attestation: Attestation)

  // ---- configuration ----

  /** Configured decimals lie between 0 and 30. */
  type Decimals = d: nat | d <= 30

  datatype AssetPolicy = AssetPolicy(decimals: Decimals, minimum: string, maximum: string)

  datatype Config = Config(
    provider: string, policies: map<string, AssetPolicy>,
    intentTtl: Period, maxFutureSkew: Period, processingWindow: Period)
}
