/** The vocabulary of KYC: statuses, the transition table, provider events and the rows of the KYC
    tables. Times are milliseconds; a session, review or event row is named by its position. */
module KycDomain {
  import opened Wrappers

  type Id = nat
  type Time = int

  datatype KycStatus = NotStarted | Pending | Verified | Failed | ManualReview | Expired

  predicate CanTransition(from: KycStatus, to: KycStatus) {
    match from
    case NotStarted => to == Pending
    case Pending => to in {Verified, Failed, ManualReview, Expired}
    case ManualReview => to in {Verified, Failed, Pending, Expired}
    case Verified => to in {Expired, ManualReview}
    case Failed => to == Pending
    case Expired => to == Pending
  }

  // ---- provider events ----

  datatype ProviderEvent = ProviderEvent(
    provider: string, eventId: string, reference: string, claimedPlayer: Option<string>,
    eventType: string, result: KycStatus, occurredAt: Time, payloadHash: string)

  datatype Processing = Received | Processed | IgnoredStale | IgnoredExpired | Rejected

  datatype EventReason =
    | NoReason | Applied(status: KycStatus) | StaleEvent | SessionElapsed
    | FutureTimestamp | ProviderMismatch | UnknownSession | PlayerMismatch

  /** A stored provider event. */
  datatype EventRow = EventRow(
    event: ProviderEvent, receivedAt: Time, processing: Processing, reason: EventReason,
    processedAt: Option<Time>, acceptedAt: Option<Time>)

  // ---- rows ----

  /** A session is being created with the provider, could not be, or has a KYC status of its own. */
  datatype SessionStatus = Creating | CreationFailed | At(kyc: KycStatus)

  datatype Session = Session(
    playerId: string, provider: string, reference: Option<string>, url: Option<string>,
    key: Option<string>, status: SessionStatus, attempt: nat, startedAt: Time,
    expiresAt: Option<Time>, completedAt: Option<Time>, lastEventAt: Option<Time>)

  /** The statuses covered by the one-effective-session index. */
  predicate Effective(status: SessionStatus) {
    status in {Creating, At(Pending), At(ManualReview)}
  }

  predicate Closed(status: SessionStatus) {
    status in {CreationFailed, At(Verified), At(Failed), At(Expired)}
  }

  predicate IsStale(e: ProviderEvent, s: Session, isCurrent: bool) {
    || !isCurrent
    || e.occurredAt < s.startedAt
    || (s.lastEventAt.Some? && e.occurredAt <= s.lastEventAt.value)
    || Closed(s.status)
    || (e.result == Pending && s.status != At(Pending))
  }

  datatype FailureReason = ProviderFailed | ReviewRejected

  datatype Profile = Profile(
    status: KycStatus, provider: Option<string>, current: Option<Id>,
    verifiedAt: Option<Time>, expiresAt: Option<Time>, failure: Option<FailureReason>, version: nat)

  // The tables check the order of some times of a row; a write that would break it is refused.

  predicate ExpiryOrdered(p: Profile) {
    p.expiresAt.Some? && p.verifiedAt.Some? ==> p.expiresAt.value >= p.verifiedAt.value
  }

  predicate SessionOrdered(s: Session) {
    && (s.expiresAt.Some? ==> s.expiresAt.value > s.startedAt)
    && (s.completedAt.Some? ==> s.completedAt.value >= s.startedAt)
    && (s.lastEventAt.Some? ==> s.lastEventAt.value >= s.startedAt)
  }

  datatype Trigger =
    | SessionStarted | ProviderEventTrigger | ReviewDecision | SessionExpiry | VerificationExpiry | RequestTimeExpiry

  datatype Transition = Transition(
    session: Option<Id>, from: KycStatus, to: KycStatus, trigger: Trigger, eventRow: Option<Id>, version: nat)

  datatype ReviewStatus = Requested | Opened | Assigned | Completed

  datatype ReviewAct = ReviewRequested | ReviewOpened | ReviewAssigned | ReviewClosed(outcome: KycStatus)

  datatype ReviewAction = ReviewAction(act: ReviewAct, previous: KycStatus, next: KycStatus, at: Time)

  /** A manual review with its append-only actions. */
  datatype Review = Review(
    playerId: string, session: Option<Id>, status: ReviewStatus, assignee: Option<string>,
    requestedAt: Time, openedAt: Option<Time>, completedAt: Option<Time>, actions: seq<ReviewAction>)

  /** The row also records when it was last updated, so that no write may be dated before the request. */
  predicate ReviewOrdered(r: Review) {
    && (r.openedAt.Some? ==> r.openedAt.value >= r.requestedAt)
    && (r.completedAt.Some? ==> r.completedAt.value >= r.requestedAt)
  }

  datatype Config = Config(provider: string, verificationTtl: Period, maxFutureSkew: Period)
}
