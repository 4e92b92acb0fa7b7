/** What each KYC transaction does to the tables, as functions of the tables before it. */
module KycProtocol {
  import opened Wrappers
  import opened Batches
  import opened KycDomain

  datatype Error =
    | ProfileNotFound | SessionNotFound | ReviewNotFound | InvalidTransition | StateConflict
    | UniqueViolation | CheckViolation | AlreadyVerified | ConflictUnresolved | CreationUnavailable

  datatype Db = Db(
    profiles: map<string, Profile>,           // by player: player_id is unique
    log: map<string, seq<Transition>>,        // rows of one player in insertion order
    sessions: seq<Session>,
    reviews: seq<Review>,
    events: seq<EventRow>)

  // ---- queries ----

  predicate HasReference(s: Session, provider: string, reference: string) {
    s.provider == provider && s.reference == Some(reference)
  }

  function FindByReference(sessions: seq<Session>, provider: string, reference: string): (r: Option<Id>)
    ensures r.Some? ==> r.value < |sessions| && HasReference(sessions[r.value], provider, reference)
    ensures r.None? ==> forall s :: 0 <= s < |sessions| ==> !HasReference(sessions[s], provider, reference)
  {
    if sessions == [] then None
    else if HasReference(sessions[|sessions| - 1], provider, reference) then Some(|sessions| - 1)
    else FindByReference(sessions[..|sessions| - 1], provider, reference)
  }

  predicate HasKey(s: Session, player: string, key: string) {
    s.playerId == player && s.key == Some(key)
  }

  function FindByKey(sessions: seq<Session>, player: string, key: string): (r: Option<Id>)
    ensures r.Some? ==> r.value < |sessions| && HasKey(sessions[r.value], player, key)
    ensures r.None? ==> forall s :: 0 <= s < |sessions| ==> !HasKey(sessions[s], player, key)
  {
    if sessions == [] then None
    else if HasKey(sessions[|sessions| - 1], player, key) then Some(|sessions| - 1)
    else FindByKey(sessions[..|sessions| - 1], player, key)
  }

  /** An effective session of the player that has not elapsed. */
  predicate Usable(s: Session, player: string, at: Time) {
    s.playerId == player && Effective(s.status) && (s.expiresAt.None? || s.expiresAt.value > at)
  }

  /** The one with the highest attempt number; attempt numbers grow with the row. */
  function FindEffective(sessions: seq<Session>, player: string, at: Time): (r: Option<Id>)
    ensures r.Some? ==> r.value < |sessions| && Usable(sessions[r.value], player, at)
    ensures r.Some? ==> forall s :: r.value < s < |sessions| ==> !Usable(sessions[s], player, at)
    ensures r.None? ==> forall s :: 0 <= s < |sessions| ==> !Usable(sessions[s], player, at)
  {
    if sessions == [] then None
    else if Usable(sessions[|sessions| - 1], player, at) then Some(|sessions| - 1)
    else FindEffective(sessions[..|sessions| - 1], player, at)
  }

  function MaxAttempt(sessions: seq<Session>, player: string): (r: nat)
    ensures forall s :: 0 <= s < |sessions| && sessions[s].playerId == player ==> sessions[s].attempt <= r
    ensures r == 0 || exists s :: 0 <= s < |sessions| && sessions[s].playerId == player && sessions[s].attempt == r
  {
    if sessions == [] then 0
    else
      var last, rest := sessions[|sessions| - 1], MaxAttempt(sessions[..|sessions| - 1], player);
      if last.playerId == player && last.attempt > rest then last.attempt else rest
  }

  predicate Active(r: Review, player: string) {
    r.playerId == player && r.status != Completed
  }

  function ActiveReview(reviews: seq<Review>, player: string): (r: Option<Id>)
    ensures r.Some? ==> r.value < |reviews| && Active(reviews[r.value], player)
    ensures r.None? ==> forall k :: 0 <= k < |reviews| ==> !Active(reviews[k], player)
  {
    if reviews == [] then None
    else if Active(reviews[|reviews| - 1], player) then Some(|reviews| - 1)
    else ActiveReview(reviews[..|reviews| - 1], player)
  }

  predicate SameIdentity(a: ProviderEvent, b: ProviderEvent) {
    a.provider == b.provider && a.eventId == b.eventId
  }

  function FindEvent(events: seq<EventRow>, e: ProviderEvent): (r: Option<Id>)
    ensures r.Some? ==> r.value < |events| && SameIdentity(events[r.value].event, e)
    ensures r.None? ==> forall k :: 0 <= k < |events| ==> !SameIdentity(events[k].event, e)
  {
    if events == [] then None
    else if SameIdentity(events[|events| - 1].event, e) then Some(|events| - 1)
    else FindEvent(events[..|events| - 1], e)
  }

  // ---- the transition service ----

  /** A column of an UPDATE: left alone, or set. */
  datatype Patch<+T> = Keep | Set(value: T)

  function Patched<T>(old_: T, patch: Patch<T>): T {
    match patch
    case Keep => old_
    case Set(v) => v
  }

  datatype Change = Change(
    to: KycStatus, trigger: Trigger, session: Patch<Option<Id>>, provider: Patch<Option<string>>,
    verifiedAt: Patch<Option<Time>>, expiresAt: Option<Time>, failure: Option<FailureReason>,
    eventRow: Option<Id>, review: Option<Id>)

  function Changed(p: Profile, c: Change): Profile {
    Profile(c.to, Patched(p.provider, c.provider), Patched(p.current, c.session), Patched(p.verifiedAt, c.verifiedAt),
            c.expiresAt, c.failure, p.version + 1)
  }

  function LogRow(p: Profile, c: Change): Transition {
    Transition(Patched(p.current, c.session), p.status, c.to, c.trigger, c.eventRow, p.version + 1)
  }

  function Request(player: string, session: Option<Id>, previous: KycStatus, at: Time): Review {
    Review(player, session, Requested, None, at, None, None,
           [ReviewAction(ReviewRequested, previous, ManualReview, at)])
  }

  function Close(r: Review, to: KycStatus, at: Time): Review {
    r.(status := Completed, completedAt := Some(at),
       actions := r.actions + [ReviewAction(ReviewClosed(to), ManualReview, to, at)])
  }

  /** A profile that enters manual review requests one; a profile that leaves it completes it, which the row
      refuses by a clock that reads less than when the review was requested. */
  function Reviewed(reviews: seq<Review>, player: string, before: Profile, c: Change,
                    at: Time): Result<seq<Review>, Error>
  {
    var active := ActiveReview(reviews, player);
    if before.status != ManualReview && c.to == ManualReview then
      if active.Some? then Err(UniqueViolation)
      else Ok(reviews + [Request(player, Patched(before.current, c.session), before.status, at)])
    else if before.status == ManualReview && c.to != ManualReview then
      if active.None? || (c.review.Some? && c.review != active) then Err(ReviewNotFound)
      else if !ReviewOrdered(Close(reviews[active.value], c.to, at)) then Err(CheckViolation)
      else Ok(reviews[active.value := Close(reviews[active.value], c.to, at)])
    else Ok(reviews)
  }

  /** The single writer of profile statuses. The row refuses an expiry before the verification. */
  function Move(db: Db, player: string, c: Change, at: Time): Result<Db, Error> {
    if player !in db.profiles || player !in db.log then Err(ProfileNotFound)
    else
      var before := db.profiles[player];
      if !CanTransition(before.status, c.to) then Err(InvalidTransition)
      else if !ExpiryOrdered(Changed(before, c)) then Err(CheckViolation)
      else match Reviewed(db.reviews, player, before, c, at)
        case Err(x) => Err(x)
        case Ok(reviews) =>
          Ok(db.(profiles := db.profiles[player := Changed(before, c)],
                 log := db.log[player := db.log[player] + [LogRow(before, c)]],
                 reviews := reviews))
  }

  const FRESH_PROFILE := Profile(NotStarted, None, None, None, None, None, 1)

  function GetOrCreate(db: Db, player: string): (r: Db)
    ensures player in r.profiles
  {
    if player in db.profiles then db
    else db.(profiles := db.profiles[player := FRESH_PROFILE], log := db.log[player := []])
  }

  predicate VerificationDue(p: Profile, now: Time) {
    p.status == Verified && p.expiresAt.Some? && p.expiresAt.value <= now
  }

  function RequestExpiry(p: Profile): Change {
    Change(Expired, RequestTimeExpiry, Keep, Keep, Keep, p.expiresAt, None, None, None)
  }

  function ExpireIfDue(db: Db, player: string, now: Time): (r: Result<Db, Error>)
    requires player in db.profiles
    ensures r.Ok? ==> player in r.value.profiles && r.value.sessions == db.sessions
  {
    if VerificationDue(db.profiles[player], now) then Move(db, player, RequestExpiry(db.profiles[player]), now)
    else Ok(db)
  }

  /** Reading a status with an actor: the profile is created when missing and expired when due. */
  function ReadStatus(db: Db, player: string, now: Time): (Db, Result<KycStatus, Error>) {
    match ExpireIfDue(GetOrCreate(db, player), player, now)
    case Err(x) => (db, Err(x))
    case Ok(db1) => (db1, Ok(db1.profiles[player].status))
  }

  // ---- sessions ----

  function PutSession(db: Db, s: Id, x: Session): Db
    requires s < |db.sessions|
  {
    db.(sessions := db.sessions[s := x])
  }

  predicate OtherEffective(sessions: seq<Session>, s: Id)
    requires s < |sessions|
  {
    exists t ::
      0 <= t < |sessions| && t != s && sessions[t].playerId == sessions[s].playerId && Effective(sessions[t].status)
  }

  function Later(a: Option<Time>, b: Time): Option<Time> {
    if a.Some? && a.value > b then a else Some(b)
  }

  function Updated(x: Session, status: KycStatus, eventAt: Time, completedAt: Option<Time>): Session {
    x.(status := At(status), lastEventAt := Later(x.lastEventAt, eventAt), completedAt := completedAt)
  }

  /** The update has no guard on the stored status; only the row's times and the one-effective-session index can
      refuse it. */
  function UpdateFromEvent(db: Db, s: Id, status: KycStatus, eventAt: Time,
                           completedAt: Option<Time>): (r: Result<Db, Error>)
    requires s < |db.sessions|
  {
    if !SessionOrdered(Updated(db.sessions[s], status, eventAt, completedAt)) then Err(CheckViolation)
    else if Effective(At(status)) && OtherEffective(db.sessions, s) then Err(UniqueViolation)
    else Ok(PutSession(db, s, Updated(db.sessions[s], status, eventAt, completedAt)))
  }

  predicate SessionDue(x: Session, now: Time) {
    x.status in {At(Pending), At(ManualReview)} && x.expiresAt.Some? && x.expiresAt.value <= now
  }

  function Elapsed(x: Session, now: Time): Session {
    x.(status := At(Expired), completedAt := Some(now))
  }

  // ---- starting a verification ----

  function FreshSession(cfg: Config, player: string, key: Option<string>, attempt: nat, at: Time): Session {
    Session(player, cfg.provider, None, None, key, Creating, attempt, at, None, None, None)
  }

  /** The row would violate the (player, key) constraint or the one-effective-session index. */
  predicate Conflicts(sessions: seq<Session>, player: string, key: Option<string>) {
    exists s :: 0 <= s < |sessions| && sessions[s].playerId == player
                && (Effective(sessions[s].status) || (key.Some? && sessions[s].key == key))
  }

  /** The first transaction of a start call: the session to use, or why there is none. */
  function Prepare(cfg: Config, db: Db, player: string, key: Option<string>, at: Time,
                   now: Time): (Db, Result<Id, Error>)
  {
    match ExpireIfDue(GetOrCreate(db, player), player, now)
    case Err(x) => (db, Err(x))
    case Ok(db1) =>
      var profile := db1.profiles[player];
      var known := if key.Some? then FindByKey(db1.sessions, player, key.value) else None;
      if known.Some? && db1.sessions[known.value].status == CreationFailed then (db1, Ok(known.value))
      else if profile.status == Verified && (profile.expiresAt.None? || profile.expiresAt.value > at) then
             (db, Err(AlreadyVerified))
      else if known.Some? then (db1, Ok(known.value))
      else
        var effective := FindEffective(db1.sessions, player, at);
        if effective.Some? then (db1, Ok(effective.value))
        else if Conflicts(db1.sessions, player, key) then (db, Err(ConflictUnresolved))
        else
          var created := FreshSession(cfg, player, key, MaxAttempt(db1.sessions, player) + 1, at);
          (db1.(sessions := db1.sessions + [created]), Ok(|db1.sessions|))
  }

  datatype Reply = Created(provider: string, reference: string, url: Option<string>, expiresAt: Time) | Thrown

  /** The whitespace that trimming removes. */
  predicate IsSpace(c: char) {
    c in {' ', '\t', '\n', '\r', '\U{000B}', '\U{000C}', '\U{00A0}', '\U{1680}', '\U{2028}', '\U{2029}', '\U{202F}',
          '\U{205F}', '\U{3000}', '\U{FEFF}'} || '\U{2000}' <= c <= '\U{200A}'
  }

  predicate Blank(text: string) { forall k :: 0 <= k < |text| ==> IsSpace(text[k]) }

  predicate Acceptable(cfg: Config, startedAt: Time, reply: Reply) {
    reply.Created? && reply.provider == cfg.provider && !Blank(reply.reference) && reply.expiresAt > startedAt
  }

  function Activated(x: Session, reply: Reply): Session
    requires reply.Created?
  {
    x.(reference := Some(reply.reference), url := reply.url, expiresAt := Some(reply.expiresAt), status := At(Pending))
  }

  function StartChange(s: Id, x: Session): Change {
    Change(Pending, SessionStarted, Set(Some(s)), Set(Some(x.provider)), Keep, None, None, None, None)
  }

  predicate ReferenceTaken(sessions: seq<Session>, s: Id, reference: string)
    requires s < |sessions|
  {
    exists t :: 0 <= t < |sessions| && t != s && HasReference(sessions[t], sessions[s].provider, reference)
  }

  function Activate(db: Db, s: Id, reply: Reply, now: Time): (Db, Result<Id, Error>)
    requires s < |db.sessions| && reply.Created?
  {
    var x := db.sessions[s];
    if x.status == At(Pending) then (db, Ok(s))
    else if x.status != Creating then (db, Err(StateConflict))
    else if x.playerId !in db.profiles then (db, Err(ProfileNotFound))
    else if ReferenceTaken(db.sessions, s, reply.reference) then (db, Err(UniqueViolation))
    else match Move(PutSession(db, s, Activated(x, reply)), x.playerId, StartChange(s, x), now)
      case Err(e) => (db, Err(e))
      case Ok(db1) => (db1, Ok(s))
  }

  function GivenUp(x: Session, now: Time): Session {
    x.(status := CreationFailed, completedAt := Some(now))
  }

  /** After a refusal by the provider; a session activated meanwhile is still handed out. */
  function MarkCreationFailed(db: Db, s: Id, now: Time): (Db, Result<Id, Error>)
    requires s < |db.sessions|
  {
    var x := db.sessions[s];
    if x.status == Creating then
      if !SessionOrdered(GivenUp(x, now)) then (db, Err(CheckViolation))
      else (PutSession(db, s, GivenUp(x, now)), Err(CreationUnavailable))
    else (db, if x.status == At(Pending) then Ok(s) else Err(CreationUnavailable))
  }

  /** The second transaction of a start call, once the provider has answered. */
  function Finish(cfg: Config, db: Db, s: Id, reply: Reply, now: Time): (Db, Result<Id, Error>) {
    if s >= |db.sessions| then (db, Err(SessionNotFound))
    else if Acceptable(cfg, db.sessions[s].startedAt, reply) then Activate(db, s, reply, now)
    else MarkCreationFailed(db, s, now)
  }

  // ---- the provider callback ----

  datatype Response =
    | Answer(eventRow: Id, processing: Processing, status: Option<KycStatus>, reason: EventReason)
    | Duplicate(eventRow: Id)
    | IdentityConflict(eventRow: Id)
    | Raised(error: Error)

  function Row(e: ProviderEvent, processing: Processing, reason: EventReason, now: Time): EventRow {
    EventRow(e, now, processing, reason, Some(now), if processing == Processed then Some(now) else None)
  }

  function Insert(db: Db, row: EventRow): Db { db.(events := db.events + [row]) }

  function ElapsedChange(p: Profile, s: Id, x: Session, provider: Option<string>, now: Time): Change {
    Change(Expired, SessionExpiry, Set(Some(s)), Set(provider), Set(p.verifiedAt),
           Some(if x.expiresAt.Some? then x.expiresAt.value else now), None, None, None)
  }

  /** The session has elapsed: expire its row, and the profile when it is still waiting on it. */
  function ExpireSession(db: Db, s: Id, now: Time, provider: Option<string>): Result<Db, Error>
    requires s < |db.sessions|
  {
    var x := db.sessions[s];
    var db1 := if SessionDue(x, now) then PutSession(db, s, Elapsed(x, now)) else db;
    if x.playerId in db.profiles && db.profiles[x.playerId].current == Some(s)
       && db.profiles[x.playerId].status in {Pending, ManualReview}
    then Move(db1, x.playerId, ElapsedChange(db.profiles[x.playerId], s, x, provider, now), now)
    else Ok(db1)
  }

  function EventChange(cfg: Config, p: Profile, s: Id, x: Session, e: ProviderEvent, eventRow: Id, now: Time): Change {
    Change(e.result, ProviderEventTrigger, Set(Some(s)), Set(Some(x.provider)),
           Set(if e.result == Verified then Some(now) else p.verifiedAt),
           if e.result == Verified then Some(now + cfg.verificationTtl)
           else if e.result == Expired then Some(now) else None,
           if e.result == Failed then Some(ProviderFailed) else None, Some(eventRow), None)
  }

  /** The event moves the session, and the profile with it. */
  function ApplyEvent(cfg: Config, db: Db, s: Id, e: ProviderEvent, now: Time): Result<Db, Error>
    requires s < |db.sessions| && db.sessions[s].playerId in db.profiles
  {
    var x := db.sessions[s];
    var p := db.profiles[x.playerId];
    var completedAt := if e.result in {Pending, ManualReview} then None else Some(now);
    match UpdateFromEvent(db, s, e.result, e.occurredAt, completedAt)
    case Err(err) => Err(err)
    case Ok(db1) =>
      if e.result == Pending then Ok(Insert(db1, Row(e, Processed, NoReason, now)))
      else
        Move(Insert(db1, Row(e, Processed, Applied(e.result), now)), x.playerId,
             EventChange(cfg, p, s, x, e, |db.events|, now), now)
  }

  /** The part of the callback after its session and profile are locked. */
  function HandleEvent(cfg: Config, db: Db, s: Id, e: ProviderEvent, now: Time): (Db, Response)
    requires s < |db.sessions| && db.sessions[s].playerId in db.profiles
  {
    var x := db.sessions[s];
    var p := db.profiles[x.playerId];
    var row := |db.events|;
    if x.status == At(Expired) || SessionDue(x, now) then
      match ExpireSession(db, s, now, Some(x.provider))
      case Err(err) => (db, Raised(err))
      case Ok(db1) =>
        (Insert(db1, Row(e, IgnoredExpired, SessionElapsed, now)),
         Answer(row, IgnoredExpired, if x.playerId in db1.profiles then Some(db1.profiles[x.playerId].status) else None,
                SessionElapsed))
    else if e.claimedPlayer.Some? && e.claimedPlayer.value != x.playerId then
      (Insert(db, Row(e, Rejected, PlayerMismatch, now)), Answer(row, Rejected, None, PlayerMismatch))
    else if IsStale(e, x, p.current == Some(s)) || (e.result != Pending && !CanTransition(p.status, e.result)) then
      (Insert(db, Row(e, IgnoredStale, StaleEvent, now)), Answer(row, IgnoredStale, Some(p.status), StaleEvent))
    else
      match ApplyEvent(cfg, db, s, e, now)
      case Err(err) => (db, Raised(err))
      case Ok(db1) =>
        (db1, Answer(row, Processed, Some(if e.result == Pending then p.status else e.result),
                     if e.result == Pending then NoReason else Applied(e.result)))
  }

  function Callback(cfg: Config, db: Db, e: ProviderEvent, now: Time): (Db, Response) {
    var stored := FindEvent(db.events, e);
    var row := |db.events|;
    if stored.Some? then
      var first := db.events[stored.value].event;
      if first.payloadHash != e.payloadHash || first.reference != e.reference || first.eventType != e.eventType
      then (db, IdentityConflict(stored.value))
      else (db, Duplicate(stored.value))
    else if e.occurredAt > now + cfg.maxFutureSkew then
      (Insert(db, Row(e, Rejected, FutureTimestamp, now)), Answer(row, Rejected, None, FutureTimestamp))
    else if e.provider != cfg.provider then
      (Insert(db, Row(e, Rejected, ProviderMismatch, now)), Answer(row, Rejected, None, ProviderMismatch))
    else match FindByReference(db.sessions, e.provider, e.reference)
      case None => (Insert(db, Row(e, Rejected, UnknownSession, now)), Answer(row, Rejected, None, UnknownSession))
      case Some(s) =>
        if db.sessions[s].playerId !in db.profiles then (db, Raised(ProfileNotFound))
        else HandleEvent(cfg, db, s, e, now)
  }

  // ---- manual reviews ----

  /** What a decision remembers of the review it read before locking anything. */
  datatype Ticket = Ticket(review: Id, playerId: string, session: Id)

  function ReadReview(db: Db, r: Id): Result<Ticket, Error> {
    if r >= |db.reviews| || db.reviews[r].status == Completed || db.reviews[r].session.None? then Err(ReviewNotFound)
    else Ok(Ticket(r, db.reviews[r].playerId, db.reviews[r].session.value))
  }

  function DecisionChange(cfg: Config, t: Ticket, x: Session, outcome: KycStatus, now: Time): Change {
    Change(outcome, ReviewDecision, Set(Some(t.session)), Set(Some(x.provider)),
           if outcome == Verified then Set(Some(now)) else Keep,
           if outcome == Verified then Some(now + cfg.verificationTtl) else None,
           if outcome == Failed then Some(ReviewRejected) else None, None, Some(t.review))
  }

  /** Approve (verified), reject (failed) or resume (pending), with the review as it was read. */
  function Decide(cfg: Config, db: Db, t: Ticket, outcome: KycStatus, now: Time): (Db, Result<Id, Error>) {
    if t.session >= |db.sessions| || db.sessions[t.session].status !in {At(ManualReview), At(Verified)} then
      (db, Err(InvalidTransition))
    else match UpdateFromEvent(db, t.session, outcome, now, if outcome == Pending then None else Some(now))
      case Err(x) => (db, Err(x))
      case Ok(db1) =>
        match Move(db1, t.playerId, DecisionChange(cfg, t, db.sessions[t.session], outcome, now), now)
        case Err(x) => (db, Err(x))
        case Ok(db2) => (db2, Ok(t.review))
  }

  function AddAction(r: Review, act: ReviewAct, at: Time): Review {
    r.(openedAt := if r.openedAt.Some? then r.openedAt else Some(at),
       actions := r.actions + [ReviewAction(act, ManualReview, ManualReview, at)])
  }

  function OpenReview(db: Db, r: Id, now: Time): Result<Db, Error> {
    if r >= |db.reviews| || db.reviews[r].status == Completed then Err(ReviewNotFound)
    else if now < db.reviews[r].requestedAt then Err(CheckViolation)
    else
      var review := db.reviews[r];
      Ok(db.(reviews := db.reviews[r := AddAction(review, ReviewOpened, now)
                                        .(status := if review.assignee.None? then Opened else Assigned)]))
  }

  function AssignReview(db: Db, r: Id, assignee: string, now: Time): Result<Db, Error> {
    if r >= |db.reviews| || db.reviews[r].status == Completed then Err(ReviewNotFound)
    else if now < db.reviews[r].requestedAt then Err(CheckViolation)
    else Ok(db.(reviews := db.reviews[r := AddAction(db.reviews[r], ReviewAssigned, now)
                                           .(status := Assigned, assignee := Some(assignee))]))
  }

  // ---- the expiry sweeps ----

  function SweepSession(db: Db, s: Id, now: Time): Result<Db, Error> {
    if s >= |db.sessions| || !SessionDue(db.sessions[s], now) then Ok(db)
    else
      var player := db.sessions[s].playerId;
      ExpireSession(db, s, now, if player in db.profiles then db.profiles[player].provider else None)
  }

  /** One sweep transaction over the sessions its query returned; an error rolls all of it back. */
  function SweepSessions(db: Db, ids: seq<Id>, now: Time): Result<Db, Error>
    decreases |ids|
  {
    if ids == [] then Ok(db)
    else match SweepSession(db, ids[0], now)
      case Err(x) => Err(x)
      case Ok(db1) => SweepSessions(db1, ids[1..], now)
  }

  function VerificationChange(p: Profile): Change {
    Change(Expired, VerificationExpiry, Set(p.current), Set(p.provider), Set(p.verifiedAt), p.expiresAt, None, None,
           None)
  }

  function SweepProfile(db: Db, player: string, now: Time): Result<Db, Error> {
    if player !in db.profiles then Err(ProfileNotFound)
    else Move(db, player, VerificationChange(db.profiles[player]), now)
  }

  function SweepProfiles(db: Db, players: seq<string>, now: Time): Result<Db, Error>
    decreases |players|
  {
    if players == [] then Ok(db)
    else match SweepProfile(db, players[0], now)
      case Err(x) => Err(x)
      case Ok(db1) => SweepProfiles(db1, players[1..], now)
  }

  /** What the locking queries may return: distinct due rows, at most the limit of them. */
  predicate DueSessions(db: Db, now: Time, limit: nat, ids: seq<Id>) {
    && Distinct(ids) && |ids| <= limit
    && forall k :: 0 <= k < |ids| ==> ids[k] < |db.sessions| && SessionDue(db.sessions[ids[k]], now)
  }

  /** The order of the session sweep: by expiry, then by row. */
  predicate Earlier(sessions: seq<Session>, s: Id, t: Id)
    requires s < |sessions| && t < |sessions|
  {
    && sessions[s].expiresAt.Some? && sessions[t].expiresAt.Some?
    && (|| sessions[s].expiresAt.value < sessions[t].expiresAt.value
        || (sessions[s].expiresAt == sessions[t].expiresAt && s < t))
  }

  predicate DueProfiles(db: Db, now: Time, limit: nat, players: seq<string>) {
    Distinct(players) && |players| <= limit
    && forall k :: 0 <= k < |players| ==> players[k] in db.profiles && VerificationDue(db.profiles[players[k]], now)
  }
}
