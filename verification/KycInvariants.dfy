/** The invariants of the KYC tables. The first group holds of every run whatsoever; coherence, the
    agreement between a player's profile and sessions, needs the decisions on that player's reviews to
    find them still open. */
module KycInvariants {
  import opened Wrappers
  import opened KycDomain
  import opened KycProtocol

  // ---- profiles and their logs ----

  ghost predicate ProfileShape(cfg: Config, p: Profile) {
    && (p.status == NotStarted ==> p == FRESH_PROFILE)
    && (p.status != NotStarted ==> p.provider.Some? && p.current.Some?)
    && (p.status == Verified ==> p.verifiedAt.Some? && p.expiresAt == Some(p.verifiedAt.value + cfg.verificationTtl))
    && (p.status == Failed ==> p.failure.Some?)
  }

  ghost predicate LogStep(log: seq<Transition>, k: nat)
    requires k < |log|
  {
    && log[k].version == k + 2
    && log[k].session.Some?
    && CanTransition(log[k].from, log[k].to)
    && log[k].from == (if k == 0 then NotStarted else log[k - 1].to)
  }

  /** The log is a gapless chain of allowed steps that ends at the stored status and session. */
  ghost predicate LogReplays(p: Profile, log: seq<Transition>) {
    && p.version == 1 + |log|
    && p.status == (if log == [] then NotStarted else log[|log| - 1].to)
    && p.current == (if log == [] then None else log[|log| - 1].session)
    && forall k :: 0 <= k < |log| ==> LogStep(log, k)
  }

  ghost predicate Filed(cfg: Config, profiles: map<string, Profile>, log: map<string, seq<Transition>>) {
    && log.Keys == profiles.Keys
    && forall p :: p in profiles ==>
      ProfileShape(cfg, profiles[p]) && ExpiryOrdered(profiles[p]) && LogReplays(profiles[p], log[p])
  }

  /** A profile's current session is a session of the same player that reached the provider. */
  ghost predicate CurrentOk(profiles: map<string, Profile>, sessions: seq<Session>) {
    forall p :: p in profiles && profiles[p].current.Some? ==>
      var s := profiles[p].current.value;
      && s < |sessions| && sessions[s].playerId == p && sessions[s].status.At?
      && profiles[p].provider == Some(sessions[s].provider)
  }

  // ---- sessions ----

  ghost predicate SessionShape(s: Session) {
    && (s.reference.Some? <==> s.status.At?)
    && (s.expiresAt.Some? <==> s.status.At?)
    && (s.status.At? ==> s.status.kyc != NotStarted)
    && (s.status in {At(Verified), At(Failed), At(ManualReview)} ==> s.lastEventAt.Some?)
    && SessionOrdered(s)
    && (s.completedAt.Some? <==> Closed(s.status))
    && s.attempt > 0
  }

  ghost predicate SessionsOk(players: set<string>, sessions: seq<Session>) {
    forall s :: 0 <= s < |sessions| ==> SessionShape(sessions[s]) && sessions[s].playerId in players
  }

  ghost predicate AttemptsIncrease(sessions: seq<Session>) {
    forall s, t :: 0 <= s < t < |sessions| && sessions[s].playerId == sessions[t].playerId ==>
      sessions[s].attempt < sessions[t].attempt
  }

  /** A session being created is its player's newest. */
  ghost predicate CreatingIsNewest(sessions: seq<Session>) {
    forall s, t :: 0 <= s < t < |sessions| && sessions[s].playerId == sessions[t].playerId ==>
      sessions[s].status != Creating
  }

  ghost predicate OneEffective(sessions: seq<Session>) {
    forall s, t :: 0 <= s < t < |sessions| && sessions[s].playerId == sessions[t].playerId
                   ==> !(Effective(sessions[s].status) && Effective(sessions[t].status))
  }

  ghost predicate ReferencesUnique(sessions: seq<Session>) {
    forall s, t :: 0 <= s < t < |sessions| && sessions[s].provider == sessions[t].provider
                   ==> sessions[s].reference.Some? ==> sessions[s].reference != sessions[t].reference
  }

  ghost predicate KeysUnique(sessions: seq<Session>) {
    forall s, t :: 0 <= s < t < |sessions| && sessions[s].playerId == sessions[t].playerId && sessions[s].key.Some?
                   ==> sessions[s].key != sessions[t].key
  }

  // ---- reviews ----

  /** The last action, and only the last, closes a completed review. */
  ghost predicate ReviewShape(r: Review) {
    && r.session.Some?
    && r.actions != [] && r.actions[0].act == ReviewRequested
    && (forall k :: 0 < k < |r.actions| ==> r.actions[k].act != ReviewRequested)
    && (forall k :: 0 <= k < |r.actions| ==>
          (r.actions[k].act.ReviewClosed? <==> r.status == Completed && k == |r.actions| - 1))
    && (r.status == Completed <==> r.completedAt.Some?)
    && (r.status in {Opened, Assigned} ==> r.openedAt.Some?)
    && ReviewOrdered(r)
  }

  /** An open review belongs to a profile in manual review and concerns its current session. */
  ghost predicate ReviewFits(profiles: map<string, Profile>, r: Review) {
    r.status != Completed ==>
      r.playerId in profiles && profiles[r.playerId].status == ManualReview && profiles[r.playerId].current == r.session
  }

  ghost predicate ReviewsOk(profiles: map<string, Profile>, reviews: seq<Review>) {
    && (forall r :: 0 <= r < |reviews| ==> ReviewShape(reviews[r]) && ReviewFits(profiles, reviews[r]))
    && (forall q, r :: 0 <= q < r < |reviews| && reviews[q].playerId == reviews[r].playerId
                       ==> reviews[q].status == Completed || reviews[r].status == Completed)
    && (forall p :: p in profiles && profiles[p].status == ManualReview ==> ActiveReview(reviews, p).Some?)
  }

  /** Reviews name sessions of their own player that reached the provider. */
  ghost predicate ReviewSessionsOk(reviews: seq<Review>, sessions: seq<Session>) {
    forall r :: 0 <= r < |reviews| && reviews[r].session.Some? ==>
      var s := reviews[r].session.value;
      s < |sessions| && sessions[s].playerId == reviews[r].playerId && sessions[s].status.At?
  }

  // ---- events ----

  ghost predicate OutcomeOk(row: EventRow) {
    && (match row.processing
        case Received => false
        case Processed => row.reason == if row.event.result == Pending then NoReason else Applied(row.event.result)
        case IgnoredStale => row.reason == StaleEvent
        case IgnoredExpired => row.reason == SessionElapsed
        case Rejected => row.reason in {FutureTimestamp, ProviderMismatch, UnknownSession, PlayerMismatch})
    && row.processedAt == Some(row.receivedAt)
    && row.acceptedAt == (if row.processing == Processed then Some(row.receivedAt) else None)
  }

  /** The session a processed event moved is at least as far in provider time. */
  ghost predicate Behind(e: ProviderEvent, sessions: seq<Session>) {
    exists s :: 0 <= s < |sessions| && HasReference(sessions[s], e.provider, e.reference)
                && sessions[s].lastEventAt.Some? && e.occurredAt <= sessions[s].lastEventAt.value
  }

  ghost predicate SameSession(a: EventRow, b: EventRow) {
    && a.processing == Processed && b.processing == Processed
    && a.event.provider == b.event.provider && a.event.reference == b.event.reference
  }

  ghost predicate EventsOk(events: seq<EventRow>, sessions: seq<Session>) {
    && (forall k :: 0 <= k < |events| ==> OutcomeOk(events[k]))
    && (forall k :: 0 <= k < |events| && events[k].processing == Processed ==> Behind(events[k].event, sessions))
    && (forall j, k :: 0 <= j < k < |events| ==> !SameIdentity(events[j].event, events[k].event))
    && (forall j, k :: 0 <= j < k < |events| && SameSession(events[j], events[k])
                       ==> events[j].event.occurredAt < events[k].event.occurredAt)
  }

  // ---- why a profile is verified ----

  /** A move to verified came from an admin decision, or from a processed verified event for the
      session it names, received strictly before that session's expiry. */
  ghost predicate Justified(row: Transition, events: seq<EventRow>, sessions: seq<Session>) {
    row.to == Verified ==>
      || row.trigger == ReviewDecision
      || (&& row.trigger == ProviderEventTrigger && row.eventRow.Some? && row.eventRow.value < |events|
          && row.session.Some? && row.session.value < |sessions|
          && var x, e := sessions[row.session.value], events[row.eventRow.value];
             && e.processing == Processed && e.event.result == Verified
             && HasReference(x, e.event.provider, e.event.reference)
             && x.expiresAt.Some? && e.receivedAt < x.expiresAt.value)
  }

  ghost predicate AllJustified(log: map<string, seq<Transition>>, events: seq<EventRow>, sessions: seq<Session>) {
    forall p, k :: p in log && 0 <= k < |log[p]| ==> Justified(log[p][k], events, sessions)
  }

  /** A verification by an event dates from the receipt of that event. */
  ghost predicate DatedBy(p: Profile, row: Transition, events: seq<EventRow>) {
    p.status == Verified && row.trigger == ProviderEventTrigger ==>
      row.eventRow.Some? && row.eventRow.value < |events| && p.verifiedAt == Some(events[row.eventRow.value].receivedAt)
  }

  ghost predicate AllDated(profiles: map<string, Profile>, log: map<string, seq<Transition>>, events: seq<EventRow>) {
    forall p :: p in profiles && p in log && log[p] != [] ==> DatedBy(profiles[p], log[p][|log[p]| - 1], events)
  }

  /** What every run keeps. */
  ghost predicate Inv(cfg: Config, db: Db) {
    && Filed(cfg, db.profiles, db.log)
    && CurrentOk(db.profiles, db.sessions)
    && SessionsOk(db.profiles.Keys, db.sessions)
    && AttemptsIncrease(db.sessions)
    && CreatingIsNewest(db.sessions)
    && OneEffective(db.sessions)
    && ReferencesUnique(db.sessions)
    && KeysUnique(db.sessions)
    && ReviewsOk(db.profiles, db.reviews)
    && ReviewSessionsOk(db.reviews, db.sessions)
    && EventsOk(db.events, db.sessions)
    && AllJustified(db.log, db.events, db.sessions)
    && AllDated(db.profiles, db.log, db.events)
  }

  // ---- coherence ----

  /** A waiting session is its player's current one and shares the profile's status; a session being
      created finds the profile waiting on nothing; every session that
      reached the provider is the current one or older. */
  ghost predicate SessionFits(profiles: map<string, Profile>, s: Id, x: Session) {
    x.playerId in profiles &&
    var p := profiles[x.playerId];
    && (x.status in {At(Pending), At(ManualReview)} ==> p.current == Some(s) && p.status == x.status.kyc)
    && (x.status == Creating ==> p.status in {NotStarted, Failed, Expired})
    && (x.status.At? ==> p.current.Some? && s <= p.current.value)
  }

  /** The current session has the profile's status; an expired profile may have outlived the
      verification of its current session. */
  ghost predicate ProfileFits(p: Profile, sessions: seq<Session>) {
    p.status != NotStarted ==>
      && p.current.Some? && p.current.value < |sessions|
      && (|| sessions[p.current.value].status == At(p.status)
          || (p.status == Expired && sessions[p.current.value].status == At(Verified)))
  }

  /** The rows of one player agree. */
  ghost predicate CoherentFor(profiles: map<string, Profile>, sessions: seq<Session>, player: string) {
    && (forall s :: 0 <= s < |sessions| && sessions[s].playerId == player ==> SessionFits(profiles, s, sessions[s]))
    && (player in profiles ==> ProfileFits(profiles[player], sessions))
  }

  // ---- how rows may change ----

  /** Identity columns never change, a provider reference and the expiry are written once, and the
      provider time of a session only grows. */
  ghost predicate SessionEvolves(a: Session, b: Session) {
    && a.playerId == b.playerId && a.provider == b.provider && a.key == b.key
    && a.attempt == b.attempt && a.startedAt == b.startedAt
    && (a.status.At? ==> b.status.At? && b.reference == a.reference && b.expiresAt == a.expiresAt)
    && (a.lastEventAt.Some? ==> b.lastEventAt.Some? && a.lastEventAt.value <= b.lastEventAt.value)
  }

  /** A closed session is never touched again. */
  ghost predicate Absorbing(a: Session, b: Session) { Closed(a.status) ==> b == a }

  ghost predicate ReviewEvolves(a: Review, b: Review) {
    && a.playerId == b.playerId && a.session == b.session && a.requestedAt == b.requestedAt
    && a.actions <= b.actions && (a.status == Completed ==> b == a)
  }
}
