/** What an event does, stated by outcome instead of by branch: in every run on the rows of its session and of that
    session's player, and on the session's row alone where coherence makes every other check redundant. */
module KycOutcomes {
  import opened Wrappers
  import opened KycDomain
  import opened KycProtocol
  import opened KycInvariants
  import opened KycHistory
  import opened KycTables
  import opened KycTransactions
  import opened KycWrites
  import opened KycRuns
  import opened KycTheorems

  // ---- what an event says of a session ----

  predicate Repeats(first: ProviderEvent, again: ProviderEvent) {
    first.provider == again.provider && first.eventId == again.eventId
  }

  ghost predicate IsNew(db: Db, e: ProviderEvent) {
    forall k :: 0 <= k < |db.events| ==> !Repeats(db.events[k].event, e)
  }

  /** The event is new, not too far ahead of the clock, and from the configured provider. */
  ghost predicate Accepts(cfg: Config, db: Db, e: ProviderEvent, now: Time) {
    IsNew(db, e) && e.occurredAt <= now + cfg.maxFutureSkew && e.provider == cfg.provider
  }

  predicate Bears(x: Session, e: ProviderEvent) { x.provider == e.provider && x.reference == Some(e.reference) }

  predicate IsWaiting(x: Session) { x.status in {At(Pending), At(ManualReview)} }

  predicate HasElapsed(x: Session, now: Time) {
    x.status == At(Expired) || (IsWaiting(x) && x.expiresAt.Some? && x.expiresAt.value <= now)
  }

  predicate IsLater(x: Session, e: ProviderEvent) {
    x.startedAt <= e.occurredAt && (x.lastEventAt.Some? ==> x.lastEventAt.value < e.occurredAt)
  }

  predicate ClaimsOther(x: Session, e: ProviderEvent) {
    e.claimedPlayer != None && e.claimedPlayer != Some(x.playerId)
  }

  /** The profile may take the result: a pending result only confirms what is pending, a review is ended only by a
      final result, and a verification only by its expiry or a review. */
  predicate MayTake(x: Session, p: Profile, result: KycStatus) {
    match result
    case Pending => x.status == At(Pending)
    case ManualReview => p.status in {Pending, Verified}
    case Expired => p.status in {Pending, ManualReview, Verified}
    case _ => p.status in {Pending, ManualReview}
  }

  /** The event moves the session: it is waiting and current, and the event is later and of the right player. */
  predicate Advances(x: Session, p: Profile, s: Id, e: ProviderEvent) {
    IsWaiting(x) && p.current == Some(s) && IsLater(x, e) && !ClaimsOther(x, e) && MayTake(x, p, e.result)
  }

  // ---- what is written ----

  /** The row of the session an accepted event names, when the callback commits. */
  function SessionAfter(x: Session, p: Profile, s: Id, e: ProviderEvent, now: Time): Session {
    if HasElapsed(x, now) then
      if x.status == At(Expired) then x else x.(status := At(Expired), completedAt := Some(now))
    else if Advances(x, p, s, e) then
      x.(status := At(e.result), lastEventAt := Some(e.occurredAt),
         completedAt := if e.result in {Verified, Failed, Expired} then Some(now) else None)
    else x
  }

  /** The profile waits on the session. */
  predicate WaitsFor(p: Profile, s: Id) { p.current == Some(s) && p.status in {Pending, ManualReview} }

  /** A profile that waits on an elapsed session expires when the session did. */
  function ExpiredWith(p: Profile, x: Session): Profile {
    p.(status := Expired, provider := Some(x.provider), expiresAt := x.expiresAt, failure := None,
       version := p.version + 1)
  }

  /** A profile that takes a result for its session: a verification dates from now and runs for the configured time. */
  function Taken(cfg: Config, p: Profile, x: Session, s: Id, result: KycStatus, now: Time): Profile {
    Profile(result, Some(x.provider), Some(s), if result == Verified then Some(now) else p.verifiedAt,
            if result == Verified then Some(now + cfg.verificationTtl)
            else if result == Expired then Some(now) else None,
            if result == Failed then Some(ProviderFailed) else None, p.version + 1)
  }

  ghost predicate ProfileFollows(cfg: Config, db: Db, db': Db, s: Id, e: ProviderEvent, now: Time)
    requires s < |db.sessions| && db.sessions[s].playerId in db.profiles
  {
    var x, p := db.sessions[s], db.profiles[db.sessions[s].playerId];
    if HasElapsed(x, now) then
      if WaitsFor(p, s) then Moves(db, db', x.playerId, ExpiredWith(p, x), SessionExpiry, None, now)
      else Stays(db, db')
    else if Advances(x, p, s, e) && e.result != Pending then
      Moves(db, db', x.playerId, Taken(cfg, p, x, s, e.result, now), ProviderEventTrigger, Some(|db.events|), now)
    else Stays(db, db')
  }

  /** The status of the session's player: a profile that waits on an expired session expires with it. */
  function ProfileAfter(x: Session, p: Profile, s: Id, e: ProviderEvent, now: Time): KycStatus {
    if HasElapsed(x, now) then if WaitsFor(p, s) then Expired else p.status
    else if Advances(x, p, s, e) && e.result != Pending then e.result
    else p.status
  }

  /** The outcome of the event: how it was processed, and why. */
  function Told(x: Session, p: Profile, s: Id, e: ProviderEvent, now: Time): (Processing, EventReason) {
    if HasElapsed(x, now) then (IgnoredExpired, SessionElapsed)
    else if ClaimsOther(x, e) then (Rejected, PlayerMismatch)
    else if Advances(x, p, s, e) then (Processed, if e.result == Pending then NoReason else Applied(e.result))
    else (IgnoredStale, StaleEvent)
  }

  /** The stored event, with its outcome. */
  function Stored(e: ProviderEvent, told: (Processing, EventReason), now: Time): EventRow {
    EventRow(e, now, told.0, told.1, Some(now), if told.0 == Processed then Some(now) else None)
  }

  /** The database refuses what the event writes, by the order of two times in a row. */
  ghost predicate IsRefused(db: Db, s: Id, e: ProviderEvent, now: Time)
    requires s < |db.sessions| && db.sessions[s].playerId in db.profiles
  {
    var x, p := db.sessions[s], db.profiles[db.sessions[s].playerId];
    if HasElapsed(x, now) then Blocked(db, s, now) else Advances(x, p, s, e) && ClockBehind(db, s, e, now)
  }

  /** The whole effect of an event on the session it names. */
  ghost predicate HandledAs(cfg: Config, db: Db, s: Id, e: ProviderEvent, now: Time, db': Db, r: Response)
    requires s < |db.sessions| && db.sessions[s].playerId in db.profiles
  {
    var x, p := db.sessions[s], db.profiles[db.sessions[s].playerId];
    var told, after := Told(x, p, s, e, now), ProfileAfter(x, p, s, e, now);
    && (r.Raised? <==> IsRefused(db, s, e, now))
    && (if r.Raised? then db' == db
        else
          && db'.sessions == db.sessions[s := SessionAfter(x, p, s, e, now)]
          && ProfileFollows(cfg, db, db', s, e, now)
          && db'.events == db.events + [Stored(e, told, now)]
          && r == Answer(|db.events|, told.0, if told.0 == Rejected then None else Some(after), told.1))
  }

  // ---- branch by branch ----

  lemma ReadsEvent(x: Session, p: Profile, s: Id, e: ProviderEvent, now: Time)
    requires x.status.At? && x.status.kyc != NotStarted && e.result != NotStarted
    ensures HasElapsed(x, now) <==> x.status == At(Expired) || SessionDue(x, now)
    ensures !HasElapsed(x, now) && !ClaimsOther(x, e) ==>
              (Advances(x, p, s, e) <==>
               !IsStale(e, x, p.current == Some(s)) && (e.result == Pending || CanTransition(p.status, e.result)))
  {
    assert x.status == At(Expired) || IsWaiting(x) || Closed(x.status) by { assert x.status == At(x.status.kyc); }
    assert e.result != Pending ==> (MayTake(x, p, e.result) <==> CanTransition(p.status, e.result));
  }

  lemma ElapsedOutcome(cfg: Config, db: Db, s: Id, e: ProviderEvent, now: Time)
    requires Inv(cfg, db) && s < |db.sessions| && db.sessions[s].playerId in db.profiles
    requires db.sessions[s].status.At? && db.sessions[s].status.kyc != NotStarted
    requires e.result != NotStarted && HasElapsed(db.sessions[s], now)
    ensures var (db', r) := HandleEvent(cfg, db, s, e, now); HandledAs(cfg, db, s, e, now, db', r)
  {
    hide Inv, Move, ReviewsFollow, VerifiedLater, ReviewAhead, Advances, Blocked;
    var x := db.sessions[s];
    var p := db.profiles[x.playerId];
    SessionFacts(cfg, db, s);
    OneOpenReview(cfg, db);
    ReadsEvent(x, p, s, e, now);
    ExpireSessionOk(cfg, db, s, now, Some(x.provider));
    assert x.expiresAt.Some?;
    var mid := if SessionDue(x, now) then PutSession(db, s, Elapsed(x, now)) else db;
    var c := ElapsedChange(p, s, x, Some(x.provider), now);
    assert db.sessions[s := db.sessions[s]] == db.sessions;
    if WaitsFor(p, s) && Move(mid, x.playerId, c, now).Ok? { MoveWrites(mid, x.playerId, c, now); }
  }

  lemma AppliedOutcome(cfg: Config, db: Db, s: Id, e: ProviderEvent, now: Time)
    requires Inv(cfg, db) && s < |db.sessions| && db.sessions[s].playerId in db.profiles && Current(db, s, e, now)
    requires !HasElapsed(db.sessions[s], now) && Advances(db.sessions[s], db.profiles[db.sessions[s].playerId], s, e)
    requires e.result != NotStarted
    ensures ApplyEvent(cfg, db, s, e, now).Ok? <==> !ClockBehind(db, s, e, now)
    ensures ApplyEvent(cfg, db, s, e, now).Ok? ==>
              var x, p, db' := db.sessions[s], db.profiles[db.sessions[s].playerId],
                               ApplyEvent(cfg, db, s, e, now).value;
              && db'.sessions == db.sessions[s := SessionAfter(x, p, s, e, now)]
              && ProfileFollows(cfg, db, db', s, e, now)
              && db'.events == db.events + [Stored(e, Told(x, p, s, e, now), now)]
  {
    hide Inv, Move, ReviewsFollow, ClockBehind, Current, OtherEffective, SessionOrdered, Keeps;
    var x := db.sessions[s];
    var p := db.profiles[x.playerId];
    OneOpenReview(cfg, db);
    ApplyEventKeeps(cfg, db, s, e, now);
    if ApplyEvent(cfg, db, s, e, now).Ok? && e.result != Pending {
      var mid := Insert(PutSession(db, s, Updated(x, e.result, e.occurredAt, CompletedAt(e, now))),
                        Row(e, Processed, Applied(e.result), now));
      MoveWrites(mid, x.playerId, EventChange(cfg, p, s, x, e, |db.events|, now), now);
    }
  }

  lemma AppliedHandled(cfg: Config, db: Db, s: Id, e: ProviderEvent, now: Time)
    requires Inv(cfg, db) && s < |db.sessions| && db.sessions[s].playerId in db.profiles && Current(db, s, e, now)
    requires !HasElapsed(db.sessions[s], now) && Advances(db.sessions[s], db.profiles[db.sessions[s].playerId], s, e)
    requires db.sessions[s].status.At? && db.sessions[s].status.kyc != NotStarted && e.result != NotStarted
    ensures var (db', r) := HandleEvent(cfg, db, s, e, now); HandledAs(cfg, db, s, e, now, db', r)
  {
    hide Inv, Current, ApplyEvent, ExpireSession, IsStale, ClockBehind, Blocked, ProfileFollows, SessionAfter;
    var x := db.sessions[s];
    ReadsEvent(x, db.profiles[x.playerId], s, e, now);
    AppliedOutcome(cfg, db, s, e, now);
  }

  lemma IgnoredHandled(cfg: Config, db: Db, s: Id, e: ProviderEvent, now: Time)
    requires s < |db.sessions| && db.sessions[s].playerId in db.profiles && !HasElapsed(db.sessions[s], now)
    requires !Advances(db.sessions[s], db.profiles[db.sessions[s].playerId], s, e)
    requires db.sessions[s].status.At? && db.sessions[s].status.kyc != NotStarted && e.result != NotStarted
    ensures var (db', r) := HandleEvent(cfg, db, s, e, now); HandledAs(cfg, db, s, e, now, db', r)
  {
    hide ApplyEvent, ExpireSession, IsStale, ClockBehind, Blocked, Advances, HasElapsed, SessionDue;
    var x := db.sessions[s];
    ReadsEvent(x, db.profiles[x.playerId], s, e, now);
    assert db.sessions[s := db.sessions[s]] == db.sessions;
  }

  lemma HandleOutcome(cfg: Config, db: Db, s: Id, e: ProviderEvent, now: Time)
    requires Inv(cfg, db) && s < |db.sessions| && db.sessions[s].playerId in db.profiles
    requires FindEvent(db.events, e).None? && e.result != NotStarted
    requires FindByReference(db.sessions, e.provider, e.reference) == Some(s)
    ensures var (db', r) := HandleEvent(cfg, db, s, e, now); HandledAs(cfg, db, s, e, now, db', r)
  {
    hide Inv, FindByReference, FindEvent, HandleEvent, HandledAs, Advances, HasElapsed;
    var x := db.sessions[s];
    SessionFacts(cfg, db, s);
    Referenced(x);
    if HasElapsed(x, now) {
      ElapsedOutcome(cfg, db, s, e, now);
    } else if Advances(x, db.profiles[x.playerId], s, e) {
      assert Current(db, s, e, now) by { IsCurrent(db, s, e, now); }
      AppliedHandled(cfg, db, s, e, now);
    } else {
      IgnoredHandled(cfg, db, s, e, now);
    }
  }

  lemma IsCurrent(db: Db, s: Id, e: ProviderEvent, now: Time)
    requires s < |db.sessions| && db.sessions[s].playerId in db.profiles && FindEvent(db.events, e).None?
    requires FindByReference(db.sessions, e.provider, e.reference) == Some(s) && e.result != NotStarted
    requires !HasElapsed(db.sessions[s], now) && Advances(db.sessions[s], db.profiles[db.sessions[s].playerId], s, e)
    ensures Current(db, s, e, now)
  {
  }

  lemma Referenced(x: Session)
    requires SessionShape(x) && x.reference.Some?
    ensures x.status.At? && x.status.kyc != NotStarted
  {
  }

  // ---- the theorems ----

  lemma NewIff(db: Db, e: ProviderEvent)
    ensures IsNew(db, e) <==> FindEvent(db.events, e).None?
  {
    if FindEvent(db.events, e).None? {
      forall k | 0 <= k < |db.events| ensures !Repeats(db.events[k].event, e) {
        assert !SameIdentity(db.events[k].event, e);
      }
    }
  }

  lemma BearerIsFound(cfg: Config, db: Db, e: ProviderEvent, s: Id)
    requires Inv(cfg, db) && s < |db.sessions| && Bears(db.sessions[s], e)
    ensures FindByReference(db.sessions, e.provider, e.reference) == Some(s)
  {
    hide Filed, CurrentOk, SessionsOk, AttemptsIncrease, CreatingIsNewest, OneEffective, KeysUnique, ReviewsOk,
      ReviewSessionsOk, EventsOk, AllJustified, AllDated;
    assert HasReference(db.sessions[s], e.provider, e.reference);
  }

  /** One accepted event, in every state any run reaches: what the two rows of the session it names and the event
      determine is written to them, the event is stored with its outcome, and the reply carries that outcome
      and the status the profile has then; no other session or profile changes. It raises, and changes
      nothing, exactly when the order of two times in a row refuses what it writes. */
  lemma EventOutcomeInEveryRun(cfg: Config, w: World, e: ProviderEvent, now: Time, s: Id)
    requires s < |w.db.sessions| && Reachable(cfg, w) && e.result != NotStarted
    requires Accepts(cfg, w.db, e, now) && Bears(w.db.sessions[s], e)
    ensures w.db.sessions[s].playerId in w.db.profiles
    ensures var (db', r) := Callback(cfg, w.db, e, now); HandledAs(cfg, w.db, s, e, now, db', r)
  {
    hide Inv, Reachable, TicketsOk, HandleEvent, FindEvent, FindByReference, SessionShape, HandledAs, IsNew;
    ReachableOk(cfg, w);
    SessionFacts(cfg, w.db, s);
    NewIff(w.db, e);
    BearerIsFound(cfg, w.db, e, s);
    HandleOutcome(cfg, w.db, s, e, now);
  }

  /** Every other delivery, in every state any run reaches. A repeated identity is answered as a duplicate exactly when
      payload hash, reference and event type are those of the stored event, and otherwise as a conflict, and
      changes nothing. A new event too far ahead of the clock, of another provider, or for no session, in this
      order, is stored as rejected for that reason, and nothing else changes. */
  lemma OtherReplies(cfg: Config, w: World, e: ProviderEvent, now: Time)
    requires Reachable(cfg, w)
    ensures var (db', r) := Callback(cfg, w.db, e, now);
            && (forall k :: 0 <= k < |w.db.events| && Repeats(w.db.events[k].event, e) ==>
                  var first := w.db.events[k].event;
                  && db' == w.db
                  && r == if first.payloadHash == e.payloadHash && first.reference == e.reference
                             && first.eventType == e.eventType then Duplicate(k) else IdentityConflict(k))
            && (IsNew(w.db, e) && (!Accepts(cfg, w.db, e, now) || !IsBorne(w.db, e)) ==>
                  var reason := if e.occurredAt > now + cfg.maxFutureSkew then FutureTimestamp
                                else if e.provider != cfg.provider then ProviderMismatch else UnknownSession;
                  && db' == w.db.(events := w.db.events + [Stored(e, (Rejected, reason), now)])
                  && r == Answer(|w.db.events|, Rejected, None, reason))
  {
    hide Filed, CurrentOk, SessionsOk, AttemptsIncrease, CreatingIsNewest, OneEffective, ReferencesUnique, KeysUnique,
      ReviewsOk, ReviewSessionsOk, AllJustified, AllDated, OutcomeOk, Behind, TicketsOk, Reachable, HandleEvent;
    ReachableOk(cfg, w);
    NewIff(w.db, e);
    forall k | 0 <= k < |w.db.events| && Repeats(w.db.events[k].event, e)
      ensures FindEvent(w.db.events, e) == Some(k)
    {
      RepeatIsFound(w.db.events, e, k);
    }
    var found := FindByReference(w.db.sessions, e.provider, e.reference);
    assert found.Some? ==> Bears(w.db.sessions[found.value], e);
  }

  /** The one stored event of an identity is the one that is found. */
  lemma {:induction false} RepeatIsFound(events: seq<EventRow>, e: ProviderEvent, k: Id)
    requires k < |events| && Repeats(events[k].event, e)
    requires forall i, j :: 0 <= i < j < |events| ==> !SameIdentity(events[i].event, events[j].event)
    ensures FindEvent(events, e) == Some(k)
  {
    var n := |events| - 1;
    if k < n {
      assert !SameIdentity(events[k].event, events[n].event);
      RepeatIsFound(events[..n], e, k);
    }
  }

  ghost predicate IsBorne(db: Db, e: ProviderEvent) { exists s :: 0 <= s < |db.sessions| && Bears(db.sessions[s], e) }

  // ---- timely runs ----

  /** The status a waiting session has after an event: elapsed sessions expire, whatever the event says; otherwise a
      later event of the right player decides, but a review is only ended by a final result. */
  function StatusAfter(x: Session, e: ProviderEvent, now: Time): KycStatus
    requires IsWaiting(x)
  {
    if x.expiresAt.Some? && x.expiresAt.value <= now then Expired
    else if !IsLater(x, e) || ClaimsOther(x, e) then x.status.kyc
    else if x.status == At(ManualReview) && e.result in {Pending, ManualReview} then ManualReview
    else e.result
  }

  lemma WaitingFacts(cfg: Config, db: Db, s: Id)
    requires Inv(cfg, db) && s < |db.sessions| && CoherentFor(db.profiles, db.sessions, db.sessions[s].playerId)
    ensures SessionShape(db.sessions[s]) && db.sessions[s].playerId in db.profiles
    ensures IsWaiting(db.sessions[s]) ==>
              var p := db.profiles[db.sessions[s].playerId];
              p.current == Some(s) && At(p.status) == db.sessions[s].status
  {
    hide Inv, CoherentFor, SessionShape;
    SessionFacts(cfg, db, s);
    if IsWaiting(db.sessions[s]) { Waiting(db, s); }
  }

  lemma Waiting(db: Db, s: Id)
    requires s < |db.sessions| && CoherentFor(db.profiles, db.sessions, db.sessions[s].playerId)
    requires IsWaiting(db.sessions[s])
    ensures db.sessions[s].playerId in db.profiles
    ensures var p := db.profiles[db.sessions[s].playerId];
            p.current == Some(s) && At(p.status) == db.sessions[s].status
  {
    assert SessionFits(db.profiles, s, db.sessions[s]);
  }

  /** In runs that are timely for the session's player, its own row decides: a session that is not waiting is left as it
      was, and a waiting one gets the status its row and the event determine, and its player's profile has that
      status too. */
  lemma EventOutcome(cfg: Config, w: World, e: ProviderEvent, now: Time, s: Id)
    requires s < |w.db.sessions| && TimelyReachable(cfg, w, w.db.sessions[s].playerId) && e.result != NotStarted
    requires Accepts(cfg, w.db, e, now) && Bears(w.db.sessions[s], e) && !Callback(cfg, w.db, e, now).1.Raised?
    ensures var x, after := w.db.sessions[s], Callback(cfg, w.db, e, now).0;
            && s < |after.sessions|
            && (if !IsWaiting(x) then after.sessions[s] == x
                else
                  && after.sessions[s].status == At(StatusAfter(x, e, now))
                  && x.playerId in after.profiles && after.profiles[x.playerId].status == StatusAfter(x, e, now))
  {
    hide Inv, IsCoherent, TimelyReachable, Reachable, TicketsOk, Callback, Accepts, SessionShape, ReviewsFollow;
    var player := w.db.sessions[s].playerId;
    TimelyOk(cfg, w, player);
    assert CoherentFor(w.db.profiles, w.db.sessions, player) by { CoherentParts(w, player); }
    EventOutcomeInEveryRun(cfg, w, e, now, s);
    WaitingFacts(cfg, w.db, s);
  }

  lemma CoherentParts(w: World, player: string)
    requires IsCoherent(w, player)
    ensures CoherentFor(w.db.profiles, w.db.sessions, player)
  {
  }
}
