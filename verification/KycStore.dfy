/** The KYC tables as the services change them, statement by statement. Every service method is
    proved to do to the tables exactly what the protocol functions say, and to keep the invariant. */
module KycStore {
  import opened Wrappers
  import opened Batches
  import opened KycDomain
  import opened KycProtocol
  import opened KycInvariants
  import opened KycHistory
  import opened KycTransactions

  class Store {
    var profiles: map<string, Profile>
    var log: map<string, seq<Transition>>
    var sessions: seq<Session>
    var reviews: seq<Review>
    var events: seq<EventRow>

    function Tables(): Db
      reads this
    {
      Db(profiles, log, sessions, reviews, events)
    }

    constructor ()
      ensures Tables() == Db(map[], map[], [], [], [])
    {
      profiles, log, sessions, reviews, events := map[], map[], [], [], [];
    }

    /** ROLLBACK: back to what the tables were when the transaction began. */
    method Rollback(db: Db)
      modifies this
      ensures Tables() == db
    {
      profiles, log, sessions, reviews, events := db.profiles, db.log, db.sessions, db.reviews, db.events;
    }

    // ---- queries ----

    method FindByProviderReferenceForUpdate(provider: string, reference: string) returns (r: Option<Id>)
      ensures r == FindByReference(sessions, provider, reference)
    {
      assert sessions[..|sessions|] == sessions;
      for k := |sessions| downto 0
        invariant FindByReference(sessions, provider, reference) == FindByReference(sessions[..k], provider, reference)
      {
        assert sessions[..k + 1][..k] == sessions[..k];
        if HasReference(sessions[k], provider, reference) { return Some(k); }
      }
      r := None;
    }

    method FindByIdempotencyKey(player: string, key: string) returns (r: Option<Id>)
      ensures r == FindByKey(sessions, player, key)
    {
      assert sessions[..|sessions|] == sessions;
      for k := |sessions| downto 0
        invariant FindByKey(sessions, player, key) == FindByKey(sessions[..k], player, key)
      {
        assert sessions[..k + 1][..k] == sessions[..k];
        if HasKey(sessions[k], player, key) { return Some(k); }
      }
      r := None;
    }

    method GetCurrentEffective(player: string, at: Time) returns (r: Option<Id>)
      ensures r == FindEffective(sessions, player, at)
    {
      assert sessions[..|sessions|] == sessions;
      for k := |sessions| downto 0
        invariant FindEffective(sessions, player, at) == FindEffective(sessions[..k], player, at)
      {
        assert sessions[..k + 1][..k] == sessions[..k];
        if Usable(sessions[k], player, at) { return Some(k); }
      }
      r := None;
    }

    method NextAttemptNumber(player: string) returns (next: nat)
      ensures next == MaxAttempt(sessions, player) + 1
    {
      var max := 0;
      for k := 0 to |sessions|
        invariant max == MaxAttempt(sessions[..k], player)
      {
        assert sessions[..k + 1][..k] == sessions[..k];
        if sessions[k].playerId == player && sessions[k].attempt > max { max := sessions[k].attempt; }
      }
      assert sessions[..|sessions|] == sessions;
      next := max + 1;
    }

    method FindActiveForProfile(player: string) returns (r: Option<Id>)
      ensures r == ActiveReview(reviews, player)
    {
      assert reviews[..|reviews|] == reviews;
      for k := |reviews| downto 0
        invariant ActiveReview(reviews, player) == ActiveReview(reviews[..k], player)
      {
        assert reviews[..k + 1][..k] == reviews[..k];
        if Active(reviews[k], player) { return Some(k); }
      }
      r := None;
    }

    // ---- single statements ----

    method GetOrCreateForPlayer(player: string)
      modifies this`profiles, this`log
      ensures Tables() == GetOrCreate(old(Tables()), player)
    {
      if player !in profiles { profiles, log := profiles[player := FRESH_PROFILE], log[player := []]; }
    }

    /** UPDATE ... WHERE id AND version: nothing happens when the version has moved on, and the row refuses an expiry
        before the verification. */
    method UpdateProfile(player: string, expectedVersion: nat, c: Change) returns (r: Result<Option<Profile>, Error>)
      modifies this`profiles
      ensures var found := player in old(profiles) && old(profiles)[player].version == expectedVersion;
              && (r == Ok(None) <==> !found)
              && (r.Err? <==> found && !ExpiryOrdered(Changed(old(profiles)[player], c)))
              && (r.Err? ==> r.error == CheckViolation)
              && (r.Ok? && r.value.Some? ==>
                    && r.value.value == Changed(old(profiles)[player], c)
                    && profiles == old(profiles)[player := r.value.value])
              && (r.Err? || r.value.None? ==> profiles == old(profiles))
    {
      if player !in profiles || profiles[player].version != expectedVersion { return Ok(None); }
      var p := profiles[player];
      var updated := Profile(
        status := c.to, provider := if c.provider.Set? then c.provider.value else p.provider,
        current := if c.session.Set? then c.session.value else p.current,
        verifiedAt := if c.verifiedAt.Set? then c.verifiedAt.value else p.verifiedAt,
        expiresAt := c.expiresAt, failure := c.failure, version := p.version + 1);
      if updated.expiresAt.Some? && updated.verifiedAt.Some? && updated.expiresAt.value < updated.verifiedAt.value {
        return Err(CheckViolation);
      }
      profiles := profiles[player := updated];
      r := Ok(Some(updated));
    }

    method AppendTransition(player: string, before: Profile, c: Change)
      requires player in log
      modifies this`log
      ensures log == old(log)[player := old(log)[player] + [LogRow(before, c)]]
    {
      var row := KycDomain.Transition(
        session := if c.session.Set? then c.session.value else before.current, from := before.status, to := c.to,
        trigger := c.trigger, eventRow := c.eventRow, version := before.version + 1);
      log := log[player := log[player] + [row]];
    }

    /** Entering or leaving manual review: request a review, or complete the active one. */
    method UpdateReviews(player: string, before: Profile, c: Change, at: Time) returns (error: Option<Error>)
      modifies this`reviews
      ensures match Reviewed(old(reviews), player, before, c, at)
              case Ok(rows) => error == None && reviews == rows
              case Err(x) => error == Some(x)
    {
      var active := FindActiveForProfile(player);
      if before.status != ManualReview && c.to == ManualReview {
        if active.Some? { return Some(UniqueViolation); }
        reviews := reviews + [Review(
          playerId := player, session := if c.session.Set? then c.session.value else before.current,
          status := Requested, assignee := None,
          requestedAt := at, openedAt := None, completedAt := None,
          actions := [ReviewAction(ReviewRequested, before.status, ManualReview, at)])];
      } else if before.status == ManualReview && c.to != ManualReview {
        if active.None? || (c.review.Some? && c.review != active) { return Some(ReviewNotFound); }
        var review := reviews[active.value];
        if !ReviewOrdered(review.(completedAt := Some(at))) { return Some(CheckViolation); }
        reviews := reviews[active.value := review.(
          status := Completed, completedAt := Some(at),
          actions := review.actions + [ReviewAction(ReviewClosed(c.to), before.status, c.to, at)])];
      }
      error := None;
    }

    /** The session update of an event or a decision: refused by the order of the row's times, or by the
        one-effective-session index. */
    method UpdateSession(s: Id, status: KycStatus, eventAt: Time, completedAt: Option<Time>)
      returns (error: Option<Error>)
      requires s < |sessions|
      modifies this`sessions
      ensures match UpdateFromEvent(old(Tables()), s, status, eventAt, completedAt)
              case Ok(db) => error == None && Tables() == db
              case Err(x) => error == Some(x) && Tables() == old(Tables())
    {
      var x := sessions[s];
      var latest := if x.lastEventAt.Some? && x.lastEventAt.value > eventAt then x.lastEventAt.value else eventAt;
      var updated := x.(status := At(status), lastEventAt := Some(latest), completedAt := completedAt);
      if !SessionOrdered(updated) { return Some(CheckViolation); }
      if status in {Pending, ManualReview} && OtherEffective(sessions, s) { return Some(UniqueViolation); }
      sessions := sessions[s := updated];
      error := None;
    }

    method ExpireSessionIfDue(s: Id, now: Time) returns (expired: bool)
      requires s < |sessions|
      modifies this`sessions
      ensures expired <==> SessionDue(old(sessions)[s], now)
      ensures Tables() == if expired then PutSession(old(Tables()), s, Elapsed(old(sessions)[s], now))
                          else old(Tables())
    {
      expired := SessionDue(sessions[s], now);
      if expired { sessions := sessions[s := sessions[s].(status := At(Expired), completedAt := Some(now))]; }
    }

    method InsertEvent(e: ProviderEvent, now: Time) returns (row: Id)
      modifies this`events
      ensures row == |old(events)| && events == old(events) + [EventRow(e, now, Received, NoReason, None, None)]
    {
      row := |events|;
      events := events + [EventRow(e, now, Received, NoReason, None, None)];
    }

    method MarkProcessed(row: Id, processing: Processing, reason: EventReason, now: Time)
      requires row < |events| && events[row].receivedAt == now
      modifies this`events
      ensures events == old(events)[row := Row(old(events)[row].event, processing, reason, now)]
    {
      events := events[row := events[row].(processing := processing, reason := reason, processedAt := Some(now),
                                           acceptedAt := if processing == Processed then Some(now) else None)];
    }

    // ---- the transition service ----

    /** The single writer of profile statuses. After an error the transaction is rolled back. */
    method Transition(player: string, c: Change, at: Time) returns (r: Result<Profile, Error>)
      requires log.Keys == profiles.Keys
      modifies this`profiles, this`log, this`reviews
      ensures match Move(old(Tables()), player, c, at)
              case Ok(db) => r == Ok(db.profiles[player]) && Tables() == db
              case Err(x) => r == Err(x)
    {
      hide ActiveReview, Changed, LogRow;
      if player !in profiles { return Err(ProfileNotFound); }
      var before := profiles[player];
      if !CanTransition(before.status, c.to) { return Err(InvalidTransition); }
      var updated := UpdateProfile(player, before.version, c);
      if updated.Err? { return Err(updated.error); }
      if updated.value.None? { return Err(StateConflict); }
      AppendTransition(player, before, c);
      var error := UpdateReviews(player, before, c, at);
      if error.Some? { return Err(error.value); }
      r := Ok(updated.value.value);
    }

    method ExpireVerificationIfDue(player: string, now: Time) returns (r: Result<Profile, Error>)
      requires player in profiles && log.Keys == profiles.Keys
      modifies this`profiles, this`log, this`reviews
      ensures match ExpireIfDue(old(Tables()), player, now)
              case Ok(db) => r == Ok(db.profiles[player]) && Tables() == db
              case Err(x) => r == Err(x)
    {
      hide Move;
      var profile := profiles[player];
      if profile.status != Verified || profile.expiresAt.None? || profile.expiresAt.value > now { return Ok(profile); }
      r := Transition(player, Change(
        to := Expired, trigger := RequestTimeExpiry, session := Keep, provider := Keep, verifiedAt := Keep,
        expiresAt := profile.expiresAt,
        failure := None, eventRow := None, review := None), now);
      if r.Ok? { ghost var db := old(Tables()); MoveShows(db, player, RequestExpiry(profile), now); }
    }

    // ---- reading a status ----

    method GetStatusForPlayer(cfg: Config, player: string, now: Time) returns (r: Result<KycStatus, Error>)
      requires Inv(cfg, Tables())
      modifies this
      ensures (Tables(), r) == ReadStatus(old(Tables()), player, now)
      ensures Inv(cfg, Tables())
    {
      hide Inv, ExpireIfDue, Keeps;
      var before := Tables();
      LogKeys(cfg, before);
      GetOrCreateForPlayer(player);
      var profile := ExpireVerificationIfDue(player, now);
      if profile.Err? { Rollback(before); }
      r := match profile case Ok(p) => Ok(p.status) case Err(x) => Err(x);
      ReadStatusKeeps(cfg, before, player, now);
      KeepsInv(cfg, before, Tables());
    }

    // ---- starting a verification ----

    /** Whether the row would conflict with the (player, key) constraint or the one-effective-session index;
        otherwise it is inserted. */
    method CreateIntent(x: Session) returns (created: Option<Id>)
      modifies this`sessions
      ensures created.None? <==> Conflicts(old(sessions), x.playerId, x.key)
      ensures created.None? ==> sessions == old(sessions)
      ensures created.Some? ==> created.value == |old(sessions)| && sessions == old(sessions) + [x]
    {
      for k := 0 to |sessions|
        invariant sessions == old(sessions)
        invariant forall s :: 0 <= s < k && sessions[s].playerId == x.playerId
                              ==> !Effective(sessions[s].status) && !(x.key.Some? && sessions[s].key == x.key)
      {
        if sessions[k].playerId == x.playerId
           && (Effective(sessions[k].status) || (x.key.Some? && sessions[k].key == x.key)) {
          return None;
        }
      }
      created := Some(|sessions|);
      sessions := sessions + [x];
    }

    /** The first transaction of a start call. */
    method PrepareIntent(cfg: Config, player: string, key: Option<string>, at: Time, now: Time)
      returns (r: Result<Id, Error>)
      requires Inv(cfg, Tables())
      modifies this
      ensures (Tables(), r) == Prepare(cfg, old(Tables()), player, key, at, now)
      ensures Inv(cfg, Tables())
    {
      hide Inv, ExpireIfDue, KeepsBut, Conflicts, MaxAttempt, FindEffective, FindByKey;
      var before := Tables();
      LogKeys(cfg, before);
      GetOrCreateForPlayer(player);
      var expired := ExpireVerificationIfDue(player, now);
      if expired.Err? {
        r := Err(expired.error);
      } else {
        r := ChooseSession(cfg, player, key, at, expired.value);
      }
      if r.Err? { Rollback(before); }
      PrepareKeeps(cfg, before, player, key, at, now);
      KeepsButInv(cfg, before, Tables(), Unsettled(before, player, key, at, now));
    }

    /** The rest of the transaction, once the profile is locked and up to date. */
    method ChooseSession(cfg: Config, player: string, key: Option<string>, at: Time, profile: Profile)
      returns (r: Result<Id, Error>)
      modifies this`sessions
      ensures var db := old(Tables());
              var known := if key.Some? then FindByKey(db.sessions, player, key.value) else None;
              var effective := FindEffective(db.sessions, player, at);
              if known.Some? && db.sessions[known.value].status == CreationFailed then
                r == Ok(known.value) && Tables() == db
              else if profile.status == Verified && (profile.expiresAt.None? || profile.expiresAt.value > at) then
                     r == Err(AlreadyVerified)
              else if known.Some? then r == Ok(known.value) && Tables() == db
              else if effective.Some? then r == Ok(effective.value) && Tables() == db
              else if Conflicts(db.sessions, player, key) then r == Err(ConflictUnresolved)
              else r == Ok(|db.sessions|)
                   && sessions ==
                      db.sessions + [FreshSession(cfg, player, key, MaxAttempt(db.sessions, player) + 1, at)]
    {
      hide Conflicts, MaxAttempt, FindEffective, FindByKey;
      var known: Option<Id> := None;
      if key.Some? { known := FindByIdempotencyKey(player, key.value); }
      if known.Some? && sessions[known.value].status == CreationFailed { return Ok(known.value); }
      if profile.status == Verified && (profile.expiresAt.None? || profile.expiresAt.value > at) {
        return Err(AlreadyVerified);
      }
      if known.Some? { return Ok(known.value); }
      var effective := GetCurrentEffective(player, at);
      if effective.Some? { return Ok(effective.value); }
      var attempt := NextAttemptNumber(player);
      var created := CreateIntent(Session(
        playerId := player, provider := cfg.provider, reference := None, url := None, key := key, status := Creating,
        attempt := attempt,
        startedAt := at, expiresAt := None, completedAt := None, lastEventAt := None));
      if created.Some? { return Ok(created.value); }
      // The same transaction looks again and finds what it found before.
      r := Err(ConflictUnresolved);
    }

    /** The second transaction of a start call, after an acceptable reply. */
    method ActivateSession(cfg: Config, s: Id, reply: Reply, now: Time) returns (r: Result<Id, Error>)
      requires Inv(cfg, Tables()) && s < |sessions| && Acceptable(cfg, sessions[s].startedAt, reply)
      modifies this
      ensures (Tables(), r) == Activate(old(Tables()), s, reply, now)
      ensures Inv(cfg, Tables())
    {
      hide Inv, Move, Keeps, ReferenceTaken;
      var before := Tables();
      ActivateKeeps(cfg, before, s, reply, now);
      KeepsInv(cfg, before, Activate(before, s, reply, now).0);
      LogKeys(cfg, before);
      var x := sessions[s];
      if x.status == At(Pending) { return Ok(s); }
      if x.status != Creating { return Err(StateConflict); }
      if x.playerId !in profiles { return Err(ProfileNotFound); }
      if ReferenceTaken(sessions, s, reply.reference) { return Err(UniqueViolation); }
      sessions := sessions[s := x.(reference := Some(reply.reference), url := reply.url,
                                   expiresAt := Some(reply.expiresAt), status := At(Pending))];
      var moved := Transition(x.playerId, Change(
        to := Pending, trigger := SessionStarted, session := Set(Some(s)), provider := Set(Some(x.provider)),
        verifiedAt := Keep, expiresAt := None, failure := None, eventRow := None, review := None), now);
      if moved.Err? {
        Rollback(before);
        return Err(moved.error);
      }
      r := Ok(s);
    }

    /** The other second transaction, after a refusal or an unusable reply. */
    method MarkFailed(cfg: Config, s: Id, now: Time) returns (r: Result<Id, Error>)
      requires Inv(cfg, Tables()) && s < |sessions|
      modifies this`sessions
      ensures (Tables(), r) == MarkCreationFailed(old(Tables()), s, now)
      ensures Inv(cfg, Tables())
    {
      hide Inv, Keeps;
      ghost var before := Tables();
      MarkKeeps(cfg, before, s, now);
      KeepsInv(cfg, before, MarkCreationFailed(before, s, now).0);
      if sessions[s].status == Creating {
        var failed := sessions[s].(status := CreationFailed, completedAt := Some(now));
        if !SessionOrdered(failed) { return Err(CheckViolation); }
        sessions := sessions[s := failed];
        return Err(CreationUnavailable);
      }
      r := if sessions[s].status == At(Pending) then Ok(s) else Err(CreationUnavailable);
    }

    // ---- the callback ----

    /** Expire a session row that is due, and the profile when it still waits on that session. */
    method ElapseSession(s: Id, now: Time, provider: Option<string>) returns (error: Option<Error>)
      requires s < |sessions| && log.Keys == profiles.Keys
      modifies this`sessions, this`profiles, this`log, this`reviews
      ensures match ExpireSession(old(Tables()), s, now, provider)
              case Ok(db) => error == None && Tables() == db
              case Err(x) => error == Some(x)
    {
      hide Move, SessionDue;
      var x := sessions[s];
      var expired := ExpireSessionIfDue(s, now);
      if x.playerId in profiles && profiles[x.playerId].current == Some(s)
         && profiles[x.playerId].status in {Pending, ManualReview} {
        var moved := Transition(x.playerId, Change(
          to := Expired, trigger := SessionExpiry, session := Set(Some(s)), provider := Set(provider),
          verifiedAt := Set(profiles[x.playerId].verifiedAt),
          expiresAt := Some(if x.expiresAt.Some? then x.expiresAt.value else now),
          failure := None, eventRow := None, review := None), now);
        if moved.Err? { return Some(moved.error); }
      }
      error := None;
    }

    predicate IsReceived(e: ProviderEvent, row: Id, now: Time)
      reads this
    {
      row == |events| - 1 && row >= 0 && events[row] == EventRow(e, now, Received, NoReason, None, None)
    }

    /** Apply an event to its session and profile; its row is marked last. */
    method Apply(cfg: Config, s: Id, e: ProviderEvent, row: Id, now: Time, ghost before: Db)
      returns (error: Option<Error>)
      requires s < |sessions| && sessions[s].playerId in profiles && log.Keys == profiles.Keys
      requires IsReceived(e, row, now)
      requires before == Tables().(events := events[..row])
      modifies this
      ensures match ApplyEvent(cfg, before, s, e, now)
              case Ok(db) => error == None && Tables() == db
              case Err(x) => error == Some(x)
    {
      hide Move, IsStale, OtherEffective;
      var x, p := sessions[s], profiles[sessions[s].playerId];
      error := UpdateSession(s, e.result, e.occurredAt,
                             if e.result in {Pending, ManualReview} then None else Some(now));
      if error.Some? { return; }
      if e.result == Pending {
        MarkProcessed(row, Processed, NoReason, now);
        assert Tables() == Insert(UpdateFromEvent(before, s, e.result, e.occurredAt, None).value,
                                  Row(e, Processed, NoReason, now));
        return None;
      }
      var c := Change(
        to := e.result, trigger := ProviderEventTrigger, session := Set(Some(s)), provider := Set(Some(x.provider)),
        verifiedAt := Set(if e.result == Verified then Some(now) else p.verifiedAt),
        expiresAt := if e.result == Verified then Some(now + cfg.verificationTtl)
                     else if e.result == Expired then Some(now) else None,
        failure := if e.result == Failed then Some(ProviderFailed) else None, eventRow := Some(row), review := None);
      ghost var mid := Tables();
      var moved := Transition(x.playerId, c, now);
      ghost var final := Row(e, Processed, Applied(e.result), now);
      MoveIgnoresEvents(mid, mid.(events := before.events + [final]), x.playerId, c, now);
      if moved.Err? { return Some(moved.error); }
      MarkProcessed(row, Processed, Applied(e.result), now);
      assert events == before.events + [final];
      error := None;
    }

    /** The provider callback: one transaction, rolled back as a whole when a step raises. */
    method ProcessEvent(cfg: Config, e: ProviderEvent, now: Time) returns (r: Response)
      requires Inv(cfg, Tables())
      modifies this
      ensures (Tables(), r) == Callback(cfg, old(Tables()), e, now)
      ensures Inv(cfg, Tables())
    {
      hide Inv, Keeps, FindEvent, SameIdentity, FindByReference, HandleEvent;
      var before := Tables();
      LogKeys(cfg, before);
      var stored := FindEvent(events, e);
      if stored.Some? {
        var first := events[stored.value].event;
        if first.payloadHash != e.payloadHash || first.reference != e.reference || first.eventType != e.eventType {
          return IdentityConflict(stored.value);
        }
        return Duplicate(stored.value);
      }
      var row := InsertEvent(e, now);
      r := ProcessNew(cfg, e, row, now, before);
      CallbackKeeps(cfg, before, e, now);
      KeepsInv(cfg, before, Tables());
    }

    /** The callback for an event whose row was just inserted. */
    method ProcessNew(cfg: Config, e: ProviderEvent, row: Id, now: Time, before: Db) returns (r: Response)
      requires log.Keys == profiles.Keys && IsReceived(e, row, now) && before == Tables().(events := events[..row])
      requires FindEvent(before.events, e).None?
      modifies this
      ensures (Tables(), r) == Callback(cfg, before, e, now)
    {
      hide FindEvent, SameIdentity, FindByReference, HandleEvent;
      if e.occurredAt > now + cfg.maxFutureSkew {
        MarkProcessed(row, Rejected, FutureTimestamp, now);
        assert Tables() == Insert(before, Row(e, Rejected, FutureTimestamp, now));
        return Answer(row, Rejected, None, FutureTimestamp);
      }
      if e.provider != cfg.provider {
        MarkProcessed(row, Rejected, ProviderMismatch, now);
        assert Tables() == Insert(before, Row(e, Rejected, ProviderMismatch, now));
        return Answer(row, Rejected, None, ProviderMismatch);
      }
      var found := FindByProviderReferenceForUpdate(e.provider, e.reference);
      if found.None? {
        MarkProcessed(row, Rejected, UnknownSession, now);
        assert Tables() == Insert(before, Row(e, Rejected, UnknownSession, now));
        return Answer(row, Rejected, None, UnknownSession);
      }
      if sessions[found.value].playerId !in profiles {
        Rollback(before);
        return Raised(ProfileNotFound);
      }
      r := Handle(cfg, found.value, e, row, now, before);
    }

    /** The callback once its session and profile are locked. */
    method Handle(cfg: Config, s: Id, e: ProviderEvent, row: Id, now: Time, before: Db) returns (r: Response)
      requires s < |sessions| && sessions[s].playerId in profiles && log.Keys == profiles.Keys
      requires IsReceived(e, row, now) && before == Tables().(events := events[..row])
      modifies this
      ensures (Tables(), r) == HandleEvent(cfg, before, s, e, now)
    {
      hide ExpireSession, ApplyEvent, SessionDue, IsStale;
      var x, p := sessions[s], profiles[sessions[s].playerId];
      if x.status == At(Expired) || SessionDue(x, now) {
        ElapseIgnoresEvents(Tables(), before, s, now, Some(x.provider));
        var error := ElapseSession(s, now, Some(x.provider));
        if error.Some? {
          Rollback(before);
          return Raised(error.value);
        }
        MarkProcessed(row, IgnoredExpired, SessionElapsed, now);
        assert events == before.events + [Row(e, IgnoredExpired, SessionElapsed, now)];
        return Answer(row, IgnoredExpired, if x.playerId in profiles then Some(profiles[x.playerId].status) else None,
                      SessionElapsed);
      }
      if e.claimedPlayer.Some? && e.claimedPlayer.value != x.playerId {
        MarkProcessed(row, Rejected, PlayerMismatch, now);
        assert Tables() == Insert(before, Row(e, Rejected, PlayerMismatch, now));
        return Answer(row, Rejected, None, PlayerMismatch);
      }
      if IsStale(e, x, p.current == Some(s)) || (e.result != Pending && !CanTransition(p.status, e.result)) {
        MarkProcessed(row, IgnoredStale, StaleEvent, now);
        assert Tables() == Insert(before, Row(e, IgnoredStale, StaleEvent, now));
        return Answer(row, IgnoredStale, Some(p.status), StaleEvent);
      }
      var error := Apply(cfg, s, e, row, now, before);
      if error.Some? {
        Rollback(before);
        return Raised(error.value);
      }
      r := Answer(row, Processed, Some(if e.result == Pending then p.status else e.result),
                  if e.result == Pending then NoReason else Applied(e.result));
    }

    // ---- manual reviews ----

    /** The unlocked read of a decision. */
    method FindReview(r: Id) returns (ticket: Result<Ticket, Error>)
      ensures ticket == ReadReview(Tables(), r)
    {
      if r >= |reviews| || reviews[r].status == Completed || reviews[r].session.None? { return Err(ReviewNotFound); }
      ticket := Ok(Ticket(r, reviews[r].playerId, reviews[r].session.value));
    }

    /** The rest of a decision, under its locks, with the review as it was read. */
    method DecideReview(cfg: Config, t: Ticket, outcome: KycStatus, now: Time) returns (r: Result<Id, Error>)
      requires Inv(cfg, Tables()) && TicketOk(Tables(), t) && outcome in {Verified, Failed, Pending}
      modifies this
      ensures (Tables(), r) == Decide(cfg, old(Tables()), t, outcome, now)
      ensures Inv(cfg, Tables())
    {
      hide Inv, Move, TicketOk, OtherEffective, Extends;
      var before := Tables();
      DecideKeepsInv(cfg, before, t, outcome, now);
      LogKeys(cfg, before);
      TicketFacts(cfg, before, t);
      var x := sessions[t.session];
      if x.status !in {At(ManualReview), At(Verified)} { return Err(InvalidTransition); }
      var error := UpdateSession(t.session, outcome, now, if outcome == Pending then None else Some(now));
      if error.Some? { return Err(error.value); }
      var moved := Transition(t.playerId, Change(
        to := outcome, trigger := ReviewDecision, session := Set(Some(t.session)), provider := Set(Some(x.provider)),
        verifiedAt := if outcome == Verified then Set(Some(now)) else Keep,
        expiresAt := if outcome == Verified then Some(now + cfg.verificationTtl) else None,
        failure := if outcome == Failed then Some(ReviewRejected) else None, eventRow := None,
        review := Some(t.review)), now);
      if moved.Err? {
        Rollback(before);
        return Err(moved.error);
      }
      r := Ok(t.review);
    }

    method OpenReviewRow(cfg: Config, r: Id, now: Time) returns (ok: bool)
      requires Inv(cfg, Tables())
      modifies this`reviews
      ensures match OpenReview(old(Tables()), r, now)
              case Ok(db) => ok && Tables() == db
              case Err(_) => !ok && Tables() == old(Tables())
      ensures Inv(cfg, Tables())
    {
      hide Inv, Keeps;
      ghost var before := Tables();
      OpenKeeps(cfg, before, r, now);
      if r >= |reviews| || reviews[r].status == Completed { return false; }
      var x := reviews[r];
      if now < x.requestedAt { return false; }
      reviews := reviews[r := x.(
        status := if x.assignee.None? then Opened else Assigned,
        openedAt := if x.openedAt.Some? then x.openedAt else Some(now),
        actions := x.actions + [ReviewAction(ReviewOpened, ManualReview, ManualReview, now)])];
      KeepsInv(cfg, before, OpenReview(before, r, now).value);
      ok := true;
    }

    method AssignReviewRow(cfg: Config, r: Id, assignee: string, now: Time) returns (ok: bool)
      requires Inv(cfg, Tables())
      modifies this`reviews
      ensures match AssignReview(old(Tables()), r, assignee, now)
              case Ok(db) => ok && Tables() == db
              case Err(_) => !ok && Tables() == old(Tables())
      ensures Inv(cfg, Tables())
    {
      hide Inv, Keeps;
      ghost var before := Tables();
      AssignKeeps(cfg, before, r, assignee, now);
      if r >= |reviews| || reviews[r].status == Completed { return false; }
      var x := reviews[r];
      if now < x.requestedAt { return false; }
      reviews := reviews[r := x.(
        status := Assigned, assignee := Some(assignee), openedAt := if x.openedAt.Some? then x.openedAt else Some(now),
        actions := x.actions + [ReviewAction(ReviewAssigned, ManualReview, ManualReview, now)])];
      KeepsInv(cfg, before, AssignReview(before, r, assignee, now).value);
      ok := true;
    }

    // ---- the expiry sweeps ----

    /** The due sessions in (expiry, row) order, at most the limit of them, all of them when they fit. */
    method FindExpiredPending(now: Time, limit: nat) returns (ids: seq<Id>)
      ensures DueSessions(Tables(), now, limit, ids)
      ensures |ids| < limit ==> forall s :: 0 <= s < |sessions| && SessionDue(sessions[s], now) ==> s in ids
      ensures forall k, s :: 0 <= k < |ids| && 0 <= s < |sessions| && SessionDue(sessions[s], now) && s !in ids[..k]
                             ==> !Earlier(sessions, s, ids[k])
    {
      ids := [];
      while |ids| < limit
        invariant DueSessions(Tables(), now, limit, ids)
        invariant forall k, s :: 0 <= k < |ids| && 0 <= s < |sessions| && SessionDue(sessions[s], now) && s !in ids[..k]
                                 ==> !Earlier(sessions, s, ids[k])
      {
        var next: Option<Id> := None;
        for s := 0 to |sessions|
          invariant next.Some? ==> next.value < s && SessionDue(sessions[next.value], now) && next.value !in ids
          invariant forall t :: 0 <= t < s && SessionDue(sessions[t], now) && t !in ids ==>
                      next.Some? && !Earlier(sessions, t, next.value)
        {
          if SessionDue(sessions[s], now) && s !in ids && (next.None? || Earlier(sessions, s, next.value)) {
            next := Some(s);
          }
        }
        if next.None? { return; }
        ghost var was := ids;
        ids := ids + [next.value];
        assert forall k :: 0 <= k < |was| ==> ids[..k] == was[..k];
        assert ids[..|was|] == was;
      }
    }

    /** One session sweep: rolled back as a whole when one of its sessions cannot be expired. */
    method ExpireSessions(cfg: Config, now: Time, limit: nat) returns (expired: seq<Id>, error: Option<Error>)
      requires Inv(cfg, Tables())
      modifies this
      ensures DueSessions(old(Tables()), now, limit, expired)
      ensures |expired| < limit ==>
                forall s :: 0 <= s < |old(sessions)| && SessionDue(old(sessions)[s], now) ==> s in expired
      ensures forall k, s :: 0 <= k < |expired| && 0 <= s < |old(sessions)| && s !in expired[..k] ==>
                SessionDue(old(sessions)[s], now) ==> !Earlier(old(sessions), s, expired[k])
      ensures match SweepSessions(old(Tables()), expired, now)
              case Ok(db) => error == None && Tables() == db
              case Err(x) => error == Some(x) && Tables() == old(Tables())
      ensures Inv(cfg, Tables())
    {
      hide Inv, SweepSession, SweepSessions, DueSessions, ExpireSession, Keeps, BlockedDue, Earlier, SessionDue;
      var before := Tables();
      expired := FindExpiredPending(now, limit);
      SweepSessionsKeeps(cfg, before, expired, now);
      assert expired[0..] == expired;
      for k := 0 to |expired|
        invariant Inv(cfg, Tables())
        invariant SweepSessions(before, expired, now) == SweepSessions(Tables(), expired[k..], now)
      {
        ghost var db := Tables();
        ghost var rest := expired[k..];
        assert rest[1..] == expired[k + 1..] && rest[0] == expired[k];
        SweepSessionKeeps(cfg, db, expired[k], now);
        LogKeys(cfg, db);
        error := SweepOne(expired[k], now);
        SweepHead(db, rest, now);
        if error.Some? {
          Rollback(before);
          return;
        }
        KeepsInv(cfg, db, SweepSession(db, expired[k], now).value);
      }
      SweepNothing(Tables(), expired[|expired|..], now);
      error := None;
    }

    method SweepOne(s: Id, now: Time) returns (error: Option<Error>)
      requires log.Keys == profiles.Keys
      modifies this`sessions, this`profiles, this`log, this`reviews
      ensures match SweepSession(old(Tables()), s, now)
              case Ok(db) => error == None && Tables() == db
              case Err(x) => error == Some(x)
    {
      hide ExpireSession;
      error := None;
      if s < |sessions| && SessionDue(sessions[s], now) {
        var player := sessions[s].playerId;
        error := ElapseSession(s, now, if player in profiles then profiles[player].provider else None);
      }
    }

    /** A due profile not taken yet whose verification ended first. */
    method NextExpired(taken: seq<string>, now: Time) returns (next: Option<string>)
      ensures next.None? ==> forall p :: p in profiles && VerificationDue(profiles[p], now) ==> p in taken
      ensures next.Some? ==>
                next.value in profiles && VerificationDue(profiles[next.value], now) && next.value !in taken
      ensures next.Some? ==>
                forall p :: p in profiles && VerificationDue(profiles[p], now) && p !in taken
                            ==> EndsNoLater(profiles[next.value], profiles[p])
    {
      next := None;
      var todo := profiles.Keys;
      while todo != {}
        invariant todo <= profiles.Keys
        invariant next.Some? ==>
                    next.value in profiles && VerificationDue(profiles[next.value], now) && next.value !in taken
        invariant forall p :: p in profiles && VerificationDue(profiles[p], now) && p !in taken && p !in todo
                              ==> next.Some? && EndsNoLater(profiles[next.value], profiles[p])
        decreases todo
      {
        var p :| p in todo;
        todo := todo - {p};
        if VerificationDue(profiles[p], now) && p !in taken
           && (next.None? || !EndsNoLater(profiles[next.value], profiles[p])) {
          next := Some(p);
        }
      }
    }

    /** The due profiles in order of expiry, at most the limit of them, all of them when they fit. */
    method FindExpiredVerified(now: Time, limit: nat) returns (players: seq<string>)
      ensures DueProfiles(Tables(), now, limit, players)
      ensures |players| < limit ==> forall p :: p in profiles && VerificationDue(profiles[p], now) ==> p in players
      ensures InExpiryOrder(profiles, now, players)
    {
      players := [];
      while |players| < limit
        invariant DueProfiles(Tables(), now, limit, players) && InExpiryOrder(profiles, now, players)
      {
        var next := NextExpired(players, now);
        if next.None? { return; }
        ghost var was := players;
        players := players + [next.value];
        assert forall k :: 0 <= k < |was| ==> players[..k] == was[..k];
        assert players[..|was|] == was;
      }
    }

    /** One profile sweep; it never raises either. */
    method ExpireProfiles(cfg: Config, now: Time, limit: nat) returns (expired: seq<string>)
      requires Inv(cfg, Tables())
      modifies this
      ensures DueProfiles(old(Tables()), now, limit, expired)
      ensures |expired| < limit ==>
                forall p :: p in old(profiles) && VerificationDue(old(profiles)[p], now) ==> p in expired
      ensures InExpiryOrder(old(profiles), now, expired)
      ensures SweepProfiles(old(Tables()), expired, now) == Ok(Tables())
      ensures Inv(cfg, Tables())
    {
      hide Inv, SweepProfile, SweepProfiles, DueProfiles, Keeps, Move, Changed, InExpiryOrder;
      ghost var before := Tables();
      expired := FindExpiredVerified(now, limit);
      assert expired[0..] == expired;
      WithinOwnLimit(Tables(), now, limit, expired);
      for k := 0 to |expired|
        invariant Inv(cfg, Tables()) && DueProfiles(Tables(), now, |expired| - k, expired[k..])
        invariant SweepProfiles(before, expired, now) == SweepProfiles(Tables(), expired[k..], now)
      {
        ghost var db := Tables();
        ghost var rest := expired[k..];
        assert rest[1..] == expired[k + 1..] && rest[0] == expired[k];
        ProfileHead(db, rest, now);
        SweepProfileKeeps(cfg, db, expired[k], now);
        KeepsInv(cfg, db, SweepProfile(db, expired[k], now).value);
        LogKeys(cfg, db);
        SweepOneProfile(expired[k], now);
        ProfilesHead(db, rest, now);
        DueRest(db, Tables(), now, rest);
      }
      ProfilesNothing(Tables(), expired[|expired|..], now);
    }

    method SweepOneProfile(player: string, now: Time)
      requires log.Keys == profiles.Keys && player in profiles && SweepProfile(Tables(), player, now).Ok?
      modifies this`profiles, this`log, this`reviews
      ensures SweepProfile(old(Tables()), player, now) == Ok(Tables())
    {
      hide Move;
      var p := profiles[player];
      var moved := Transition(player, Change(
        to := Expired, trigger := VerificationExpiry, session := Set(p.current), provider := Set(p.provider),
        verifiedAt := Set(p.verifiedAt),
        expiresAt := p.expiresAt, failure := None, eventRow := None, review := None), now);
    }
  }

  predicate EndsNoLater(p: Profile, q: Profile) {
    p.expiresAt.Some? && q.expiresAt.Some? ==> p.expiresAt.value <= q.expiresAt.value
  }

  /** No due profile left for later in the batch, or out of it, ended before one taken. */
  ghost predicate InExpiryOrder(profiles: map<string, Profile>, now: Time, players: seq<string>) {
    forall k, p :: 0 <= k < |players| && players[k] in profiles && p in profiles && p !in players[..k]
                   ==> VerificationDue(profiles[p], now) ==> EndsNoLater(profiles[players[k]], profiles[p])
  }

  lemma SweepHead(db: Db, ids: seq<Id>, now: Time)
    requires ids != []
    ensures SweepSessions(db, ids, now) ==
            match SweepSession(db, ids[0], now)
            case Err(x) => Err(x)
            case Ok(db1) => SweepSessions(db1, ids[1..], now)
  {
    hide SweepSession;
  }

  lemma SweepNothing(db: Db, ids: seq<Id>, now: Time)
    requires ids == []
    ensures SweepSessions(db, ids, now) == Ok(db)
  {
  }

  lemma WithinOwnLimit(db: Db, now: Time, limit: nat, players: seq<string>)
    requires DueProfiles(db, now, limit, players)
    ensures DueProfiles(db, now, |players|, players)
  {
  }

  lemma ProfileHead(db: Db, players: seq<string>, now: Time)
    requires players != [] && DueProfiles(db, now, |players|, players)
    ensures players[0] in db.profiles && VerificationDue(db.profiles[players[0]], now)
  {
  }

  lemma ProfilesHead(db: Db, players: seq<string>, now: Time)
    requires players != [] && SweepProfile(db, players[0], now).Ok?
    ensures SweepProfiles(db, players, now) == SweepProfiles(SweepProfile(db, players[0], now).value, players[1..], now)
  {
    hide SweepProfile;
  }

  lemma ProfilesNothing(db: Db, players: seq<string>, now: Time)
    requires players == []
    ensures SweepProfiles(db, players, now) == Ok(db)
  {
  }

  lemma MoveIgnoresEvents(a: Db, b: Db, player: string, c: Change, at: Time)
    requires b == a.(events := b.events)
    ensures match Move(a, player, c, at)
            case Ok(db) =>
              Move(b, player, c, at) == Ok(db.(events := b.events)) && db.events == a.events && player in db.profiles
            case Err(x) => Move(b, player, c, at) == Err(x)
  {
    hide Reviewed;
  }

  lemma ElapseIgnoresEvents(a: Db, b: Db, s: Id, now: Time, provider: Option<string>)
    requires b == a.(events := b.events) && s < |a.sessions|
    ensures match ExpireSession(a, s, now, provider)
            case Ok(db) => ExpireSession(b, s, now, provider) == Ok(db.(events := b.events)) && db.events == a.events
            case Err(x) => ExpireSession(b, s, now, provider) == Err(x)
  {
    hide Reviewed;
  }
}
