/** The single writes the KYC transactions are made of, and what each must satisfy for the
    invariant of the tables to survive it. */
module KycTables {
  import opened Wrappers
  import opened KycDomain
  import opened KycProtocol
  import opened KycInvariants

  // ---- writing one session ----

  ghost predicate ReferenceFits(sessions: seq<Session>, s: Id, x: Session)
    requires s < |sessions|
  {
    sessions[s].status.At? || x.reference.None? || !ReferenceTaken(sessions, s, x.reference.value)
  }

  ghost predicate MayBecome(sessions: seq<Session>, s: Id, x: Session)
    requires s < |sessions|
  {
    && SessionEvolves(sessions[s], x) && SessionShape(x) && x.status != Creating
    && (Effective(x.status) ==> !OtherEffective(sessions, s))
    && ReferenceFits(sessions, s, x)
  }

  lemma EffectiveFollows(sessions: seq<Session>, s: Id, x: Session)
    requires s < |sessions| && OneEffective(sessions) && MayBecome(sessions, s, x)
    ensures OneEffective(sessions[s := x])
  {
    hide SessionShape, ReferenceFits;
    var next := sessions[s := x];
    forall i, j | 0 <= i < j < |next| && next[i].playerId == next[j].playerId
      ensures !(Effective(next[i].status) && Effective(next[j].status)) {
      if i != s && j != s { assert next[i] == sessions[i] && next[j] == sessions[j]; }
    }
  }

  lemma ReferencesFollow(sessions: seq<Session>, s: Id, x: Session)
    requires s < |sessions| && ReferencesUnique(sessions) && MayBecome(sessions, s, x) && SessionShape(sessions[s])
    ensures ReferencesUnique(sessions[s := x])
  {
    hide OtherEffective, Effective;
    var next := sessions[s := x];
    if !sessions[s].status.At? && x.reference.Some? {
      assert forall t :: 0 <= t < |sessions| && t != s ==> !HasReference(sessions[t], x.provider, x.reference.value);
    }
    forall i, j | 0 <= i < j < |next| && next[i].provider == next[j].provider && next[i].reference.Some?
      ensures next[i].reference != next[j].reference {
      if sessions[s].status.At? { assert x.reference == sessions[s].reference; }
    }
  }

  lemma BehindFollows(e: ProviderEvent, sessions: seq<Session>, s: Id, x: Session)
    requires s < |sessions| && SessionEvolves(sessions[s], x) && SessionShape(sessions[s]) && Behind(e, sessions)
    ensures Behind(e, sessions[s := x])
  {
    var t :| 0 <= t < |sessions| && HasReference(sessions[t], e.provider, e.reference)
             && sessions[t].lastEventAt.Some? && e.occurredAt <= sessions[t].lastEventAt.value;
    assert HasReference(sessions[s := x][t], e.provider, e.reference);
  }

  lemma PutKeepsInv(cfg: Config, db: Db, s: Id, x: Session)
    requires Inv(cfg, db) && s < |db.sessions| && MayBecome(db.sessions, s, x)
    ensures Inv(cfg, PutSession(db, s, x))
  {
    hide Filed, OneEffective, ReferencesUnique, ReviewsOk, Justified, MayBecome, SessionShape, Behind;
    var next := db.sessions[s := x];
    MayShape(db, cfg, s, x);
    EffectiveFollows(db.sessions, s, x);
    ReferencesFollow(db.sessions, s, x);
    assert ReviewSessionsOk(db.reviews, next) && AttemptsIncrease(next) && CreatingIsNewest(next) && KeysUnique(next);
    forall k | 0 <= k < |db.events| && db.events[k].processing == Processed ensures Behind(db.events[k].event, next) {
      BehindFollows(db.events[k].event, db.sessions, s, x);
    }
    forall p, k | p in db.log && 0 <= k < |db.log[p]| ensures Justified(db.log[p][k], db.events, next) {
      JustifiedFollows(db.log[p][k], db.events, db.sessions, s, x);
    }
  }

  lemma MayShape(db: Db, cfg: Config, s: Id, x: Session)
    requires Inv(cfg, db) && s < |db.sessions| && MayBecome(db.sessions, s, x)
    ensures SessionEvolves(db.sessions[s], x) && SessionShape(db.sessions[s]) && SessionShape(x)
    ensures x.status != Creating
  {
    hide Filed, OneEffective, ReferencesUnique, ReviewsOk, EventsOk, AllJustified, CurrentOk, AttemptsIncrease,
      CreatingIsNewest, KeysUnique, ReviewSessionsOk;
  }

  lemma JustifiedFollows(row: Transition, events: seq<EventRow>, sessions: seq<Session>, s: Id, x: Session)
    requires s < |sessions| && SessionEvolves(sessions[s], x) && SessionShape(sessions[s])
    requires Justified(row, events, sessions)
    ensures Justified(row, events, sessions[s := x])
  {
  }

  // ---- inserting an event row ----

  ghost predicate MayInsert(db: Db, row: EventRow) {
    && OutcomeOk(row)
    && FindEvent(db.events, row.event).None?
    && (row.processing == Processed ==> Behind(row.event, db.sessions))
    && (forall k :: 0 <= k < |db.events| && SameSession(db.events[k], row) ==>
          db.events[k].event.occurredAt < row.event.occurredAt)
  }

  lemma InsertKeepsInv(cfg: Config, db: Db, row: EventRow)
    requires Inv(cfg, db) && MayInsert(db, row)
    ensures Inv(cfg, Insert(db, row))
  {
    hide Filed, CurrentOk, SessionsOk, AttemptsIncrease, CreatingIsNewest, OneEffective, ReferencesUnique, KeysUnique,
      ReviewsOk, ReviewSessionsOk, OutcomeOk, Behind;
    var next := db.events + [row];
    forall p, k | p in db.log && 0 <= k < |db.log[p]| ensures Justified(db.log[p][k], next, db.sessions) {
      assert Justified(db.log[p][k], db.events, db.sessions);
    }
    EventsFollow(db, row);
  }

  lemma EventsFollow(db: Db, row: EventRow)
    requires EventsOk(db.events, db.sessions) && MayInsert(db, row)
    ensures EventsOk(db.events + [row], db.sessions)
  {
    hide OutcomeOk, Behind;
  }

  // ---- the transition service ----

  /** The change names a session of the player that reached the provider, carries what the new status
      needs, and a move to verified is justified. */
  ghost predicate Fit(cfg: Config, db: Db, player: string, c: Change)
    requires player in db.profiles
  {
    var p := db.profiles[player];
    var session := Patched(p.current, c.session);
    && session.Some? && session.value < |db.sessions|
    && db.sessions[session.value].playerId == player && db.sessions[session.value].status.At?
    && Patched(p.provider, c.provider) == Some(db.sessions[session.value].provider)
    && ProfileShape(cfg, Changed(p, c))
    && Justified(LogRow(p, c), db.events, db.sessions)
    && DatedBy(Changed(p, c), LogRow(p, c), db.events)
  }

  lemma MoveFiled(cfg: Config, db: Db, player: string, c: Change)
    requires Filed(cfg, db.profiles, db.log) && player in db.profiles && Fit(cfg, db, player, c)
    requires CanTransition(db.profiles[player].status, c.to) && ExpiryOrdered(Changed(db.profiles[player], c))
    ensures Filed(cfg, db.profiles[player := Changed(db.profiles[player], c)],
                  db.log[player := db.log[player] + [LogRow(db.profiles[player], c)]])
  {
    hide ProfileShape, Justified;
    var p, log := db.profiles[player], db.log[player];
    var next := log + [LogRow(p, c)];
    forall k | 0 <= k < |next| ensures LogStep(next, k) {
      if k < |log| { assert LogStep(log, k) && next[k] == log[k]; }
    }
  }

  lemma RequestFits(p: Profile, player: string, c: Change, at: Time)
    requires p.status != ManualReview && Patched(p.current, c.session).Some?
    ensures ReviewShape(Request(player, Patched(p.current, c.session), p.status, at))
  {
  }

  lemma CloseFits(r: Review, to: KycStatus, at: Time)
    requires ReviewShape(r) && r.status != Completed && ReviewOrdered(Close(r, to, at))
    ensures ReviewShape(Close(r, to, at)) && ReviewEvolves(r, Close(r, to, at))
  {
  }

  lemma MoveReviews(db: Db, player: string, c: Change, at: Time)
    requires ReviewsOk(db.profiles, db.reviews) && player in db.profiles
    requires Patched(db.profiles[player].current, c.session).Some?
    requires CanTransition(db.profiles[player].status, c.to)
    requires Reviewed(db.reviews, player, db.profiles[player], c, at).Ok?
    ensures ReviewsOk(db.profiles[player := Changed(db.profiles[player], c)],
                      Reviewed(db.reviews, player, db.profiles[player], c, at).value)
  {
    hide ReviewShape, ActiveReview;
    var p := db.profiles[player];
    var profiles := db.profiles[player := Changed(p, c)];
    var reviews := Reviewed(db.reviews, player, p, c, at).value;
    var active := ActiveReview(db.reviews, player);
    forall r | 0 <= r < |reviews| ensures ReviewShape(reviews[r]) && ReviewFits(profiles, reviews[r]) {
      if r < |db.reviews| {
        assert ReviewShape(db.reviews[r]) && ReviewFits(db.profiles, db.reviews[r]);
        if reviews[r] != db.reviews[r] { CloseFits(db.reviews[r], c.to, at); }
      } else {
        RequestFits(p, player, c, at);
      }
    }
    forall q | q in profiles && profiles[q].status == ManualReview ensures ActiveReview(reviews, q).Some? {
      if q == player {
        assert Active(reviews[|reviews| - 1], q);
      } else {
        var k := ActiveReview(db.reviews, q).value;
        assert Active(reviews[k], q);
      }
    }
  }

  lemma MoveReviewSessions(db: Db, player: string, c: Change, at: Time)
    requires ReviewSessionsOk(db.reviews, db.sessions) && player in db.profiles
    requires Reviewed(db.reviews, player, db.profiles[player], c, at).Ok?
    requires var s := Patched(db.profiles[player].current, c.session);
             && s.Some? && s.value < |db.sessions| && db.sessions[s.value].playerId == player
             && db.sessions[s.value].status.At?
    ensures ReviewSessionsOk(Reviewed(db.reviews, player, db.profiles[player], c, at).value, db.sessions)
  {
    hide ActiveReview;
  }

  lemma MoveKeepsInv(cfg: Config, db: Db, player: string, c: Change, at: Time)
    requires Inv(cfg, db) && player in db.profiles && Fit(cfg, db, player, c) && Move(db, player, c, at).Ok?
    ensures Inv(cfg, Move(db, player, c, at).value)
  {
    hide SessionShape, AttemptsIncrease, CreatingIsNewest, OneEffective, ReferencesUnique, KeysUnique, EventsOk,
      Justified, ReviewsOk, ReviewSessionsOk, Filed, Reviewed, ProfileShape, CanTransition;
    MoveFiled(cfg, db, player, c);
    MoveReviews(db, player, c, at);
    MoveReviewSessions(db, player, c, at);
    var next := Move(db, player, c, at).value;
    forall p, k | p in next.log && 0 <= k < |next.log[p]|
      ensures Justified(next.log[p][k], next.events, next.sessions)
    {
      if p != player || k < |db.log[player]| { assert next.log[p][k] == db.log[p][k]; }
    }
    assert next.profiles.Keys == db.profiles.Keys;
  }

  // ---- creating rows ----

  lemma CreateKeepsInv(cfg: Config, db: Db, player: string)
    requires Inv(cfg, db)
    ensures Inv(cfg, GetOrCreate(db, player))
  {
    hide SessionShape, AttemptsIncrease, CreatingIsNewest, OneEffective, ReferencesUnique, KeysUnique, EventsOk,
      Justified, ReviewSessionsOk, ReviewsOk, LogStep, ProfileShape, DatedBy;
    if player !in db.profiles {
      var next := GetOrCreate(db, player);
      assert next.log.Keys == next.profiles.Keys;
      CreateReviews(db, player);
      assert ProfileShape(cfg, FRESH_PROFILE) && LogReplays(FRESH_PROFILE, []) by { FreshIsShaped(cfg); }
      forall p, k | p in next.log && 0 <= k < |next.log[p]| ensures Justified(next.log[p][k], db.events, db.sessions) {
        assert next.log[p][k] == db.log[p][k];
      }
    }
  }

  lemma FreshIsShaped(cfg: Config)
    ensures ProfileShape(cfg, FRESH_PROFILE) && LogReplays(FRESH_PROFILE, [])
  {
  }

  lemma CreateReviews(db: Db, player: string)
    requires ReviewsOk(db.profiles, db.reviews) && player !in db.profiles
    ensures ReviewsOk(db.profiles[player := FRESH_PROFILE], db.reviews)
  {
    hide ReviewShape, ActiveReview;
  }

  lemma AppendKeepsInv(cfg: Config, db: Db, x: Session)
    requires Inv(cfg, db) && SessionShape(x) && x.playerId in db.profiles && !x.status.At? && x.lastEventAt.None?
    requires !Conflicts(db.sessions, x.playerId, x.key) && x.attempt > MaxAttempt(db.sessions, x.playerId)
    ensures Inv(cfg, db.(sessions := db.sessions + [x]))
  {
    hide SessionShape, Filed, ReviewsOk, Justified, Behind, OutcomeOk, SameIdentity, SameSession, MaxAttempt;
    var next := db.sessions + [x];
    assert ReferencesUnique(next) by { assert x.reference.None? by { SessionWithoutReference(x); } }
    forall k | 0 <= k < |db.events| && db.events[k].processing == Processed ensures Behind(db.events[k].event, next) {
      BehindGrows(db.events[k].event, db.sessions, x);
    }
    forall p, k | p in db.log && 0 <= k < |db.log[p]| ensures Justified(db.log[p][k], db.events, next) {
      JustifiedGrows(db.log[p][k], db.events, db.sessions, x);
    }
  }

  lemma SessionWithoutReference(x: Session)
    requires SessionShape(x) && !x.status.At?
    ensures x.reference.None?
  {
  }

  lemma BehindGrows(e: ProviderEvent, sessions: seq<Session>, x: Session)
    requires Behind(e, sessions)
    ensures Behind(e, sessions + [x])
  {
    var t :| 0 <= t < |sessions| && HasReference(sessions[t], e.provider, e.reference)
             && sessions[t].lastEventAt.Some? && e.occurredAt <= sessions[t].lastEventAt.value;
    assert HasReference((sessions + [x])[t], e.provider, e.reference);
  }

  lemma JustifiedGrows(row: Transition, events: seq<EventRow>, sessions: seq<Session>, x: Session)
    requires Justified(row, events, sessions)
    ensures Justified(row, events, sessions + [x])
  {
  }

  // ---- touching a review ----

  lemma TouchKeepsInv(cfg: Config, db: Db, r: Id, x: Review)
    requires Inv(cfg, db) && r < |db.reviews| && db.reviews[r].status != Completed
    requires ReviewShape(x) && ReviewEvolves(db.reviews[r], x) && x.status != Completed
    ensures Inv(cfg, db.(reviews := db.reviews[r := x]))
  {
    hide Filed, CurrentOk, SessionsOk, AttemptsIncrease, CreatingIsNewest, OneEffective, ReferencesUnique, KeysUnique,
      EventsOk, AllJustified, ReviewShape, ActiveReview;
    var next := db.reviews[r := x];
    forall p | p in db.profiles && db.profiles[p].status == ManualReview ensures ActiveReview(next, p).Some? {
      assert Active(next[ActiveReview(db.reviews, p).value], p);
    }
  }

  lemma ActionFits(x: Review, act: ReviewAct, status: ReviewStatus, assignee: Option<string>, at: Time)
    requires ReviewShape(x) && x.status != Completed && act in {ReviewOpened, ReviewAssigned}
    requires status in {Opened, Assigned} && at >= x.requestedAt
    ensures ReviewShape(AddAction(x, act, at).(status := status, assignee := assignee))
    ensures ReviewEvolves(x, AddAction(x, act, at).(status := status, assignee := assignee))
  {
  }
}
