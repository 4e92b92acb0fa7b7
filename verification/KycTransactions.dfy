/** Every KYC transaction keeps the invariant of the tables, and the coherence of every player but that of a
    late review decision or of a start call that races the verification's end; what each may raise. */
module KycTransactions {
  import opened Wrappers
  import opened KycDomain
  import opened KycProtocol
  import opened KycInvariants
  import opened KycHistory
  import opened KycTables

  /** What a transaction from db to db' keeps: the invariant, everything stored, every closed session, the
      direction in which profiles move, and the coherence of every player but those excepted. */
  ghost predicate KeepsBut(cfg: Config, db: Db, db': Db, except: set<string>) {
    && Inv(cfg, db') && Extends(db, db') && ClosedStay(db.sessions, db'.sessions)
    && AllForward(db.profiles, db'.profiles) && KeepsCoherence(db, db', except)
  }

  ghost predicate Keeps(cfg: Config, db: Db, db': Db) { KeepsBut(cfg, db, db', {}) }

  lemma KeepsReflexive(cfg: Config, db: Db)
    requires Inv(cfg, db)
    ensures Keeps(cfg, db, db)
  {
    hide Inv, CoherentFor;
    ExtendsReflexive(db);
  }

  lemma KeepsButTransitive(cfg: Config, a: Db, b: Db, c: Db, except: set<string>)
    requires Keeps(cfg, a, b) && KeepsBut(cfg, b, c, except)
    ensures KeepsBut(cfg, a, c, except)
  {
    hide Inv, KeepsCoherence, Extends, ClosedStay, AllForward;
    ExtendsTransitive(a, b, c);
    AllForwardTransitive(a.profiles, b.profiles, c.profiles);
    ClosedStayTransitive(a.sessions, b.sessions, c.sessions);
    KeepsCoherenceTransitive(a, b, c, except);
  }

  lemma KeepsTransitive(cfg: Config, a: Db, b: Db, c: Db)
    requires Keeps(cfg, a, b) && Keeps(cfg, b, c)
    ensures Keeps(cfg, a, c)
  {
    hide KeepsBut;
    KeepsButTransitive(cfg, a, b, c, {});
  }

  // ---- coherence ----

  lemma NoOtherEffective(sessions: seq<Session>, s: Id)
    requires OneEffective(sessions) && s < |sessions| && Effective(sessions[s].status)
    ensures !OtherEffective(sessions, s)
  {
  }

  /** The rows of one player after one session and the profile were written. */
  ghost predicate WritesOnly(db: Db, db': Db, s: Id)
    requires s < |db.sessions|
  {
    var player := db.sessions[s].playerId;
    && |db'.sessions| == |db.sessions| && db'.sessions == db.sessions[s := db'.sessions[s]]
    && db'.sessions[s].playerId == player
    && player in db.profiles && player in db'.profiles && db'.profiles == db.profiles[player := db'.profiles[player]]
  }

  lemma OthersSame(db: Db, db': Db, s: Id)
    requires s < |db.sessions| && WritesOnly(db, db', s)
    ensures forall p :: p != db.sessions[s].playerId ==> SameFor(db, db', p)
  {
  }

  /** An effective session and its profile move together. */
  lemma TogetherIsCoherent(db: Db, db': Db, s: Id)
    requires OneEffective(db.sessions) && CreatingIsNewest(db.sessions) && CurrentOk(db.profiles, db.sessions)
    requires s < |db.sessions| && Effective(db.sessions[s].status) && WritesOnly(db, db', s)
    requires var p := db'.profiles[db.sessions[s].playerId];
             p.current == Some(s) && db'.sessions[s].status == At(p.status)
    ensures KeepsCoherence(db, db', {}) && ClosedStay(db.sessions, db'.sessions)
  {
    hide KeepsCoherence;
    OthersSame(db, db', s);
    var player := db.sessions[s].playerId;
    if CoherentFor(db.profiles, db.sessions, player) { TogetherForOne(db, db', s); }
    OnePlayer(db, db', player, {});
  }

  lemma TogetherForOne(db: Db, db': Db, s: Id)
    requires OneEffective(db.sessions) && CreatingIsNewest(db.sessions)
    requires s < |db.sessions| && Effective(db.sessions[s].status) && WritesOnly(db, db', s)
    requires var p := db'.profiles[db.sessions[s].playerId];
             p.current == Some(s) && db'.sessions[s].status == At(p.status)
    requires CoherentFor(db.profiles, db.sessions, db.sessions[s].playerId)
    ensures CoherentFor(db'.profiles, db'.sessions, db.sessions[s].playerId)
  {
    assert SessionFits(db.profiles, s, db.sessions[s]);
    NoOtherEffective(db.sessions, s);
    forall t | 0 <= t < |db'.sessions| && db'.sessions[t].playerId == db.sessions[s].playerId
      ensures SessionFits(db'.profiles, t, db'.sessions[t]) {
      assert SessionFits(db.profiles, t, db.sessions[t]);
    }
  }

  /** When the rows of the session's player did not agree, whatever is written to them keeps coherence. */
  lemma IncoherentAnyway(db: Db, db': Db, s: Id)
    requires CurrentOk(db.profiles, db.sessions) && s < |db.sessions| && WritesOnly(db, db', s)
    requires !CoherentFor(db.profiles, db.sessions, db.sessions[s].playerId)
    ensures KeepsCoherence(db, db', {})
  {
    hide KeepsCoherence, CoherentFor;
    OthersSame(db, db', s);
    OnePlayer(db, db', db.sessions[s].playerId, {});
  }

  // ---- profiles ----

  lemma CreateKeeps(cfg: Config, db: Db, player: string)
    requires Inv(cfg, db)
    ensures Keeps(cfg, db, GetOrCreate(db, player))
  {
    hide Inv, Extends, CoherentFor;
    CreateKeepsInv(cfg, db, player);
    LogKeys(cfg, db);
    CreateExtends(db, player);
    Sessions(cfg, db);
    if player !in db.profiles {
      NoSessions(cfg, db, player);
      SameCurrent(db.profiles, GetOrCreate(db, player).profiles);
      FreshIsCoherent(db, GetOrCreate(db, player), player);
    }
  }

  lemma NoSessions(cfg: Config, db: Db, player: string)
    requires Inv(cfg, db) && player !in db.profiles
    ensures forall s :: 0 <= s < |db.sessions| ==> db.sessions[s].playerId != player
  {
    hide Filed, CurrentOk, SessionShape, AttemptsIncrease, CreatingIsNewest, OneEffective, ReferencesUnique, KeysUnique,
      ReviewsOk, ReviewSessionsOk, EventsOk, AllJustified, AllDated;
  }

  lemma FreshIsCoherent(db: Db, db': Db, player: string)
    requires CurrentOk(db.profiles, db.sessions) && player !in db.profiles
    requires db'.profiles == db.profiles[player := FRESH_PROFILE] && db'.sessions == db.sessions
    requires forall s :: 0 <= s < |db.sessions| ==> db.sessions[s].playerId != player
    ensures KeepsCoherence(db, db', {})
  {
    hide KeepsCoherence;
    OnePlayer(db, db', player, {});
  }

  lemma LogKeys(cfg: Config, db: Db)
    requires Inv(cfg, db)
    ensures db.log.Keys == db.profiles.Keys
  {
  }

  /** Expiring a verification: the profile alone moves. */
  ghost predicate ExpiresVerification(cfg: Config, db: Db, player: string, c: Change)
    requires player in db.profiles
  {
    var p := db.profiles[player];
    && p.status == Verified && c.to == Expired && c.trigger != ProviderEventTrigger
    && Patched(p.current, c.session) == p.current && Patched(p.provider, c.provider) == p.provider
    && Patched(p.verifiedAt, c.verifiedAt) == p.verifiedAt && c.expiresAt == p.expiresAt
  }

  lemma VerificationFits(cfg: Config, db: Db, player: string, c: Change)
    requires Inv(cfg, db) && player in db.profiles && ExpiresVerification(cfg, db, player, c)
    ensures Fit(cfg, db, player, c)
  {
    hide SessionsOk, AttemptsIncrease, CreatingIsNewest, OneEffective, ReferencesUnique, KeysUnique, ReviewsOk,
      ReviewSessionsOk, EventsOk, AllJustified, LogReplays;
    assert ProfileShape(cfg, db.profiles[player]);
  }

  lemma ExpireVerificationKeeps(cfg: Config, db: Db, player: string, c: Change, at: Time)
    requires Inv(cfg, db) && player in db.profiles && ExpiresVerification(cfg, db, player, c)
    ensures Move(db, player, c, at).Ok? && Keeps(cfg, db, Move(db, player, c, at).value)
  {
    hide Inv, Fit, Extends, Filed, CurrentOk, SessionsOk, AttemptsIncrease, CreatingIsNewest, OneEffective,
      ReferencesUnique, KeysUnique, EventsOk, AllJustified, ReviewSessionsOk, ReviewShape, KeepsCoherence;
    Shapes(cfg, db, player);
    assert ExpiryOrdered(Changed(db.profiles[player], c));
    VerificationFits(cfg, db, player, c);
    MoveKeepsInv(cfg, db, player, c, at);
    MoveExtends(db, player, c, at);
    MoveShows(db, player, c, at);
    Sessions(cfg, db);
    SameCurrent(db.profiles, Move(db, player, c, at).value.profiles);
    AloneIsCoherent(db, Move(db, player, c, at).value, player);
  }

  lemma Shapes(cfg: Config, db: Db, player: string)
    requires Inv(cfg, db) && player in db.profiles
    ensures player in db.log && (forall r :: 0 <= r < |db.reviews| ==> ReviewShape(db.reviews[r]))
    ensures ExpiryOrdered(db.profiles[player])
  {
    hide SessionsOk, CurrentOk, AttemptsIncrease, CreatingIsNewest, OneEffective, ReferencesUnique, KeysUnique,
      ReviewSessionsOk, EventsOk, AllJustified, ReviewShape;
  }

  lemma AloneIsCoherent(db: Db, db': Db, player: string)
    requires CurrentOk(db.profiles, db.sessions) && player in db.profiles && player in db'.profiles
    requires db'.sessions == db.sessions && db'.profiles == db.profiles[player := db'.profiles[player]]
    requires db.profiles[player].status == Verified && db'.profiles[player].status == Expired
    requires db'.profiles[player].current == db.profiles[player].current
    ensures KeepsCoherence(db, db', {})
  {
    hide KeepsCoherence;
    if CoherentFor(db.profiles, db.sessions, player) {
      forall t | 0 <= t < |db.sessions| && db.sessions[t].playerId == player
        ensures SessionFits(db'.profiles, t, db'.sessions[t])
      {
        assert SessionFits(db.profiles, t, db.sessions[t]);
      }
    }
    OnePlayer(db, db', player, {});
  }

  lemma ExpireIfDueKeeps(cfg: Config, db: Db, player: string, now: Time)
    requires Inv(cfg, db) && player in db.profiles
    ensures ExpireIfDue(db, player, now).Ok? && Keeps(cfg, db, ExpireIfDue(db, player, now).value)
  {
    hide Inv, Keeps, Move;
    KeepsReflexive(cfg, db);
    if VerificationDue(db.profiles[player], now) {
      ExpireVerificationKeeps(cfg, db, player, RequestExpiry(db.profiles[player]), now);
    }
  }

  /** Reading a status never raises. */
  lemma ReadStatusKeeps(cfg: Config, db: Db, player: string, now: Time)
    requires Inv(cfg, db)
    ensures ReadStatus(db, player, now).1.Ok? && Keeps(cfg, db, ReadStatus(db, player, now).0)
  {
    hide Inv, Keeps, ExpireIfDue, GetOrCreate;
    CreateKeeps(cfg, db, player);
    var db1 := GetOrCreate(db, player);
    assert Inv(cfg, db1) by { KeepsInv(cfg, db, db1); }
    ExpireIfDueKeeps(cfg, db1, player, now);
    KeepsTransitive(cfg, db, db1, ReadStatus(db, player, now).0);
  }

  lemma KeepsButInv(cfg: Config, db: Db, db': Db, except: set<string>)
    requires KeepsBut(cfg, db, db', except)
    ensures Inv(cfg, db')
  {
  }

  lemma KeepsInv(cfg: Config, db: Db, db': Db)
    requires Keeps(cfg, db, db')
    ensures Inv(cfg, db')
  {
  }

  // ---- a session and its profile ----

  /** Facts about one stored session. */
  lemma SessionFacts(cfg: Config, db: Db, s: Id)
    requires Inv(cfg, db) && s < |db.sessions|
    ensures SessionShape(db.sessions[s]) && db.sessions[s].playerId in db.profiles && db.sessions[s].playerId in db.log
    ensures Effective(db.sessions[s].status) ==> !OtherEffective(db.sessions, s)
    ensures ProfileShape(cfg, db.profiles[db.sessions[s].playerId])
    ensures ExpiryOrdered(db.profiles[db.sessions[s].playerId])
  {
    hide CurrentOk, AttemptsIncrease, CreatingIsNewest, ReferencesUnique, KeysUnique, ReviewsOk, ReviewSessionsOk,
      EventsOk, AllJustified, LogReplays, ProfileShape, SessionShape;
    if Effective(db.sessions[s].status) { NoOtherEffective(db.sessions, s); }
  }

  /** A profile that waits on manual review has a review open, and no other profile has one. */
  lemma ReviewFacts(cfg: Config, db: Db, player: string)
    requires Inv(cfg, db) && player in db.profiles
    ensures ActiveReview(db.reviews, player).Some? <==> db.profiles[player].status == ManualReview
    ensures forall r :: 0 <= r < |db.reviews| ==> ReviewShape(db.reviews[r])
    ensures forall r :: 0 <= r < |db.reviews| && Active(db.reviews[r], player) ==>
              ActiveReview(db.reviews, player) == Some(r)
    ensures forall r :: 0 <= r < |db.reviews| && Active(db.reviews[r], player) ==>
              db.profiles[player].current == db.reviews[r].session
  {
    hide Filed, CurrentOk, SessionsOk, AttemptsIncrease, CreatingIsNewest, OneEffective, ReferencesUnique, KeysUnique,
      ReviewSessionsOk, EventsOk, AllJustified, ReviewShape;
    var active := ActiveReview(db.reviews, player);
    if active.Some? { assert ReviewFits(db.profiles, db.reviews[active.value]); }
    forall r | 0 <= r < |db.reviews| && Active(db.reviews[r], player)
      ensures active == Some(r) && db.profiles[player].current == db.reviews[r].session {
      assert ReviewFits(db.profiles, db.reviews[r]);
    }
  }

  /** The player has a review open that was requested after the time. */
  ghost predicate ReviewAhead(reviews: seq<Review>, player: string, at: Time) {
    exists r :: 0 <= r < |reviews| && Active(reviews[r], player) && reviews[r].requestedAt > at
  }

  /** An allowed transition is refused only by the order of two times in the profile's row, or in the row of the
      review it completes. */
  lemma MoveIsOk(cfg: Config, db: Db, player: string, c: Change, at: Time)
    requires Inv(cfg, db) && player in db.profiles && player in db.log
    requires CanTransition(db.profiles[player].status, c.to)
    requires db.profiles[player].status == ManualReview ==>
               c.review.None? || c.review == ActiveReview(db.reviews, player)
    ensures Move(db, player, c, at).Ok? <==>
              && ExpiryOrdered(Changed(db.profiles[player], c))
              && !(db.profiles[player].status == ManualReview && ReviewAhead(db.reviews, player, at))
    ensures Move(db, player, c, at).Err? ==> Move(db, player, c, at).error == CheckViolation
  {
    hide Inv, ExpiryOrdered;
    ReviewFacts(cfg, db, player);
    var active := ActiveReview(db.reviews, player);
    if db.profiles[player].status == ManualReview {
      assert && c.to != ManualReview && ReviewOrdered(db.reviews[active.value])
             && Active(db.reviews[active.value], player);
      assert ReviewAhead(db.reviews, player, at) <==> db.reviews[active.value].requestedAt > at;
    }
  }

  /** The profile follows its session: the tables after the session was written, then the transition. */
  lemma FollowKeeps(cfg: Config, db: Db, mid: Db, s: Id, c: Change, at: Time)
    requires Inv(cfg, db) && Inv(cfg, mid) && Extends(db, mid) && s < |db.sessions| && |mid.sessions| == |db.sessions|
    requires mid.profiles == db.profiles && mid.sessions == db.sessions[s := mid.sessions[s]]
    requires var player := db.sessions[s].playerId;
             && player in mid.profiles && Fit(cfg, mid, player, c) && Move(mid, player, c, at).Ok?
             && Patched(mid.profiles[player].current, c.session) == Some(s)
    requires Effective(db.sessions[s].status) && mid.sessions[s].status == At(c.to)
    requires db.sessions[s].status == Creating || db.profiles[db.sessions[s].playerId].current == Some(s)
    ensures Keeps(cfg, db, Move(mid, db.sessions[s].playerId, c, at).value)
  {
    hide Inv, Extends, Fit, Move, KeepsCoherence;
    var player := db.sessions[s].playerId;
    var next := Move(mid, player, c, at).value;
    MoveKeepsInv(cfg, mid, player, c, at);
    ReviewFacts(cfg, mid, player);
    MoveExtends(mid, player, c, at);
    MoveShows(mid, player, c, at);
    ExtendsTransitive(db, mid, next);
    Sessions(cfg, db);
    Sessions(cfg, mid);
    assert mid.sessions[s].playerId == db.sessions[s].playerId by { ExtendsSession(db, mid, s); }
    TogetherIsCoherent(db, next, s);
    NewestIsForward(db, next, s);
  }

  /** A profile that takes up a session being created, or stays with its own, moves forward. */
  lemma NewestIsForward(db: Db, db': Db, s: Id)
    requires CurrentOk(db.profiles, db.sessions) && CreatingIsNewest(db.sessions)
    requires s < |db.sessions| && WritesOnly(db, db', s)
    requires db'.profiles[db.sessions[s].playerId].current == Some(s)
    requires db.sessions[s].status == Creating || db.profiles[db.sessions[s].playerId].current == Some(s)
    ensures AllForward(db.profiles, db'.profiles)
  {
  }

  lemma ExtendsSession(a: Db, b: Db, s: Id)
    requires Extends(a, b) && s < |a.sessions|
    ensures s < |b.sessions| && SessionEvolves(a.sessions[s], b.sessions[s])
  {
  }

  lemma Sessions(cfg: Config, db: Db)
    requires Inv(cfg, db)
    ensures OneEffective(db.sessions) && CurrentOk(db.profiles, db.sessions) && ReferencesUnique(db.sessions)
    ensures CreatingIsNewest(db.sessions)
  {
  }

  // ---- expiring a session ----

  lemma ElapsedFits(sessions: seq<Session>, s: Id, now: Time)
    requires s < |sessions| && SessionShape(sessions[s]) && SessionDue(sessions[s], now)
    ensures MayBecome(sessions, s, Elapsed(sessions[s], now))
  {
  }

  lemma ElapsedChangeFits(cfg: Config, db: Db, mid: Db, s: Id, provider: Option<string>, now: Time)
    requires s < |db.sessions| && |mid.sessions| == |db.sessions| && mid.profiles == db.profiles
    requires var player := db.sessions[s].playerId; player in db.profiles && db.profiles[player].current == Some(s)
    requires mid.sessions[s].status.At? && mid.sessions[s].playerId == db.sessions[s].playerId
    requires provider == Some(mid.sessions[s].provider)
    ensures Fit(cfg, mid, db.sessions[s].playerId,
                ElapsedChange(db.profiles[db.sessions[s].playerId], s, db.sessions[s], provider, now))
  {
  }

  /** The profile is waiting on the session. */
  predicate WaitsOn(db: Db, s: Id)
    requires s < |db.sessions|
  {
    var player := db.sessions[s].playerId;
    && player in db.profiles && db.profiles[player].current == Some(s)
    && db.profiles[player].status in {Pending, ManualReview}
  }

  /** The waiting profile was verified after the session's expiry. */
  predicate VerifiedLater(db: Db, s: Id)
    requires s < |db.sessions|
  {
    && WaitsOn(db, s)
    && var x, p := db.sessions[s], db.profiles[db.sessions[s].playerId];
       x.expiresAt.Some? && p.verifiedAt.Some? && x.expiresAt.value < p.verifiedAt.value
  }

  /** Expiring the session takes the profile along, and a row refuses: the profile's, because it was verified after
      the session's expiry, or that of a review that was requested later than now. */
  ghost predicate Blocked(db: Db, s: Id, now: Time)
    requires s < |db.sessions|
  {
    && WaitsOn(db, s)
    && var player := db.sessions[s].playerId;
       || VerifiedLater(db, s)
       || (db.profiles[player].status == ManualReview && ReviewAhead(db.reviews, player, now))
  }

  /** Expiring a session raises exactly when it is blocked. */
  lemma ExpireSessionOk(cfg: Config, db: Db, s: Id, now: Time, provider: Option<string>)
    requires Inv(cfg, db) && s < |db.sessions|
    requires db.sessions[s].status == At(Expired) || SessionDue(db.sessions[s], now)
    ensures ExpireSession(db, s, now, provider).Ok? <==> !Blocked(db, s, now)
    ensures ExpireSession(db, s, now, provider).Err? ==> ExpireSession(db, s, now, provider).error == CheckViolation
  {
    hide Inv, MayBecome, ReviewAhead, Move;
    SessionFacts(cfg, db, s);
    var x := db.sessions[s];
    var mid := if SessionDue(x, now) then PutSession(db, s, Elapsed(x, now)) else db;
    if SessionDue(x, now) { ElapsedFits(db.sessions, s, now); PutKeepsInv(cfg, db, s, Elapsed(x, now)); }
    if WaitsOn(db, s) {
      MoveIsOk(cfg, mid, x.playerId, ElapsedChange(db.profiles[x.playerId], s, x, provider, now), now);
    }
  }

  lemma ExpireSessionKeeps(cfg: Config, db: Db, s: Id, now: Time, provider: Option<string>)
    requires Inv(cfg, db) && s < |db.sessions| && (WaitsOn(db, s) ==> provider == Some(db.sessions[s].provider))
    requires db.sessions[s].status == At(Expired) || SessionDue(db.sessions[s], now)
    ensures ExpireSession(db, s, now, provider).Ok? <==> !Blocked(db, s, now)
    ensures ExpireSession(db, s, now, provider).Ok? ==> Keeps(cfg, db, ExpireSession(db, s, now, provider).value)
  {
    hide ExpireSession, Blocked, Inv, Keeps;
    ExpireSessionOk(cfg, db, s, now, provider);
    if ExpireSession(db, s, now, provider).Ok? { ExpiredKeeps(cfg, db, s, now, provider); }
  }

  lemma ExpiredKeeps(cfg: Config, db: Db, s: Id, now: Time, provider: Option<string>)
    requires Inv(cfg, db) && s < |db.sessions| && (WaitsOn(db, s) ==> provider == Some(db.sessions[s].provider))
    requires db.sessions[s].status == At(Expired) || SessionDue(db.sessions[s], now)
    requires ExpireSession(db, s, now, provider).Ok?
    ensures Keeps(cfg, db, ExpireSession(db, s, now, provider).value)
  {
    hide Inv, MayBecome, SessionShape, Extends, CoherentFor, KeepsCoherence, Move, Fit, LogStep, AllForward;
    SessionFacts(cfg, db, s);
    var x := db.sessions[s];
    var y := Elapsed(x, now);
    if SessionDue(x, now) {
      ElapsedFits(db.sessions, s, now);
      assert SessionEvolves(x, y);
      PutKeepsInv(cfg, db, s, y);
      PutExtends(db, s, y);
    } else {
      KeepsReflexive(cfg, db);
    }
    var mid := if SessionDue(x, now) then PutSession(db, s, y) else db;
    if WaitsOn(db, s) {
      var c := ElapsedChange(db.profiles[x.playerId], s, x, provider, now);
      ElapsedChangeFits(cfg, db, mid, s, provider, now);
      if SessionDue(x, now) {
        FollowKeeps(cfg, db, mid, s, c, now);
      } else {
        ExpiredAgain(cfg, db, s, c, now);
      }
    } else if SessionDue(x, now) {
      Sessions(cfg, db);
      if CoherentFor(db.profiles, db.sessions, x.playerId) {
        WaitingIsCurrent(db, s);
        assert false;
      }
      assert db.profiles == db.profiles[x.playerId := db.profiles[x.playerId]];
      IncoherentAnyway(db, mid, s);
      SameCurrent(db.profiles, mid.profiles);
    }
  }

  lemma WaitingIsCurrent(db: Db, s: Id)
    requires s < |db.sessions| && CoherentFor(db.profiles, db.sessions, db.sessions[s].playerId)
    requires db.sessions[s].status in {At(Pending), At(ManualReview)}
    ensures WaitsOn(db, s)
  {
    assert SessionFits(db.profiles, s, db.sessions[s]);
  }

  /** An expired session some profile still waits on: only without coherence. */
  lemma ExpiredAgain(cfg: Config, db: Db, s: Id, c: Change, now: Time)
    requires Inv(cfg, db) && s < |db.sessions| && db.sessions[s].status == At(Expired) && WaitsOn(db, s)
    requires Fit(cfg, db, db.sessions[s].playerId, c) && Move(db, db.sessions[s].playerId, c, now).Ok?
    requires Patched(db.profiles[db.sessions[s].playerId].current, c.session) == Some(s)
    ensures Keeps(cfg, db, Move(db, db.sessions[s].playerId, c, now).value)
  {
    hide Inv, Extends, Move, Fit, CoherentFor, KeepsCoherence, AllForward;
    var player := db.sessions[s].playerId;
    MoveKeepsInv(cfg, db, player, c, now);
    ReviewFacts(cfg, db, player);
    MoveExtends(db, player, c, now);
    MoveShows(db, player, c, now);
    Sessions(cfg, db);
    if CoherentFor(db.profiles, db.sessions, player) { ExpiredIsNotWaitedOn(db, s); assert false; }
    assert db.sessions == db.sessions[s := db.sessions[s]];
    SameCurrent(db.profiles, Move(db, player, c, now).value.profiles);
    IncoherentAnyway(db, Move(db, player, c, now).value, s);
  }

  lemma ExpiredIsNotWaitedOn(db: Db, s: Id)
    requires s < |db.sessions| && CoherentFor(db.profiles, db.sessions, db.sessions[s].playerId)
    requires db.sessions[s].status == At(Expired)
    ensures !WaitsOn(db, s)
  {
    var player := db.sessions[s].playerId;
    if player in db.profiles { assert ProfileFits(db.profiles[player], db.sessions); }
  }

  // ---- sweeps ----

  /** The session is due and cannot be expired. */
  ghost predicate BlockedDue(db: Db, s: Id, now: Time) {
    s < |db.sessions| && SessionDue(db.sessions[s], now) && Blocked(db, s, now)
  }

  lemma SweepSessionKeeps(cfg: Config, db: Db, s: Id, now: Time)
    requires Inv(cfg, db)
    ensures SweepSession(db, s, now).Ok? <==> !BlockedDue(db, s, now)
    ensures SweepSession(db, s, now).Ok? ==> Keeps(cfg, db, SweepSession(db, s, now).value)
  {
    hide Inv, Keeps, ExpireSession, Blocked;
    KeepsReflexive(cfg, db);
    if s < |db.sessions| && SessionDue(db.sessions[s], now) {
      var player := db.sessions[s].playerId;
      Sessions(cfg, db);
      ExpireSessionKeeps(cfg, db, s, now, if player in db.profiles then db.profiles[player].provider else None);
    }
  }

  lemma {:induction false} SweepSessionsKeeps(cfg: Config, db: Db, ids: seq<Id>, now: Time)
    requires Inv(cfg, db)
    ensures SweepSessions(db, ids, now).Ok? ==> Keeps(cfg, db, SweepSessions(db, ids, now).value)
    decreases |ids|
  {
    hide Inv, Keeps, SweepSession, BlockedDue;
    if ids == [] {
      KeepsReflexive(cfg, db);
    } else if SweepSession(db, ids[0], now).Ok? {
      SweepSessionKeeps(cfg, db, ids[0], now);
      var db1 := SweepSession(db, ids[0], now).value;
      KeepsInv(cfg, db, db1);
      SweepSessionsKeeps(cfg, db1, ids[1..], now);
      if SweepSessions(db, ids, now).Ok? { KeepsTransitive(cfg, db, db1, SweepSessions(db, ids, now).value); }
    }
  }

  lemma SweepProfileKeeps(cfg: Config, db: Db, player: string, now: Time)
    requires Inv(cfg, db) && player in db.profiles && VerificationDue(db.profiles[player], now)
    ensures SweepProfile(db, player, now).Ok? && Keeps(cfg, db, SweepProfile(db, player, now).value)
    ensures var p := db.profiles[player];
            SweepProfile(db, player, now).value.profiles == db.profiles[player := Changed(p, VerificationChange(p))]
  {
    hide Inv, Keeps, Move;
    ExpireVerificationKeeps(cfg, db, player, VerificationChange(db.profiles[player]), now);
    MoveShows(db, player, VerificationChange(db.profiles[player]), now);
  }

  lemma {:induction false} SweepProfilesKeeps(cfg: Config, db: Db, players: seq<string>, now: Time)
    requires Inv(cfg, db) && DueProfiles(db, now, |players|, players)
    ensures SweepProfiles(db, players, now).Ok? && Keeps(cfg, db, SweepProfiles(db, players, now).value)
    decreases |players|
  {
    hide Inv, Keeps, SweepProfile;
    if players == [] {
      KeepsReflexive(cfg, db);
    } else {
      SweepProfileKeeps(cfg, db, players[0], now);
      var db1 := SweepProfile(db, players[0], now).value;
      KeepsInv(cfg, db, db1);
      DueRest(db, db1, now, players);
      SweepProfilesKeeps(cfg, db1, players[1..], now);
      KeepsTransitive(cfg, db, db1, SweepProfiles(db, players, now).value);
    }
  }

  lemma DueRest(db: Db, db1: Db, now: Time, players: seq<string>)
    requires players != [] && DueProfiles(db, now, |players|, players) && players[0] in db1.profiles
    requires db1.profiles == db.profiles[players[0] := db1.profiles[players[0]]]
    ensures DueProfiles(db1, now, |players| - 1, players[1..])
  {
    forall k | 0 <= k < |players| - 1
      ensures players[1..][k] in db1.profiles && VerificationDue(db1.profiles[players[1..][k]], now)
    {
      assert players[k + 1] != players[0] && VerificationDue(db.profiles[players[k + 1]], now);
    }
  }

  // ---- starting a verification ----

  lemma MoreSessions(db: Db, db': Db, x: Session, except: set<string>)
    requires CurrentOk(db.profiles, db.sessions) && x.playerId in db.profiles && x.status == Creating
    requires db'.profiles == db.profiles && db'.sessions == db.sessions + [x]
    requires x.playerId in except || db.profiles[x.playerId].status != Verified
    requires forall s :: 0 <= s < |db.sessions| && db.sessions[s].playerId == x.playerId ==>
               !Effective(db.sessions[s].status)
    ensures KeepsCoherence(db, db', except) && ClosedStay(db.sessions, db'.sessions)
  {
    hide KeepsCoherence;
    var player := x.playerId;
    if player !in except && CoherentFor(db.profiles, db.sessions, player) {
      assert ProfileFits(db.profiles[player], db.sessions);
      assert db.profiles[player].status in {NotStarted, Failed, Expired};
      forall s | 0 <= s < |db'.sessions| && db'.sessions[s].playerId == player
        ensures SessionFits(db'.profiles, s, db'.sessions[s])
      {
        if s < |db.sessions| { assert SessionFits(db.profiles, s, db.sessions[s]); }
      }
    }
    OnePlayer(db, db', player, except);
  }

  lemma FreshFits(cfg: Config, player: string, key: Option<string>, attempt: nat, at: Time)
    requires attempt > 0
    ensures SessionShape(FreshSession(cfg, player, key, attempt, at))
  {
  }

  lemma CreateSessionKeeps(cfg: Config, db: Db, player: string, key: Option<string>, at: Time, except: set<string>)
    requires Inv(cfg, db) && player in db.profiles && !Conflicts(db.sessions, player, key)
    requires player in except || db.profiles[player].status != Verified
    ensures var x := FreshSession(cfg, player, key, MaxAttempt(db.sessions, player) + 1, at);
            KeepsBut(cfg, db, db.(sessions := db.sessions + [x]), except)
  {
    hide Inv, SessionShape, Extends, MaxAttempt, KeepsCoherence, ClosedStay, AllForward;
    var x := FreshSession(cfg, player, key, MaxAttempt(db.sessions, player) + 1, at);
    FreshFits(cfg, player, key, MaxAttempt(db.sessions, player) + 1, at);
    AppendKeepsInv(cfg, db, x);
    AppendExtends(db, x);
    Sessions(cfg, db);
    MoreSessions(db, db.(sessions := db.sessions + [x]), x, except);
    SameCurrent(db.profiles, db.profiles);
  }

  /** The profile is verified by the clock inside the transaction, but no longer by the reading before it: the
      clock went back during the call, which then starts a session although nothing has expired. */
  predicate RacesExpiry(db: Db, player: string, key: Option<string>, at: Time, now: Time) {
    && player in db.profiles && VerificationDue(db.profiles[player], at) && !VerificationDue(db.profiles[player], now)
    && (key.None? || FindByKey(db.sessions, player, key.value).None?)
  }

  /** The players whose coherence a start call may cost. */
  function Unsettled(db: Db, player: string, key: Option<string>, at: Time, now: Time): set<string> {
    if RacesExpiry(db, player, key, at, now) then {player} else {}
  }

  /** Preparing a start call keeps everything but, when it races the expiry, the coherence of its own player. */
  lemma PrepareKeeps(cfg: Config, db: Db, player: string, key: Option<string>, at: Time, now: Time)
    requires Inv(cfg, db)
    ensures KeepsBut(cfg, db, Prepare(cfg, db, player, key, at, now).0, Unsettled(db, player, key, at, now))
  {
    hide Inv, KeepsBut, GetOrCreate, Conflicts, Move, FindByKey, MaxAttempt, FindEffective;
    var except := Unsettled(db, player, key, at, now);
    KeepsReflexive(cfg, db);
    CreateKeeps(cfg, db, player);
    var db0 := GetOrCreate(db, player);
    KeepsInv(cfg, db, db0);
    ExpireIfDueKeeps(cfg, db0, player, now);
    var db1 := ExpireIfDue(db0, player, now).value;
    KeepsInv(cfg, db0, db1);
    KeepsTransitive(cfg, db, db0, db1);
    FewerExceptions(cfg, db, db, except);
    FewerExceptions(cfg, db, db1, except);
    var (next, r) := Prepare(cfg, db, player, key, at, now);
    if next != db && next != db1 {
      assert player in except || db1.profiles[player].status != Verified by {
        NotVerified(cfg, db, player, key, at, now);
      }
      CreateSessionKeeps(cfg, db1, player, key, at, except);
      KeepsButTransitive(cfg, db, db1, next, except);
    }
  }

  lemma FewerExceptions(cfg: Config, db: Db, db': Db, except: set<string>)
    requires Keeps(cfg, db, db')
    ensures KeepsBut(cfg, db, db', except)
  {
    hide Inv, CoherentFor;
  }

  /** The session a start call creates belongs to a player who is not verified, unless the call races the expiry. */
  lemma NotVerified(cfg: Config, db: Db, player: string, key: Option<string>, at: Time, now: Time)
    requires Inv(cfg, db) && ExpireIfDue(GetOrCreate(db, player), player, now).Ok?
    requires var db1 := ExpireIfDue(GetOrCreate(db, player), player, now).value;
             var next := Prepare(cfg, db, player, key, at, now).0;
             next != db && next != db1
    ensures RacesExpiry(db, player, key, at, now)
            || ExpireIfDue(GetOrCreate(db, player), player, now).value.profiles[player].status != Verified
  {
    hide Inv, Reviewed, FindByKey, FindEffective, MaxAttempt, Conflicts;
  }

  lemma ActivatedFits(cfg: Config, sessions: seq<Session>, s: Id, reply: Reply)
    requires s < |sessions| && SessionShape(sessions[s]) && sessions[s].status == Creating
    requires Acceptable(cfg, sessions[s].startedAt, reply)
    requires !OtherEffective(sessions, s) && !ReferenceTaken(sessions, s, reply.reference)
    ensures MayBecome(sessions, s, Activated(sessions[s], reply))
  {
  }

  lemma StartFits(cfg: Config, db: Db, s: Id, x: Session)
    requires s < |db.sessions| && db.sessions[s].status == At(Pending) && x.provider == db.sessions[s].provider
    requires db.sessions[s].playerId in db.profiles
    ensures Fit(cfg, db, db.sessions[s].playerId, StartChange(s, x))
  {
  }

  lemma ActivateKeeps(cfg: Config, db: Db, s: Id, reply: Reply, now: Time)
    requires Inv(cfg, db) && s < |db.sessions| && Acceptable(cfg, db.sessions[s].startedAt, reply)
    ensures Keeps(cfg, db, Activate(db, s, reply, now).0)
  {
    hide Inv, MayBecome, SessionShape, Extends, Move, Fit, OtherEffective, ReferenceTaken, Keeps;
    KeepsReflexive(cfg, db);
    SessionFacts(cfg, db, s);
    var x := db.sessions[s];
    if x.status == Creating && !ReferenceTaken(db.sessions, s, reply.reference) {
      var y := Activated(x, reply);
      var mid := PutSession(db, s, y);
      ActivatedFits(cfg, db.sessions, s, reply);
      PutKeepsInv(cfg, db, s, y);
      assert SessionEvolves(x, y);
      PutExtends(db, s, y);
      StartFits(cfg, mid, s, x);
      if Move(mid, x.playerId, StartChange(s, x), now).Ok? { FollowKeeps(cfg, db, mid, s, StartChange(s, x), now); }
    }
  }

  lemma MarkKeeps(cfg: Config, db: Db, s: Id, now: Time)
    requires Inv(cfg, db) && s < |db.sessions|
    ensures Keeps(cfg, db, MarkCreationFailed(db, s, now).0)
  {
    hide Inv, Extends, KeepsCoherence, ClosedStay, AllForward;
    KeepsReflexive(cfg, db);
    SessionFacts(cfg, db, s);
    var x := db.sessions[s];
    if x.status == Creating && SessionOrdered(GivenUp(x, now)) {
      var y := GivenUp(x, now);
      PutKeepsInv(cfg, db, s, y);
      PutExtends(db, s, y);
      Sessions(cfg, db);
      assert db.profiles == db.profiles[x.playerId := db.profiles[x.playerId]];
      StatusIsEnough(db, PutSession(db, s, y), s);
      SameCurrent(db.profiles, db.profiles);
    }
  }

  /** A session write that keeps the status, or gives up a session being created. */
  lemma StatusIsEnough(db: Db, db': Db, s: Id)
    requires CurrentOk(db.profiles, db.sessions) && s < |db.sessions| && WritesOnly(db, db', s)
    requires db'.profiles == db.profiles
    requires Effective(db.sessions[s].status)
    requires || db'.sessions[s].status == db.sessions[s].status
             || (db.sessions[s].status == Creating && db'.sessions[s].status == CreationFailed)
    ensures KeepsCoherence(db, db', {}) && ClosedStay(db.sessions, db'.sessions)
  {
    hide KeepsCoherence;
    OthersSame(db, db', s);
    var player := db.sessions[s].playerId;
    if CoherentFor(db.profiles, db.sessions, player) {
      forall t | 0 <= t < |db'.sessions| && db'.sessions[t].playerId == player
        ensures SessionFits(db'.profiles, t, db'.sessions[t])
      {
        assert SessionFits(db.profiles, t, db.sessions[t]);
      }
      assert ProfileFits(db.profiles[player], db.sessions);
    }
    OnePlayer(db, db', player, {});
  }

  lemma FinishKeeps(cfg: Config, db: Db, s: Id, reply: Reply, now: Time)
    requires Inv(cfg, db)
    ensures Keeps(cfg, db, Finish(cfg, db, s, reply, now).0)
  {
    hide Inv, Keeps, Activate, MarkCreationFailed, Acceptable;
    KeepsReflexive(cfg, db);
    if s < |db.sessions| {
      if Acceptable(cfg, db.sessions[s].startedAt, reply) {
        ActivateKeeps(cfg, db, s, reply, now);
      } else {
        MarkKeeps(cfg, db, s, now);
      }
    }
  }

  // ---- the provider callback ----

  /** What the callback knows about an event that is not stale. */
  ghost predicate Current(db: Db, s: Id, e: ProviderEvent, now: Time) {
    && s < |db.sessions| && db.sessions[s].playerId in db.profiles
    && FindByReference(db.sessions, e.provider, e.reference) == Some(s)
    && FindEvent(db.events, e).None?
    && !(db.sessions[s].status == At(Expired) || SessionDue(db.sessions[s], now))
    && !IsStale(e, db.sessions[s], db.profiles[db.sessions[s].playerId].current == Some(s))
    && (e.result == Pending || CanTransition(db.profiles[db.sessions[s].playerId].status, e.result))
  }

  /** A session that is current and not closed waits with the provider. */
  lemma CurrentIsWaiting(cfg: Config, db: Db, s: Id, e: ProviderEvent, now: Time)
    requires Inv(cfg, db) && Current(db, s, e, now)
    ensures s < |db.sessions|
    ensures db.sessions[s].status in {At(Pending), At(ManualReview)} && db.sessions[s].expiresAt.Some?
    ensures db.sessions[s].expiresAt.value > now && e.occurredAt >= db.sessions[s].startedAt
    ensures HasReference(db.sessions[s], e.provider, e.reference)
    ensures e.result == Pending ==> db.sessions[s].status == At(Pending)
    ensures e.result != NotStarted
  {
    hide Filed, AttemptsIncrease, CreatingIsNewest, OneEffective, ReferencesUnique, KeysUnique, ReviewsOk,
      ReviewSessionsOk, EventsOk, AllJustified, FindEvent, FindByReference;
    assert SessionShape(db.sessions[s]);
  }

  function CompletedAt(e: ProviderEvent, now: Time): Option<Time> {
    if e.result in {Pending, ManualReview} then None else Some(now)
  }

  lemma EventFits(sessions: seq<Session>, s: Id, e: ProviderEvent, now: Time)
    requires s < |sessions| && SessionShape(sessions[s]) && sessions[s].status in {At(Pending), At(ManualReview)}
    requires e.result != NotStarted && e.occurredAt >= sessions[s].startedAt
    requires !OtherEffective(sessions, s)
    requires e.result in {Pending, ManualReview} || now >= sessions[s].startedAt
    ensures MayBecome(sessions, s, Updated(sessions[s], e.result, e.occurredAt, CompletedAt(e, now)))
  {
  }

  /** The row of a processed event lies behind its session, and after every earlier one. */
  lemma RowFits(cfg: Config, db: Db, s: Id, e: ProviderEvent, now: Time, y: Session)
    requires Inv(cfg, db) && Current(db, s, e, now)
    requires y == Updated(db.sessions[s], e.result, e.occurredAt, CompletedAt(e, now))
    requires HasReference(db.sessions[s], e.provider, e.reference)
    ensures MayInsert(PutSession(db, s, y),
                      Row(e, Processed, if e.result == Pending then NoReason else Applied(e.result), now))
  {
    hide Filed, CurrentOk, SessionsOk, AttemptsIncrease, CreatingIsNewest, OneEffective, KeysUnique, ReviewsOk,
      ReviewSessionsOk, AllJustified, FindByReference;
    var mid := PutSession(db, s, y);
    assert Behind(e, mid.sessions) by { assert HasReference(mid.sessions[s], e.provider, e.reference); }
    forall k | 0 <= k < |db.events| && db.events[k].processing == Processed && db.events[k].event.provider == e.provider
               && db.events[k].event.reference == e.reference
      ensures db.events[k].event.occurredAt < e.occurredAt {
      assert Behind(db.events[k].event, db.sessions);
    }
  }

  lemma EventChangeFits(cfg: Config, db: Db, s: Id, x: Session, p: Profile, e: ProviderEvent, now: Time)
    requires s < |db.sessions| && db.sessions[s].status.At? && db.sessions[s].playerId in db.profiles
    requires db.profiles[db.sessions[s].playerId] == p
    requires x.provider == db.sessions[s].provider && e.result in {Verified, Failed, ManualReview, Expired}
    requires db.events != []
    requires db.events[|db.events| - 1] == Row(e, Processed, Applied(e.result), now)
    requires HasReference(db.sessions[s], e.provider, e.reference) && db.sessions[s].expiresAt.Some?
    requires db.sessions[s].expiresAt.value > now
    ensures Fit(cfg, db, db.sessions[s].playerId, EventChange(cfg, p, s, x, e, |db.events| - 1, now))
  {
  }

  lemma InsertOverPut(db: Db, s: Id, y: Session, row: EventRow)
    requires s < |db.sessions| && SessionEvolves(db.sessions[s], y)
    ensures Extends(db, Insert(PutSession(db, s, y), row))
  {
  }

  /** By this clock the event ends its session before it started, expires its player before the last verification,
      or completes a review before it was requested. */
  ghost predicate ClockBehind(db: Db, s: Id, e: ProviderEvent, now: Time)
    requires s < |db.sessions| && db.sessions[s].playerId in db.profiles
  {
    var x, p := db.sessions[s], db.profiles[db.sessions[s].playerId];
    || (e.result in {Verified, Failed, Expired} && now < x.startedAt)
    || (e.result == Expired && p.verifiedAt.Some? && now < p.verifiedAt.value)
    || (e.result != Pending && p.status == ManualReview && ReviewAhead(db.reviews, x.playerId, now))
  }

  /** Applying an event raises exactly when the clock is behind. */
  lemma ApplyEventKeeps(cfg: Config, db: Db, s: Id, e: ProviderEvent, now: Time)
    requires Inv(cfg, db) && Current(db, s, e, now)
    ensures ApplyEvent(cfg, db, s, e, now).Ok? <==> !ClockBehind(db, s, e, now)
    ensures ApplyEvent(cfg, db, s, e, now).Err? ==> ApplyEvent(cfg, db, s, e, now).error == CheckViolation
    ensures ApplyEvent(cfg, db, s, e, now).Ok? ==> Keeps(cfg, db, ApplyEvent(cfg, db, s, e, now).value)
  {
    hide Inv, Current, Extends, Move, Fit, MayInsert, MayBecome, SessionShape, OtherEffective, Behind, Keeps,
      ReviewAhead, KeepsCoherence, ClosedStay, AllForward;
    CurrentIsWaiting(cfg, db, s, e, now);
    SessionFacts(cfg, db, s);
    CurrentShows(db, s, e, now);
    var x := db.sessions[s];
    var y := Updated(x, e.result, e.occurredAt, CompletedAt(e, now));
    assert SessionOrdered(y) <==> e.result in {Pending, ManualReview} || now >= x.startedAt by {
      UpdatedOrdered(x, e.result, e.occurredAt, CompletedAt(e, now));
    }
    if SessionOrdered(y) {
      EventFits(db.sessions, s, e, now);
      PutKeepsInv(cfg, db, s, y);
      var row := Row(e, Processed, if e.result == Pending then NoReason else Applied(e.result), now);
      RowFits(cfg, db, s, e, now, y);
      var mid := Insert(PutSession(db, s, y), row);
      InsertKeepsInv(cfg, PutSession(db, s, y), row);
      assert SessionEvolves(x, y) by { UpdatedEvolves(x, e, now); }
      InsertOverPut(db, s, y, row);
      if e.result == Pending {
        Sessions(cfg, db);
        assert db.profiles == db.profiles[x.playerId := db.profiles[x.playerId]];
        StatusIsEnough(db, mid, s);
        SameCurrent(db.profiles, mid.profiles);
        assert Keeps(cfg, db, mid) by { KeepsParts(cfg, db, mid); }
      } else {
        var c := EventChange(cfg, db.profiles[x.playerId], s, x, e, |db.events|, now);
        EventChangeFits(cfg, mid, s, x, db.profiles[x.playerId], e, now);
        MoveIsOk(cfg, mid, x.playerId, c, now);
        if Move(mid, x.playerId, c, now).Ok? { FollowKeeps(cfg, db, mid, s, c, now); }
      }
    }
  }

  lemma UpdatedOrdered(x: Session, status: KycStatus, eventAt: Time, completedAt: Option<Time>)
    requires SessionShape(x) && x.status.At?
    ensures SessionOrdered(Updated(x, status, eventAt, completedAt)) <==>
              && (x.lastEventAt.Some? || eventAt >= x.startedAt)
              && (completedAt.Some? ==> completedAt.value >= x.startedAt)
  {
  }

  lemma KeepsParts(cfg: Config, db: Db, db': Db)
    requires Inv(cfg, db') && Extends(db, db')
    requires KeepsCoherence(db, db', {}) && ClosedStay(db.sessions, db'.sessions)
    requires AllForward(db.profiles, db'.profiles)
    ensures Keeps(cfg, db, db')
  {
    hide Inv, Extends, KeepsCoherence, ClosedStay, AllForward;
  }

  lemma CurrentShows(db: Db, s: Id, e: ProviderEvent, now: Time)
    requires Current(db, s, e, now)
    ensures db.profiles[db.sessions[s].playerId].current == Some(s)
    ensures e.result == Pending || CanTransition(db.profiles[db.sessions[s].playerId].status, e.result)
  {
  }

  lemma UpdatedEvolves(x: Session, e: ProviderEvent, now: Time)
    requires x.status.At?
    ensures SessionEvolves(x, Updated(x, e.result, e.occurredAt, CompletedAt(e, now)))
  {
  }

  /** Rows of events that change nothing. */
  lemma PlainRowKeeps(cfg: Config, db: Db, row: EventRow)
    requires Inv(cfg, db) && OutcomeOk(row) && row.processing != Processed && FindEvent(db.events, row.event).None?
    ensures Keeps(cfg, db, Insert(db, row))
  {
    hide Inv, OutcomeOk, KeepsCoherence, ClosedStay, AllForward;
    InsertKeepsInv(cfg, db, row);
    InsertExtends(db, row);
    NoPlayer(db, Insert(db, row));
  }

  /** Handling the event of a session raises: an elapsed session is blocked, or the event would be applied and the
      clock is behind. */
  ghost predicate HandleRefused(db: Db, s: Id, e: ProviderEvent, now: Time)
    requires s < |db.sessions| && db.sessions[s].playerId in db.profiles
  {
    var x, p := db.sessions[s], db.profiles[db.sessions[s].playerId];
    if x.status == At(Expired) || SessionDue(x, now) then Blocked(db, s, now)
    else
      && (e.claimedPlayer.Some? ==> e.claimedPlayer.value == x.playerId)
      && !IsStale(e, x, p.current == Some(s)) && (e.result == Pending || CanTransition(p.status, e.result))
      && ClockBehind(db, s, e, now)
  }

  /** The event is new, not too far ahead of the clock, and from the configured provider. */
  predicate IsAccepted(cfg: Config, db: Db, e: ProviderEvent, now: Time) {
    FindEvent(db.events, e).None? && e.occurredAt <= now + cfg.maxFutureSkew && e.provider == cfg.provider
  }

  ghost predicate CallbackRefused(cfg: Config, db: Db, e: ProviderEvent, now: Time) {
    && IsAccepted(cfg, db, e, now)
    && var found := FindByReference(db.sessions, e.provider, e.reference);
       && found.Some? && db.sessions[found.value].playerId in db.profiles
       && HandleRefused(db, found.value, e, now)
  }

  /** The callback keeps everything; what it raises, and exactly when. */
  lemma CallbackKeeps(cfg: Config, db: Db, e: ProviderEvent, now: Time)
    requires Inv(cfg, db)
    ensures Keeps(cfg, db, Callback(cfg, db, e, now).0)
    ensures Callback(cfg, db, e, now).1.Raised? <==> CallbackRefused(cfg, db, e, now)
    ensures Callback(cfg, db, e, now).1.Raised? ==>
              Callback(cfg, db, e, now).0 == db && Callback(cfg, db, e, now).1.error == CheckViolation
  {
    hide Inv, Keeps, HandleEvent, HandleRefused, FindEvent, FindByReference;
    KeepsReflexive(cfg, db);
    if FindEvent(db.events, e).None? {
      PlainRowKeeps(cfg, db, Row(e, Rejected, FutureTimestamp, now));
      PlainRowKeeps(cfg, db, Row(e, Rejected, ProviderMismatch, now));
      PlainRowKeeps(cfg, db, Row(e, Rejected, UnknownSession, now));
      var found := FindByReference(db.sessions, e.provider, e.reference);
      if found.Some? {
        SessionFacts(cfg, db, found.value);
        HandleKeeps(cfg, db, found.value, e, now);
      }
    }
  }

  lemma HandleKeeps(cfg: Config, db: Db, s: Id, e: ProviderEvent, now: Time)
    requires Inv(cfg, db) && FindEvent(db.events, e).None?
    requires FindByReference(db.sessions, e.provider, e.reference) == Some(s)
    requires db.sessions[s].playerId in db.profiles
    ensures Keeps(cfg, db, HandleEvent(cfg, db, s, e, now).0)
    ensures HandleEvent(cfg, db, s, e, now).1.Raised? <==> HandleRefused(db, s, e, now)
    ensures HandleEvent(cfg, db, s, e, now).1.Raised? ==>
              HandleEvent(cfg, db, s, e, now).0 == db && HandleEvent(cfg, db, s, e, now).1.error == CheckViolation
  {
    hide Inv, Keeps, ExpireSession, ApplyEvent, FindEvent, FindByReference, IsStale, SessionDue, Blocked, ClockBehind;
    var x := db.sessions[s];
    var p := db.profiles[x.playerId];
    KeepsReflexive(cfg, db);
    PlainRowKeeps(cfg, db, Row(e, Rejected, PlayerMismatch, now));
    PlainRowKeeps(cfg, db, Row(e, IgnoredStale, StaleEvent, now));
    if x.status == At(Expired) || SessionDue(x, now) {
      ExpireSessionKeeps(cfg, db, s, now, Some(x.provider));
      ExpireSessionOk(cfg, db, s, now, Some(x.provider));
      if ExpireSession(db, s, now, Some(x.provider)).Ok? {
        var db1 := ExpireSession(db, s, now, Some(x.provider)).value;
        KeepsInv(cfg, db, db1);
        assert db1.events == db.events by { ExpireSessionShows(db, s, now, Some(x.provider)); }
        PlainRowKeeps(cfg, db1, Row(e, IgnoredExpired, SessionElapsed, now));
        KeepsTransitive(cfg, db, db1, Insert(db1, Row(e, IgnoredExpired, SessionElapsed, now)));
      }
    } else if !IsStale(e, x, p.current == Some(s)) && (e.result == Pending || CanTransition(p.status, e.result)) {
      ApplyEventKeeps(cfg, db, s, e, now);
    }
  }

  lemma ExpireSessionShows(db: Db, s: Id, now: Time, provider: Option<string>)
    requires s < |db.sessions| && ExpireSession(db, s, now, provider).Ok?
    ensures ExpireSession(db, s, now, provider).value.events == db.events
  {
  }

  // ---- manual reviews ----

  /** A ticket agrees with the review it was read from. */
  ghost predicate TicketOk(db: Db, t: Ticket) {
    && t.review < |db.reviews| && db.reviews[t.review].playerId == t.playerId
    && db.reviews[t.review].session == Some(t.session)
  }

  lemma TicketFacts(cfg: Config, db: Db, t: Ticket)
    requires Inv(cfg, db) && TicketOk(db, t)
    ensures t.session < |db.sessions| && db.sessions[t.session].playerId == t.playerId
    ensures db.sessions[t.session].status.At?
  {
    hide Filed, CurrentOk, SessionsOk, AttemptsIncrease, CreatingIsNewest, OneEffective, ReferencesUnique, KeysUnique,
      ReviewsOk, EventsOk, AllJustified;
  }

  function Decided(x: Session, outcome: KycStatus, now: Time): Session {
    Updated(x, outcome, now, if outcome == Pending then None else Some(now))
  }

  lemma DecidedFits(sessions: seq<Session>, s: Id, outcome: KycStatus, now: Time)
    requires s < |sessions| && SessionShape(sessions[s]) && sessions[s].status.At?
    requires outcome in {Verified, Failed, Pending}
    requires outcome == Pending ==> !OtherEffective(sessions, s)
    requires SessionOrdered(Decided(sessions[s], outcome, now))
    ensures MayBecome(sessions, s, Decided(sessions[s], outcome, now))
    ensures SessionEvolves(sessions[s], Decided(sessions[s], outcome, now))
  {
  }

  lemma DecisionFits(cfg: Config, db: Db, t: Ticket, x: Session, outcome: KycStatus, now: Time)
    requires t.session < |db.sessions| && db.sessions[t.session].playerId == t.playerId
    requires db.sessions[t.session].status.At?
    requires t.playerId in db.profiles && x.provider == db.sessions[t.session].provider
    requires outcome in {Verified, Failed, Pending}
    ensures Fit(cfg, db, t.playerId, DecisionChange(cfg, t, x, outcome, now))
  {
  }

  /** A decision keeps the invariant whatever happened to its review since it was read. */
  lemma DecideKeepsInv(cfg: Config, db: Db, t: Ticket, outcome: KycStatus, now: Time)
    requires Inv(cfg, db) && TicketOk(db, t) && outcome in {Verified, Failed, Pending}
    ensures Inv(cfg, Decide(cfg, db, t, outcome, now).0) && Extends(db, Decide(cfg, db, t, outcome, now).0)
  {
    hide Inv, Extends, Move, Fit, MayBecome, SessionShape, OtherEffective, TicketOk;
    ExtendsReflexive(db);
    TicketFacts(cfg, db, t);
    SessionFacts(cfg, db, t.session);
    var x := db.sessions[t.session];
    if x.status in {At(ManualReview), At(Verified)}
       && UpdateFromEvent(db, t.session, outcome, now, if outcome == Pending then None else Some(now)).Ok? {
      var y := Decided(x, outcome, now);
      var mid := PutSession(db, t.session, y);
      DecidedFits(db.sessions, t.session, outcome, now);
      PutKeepsInv(cfg, db, t.session, y);
      PutExtends(db, t.session, y);
      var c := DecisionChange(cfg, t, x, outcome, now);
      if Move(mid, t.playerId, c, now).Ok? {
        DecisionFits(cfg, mid, t, x, outcome, now);
        MoveKeepsInv(cfg, mid, t.playerId, c, now);
        ReviewFacts(cfg, mid, t.playerId);
        MoveExtends(mid, t.playerId, c, now);
        ExtendsTransitive(db, mid, Move(mid, t.playerId, c, now).value);
      }
    }
  }

  /** Whenever it arrives, a decision writes to its ticket's session and to that session's player, and to
      nothing unless it commits. */
  lemma DecideTouches(cfg: Config, db: Db, t: Ticket, outcome: KycStatus, now: Time)
    requires Inv(cfg, db) && TicketOk(db, t) && outcome in {Verified, Failed, Pending}
    ensures var after := Decide(cfg, db, t, outcome, now);
            && KeepsCoherence(db, after.0, {t.playerId})
            && |after.0.sessions| == |db.sessions|
            && (forall s :: 0 <= s < |db.sessions| && s != t.session ==> after.0.sessions[s] == db.sessions[s])
            && (after.1.Err? ==> after.0 == db)
  {
    hide Inv, Move, TicketOk, OtherEffective, KeepsCoherence, CoherentFor;
    TicketFacts(cfg, db, t);
    Sessions(cfg, db);
    NoPlayer(db, db);
    var after := Decide(cfg, db, t, outcome, now);
    if after.1.Ok? {
      var mid := UpdateFromEvent(db, t.session, outcome, now, if outcome == Pending then None else Some(now)).value;
      MoveShows(mid, t.playerId, DecisionChange(cfg, t, db.sessions[t.session], outcome, now), now);
      OthersSame(db, after.0, t.session);
      OnePlayer(db, after.0, t.playerId, {t.playerId});
    } else {
      FewerPlayers(db, db, {t.playerId});
    }
  }

  lemma FewerPlayers(a: Db, b: Db, except: set<string>)
    requires KeepsCoherence(a, b, {})
    ensures KeepsCoherence(a, b, except)
  {
    hide CoherentFor;
  }

  ghost predicate ReviewOpen(db: Db, t: Ticket) { t.review < |db.reviews| && db.reviews[t.review].status != Completed }

  /** By this clock the session has started and the player's review has been requested. */
  ghost predicate DecisionDated(db: Db, t: Ticket, outcome: KycStatus, now: Time)
    requires t.session < |db.sessions|
  {
    && (outcome != Pending ==> db.sessions[t.session].startedAt <= now)
    && !ReviewAhead(db.reviews, t.playerId, now)
  }

  /** A decision that finds its review still open commits unless the clock is behind, and keeps coherence. */
  lemma TimelyDecisionKeeps(cfg: Config, db: Db, t: Ticket, outcome: KycStatus, now: Time)
    requires Inv(cfg, db) && CoherentFor(db.profiles, db.sessions, t.playerId)
    requires TicketOk(db, t) && ReviewOpen(db, t) && outcome in {Verified, Failed, Pending}
    ensures t.session < |db.sessions| && db.sessions[t.session].status == At(ManualReview)
    ensures Decide(cfg, db, t, outcome, now).1.Ok? <==> DecisionDated(db, t, outcome, now)
    ensures Decide(cfg, db, t, outcome, now).1.Ok? ==> Keeps(cfg, db, Decide(cfg, db, t, outcome, now).0)
  {
    hide Inv, Extends, Move, Fit, MayBecome, SessionShape, OtherEffective, CoherentFor, Keeps, ReviewAhead;
    TicketFacts(cfg, db, t);
    SessionFacts(cfg, db, t.session);
    ReviewFacts(cfg, db, t.playerId);
    assert Active(db.reviews[t.review], t.playerId);
    assert db.profiles[t.playerId].status == ManualReview && db.profiles[t.playerId].current == Some(t.session);
    CurrentStatus(db, t.playerId);
    var x := db.sessions[t.session];
    var y := Decided(x, outcome, now);
    assert SessionOrdered(y) <==> outcome == Pending || x.startedAt <= now by { DecidedOrdered(x, outcome, now); }
    if SessionOrdered(y) {
      var mid := PutSession(db, t.session, y);
      DecidedFits(db.sessions, t.session, outcome, now);
      PutKeepsInv(cfg, db, t.session, y);
      PutExtends(db, t.session, y);
      var c := DecisionChange(cfg, t, x, outcome, now);
      DecisionFits(cfg, mid, t, x, outcome, now);
      MoveIsOk(cfg, mid, t.playerId, c, now);
      assert ExpiryOrdered(Changed(db.profiles[t.playerId], c));
      if Move(mid, t.playerId, c, now).Ok? { FollowKeeps(cfg, db, mid, t.session, c, now); }
    }
  }

  lemma DecidedOrdered(x: Session, outcome: KycStatus, now: Time)
    requires SessionShape(x) && x.status in {At(ManualReview), At(Verified)}
    ensures SessionOrdered(Decided(x, outcome, now)) <==> outcome == Pending || x.startedAt <= now
  {
  }

  lemma CurrentStatus(db: Db, player: string)
    requires CoherentFor(db.profiles, db.sessions, player) && player in db.profiles
    requires db.profiles[player].status !in {NotStarted, Expired}
    ensures var current := db.profiles[player].current;
            && current.Some? && current.value < |db.sessions|
            && db.sessions[current.value].status == At(db.profiles[player].status)
  {
    assert ProfileFits(db.profiles[player], db.sessions);
  }

  lemma OpenKeeps(cfg: Config, db: Db, r: Id, now: Time)
    requires Inv(cfg, db)
    ensures OpenReview(db, r, now).Ok? ==> Keeps(cfg, db, OpenReview(db, r, now).value)
  {
    hide Inv, ReviewShape, Extends, KeepsCoherence, ClosedStay, AllForward;
    if OpenReview(db, r, now).Ok? {
      var x := db.reviews[r];
      assert x.playerId in db.profiles && ReviewShape(x) by { ReviewShaped(cfg, db, r); }
      ActionFits(x, ReviewOpened, if x.assignee.None? then Opened else Assigned, x.assignee, now);
      var y := AddAction(x, ReviewOpened, now).(status := if x.assignee.None? then Opened else Assigned);
      TouchKeepsInv(cfg, db, r, y);
      TouchExtends(db, r, y);
      NoPlayer(db, db.(reviews := db.reviews[r := y]));
    }
  }

  lemma AssignKeeps(cfg: Config, db: Db, r: Id, assignee: string, now: Time)
    requires Inv(cfg, db)
    ensures AssignReview(db, r, assignee, now).Ok? ==> Keeps(cfg, db, AssignReview(db, r, assignee, now).value)
  {
    hide Inv, ReviewShape, Extends, KeepsCoherence, ClosedStay, AllForward;
    if AssignReview(db, r, assignee, now).Ok? {
      var x := db.reviews[r];
      assert x.playerId in db.profiles && ReviewShape(x) by { ReviewShaped(cfg, db, r); }
      ActionFits(x, ReviewAssigned, Assigned, Some(assignee), now);
      var y := AddAction(x, ReviewAssigned, now).(status := Assigned, assignee := Some(assignee));
      TouchKeepsInv(cfg, db, r, y);
      TouchExtends(db, r, y);
      NoPlayer(db, db.(reviews := db.reviews[r := y]));
    }
  }

  lemma ReviewShaped(cfg: Config, db: Db, r: Id)
    requires Inv(cfg, db) && r < |db.reviews| && db.reviews[r].status != Completed
    ensures db.reviews[r].playerId in db.profiles && ReviewShape(db.reviews[r])
  {
    hide Filed, CurrentOk, SessionsOk, AttemptsIncrease, CreatingIsNewest, OneEffective, ReferencesUnique, KeysUnique,
      ReviewSessionsOk, EventsOk, AllJustified, ReviewShape;
    assert ReviewFits(db.profiles, db.reviews[r]);
  }
}
