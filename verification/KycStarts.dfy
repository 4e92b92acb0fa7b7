/** What status reads, start calls and provider replies do, in every run: the session a call is given, and what is
    written about it and its player. */
module KycStarts {
  import opened Wrappers
  import opened KycDomain
  import opened KycProtocol
  import opened KycInvariants
  import opened KycHistory
  import opened KycTables
  import opened KycTransactions
  import opened KycWrites
  import opened KycRuns
  import opened KycTheorems

  // ---- status reads ----

  /** The verification of the profile is over. */
  predicate IsOver(p: Profile, now: Time) { p.status == Verified && p.expiresAt.Some? && p.expiresAt.value <= now }

  /** The tables once the player has a profile and a verification that is over has expired. */
  function Readied(db: Db, player: string, now: Time): (r: Db)
    requires player in db.profiles ==> player in db.log
    ensures player in r.profiles
  {
    if player !in db.profiles then
      db.(profiles := db.profiles[player := Profile(NotStarted, None, None, None, None, None, 1)],
          log := db.log[player := []])
    else
      var p := db.profiles[player];
      if !IsOver(p, now) then db
      else
        var n := p.version + 1;
        db.(profiles := db.profiles[player := p.(status := Expired, failure := None, version := n)],
            log := db.log[player :=
              db.log[player] + [Transition(p.current, Verified, Expired, RequestTimeExpiry, None, n)]])
  }

  lemma ReadiedIs(cfg: Config, db: Db, player: string, now: Time)
    requires Inv(cfg, db)
    ensures player in db.profiles ==> player in db.log
    ensures ExpireIfDue(GetOrCreate(db, player), player, now) == Ok(Readied(db, player, now))
  {
    hide Inv, Reviewed;
    LogKeys(cfg, db);
    CreateKeepsInv(cfg, db, player);
    ExpireIfDueKeeps(cfg, GetOrCreate(db, player), player, now);
    if player in db.profiles && IsOver(db.profiles[player], now) { NoReview(db, player, now); }
  }

  lemma NoReview(db: Db, player: string, now: Time)
    requires player in db.profiles && db.profiles[player].status == Verified
    ensures Reviewed(db.reviews, player, db.profiles[player], RequestExpiry(db.profiles[player]), now) == Ok(db.reviews)
  {
  }

  /** In every run a status read creates a missing profile, expires a verification that is over, changes nothing else,
      and answers the status then stored. */
  lemma ReadOutcome(cfg: Config, w: World, player: string, now: Time)
    requires Reachable(cfg, w)
    ensures player in w.db.profiles ==> player in w.db.log
    ensures var after := Readied(w.db, player, now);
            && ReadStatus(w.db, player, now) == (after, Ok(after.profiles[player].status))
            && Next(cfg, w, Read(player, now)) == World(after, w.tickets)
  {
    hide Inv, TicketsOk, Reachable, ExpireIfDue, GetOrCreate, Readied;
    ReachableOk(cfg, w);
    ReadiedIs(cfg, w.db, player, now);
  }

  // ---- start calls ----

  predicate IsKnown(x: Session, player: string, key: Option<string>) {
    key.Some? && x.playerId == player && x.key == key
  }

  /** The player's session is being created, pending or in review. */
  predicate Waits(x: Session, player: string) {
    x.playerId == player && x.status in {Creating, At(Pending), At(ManualReview)}
  }

  predicate IsUsable(x: Session, player: string, at: Time) {
    Waits(x, player) && (x.expiresAt.Some? ==> at < x.expiresAt.value)
  }

  /** One more than the largest attempt number of the player. */
  ghost predicate IsNextAttempt(sessions: seq<Session>, player: string, n: nat) {
    && (forall s :: 0 <= s < |sessions| && sessions[s].playerId == player ==> sessions[s].attempt < n)
    && (n == 1 || exists s :: 0 <= s < |sessions| && sessions[s].playerId == player && sessions[s].attempt == n - 1)
  }

  /** The call is refused for a verification that lasts by both readings of the clock; otherwise it is given the session
      known under its key, or the one that can be used, or a new one unless one that waits is in the way. */
  ghost predicate StartedAs(cfg: Config, db: Db, ready: Db, player: string, key: Option<string>, at: Time, db': Db,
                            r: Result<Id, Error>)
    requires player in ready.profiles
  {
    var p, n := ready.profiles[player], |db.sessions|;
    var verified := p.status == Verified && (p.expiresAt.Some? ==> at < p.expiresAt.value);
    && (forall s :: 0 <= s < n && IsKnown(db.sessions[s], player, key) ==>
          if verified && db.sessions[s].status != CreationFailed then db' == db && r == Err(AlreadyVerified)
          else db' == ready && r == Ok(s))
    && ((forall s :: 0 <= s < n ==> !IsKnown(db.sessions[s], player, key)) ==>
          if verified then db' == db && r == Err(AlreadyVerified)
          else
            && (forall s :: 0 <= s < n && IsUsable(db.sessions[s], player, at) ==> db' == ready && r == Ok(s))
            && ((forall s :: 0 <= s < n ==> !IsUsable(db.sessions[s], player, at)) ==>
                  if exists s :: 0 <= s < n && Waits(db.sessions[s], player) then
                    db' == db && r == Err(ConflictUnresolved)
                  else
                    && r == Ok(n) && |db'.sessions| == n + 1
                    && IsNextAttempt(db.sessions, player, db'.sessions[n].attempt)
                    && db' == ready.(sessions := db.sessions + [
                         Session(player, cfg.provider, None, None, key, Creating, db'.sessions[n].attempt, at, None,
                                 None, None)])))
  }

  /** In every run the first transaction of a start call does exactly that, to the tables a status read would leave. */
  lemma StartOutcome(cfg: Config, w: World, player: string, key: Option<string>, at: Time, now: Time)
    requires Reachable(cfg, w)
    ensures player in w.db.profiles ==> player in w.db.log
    ensures var (db', r) := Prepare(cfg, w.db, player, key, at, now);
            StartedAs(cfg, w.db, Readied(w.db, player, now), player, key, at, db', r)
  {
    hide TicketsOk, Reachable, Inv, ExpireIfDue, GetOrCreate, FindByKey, FindEffective, MaxAttempt, Conflicts,
      StartedAs;
    ReachableOk(cfg, w);
    var db := w.db;
    ReadiedIs(cfg, db, player, now);
    var ready := Readied(db, player, now);
    var known := if key.Some? then FindByKey(db.sessions, player, key.value) else None;
    KnownFirst(cfg, db, player, key);
    UsableFirst(cfg, db, player, at);
    ConflictsIff(cfg, db, player, key);
    StartCases(cfg, db, ready, player, key, at, now);
  }

  lemma KnownFirst(cfg: Config, db: Db, player: string, key: Option<string>)
    requires Inv(cfg, db)
    ensures var known := if key.Some? then FindByKey(db.sessions, player, key.value) else None;
            && (known.Some? ==> IsKnown(db.sessions[known.value], player, key))
            && (forall s :: 0 <= s < |db.sessions| && IsKnown(db.sessions[s], player, key) ==> known == Some(s))
  {
    hide Filed, CurrentOk, SessionsOk, AttemptsIncrease, CreatingIsNewest, OneEffective, ReferencesUnique, ReviewsOk,
      ReviewSessionsOk, EventsOk, AllJustified, AllDated, FindByKey;
    forall s | 0 <= s < |db.sessions| && IsKnown(db.sessions[s], player, key)
      ensures FindByKey(db.sessions, player, key.value) == Some(s)
    {
      assert HasKey(db.sessions[s], player, key.value);
    }
  }

  lemma UsableFirst(cfg: Config, db: Db, player: string, at: Time)
    requires Inv(cfg, db)
    ensures var found := FindEffective(db.sessions, player, at);
            && (found.Some? ==> IsUsable(db.sessions[found.value], player, at))
            && (forall s :: 0 <= s < |db.sessions| && IsUsable(db.sessions[s], player, at) ==> found == Some(s))
  {
    hide Filed, CurrentOk, SessionsOk, AttemptsIncrease, CreatingIsNewest, ReferencesUnique, KeysUnique, ReviewsOk,
      ReviewSessionsOk, EventsOk, AllJustified, AllDated, FindEffective;
    var found := FindEffective(db.sessions, player, at);
    forall s | 0 <= s < |db.sessions| && IsUsable(db.sessions[s], player, at) ensures found == Some(s) {
      assert Usable(db.sessions[s], player, at);
    }
  }

  lemma ConflictsIff(cfg: Config, db: Db, player: string, key: Option<string>)
    ensures Conflicts(db.sessions, player, key) <==>
            exists s :: 0 <= s < |db.sessions|
                        && (Waits(db.sessions[s], player) || IsKnown(db.sessions[s], player, key))
  {
    forall s | 0 <= s < |db.sessions| ensures Waits(db.sessions[s], player) <==>
                                              db.sessions[s].playerId == player && Effective(db.sessions[s].status) {}
  }

  lemma StartCases(cfg: Config, db: Db, ready: Db, player: string, key: Option<string>, at: Time, now: Time)
    requires ExpireIfDue(GetOrCreate(db, player), player, now) == Ok(ready) && player in ready.profiles
    requires ready.sessions == db.sessions
    requires var known := if key.Some? then FindByKey(db.sessions, player, key.value) else None;
             && (known.Some? ==> IsKnown(db.sessions[known.value], player, key))
             && (forall s :: 0 <= s < |db.sessions| && IsKnown(db.sessions[s], player, key) ==> known == Some(s))
    requires var found := FindEffective(db.sessions, player, at);
             && (found.Some? ==> IsUsable(db.sessions[found.value], player, at))
             && (forall s :: 0 <= s < |db.sessions| && IsUsable(db.sessions[s], player, at) ==> found == Some(s))
    requires Conflicts(db.sessions, player, key) <==>
             exists s :: 0 <= s < |db.sessions|
                         && (Waits(db.sessions[s], player) || IsKnown(db.sessions[s], player, key))
    ensures var (db', r) := Prepare(cfg, db, player, key, at, now);
            StartedAs(cfg, db, ready, player, key, at, db', r)
  {
    hide ExpireIfDue, GetOrCreate, FindByKey, FindEffective, MaxAttempt, Conflicts, IsKnown, IsUsable, Waits;
  }

  // ---- provider replies ----

  /** In every run, what the second transaction of a start call writes: nothing when it is refused or answered with a
      session that is pending already; a session that cannot be had is marked when it is still being created;
      and a session given is pending from then on, with its player's profile, until the expiry it came with. */
  lemma FinishOutcome(cfg: Config, w: World, s: Id, reply: Reply, now: Time)
    requires Reachable(cfg, w)
    ensures var (db', r) := Finish(cfg, w.db, s, reply, now);
            if s >= |w.db.sessions| || w.db.sessions[s].status != Creating then db' == w.db
            else
              var x := w.db.sessions[s];
              && x.playerId in w.db.profiles
              && var p := w.db.profiles[x.playerId];
                 if r == Err(CreationUnavailable) then
                   db' == w.db.(sessions := w.db.sessions[s := x.(status := CreationFailed, completedAt := Some(now))])
                 else if r.Err? then db' == w.db
                 else
                   && reply.Created?
                   && db'.sessions == w.db.sessions[s := x.(status := At(Pending), reference := Some(reply.reference),
                                                           url := reply.url, expiresAt := Some(reply.expiresAt))]
                   && db'.events == w.db.events
                   && Moves(w.db, db', x.playerId,
                            Profile(Pending, Some(x.provider), Some(s), p.verifiedAt, None, None, p.version + 1),
                            SessionStarted, None, now)
  {
    hide Inv, TicketsOk, Reachable, Acceptable, ReferenceTaken, Move, ReviewsFollow;
    ReachableOk(cfg, w);
    if s < |w.db.sessions| && w.db.sessions[s].status == Creating {
      SessionFacts(cfg, w.db, s);
      OneOpenReview(cfg, w.db);
      var x := w.db.sessions[s];
      if Acceptable(cfg, x.startedAt, reply) {
        AcceptableShows(cfg, x.startedAt, reply);
        var mid := PutSession(w.db, s, Activated(x, reply));
        NotUnavailable(mid, x.playerId, StartChange(s, x), now);
        if Move(mid, x.playerId, StartChange(s, x), now).Ok? { MoveWrites(mid, x.playerId, StartChange(s, x), now); }
      }
    }
  }

  lemma NotUnavailable(db: Db, player: string, c: Change, now: Time)
    ensures Move(db, player, c, now) != Err(CreationUnavailable)
  {
  }
}
