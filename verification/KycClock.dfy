/** Clock readings: when the times that a player's rows record do not lie ahead of the clock, only one row order is
    left to refuse a write, and in runs that are timely for the player not even that one. */
module KycClock {
  import opened Wrappers
  import opened Batches
  import opened KycDomain
  import opened KycProtocol
  import opened KycInvariants
  import opened KycHistory
  import opened KycTables
  import opened KycTransactions
  import opened KycRuns

  ghost predicate VerifiedBy(db: Db, player: string, t: Time) {
    player in db.profiles && db.profiles[player].verifiedAt.Some? ==> db.profiles[player].verifiedAt.value <= t
  }

  /** What the player's rows record of starts, requests and verifications is not later than t. */
  ghost predicate NotAfter(db: Db, player: string, t: Time) {
    && VerifiedBy(db, player, t)
    && (forall s :: 0 <= s < |db.sessions| && db.sessions[s].playerId == player ==> db.sessions[s].startedAt <= t)
    && (forall r :: 0 <= r < |db.reviews| && db.reviews[r].playerId == player ==> db.reviews[r].requestedAt <= t)
  }

  // ---- how a step dates what it writes ----

  /** No start, request or verification is written. */
  ghost predicate SameDates(a: Db, b: Db) {
    && a.profiles.Keys <= b.profiles.Keys
    && (forall p :: p in b.profiles ==>
          b.profiles[p].verifiedAt == if p in a.profiles then a.profiles[p].verifiedAt else None)
    && |b.sessions| == |a.sessions| && |b.reviews| == |a.reviews|
  }

  /** Verifications and requests date from now, starts from at. */
  ghost predicate Dates(a: Db, b: Db, at: Time, now: Time) {
    && a.profiles.Keys <= b.profiles.Keys
    && (forall p :: p in b.profiles ==>
          || b.profiles[p].verifiedAt == (if p in a.profiles then a.profiles[p].verifiedAt else None)
          || (b.profiles[p].status == Verified && b.profiles[p].verifiedAt == Some(now)))
    && (forall s :: |a.sessions| <= s < |b.sessions| ==> b.sessions[s].startedAt == at)
    && (forall r :: |a.reviews| <= r < |b.reviews| ==> b.reviews[r].requestedAt == now)
  }

  lemma SameDatesTransitive(a: Db, b: Db, c: Db)
    requires SameDates(a, b) && SameDates(b, c)
    ensures SameDates(a, c)
  {
  }

  lemma SameDatesShow(a: Db, b: Db, at: Time, now: Time)
    requires SameDates(a, b)
    ensures Dates(a, b, at, now)
  {
  }

  lemma MoveDates(db: Db, player: string, c: Change, now: Time)
    requires Move(db, player, c, now).Ok?
    requires var p := db.profiles[player];
             || Patched(p.verifiedAt, c.verifiedAt) == p.verifiedAt
             || (c.to == Verified && Patched(p.verifiedAt, c.verifiedAt) == Some(now))
    ensures Dates(db, Move(db, player, c, now).value, now, now)
    ensures var p := db.profiles[player];
            Patched(p.verifiedAt, c.verifiedAt) == p.verifiedAt && c.to != ManualReview ==>
              SameDates(db, Move(db, player, c, now).value)
  {
    hide ActiveReview;
  }

  lemma ReadDates(db: Db, player: string, now: Time)
    ensures ExpireIfDue(GetOrCreate(db, player), player, now).Ok? ==>
              SameDates(db, ExpireIfDue(GetOrCreate(db, player), player, now).value)
    ensures SameDates(db, ReadStatus(db, player, now).0)
  {
    hide Move;
    var db0 := GetOrCreate(db, player);
    assert SameDates(db, db0) && SameDates(db, db);
    if VerificationDue(db0.profiles[player], now) && Move(db0, player, RequestExpiry(db0.profiles[player]), now).Ok? {
      MoveDates(db0, player, RequestExpiry(db0.profiles[player]), now);
      SameDatesTransitive(db, db0, Move(db0, player, RequestExpiry(db0.profiles[player]), now).value);
    }
  }

  lemma PrepareDates(cfg: Config, db: Db, player: string, key: Option<string>, at: Time, now: Time)
    ensures Dates(db, Prepare(cfg, db, player, key, at, now).0, at, now)
  {
    hide ExpireIfDue, GetOrCreate, Conflicts, FindByKey, FindEffective, MaxAttempt;
    ReadDates(db, player, now);
  }

  lemma FinishDates(cfg: Config, db: Db, s: Id, reply: Reply, now: Time)
    ensures SameDates(db, Finish(cfg, db, s, reply, now).0)
  {
    hide Move, ReferenceTaken, Acceptable;
    if s < |db.sessions| && Acceptable(cfg, db.sessions[s].startedAt, reply) {
      assert reply.Created? by { Replied(cfg, db.sessions[s].startedAt, reply); }
      var mid := PutSession(db, s, Activated(db.sessions[s], reply));
      var c := StartChange(s, db.sessions[s]);
      if Move(mid, db.sessions[s].playerId, c, now).Ok? { MoveDates(mid, db.sessions[s].playerId, c, now); }
    }
  }

  lemma Replied(cfg: Config, startedAt: Time, reply: Reply)
    requires Acceptable(cfg, startedAt, reply)
    ensures reply.Created?
  {
  }

  lemma ExpireSessionDates(db: Db, s: Id, now: Time, provider: Option<string>)
    requires s < |db.sessions| && ExpireSession(db, s, now, provider).Ok?
    ensures SameDates(db, ExpireSession(db, s, now, provider).value)
  {
    hide Move;
    var x := db.sessions[s];
    var mid := if SessionDue(x, now) then PutSession(db, s, Elapsed(x, now)) else db;
    if WaitsOn(db, s) {
      MoveDates(mid, x.playerId, ElapsedChange(db.profiles[x.playerId], s, x, provider, now), now);
    }
  }

  lemma CallbackDates(cfg: Config, db: Db, e: ProviderEvent, now: Time)
    ensures Dates(db, Callback(cfg, db, e, now).0, now, now)
  {
    hide HandleEvent, FindEvent, FindByReference;
    var found := FindByReference(db.sessions, e.provider, e.reference);
    if found.Some? && db.sessions[found.value].playerId in db.profiles { HandleDates(cfg, db, found.value, e, now); }
  }

  lemma HandleDates(cfg: Config, db: Db, s: Id, e: ProviderEvent, now: Time)
    requires s < |db.sessions| && db.sessions[s].playerId in db.profiles
    ensures Dates(db, HandleEvent(cfg, db, s, e, now).0, now, now)
  {
    hide ExpireSession, ApplyEvent, IsStale, SessionDue;
    var x := db.sessions[s];
    if ExpireSession(db, s, now, Some(x.provider)).Ok? { ExpireSessionDates(db, s, now, Some(x.provider)); }
    if ApplyEvent(cfg, db, s, e, now).Ok? { ApplyDates(cfg, db, s, e, now); }
  }

  lemma ApplyDates(cfg: Config, db: Db, s: Id, e: ProviderEvent, now: Time)
    requires s < |db.sessions| && db.sessions[s].playerId in db.profiles && ApplyEvent(cfg, db, s, e, now).Ok?
    ensures Dates(db, ApplyEvent(cfg, db, s, e, now).value, now, now)
  {
    hide Move, OtherEffective;
    var x := db.sessions[s];
    if e.result != Pending {
      var mid := Insert(UpdateFromEvent(db, s, e.result, e.occurredAt, CompletedAt(e, now)).value,
                        Row(e, Processed, Applied(e.result), now));
      MoveDates(mid, x.playerId, EventChange(cfg, db.profiles[x.playerId], s, x, e, |db.events|, now), now);
    }
  }

  lemma DecideDates(cfg: Config, db: Db, t: Ticket, outcome: KycStatus, now: Time)
    ensures Dates(db, Decide(cfg, db, t, outcome, now).0, now, now)
  {
    hide Move, OtherEffective;
    if Decide(cfg, db, t, outcome, now).1.Ok? {
      var mid := UpdateFromEvent(db, t.session, outcome, now, if outcome == Pending then None else Some(now)).value;
      MoveDates(mid, t.playerId, DecisionChange(cfg, t, db.sessions[t.session], outcome, now), now);
    }
  }

  lemma {:induction false} SweepSessionsDates(db: Db, ids: seq<Id>, now: Time)
    requires SweepSessions(db, ids, now).Ok?
    ensures SameDates(db, SweepSessions(db, ids, now).value)
    decreases |ids|
  {
    hide ExpireSession;
    if ids != [] {
      var db1 := SweepSession(db, ids[0], now).value;
      if ids[0] < |db.sessions| && SessionDue(db.sessions[ids[0]], now) {
        var player := db.sessions[ids[0]].playerId;
        ExpireSessionDates(db, ids[0], now, if player in db.profiles then db.profiles[player].provider else None);
      }
      SweepSessionsDates(db1, ids[1..], now);
      SameDatesTransitive(db, db1, SweepSessions(db, ids, now).value);
    }
  }

  lemma {:induction false} SweepProfilesDates(db: Db, players: seq<string>, now: Time)
    requires SweepProfiles(db, players, now).Ok?
    ensures SameDates(db, SweepProfiles(db, players, now).value)
    decreases |players|
  {
    hide Move;
    if players != [] {
      var db1 := SweepProfile(db, players[0], now).value;
      MoveDates(db, players[0], VerificationChange(db.profiles[players[0]]), now);
      SweepProfilesDates(db1, players[1..], now);
      SameDatesTransitive(db, db1, SweepProfiles(db, players, now).value);
    }
  }

  function StartOf(s: Step): Time
    requires !s.Look?
  {
    if s.Begin? then s.at else s.now
  }

  lemma StepDates(cfg: Config, w: World, s: Step)
    requires !s.Look?
    ensures Dates(w.db, Next(cfg, w, s).db, StartOf(s), s.now)
  {
    hide SameDates, ReadStatus, Prepare, Finish, Callback, Decide, SweepSessions, SweepProfiles, Dates;
    var db := w.db;
    NothingDates(db, StartOf(s), s.now);
    if Possible(w, s) {
      match s
      case Read(player, now) => ReadDates(db, player, now); SameDatesShow(db, ReadStatus(db, player, now).0, now, now);
      case Begin(player, key, at, now) => PrepareDates(cfg, db, player, key, at, now);
      case Answered(x, reply, now) =>
        FinishDates(cfg, db, x, reply, now);
        SameDatesShow(db, Finish(cfg, db, x, reply, now).0, now, now);
      case Deliver(e, now) => CallbackDates(cfg, db, e, now);
      case Conclude(t, outcome, now) => DecideDates(cfg, db, t, outcome, now);
      case Open(r, now) => ReviewDates(db, OpenReview(db, r, now), now);
      case Assign(r, assignee, now) => ReviewDates(db, AssignReview(db, r, assignee, now), now);
      case ElapseSessions(ids, _, now) =>
        if SweepSessions(db, ids, now).Ok? {
          SweepSessionsDates(db, ids, now);
          SameDatesShow(db, SweepSessions(db, ids, now).value, now, now);
        }
      case ElapseProfiles(players, _, now) =>
        if SweepProfiles(db, players, now).Ok? {
          SweepProfilesDates(db, players, now);
          SameDatesShow(db, SweepProfiles(db, players, now).value, now, now);
        }
    }
  }

  lemma NothingDates(db: Db, at: Time, now: Time)
    ensures Dates(db, db, at, now)
  {
  }

  lemma ReviewDates(db: Db, r: Result<Db, Error>, now: Time)
    requires r.Ok? ==> r.value.profiles == db.profiles && r.value.sessions == db.sessions
    requires r.Ok? ==> |r.value.reviews| == |db.reviews|
    ensures Dates(db, Committed(db, r), now, now)
  {
  }

  // ---- clocks that do not run behind the rows ----

  /** The step reads its clock after everything the player's rows record; a start call of the player reads it a first
      time after the player's last verification, and a second time no earlier. */
  ghost predicate InOrder(w: World, s: Step, player: string) {
    !s.Look? ==>
      && NotAfter(w.db, player, s.now)
      && (s.Begin? && s.player == player ==> VerifiedBy(w.db, player, s.at) && s.at <= s.now)
  }

  ghost predicate AllInOrder(cfg: Config, w: World, steps: seq<Step>, player: string) {
    steps != [] ==>
      var n := |steps| - 1;
      AllInOrder(cfg, w, steps[..n], player) && InOrder(Run(cfg, w, steps[..n]), steps[n], player)
  }

  /** No reading of the run, the first of a start call included, is earlier than a reading of an earlier step. */
  ghost predicate NonDecreasing(steps: seq<Step>) {
    && (forall j, k :: 0 <= j < k < |steps| && !steps[j].Look? && !steps[k].Look? ==> steps[j].now <= StartOf(steps[k]))
    && (forall k :: 0 <= k < |steps| && steps[k].Begin? ==> steps[k].at <= steps[k].now)
  }

  lemma StaysNotAfter(cfg: Config, w: World, s: Step, player: string, t: Time)
    requires WorldOk(cfg, w) && NotAfter(w.db, player, t)
    requires !s.Look? ==> t <= s.now && StartOf(s) <= s.now
    ensures NotAfter(Next(cfg, w, s).db, player, if s.Look? then t else s.now)
  {
    hide Inv, Next, Extends, TicketOk, IsCoherent, Timely;
    NextKeeps(cfg, w, s, player);
    ExtendsRows(w.db, Next(cfg, w, s).db);
    if s.Look? { assert Next(cfg, w, s).db == w.db by { LookWrites(cfg, w, s); } } else { StepDates(cfg, w, s); }
  }

  lemma LookWrites(cfg: Config, w: World, s: Step)
    requires s.Look?
    ensures Next(cfg, w, s).db == w.db
  {
  }

  lemma ExtendsRows(a: Db, b: Db)
    requires Extends(a, b)
    ensures |a.sessions| <= |b.sessions| && |a.reviews| <= |b.reviews|
    ensures forall s :: 0 <= s < |a.sessions| ==> SessionEvolves(a.sessions[s], b.sessions[s])
    ensures forall r :: 0 <= r < |a.reviews| ==> ReviewEvolves(a.reviews[r], b.reviews[r])
  {
  }

  /** The latest reading of the run, or any time when there is none. */
  ghost predicate Bounds(steps: seq<Step>, t: Time) {
    forall k :: 0 <= k < |steps| && !steps[k].Look? ==> steps[k].now <= t
  }

  /** Readings that never decrease leave every row behind them. */
  lemma {:induction false} OrderedIsBehind(cfg: Config, steps: seq<Step>, player: string, t: Time)
    requires NonDecreasing(steps) && Bounds(steps, t)
    ensures NotAfter(Run(cfg, START, steps).db, player, t)
  {
    hide Next, WorldOk, NotAfter, IsCoherent, Timely;
    if steps == [] {
      EmptyIsBehind(player, t);
    } else {
      var n := |steps| - 1;
      var before := Run(cfg, START, steps[..n]);
      ReachableIsOk(cfg, steps[..n], player);
      if steps[n].Look? {
        OrderedIsBehind(cfg, steps[..n], player, t);
        StaysNotAfter(cfg, before, steps[n], player, t);
      } else {
        OrderedIsBehind(cfg, steps[..n], player, StartOf(steps[n]));
        StaysNotAfter(cfg, before, steps[n], player, StartOf(steps[n]));
        NotAfterGrows(Run(cfg, START, steps).db, player, steps[n].now, t);
      }
    }
  }

  lemma EmptyIsBehind(player: string, t: Time)
    ensures NotAfter(START.db, player, t)
  {
  }

  lemma NotAfterGrows(db: Db, player: string, t: Time, u: Time)
    requires NotAfter(db, player, t) && t <= u
    ensures NotAfter(db, player, u)
  {
  }

  /** So a run whose readings never decrease is in order for every player. */
  lemma {:induction false} NonDecreasingIsInOrder(cfg: Config, steps: seq<Step>, player: string)
    requires NonDecreasing(steps)
    ensures AllInOrder(cfg, START, steps, player)
  {
    hide Run, NotAfter;
    if steps != [] {
      var n := |steps| - 1;
      NonDecreasingIsInOrder(cfg, steps[..n], player);
      if !steps[n].Look? {
        OrderedIsBehind(cfg, steps[..n], player, StartOf(steps[n]));
        NotAfterGrows(Run(cfg, START, steps[..n]).db, player, StartOf(steps[n]), steps[n].now);
        NotAfterShows(Run(cfg, START, steps[..n]).db, player, StartOf(steps[n]));
      }
    }
  }

  lemma NotAfterShows(db: Db, player: string, t: Time)
    requires NotAfter(db, player, t)
    ensures VerifiedBy(db, player, t)
  {
  }

  // ---- what can still raise ----

  lemma NotAhead(db: Db, player: string, t: Time)
    requires NotAfter(db, player, t)
    ensures !ReviewAhead(db.reviews, player, t)
  {
  }

  /** With the rows of a session's player behind the clock, expiring the session raises exactly when the waiting
      profile was verified after the session's expiry. */
  lemma BlockedIff(db: Db, s: Id, now: Time)
    requires s < |db.sessions| && NotAfter(db, db.sessions[s].playerId, now)
    ensures Blocked(db, s, now) <==> VerifiedLater(db, s)
  {
    hide NotAfter, ReviewAhead;
    NotAhead(db, db.sessions[s].playerId, now);
  }

  /** In every world, late decisions and all: an event whose player's rows are behind the clock makes the callback
      raise if and only if it is accepted for a session that has expired or is due, that is the current one of a
      waiting profile, and that expires before that profile's last verification. */
  lemma CallbackRaisesIffVerifiedLater(cfg: Config, w: World, e: ProviderEvent, now: Time, s: Id)
    requires WorldOk(cfg, w) && FindByReference(w.db.sessions, e.provider, e.reference) == Some(s)
    requires NotAfter(w.db, w.db.sessions[s].playerId, now)
    ensures Callback(cfg, w.db, e, now).1.Raised? <==>
              && IsAccepted(cfg, w.db, e, now) && VerifiedLater(w.db, s)
              && (w.db.sessions[s].status == At(Expired) || SessionDue(w.db.sessions[s], now))
  {
    hide Inv, TicketsOk, Keeps, NotAfter, Blocked, FindByReference, FindEvent, VerifiedLater, IsStale;
    var db := w.db;
    CallbackKeeps(cfg, db, e, now);
    SessionFacts(cfg, db, s);
    BlockedIff(db, s, now);
    assert !ClockBehind(db, s, e, now) by { NotBehind(db, s, e, now); }
  }

  lemma NotBehind(db: Db, s: Id, e: ProviderEvent, now: Time)
    requires s < |db.sessions| && db.sessions[s].playerId in db.profiles
    requires NotAfter(db, db.sessions[s].playerId, now)
    ensures !ClockBehind(db, s, e, now)
  {
    NotAhead(db, db.sessions[s].playerId, now);
  }

  // ---- timely runs in order ----

  /** The player's effective session started after the last verification. */
  ghost predicate VerifiedBefore(db: Db, player: string) {
    forall s :: 0 <= s < |db.sessions| && db.sessions[s].playerId == player && Effective(db.sessions[s].status) ==>
      VerifiedBy(db, player, db.sessions[s].startedAt)
  }

  lemma NextVerifiedBefore(cfg: Config, w: World, s: Step, player: string)
    requires WorldOk(cfg, w) && IsCoherent(w, player) && VerifiedBefore(w.db, player)
    requires Timely(cfg, w, s, player) && InOrder(w, s, player)
    ensures VerifiedBefore(Next(cfg, w, s).db, player)
  {
    hide Inv, Next, Extends, TicketOk, CoherentFor, Dates, NotAfter, ClosedStay;
    var db, db' := w.db, Next(cfg, w, s).db;
    NextKeeps(cfg, w, s, player);
    ExtendsRows(db, db');
    if s.Look? {
      LookWrites(cfg, w, s);
    } else {
      StepDates(cfg, w, s);
      if player in db'.profiles && db'.profiles[player].status == Verified { VerifiedIsAlone(db', player); }
      else { OldDate(db, db', StartOf(s), s.now, player); }
      NewStarts(db, db', StartOf(s), s.now);
      forall x | 0 <= x < |db'.sessions| && db'.sessions[x].playerId == player && Effective(db'.sessions[x].status)
        ensures VerifiedBy(db', player, db'.sessions[x].startedAt)
      {
        if x < |db.sessions| {
          WasEffective(cfg, w, s, x, player);
        } else if s.Begin? {
          NewSessions(cfg, w, s);
        } else {
          NotAfterShows(db, player, s.now);
        }
      }
    }
  }

  /** A verified player with coherent rows has no effective session. */
  lemma VerifiedIsAlone(db: Db, player: string)
    requires CoherentFor(db.profiles, db.sessions, player) && player in db.profiles
    requires db.profiles[player].status == Verified
    ensures forall x :: 0 <= x < |db.sessions| && db.sessions[x].playerId == player ==>
              !Effective(db.sessions[x].status)
  {
    forall x | 0 <= x < |db.sessions| && db.sessions[x].playerId == player ensures !Effective(db.sessions[x].status) {
      assert SessionFits(db.profiles, x, db.sessions[x]);
    }
  }

  lemma NewStarts(a: Db, b: Db, at: Time, now: Time)
    requires Dates(a, b, at, now)
    ensures forall s :: |a.sessions| <= s < |b.sessions| ==> b.sessions[s].startedAt == at
  {
  }

  lemma OldDate(a: Db, b: Db, at: Time, now: Time, player: string)
    requires Dates(a, b, at, now) && (player in b.profiles ==> b.profiles[player].status != Verified)
    ensures forall t :: VerifiedBy(a, player, t) ==> VerifiedBy(b, player, t)
  {
  }

  /** No session becomes effective again in a step that is timely for its player. */
  lemma WasEffective(cfg: Config, w: World, s: Step, x: Id, player: string)
    requires WorldOk(cfg, w) && IsCoherent(w, player) && Timely(cfg, w, s, player)
    requires x < |w.db.sessions| && w.db.sessions[x].playerId == player && x < |Next(cfg, w, s).db.sessions|
    requires Effective(Next(cfg, w, s).db.sessions[x].status)
    ensures Effective(w.db.sessions[x].status)
  {
    hide Inv, Next, TicketOk, CoherentFor, Decide, SessionShape;
    SessionFacts(cfg, w.db, x);
    assert Effective(w.db.sessions[x].status) || Closed(w.db.sessions[x].status) by { OpenOrClosed(w.db.sessions[x]); }
    if Closed(w.db.sessions[x].status) {
      ClosedUnlessNamed(cfg, w, s, x);
      assert TicketOk(w.db, s.ticket);
      TicketFacts(cfg, w.db, s.ticket);
      TimelyDecisionKeeps(cfg, w.db, s.ticket, s.outcome, s.now);
    }
  }

  lemma OpenOrClosed(x: Session)
    requires SessionShape(x)
    ensures Effective(x.status) || Closed(x.status)
  {
  }

  lemma NewSessions(cfg: Config, w: World, s: Step)
    requires s.Begin?
    ensures var db' := Next(cfg, w, s).db;
            forall x :: |w.db.sessions| <= x < |db'.sessions| ==> db'.sessions[x].playerId == s.player
  {
    hide Move, Conflicts, FindByKey, FindEffective, MaxAttempt;
  }

  /** The run is timely and in order for the player. */
  ghost predicate OrderlyReachable(cfg: Config, w: World, player: string) {
    exists steps :: w == Run(cfg, START, steps) && AllTimely(cfg, START, steps, player)
                    && AllInOrder(cfg, START, steps, player)
  }

  lemma {:induction false} OrderlyOk(cfg: Config, steps: seq<Step>, player: string)
    requires AllTimely(cfg, START, steps, player) && AllInOrder(cfg, START, steps, player)
    ensures VerifiedBefore(Run(cfg, START, steps).db, player)
  {
    hide Next, WorldOk, IsCoherent, Timely, InOrder, VerifiedBefore;
    if steps == [] {
      assert VerifiedBefore(START.db, player) by { NothingEffective(player); }
    } else {
      var n := |steps| - 1;
      OrderlyOk(cfg, steps[..n], player);
      ReachableIsOk(cfg, steps[..n], player);
      NextVerifiedBefore(cfg, Run(cfg, START, steps[..n]), steps[n], player);
    }
  }

  lemma NothingEffective(player: string)
    ensures VerifiedBefore(START.db, player)
  {
  }

  /** Nothing raises in order: in a run that is timely and in order for a player, no event and no session sweep meets
      a row of that player that refuses it, as long as the next reading is not behind those rows either. */
  lemma NothingRaisesInOrder(cfg: Config, w: World, e: ProviderEvent, s: Id, now: Time)
    requires s < |w.db.sessions| && OrderlyReachable(cfg, w, w.db.sessions[s].playerId)
    requires NotAfter(w.db, w.db.sessions[s].playerId, now)
    ensures FindByReference(w.db.sessions, e.provider, e.reference) == Some(s) ==>
              !Callback(cfg, w.db, e, now).1.Raised?
    ensures !BlockedDue(w.db, s, now)
  {
    hide WorldOk, IsCoherent, Run, AllTimely, AllInOrder, NotAfter, VerifiedBefore, Callback, FindByReference, Blocked;
    var player := w.db.sessions[s].playerId;
    var steps :| w == Run(cfg, START, steps) && AllTimely(cfg, START, steps, player)
                 && AllInOrder(cfg, START, steps, player);
    ReachableIsOk(cfg, steps, player);
    OrderlyOk(cfg, steps, player);
    NotVerifiedLater(cfg, w, s);
    BlockedIff(w.db, s, now);
    if FindByReference(w.db.sessions, e.provider, e.reference) == Some(s) {
      CallbackRaisesIffVerifiedLater(cfg, w, e, now, s);
    }
  }

  lemma NotVerifiedLater(cfg: Config, w: World, s: Id)
    requires WorldOk(cfg, w) && s < |w.db.sessions|
    requires IsCoherent(w, w.db.sessions[s].playerId) && VerifiedBefore(w.db, w.db.sessions[s].playerId)
    ensures !VerifiedLater(w.db, s)
  {
    hide Inv, TicketsOk, CoherentFor;
    SessionFacts(cfg, w.db, s);
    if WaitsOn(w.db, s) { CurrentStatus(w.db, w.db.sessions[s].playerId); }
  }
}
