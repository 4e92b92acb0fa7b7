/** Runs of KYC: any interleaving of status reads, start calls, provider replies and callbacks,
    review actions and expiry sweeps. A review decision is two steps, because it reads its review
    before it locks the session. */
module KycRuns {
  import opened Wrappers
  import opened KycDomain
  import opened KycProtocol
  import opened KycInvariants
  import opened KycHistory
  import opened KycTables
  import opened KycTransactions

  /** The tables, and what decisions in flight have read. */
  datatype World = World(db: Db, tickets: set<Ticket>)

  datatype Step =
    | Read(player: string, now: Time)
    | Begin(player: string, key: Option<string>, at: Time, now: Time)
    | Answered(session: Id, reply: Reply, now: Time)
    | Deliver(event: ProviderEvent, now: Time)
    | Look(review: Id)
    | Conclude(ticket: Ticket, outcome: KycStatus, now: Time)
    | Open(review: Id, now: Time)
    | Assign(review: Id, assignee: string, now: Time)
    | ElapseSessions(ids: seq<Id>, limit: nat, now: Time)
    | ElapseProfiles(players: seq<string>, limit: nat, now: Time)

  /** What the steps of the program look like: a decision uses what it read, and a sweep works on what its
      query returned. */
  predicate Possible(w: World, s: Step) {
    match s
    case Conclude(t, outcome, _) => t in w.tickets && outcome in {Verified, Failed, Pending}
    case ElapseSessions(ids, limit, now) => DueSessions(w.db, now, limit, ids)
    case ElapseProfiles(players, limit, now) => DueProfiles(w.db, now, limit, players)
    case _ => true
  }

  function Committed(db: Db, r: Result<Db, Error>): Db { if r.Ok? then r.value else db }

  function Effect(cfg: Config, db: Db, s: Step): Db {
    match s
    case Read(player, now) => ReadStatus(db, player, now).0
    case Begin(player, key, at, now) => Prepare(cfg, db, player, key, at, now).0
    case Answered(session, reply, now) => Finish(cfg, db, session, reply, now).0
    case Deliver(e, now) => Callback(cfg, db, e, now).0
    case Look(_) => db
    case Conclude(t, outcome, now) => Decide(cfg, db, t, outcome, now).0
    case Open(r, now) => Committed(db, OpenReview(db, r, now))
    case Assign(r, assignee, now) => Committed(db, AssignReview(db, r, assignee, now))
    case ElapseSessions(ids, _, now) => Committed(db, SweepSessions(db, ids, now))
    case ElapseProfiles(players, _, now) => Committed(db, SweepProfiles(db, players, now))
  }

  function Next(cfg: Config, w: World, s: Step): World {
    if !Possible(w, s) then w
    else
      World(Effect(cfg, w.db, s),
            if s.Look? && ReadReview(w.db, s.review).Ok? then w.tickets + {ReadReview(w.db, s.review).value}
            else w.tickets)
  }

  function Run(cfg: Config, w: World, steps: seq<Step>): World {
    if steps == [] then w else Next(cfg, Run(cfg, w, steps[..|steps| - 1]), steps[|steps| - 1])
  }

  const START := World(Db(map[], map[], [], [], []), {})

  /** The step is a review decision, and it commits. */
  predicate Commits(cfg: Config, w: World, s: Step) {
    s.Conclude? && Possible(w, s) && Decide(cfg, w.db, s.ticket, s.outcome, s.now).1.Ok?
  }

  /** As far as this player goes: a decision that commits finds its review still open, and the clock does not go
      back over the end of the verification while a start call prepares. */
  ghost predicate Timely(cfg: Config, w: World, s: Step, player: string) {
    && (Commits(cfg, w, s) && s.ticket.playerId == player ==> ReviewOpen(w.db, s.ticket))
    && (s.Begin? && s.player == player ==> !RacesExpiry(w.db, player, s.key, s.at, s.now))
  }

  ghost predicate AllTimely(cfg: Config, w: World, steps: seq<Step>, player: string) {
    steps != [] ==>
      var n := |steps| - 1;
      AllTimely(cfg, w, steps[..n], player) && Timely(cfg, Run(cfg, w, steps[..n]), steps[n], player)
  }

  /** The step is a committing decision that names the session. */
  predicate Names(cfg: Config, w: World, s: Step, session: Id) { Commits(cfg, w, s) && s.ticket.session == session }

  // ---- one step ----

  ghost predicate TicketsOk(w: World) { forall t :: t in w.tickets ==> TicketOk(w.db, t) }

  ghost predicate WorldOk(cfg: Config, w: World) { Inv(cfg, w.db) && TicketsOk(w) }

  ghost predicate IsCoherent(w: World, player: string) { CoherentFor(w.db.profiles, w.db.sessions, player) }

  lemma TicketsFollow(w: World, w': World)
    requires TicketsOk(w) && Extends(w.db, w'.db)
    requires forall t :: t in w'.tickets && t !in w.tickets ==> TicketOk(w'.db, t)
    ensures TicketsOk(w')
  {
    forall t | t in w'.tickets ensures TicketOk(w'.db, t) {
      if t in w.tickets { assert TicketOk(w.db, t); }
    }
  }

  /** The players whose coherence a step may cost, other than by a decision. */
  function Exceptions(db: Db, s: Step): set<string> {
    if s.Begin? then Unsettled(db, s.player, s.key, s.at, s.now) else {}
  }

  /** Every step but a decision keeps the invariant, every closed session, and coherence. */
  lemma EffectKeeps(cfg: Config, w: World, s: Step)
    requires WorldOk(cfg, w) && Possible(w, s) && !s.Conclude?
    ensures KeepsBut(cfg, w.db, Effect(cfg, w.db, s), Exceptions(w.db, s))
  {
    hide Inv, KeepsBut, TicketsOk, ReadStatus, Prepare, Finish, Callback, OpenReview, AssignReview, SweepSessions,
      SweepProfiles;
    KeepsReflexive(cfg, w.db);
    match s
    case Read(player, now) => ReadStatusKeeps(cfg, w.db, player, now);
    case Begin(player, key, at, now) => PrepareKeeps(cfg, w.db, player, key, at, now);
    case Answered(session, reply, now) => FinishKeeps(cfg, w.db, session, reply, now);
    case Deliver(e, now) => CallbackKeeps(cfg, w.db, e, now);
    case Look(_) =>
    case Open(r, now) => OpenKeeps(cfg, w.db, r, now);
    case Assign(r, assignee, now) => AssignKeeps(cfg, w.db, r, assignee, now);
    case ElapseSessions(ids, _, now) => SweepSessionsKeeps(cfg, w.db, ids, now);
    case ElapseProfiles(players, _, now) => SweepProfilesKeeps(cfg, w.db, players, now);
  }

  lemma KeepsShows(cfg: Config, db: Db, db': Db, except: set<string>, player: string)
    requires KeepsBut(cfg, db, db', except)
    ensures Inv(cfg, db') && Extends(db, db') && ClosedStay(db.sessions, db'.sessions)
    ensures player in db.profiles ==> Forward(db.profiles, db'.profiles, player)
    ensures player !in except && CoherentFor(db.profiles, db.sessions, player) ==>
              CoherentFor(db'.profiles, db'.sessions, player)
  {
    hide Inv, CoherentFor, Extends, Forward;
  }

  lemma NextKeeps(cfg: Config, w: World, s: Step, player: string)
    requires WorldOk(cfg, w)
    ensures WorldOk(cfg, Next(cfg, w, s)) && Extends(w.db, Next(cfg, w, s).db)
    ensures IsCoherent(w, player) && Timely(cfg, w, s, player) ==> IsCoherent(Next(cfg, w, s), player)
  {
    hide Inv, Extends, CoherentFor, Forward, Effect, Possible, TicketOk, ClosedStay;
    ExtendsReflexive(w.db);
    if Possible(w, s) {
      if s.Conclude? {
        ConcludeKeeps(cfg, w, s, player);
      } else {
        EffectKeeps(cfg, w, s);
        KeepsShows(cfg, w.db, Effect(cfg, w.db, s), Exceptions(w.db, s), player);
      }
      assert s.Look? && ReadReview(w.db, s.review).Ok? ==>
               TicketOk(Next(cfg, w, s).db, ReadReview(w.db, s.review).value) by {
        LookIsOk(cfg, w, s);
      }
      TicketsFollow(w, Next(cfg, w, s));
    }
  }

  lemma LookIsOk(cfg: Config, w: World, s: Step)
    ensures s.Look? && ReadReview(w.db, s.review).Ok? ==> TicketOk(Next(cfg, w, s).db, ReadReview(w.db, s.review).value)
  {
  }

  lemma ConcludeKeeps(cfg: Config, w: World, s: Step, player: string)
    requires WorldOk(cfg, w) && Possible(w, s) && s.Conclude?
    ensures Inv(cfg, Effect(cfg, w.db, s)) && Extends(w.db, Effect(cfg, w.db, s))
    ensures IsCoherent(w, player) && Timely(cfg, w, s, player) ==>
              CoherentFor(Effect(cfg, w.db, s).profiles, Effect(cfg, w.db, s).sessions, player)
  {
    hide Inv, Extends, CoherentFor, Forward, Decide, TicketOk, ClosedStay;
    var t, db' := s.ticket, Effect(cfg, w.db, s);
    DecideKeepsInv(cfg, w.db, t, s.outcome, s.now);
    DecideTouches(cfg, w.db, t, s.outcome, s.now);
    if IsCoherent(w, player) && Timely(cfg, w, s, player) && t.playerId == player && Commits(cfg, w, s) {
      TimelyDecisionKeeps(cfg, w.db, t, s.outcome, s.now);
      KeepsShows(cfg, w.db, db', {}, player);
    }
  }

  /** In every world, a step changes a closed session only when it is a committing decision that names it. */
  lemma ClosedUnlessNamed(cfg: Config, w: World, s: Step, session: Id)
    requires WorldOk(cfg, w) && session < |w.db.sessions| && Closed(w.db.sessions[session].status)
    ensures session < |Next(cfg, w, s).db.sessions|
    ensures !Names(cfg, w, s, session) ==> Next(cfg, w, s).db.sessions[session] == w.db.sessions[session]
  {
    hide Inv, Extends, Effect, Possible, TicketOk, KeepsCoherence, Decide;
    if Possible(w, s) {
      if s.Conclude? {
        assert s.ticket in w.tickets && s.outcome in {Verified, Failed, Pending} by { ConcludesTicket(w, s); }
        DecideTouches(cfg, w.db, s.ticket, s.outcome, s.now);
        assert Effect(cfg, w.db, s) == Decide(cfg, w.db, s.ticket, s.outcome, s.now).0 by {
          ConcludeEffect(cfg, w.db, s);
        }
      } else {
        EffectKeeps(cfg, w, s);
        assert Absorbing(w.db.sessions[session], Effect(cfg, w.db, s).sessions[session]);
      }
    }
  }

  lemma ConcludesTicket(w: World, s: Step)
    requires s.Conclude? && Possible(w, s)
    ensures s.ticket in w.tickets && s.outcome in {Verified, Failed, Pending}
  {
  }

  lemma ConcludeEffect(cfg: Config, db: Db, s: Step)
    requires s.Conclude?
    ensures Effect(cfg, db, s) == Decide(cfg, db, s.ticket, s.outcome, s.now).0
  {
  }

  // ---- the current session ----

  /** The step is a committing decision that names a session older than the player's current one. */
  predicate SetsBack(cfg: Config, w: World, s: Step, player: string) {
    && Commits(cfg, w, s) && s.ticket.playerId == player && player in w.db.profiles
    && w.db.profiles[player].current.Some? && s.ticket.session < w.db.profiles[player].current.value
  }

  /** In every world a step leaves a player's current session alone or moves it to a newer one, unless it is a
      decision that sets it back. */
  lemma ForwardUnlessSetBack(cfg: Config, w: World, s: Step, player: string)
    requires WorldOk(cfg, w) && player in w.db.profiles
    ensures Forward(w.db.profiles, Next(cfg, w, s).db.profiles, player) <==> !SetsBack(cfg, w, s, player)
  {
    hide Inv, Extends, Effect, Possible, TicketOk, KeepsCoherence, ClosedStay, Decide;
    if Possible(w, s) {
      if s.Conclude? {
        assert s.ticket in w.tickets && s.outcome in {Verified, Failed, Pending} by { ConcludesTicket(w, s); }
        ConcludeEffect(cfg, w.db, s);
        DecisionMoves(cfg, w.db, s.ticket, s.outcome, s.now);
      } else {
        EffectKeeps(cfg, w, s);
        KeepsShows(cfg, w.db, Effect(cfg, w.db, s), Exceptions(w.db, s), player);
      }
    }
  }

  /** A decision that commits makes its ticket's session the current one; nothing else changes any profile's. */
  lemma DecisionMoves(cfg: Config, db: Db, t: Ticket, outcome: KycStatus, now: Time)
    requires Inv(cfg, db) && TicketOk(db, t) && outcome in {Verified, Failed, Pending}
    ensures var (after, r) := Decide(cfg, db, t, outcome, now);
            if r.Err? then after == db
            else
              && t.playerId in db.profiles && t.playerId in after.profiles
              && after.profiles[t.playerId].current == Some(t.session)
              && after.profiles == db.profiles[t.playerId := after.profiles[t.playerId]]
  {
    hide Inv, Move, TicketOk, OtherEffective;
    TicketFacts(cfg, db, t);
    if Decide(cfg, db, t, outcome, now).1.Ok? {
      var mid := UpdateFromEvent(db, t.session, outcome, now, if outcome == Pending then None else Some(now)).value;
      MoveShows(mid, t.playerId, DecisionChange(cfg, t, db.sessions[t.session], outcome, now), now);
    }
  }

  /** A decision on an open review names the current session, so it never sets it back. */
  lemma OpenDecisionStays(cfg: Config, w: World, s: Step, player: string)
    requires WorldOk(cfg, w) && Commits(cfg, w, s) && ReviewOpen(w.db, s.ticket)
    ensures !SetsBack(cfg, w, s, player)
  {
    hide Inv, Decide;
    assert TicketOk(w.db, s.ticket);
    TicketFacts(cfg, w.db, s.ticket);
    SessionFacts(cfg, w.db, s.ticket.session);
    ReviewFacts(cfg, w.db, s.ticket.playerId);
    assert Active(w.db.reviews[s.ticket.review], s.ticket.playerId);
  }

  // ---- whole runs ----

  /** Every run keeps the invariant and everything stored; a run that is timely for a player keeps that player's
      rows coherent too, whatever happens to others. */
  lemma {:induction false} RunKeeps(cfg: Config, w: World, steps: seq<Step>, player: string)
    requires WorldOk(cfg, w)
    ensures WorldOk(cfg, Run(cfg, w, steps)) && Extends(w.db, Run(cfg, w, steps).db)
    ensures IsCoherent(w, player) && AllTimely(cfg, w, steps, player) ==>
              IsCoherent(Run(cfg, w, steps), player)
  {
    hide WorldOk, IsCoherent, Extends, Next, Timely;
    ExtendsReflexive(w.db);
    if steps != [] {
      var n := |steps| - 1;
      var before := Run(cfg, w, steps[..n]);
      RunKeeps(cfg, w, steps[..n], player);
      NextKeeps(cfg, before, steps[n], player);
      ExtendsTransitive(w.db, before.db, Run(cfg, w, steps).db);
    }
  }

  lemma StartIsSound(cfg: Config, player: string)
    ensures WorldOk(cfg, START) && IsCoherent(START, player)
  {
  }

  lemma ReachableIsOk(cfg: Config, steps: seq<Step>, player: string)
    ensures WorldOk(cfg, Run(cfg, START, steps))
    ensures AllTimely(cfg, START, steps, player) ==> IsCoherent(Run(cfg, START, steps), player)
  {
    hide WorldOk, IsCoherent, Extends, Next, Timely;
    StartIsSound(cfg, player);
    RunKeeps(cfg, START, steps, player);
  }
}
