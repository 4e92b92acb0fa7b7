/** What the review actions do, in every run: when a decision commits, and what it writes about its session, the
    profile and the review. */
module KycDecisions {
  import opened Wrappers
  import opened KycDomain
  import opened KycProtocol
  import opened KycInvariants
  import opened KycHistory
  import opened KycTables
  import opened KycTransactions
  import opened KycWrites
  import opened KycRuns
  import opened KycTheorems

  /** Another session of the player is being created, pending or in review. */
  ghost predicate OtherWaits(sessions: seq<Session>, s: Id)
    requires s < |sessions|
  {
    exists t :: 0 <= t < |sessions| && t != s && sessions[t].playerId == sessions[s].playerId
                && sessions[t].status in {Creating, At(Pending), At(ManualReview)}
  }

  /** When a decision commits: its session is in review or verified and, to be resumed, the only one that waits, or, to
      be approved or rejected, has started by the clock; and the profile is in the very review that was read,
      requested by the clock, or is in none and may take the outcome. */
  ghost predicate Commitable(db: Db, t: Ticket, outcome: KycStatus, now: Time)
    requires t.session < |db.sessions| && t.playerId in db.profiles && t.review < |db.reviews|
  {
    var x, p, review := db.sessions[t.session], db.profiles[t.playerId], db.reviews[t.review];
    && x.status in {At(ManualReview), At(Verified)}
    && (if outcome == Pending then !OtherWaits(db.sessions, t.session) else x.startedAt <= now)
    && (match p.status
        case ManualReview => review.status != Completed && review.requestedAt <= now
        case Pending => outcome in {Verified, Failed}
        case Verified => false
        case _ => outcome == Pending)
  }

  /** The session of the decision: completed now, or waiting again. */
  function DecidedSession(x: Session, outcome: KycStatus, now: Time): Session {
    x.(status := At(outcome), completedAt := if outcome == Pending then None else Some(now),
       lastEventAt := if x.lastEventAt.Some? && x.lastEventAt.value > now then x.lastEventAt else Some(now))
  }

  /** The profile of the decision: an approval verifies from now on for the configured time, a rejection says so. */
  function DecidedProfile(cfg: Config, p: Profile, x: Session, s: Id, outcome: KycStatus, now: Time): Profile {
    Profile(outcome, Some(x.provider), Some(s), if outcome == Verified then Some(now) else p.verifiedAt,
            if outcome == Verified then Some(now + cfg.verificationTtl) else None,
            if outcome == Failed then Some(ReviewRejected) else None, p.version + 1)
  }

  lemma DecideWrites(cfg: Config, db: Db, t: Ticket, outcome: KycStatus, now: Time)
    requires Inv(cfg, db) && TicketOk(db, t) && outcome in {Verified, Failed, Pending}
    requires t.session < |db.sessions| && t.playerId in db.profiles
    ensures var (db', r) := Decide(cfg, db, t, outcome, now);
            if !Commitable(db, t, outcome, now) then db' == db && r.Err?
            else
              var x, p := db.sessions[t.session], db.profiles[t.playerId];
              && r == Ok(t.review) && db'.events == db.events
              && db'.sessions == db.sessions[t.session := DecidedSession(x, outcome, now)]
              && Moves(db, db', t.playerId, DecidedProfile(cfg, p, x, t.session, outcome, now), ReviewDecision, None,
                       now)
  {
    hide Inv, SessionShape, SessionOrdered, Move, ReviewsFollow, OtherEffective, OtherWaits;
    TicketRows(cfg, db, t);
    OneOpenReview(cfg, db);
    var x := db.sessions[t.session];
    OthersWait(db.sessions, t.session);
    assert Decided(x, outcome, now) == DecidedSession(x, outcome, now);
    if x.status in {At(ManualReview), At(Verified)} {
      DecidedOrdered(x, outcome, now);
      var mid := PutSession(db, t.session, Decided(x, outcome, now));
      var c := DecisionChange(cfg, t, x, outcome, now);
      MoveCommits(cfg, db, mid, t, c, outcome, now);
      if Move(mid, t.playerId, c, now).Ok? { MoveWrites(mid, t.playerId, c, now); }
    }
  }

  lemma OthersWait(sessions: seq<Session>, s: Id)
    requires s < |sessions|
    ensures OtherEffective(sessions, s) <==> OtherWaits(sessions, s)
  {
  }

  /** The profile's part of the condition. */
  lemma MoveCommits(cfg: Config, db: Db, mid: Db, t: Ticket, c: Change, outcome: KycStatus, now: Time)
    requires Inv(cfg, db) && TicketOk(db, t) && outcome in {Verified, Failed, Pending} && t.playerId in db.profiles
    requires t.session < |db.sessions| && c == DecisionChange(cfg, t, db.sessions[t.session], outcome, now)
    requires mid == db.(sessions := mid.sessions)
    ensures Move(mid, t.playerId, c, now).Ok? <==>
            match db.profiles[t.playerId].status
            case ManualReview => db.reviews[t.review].status != Completed && db.reviews[t.review].requestedAt <= now
            case Pending => outcome in {Verified, Failed}
            case Verified => false
            case _ => outcome == Pending
  {
    hide Inv, ReviewShape;
    ReviewFacts(cfg, db, t.playerId);
    assert t.playerId in db.log by { LogKeys(cfg, db); }
    var review := db.reviews[t.review];
    assert Active(review, t.playerId) <==> review.status != Completed;
    if review.status != Completed { ClosedOrdered(review, outcome, now); }
  }

  lemma ClosedOrdered(r: Review, outcome: KycStatus, now: Time)
    requires ReviewShape(r) && r.status != Completed
    ensures ReviewOrdered(Close(r, outcome, now)) <==> r.requestedAt <= now
  {
  }

  /** In every run, late decisions included, a decision commits exactly under that condition, and then writes its
      session and the profile, and completes the open review, if the profile is in one, with the outcome;
      otherwise it changes nothing. */
  lemma DecisionOutcome(cfg: Config, w: World, t: Ticket, outcome: KycStatus, now: Time)
    requires Reachable(cfg, w) && t in w.tickets && outcome in {Verified, Failed, Pending}
    ensures t.session < |w.db.sessions| && t.playerId in w.db.profiles && t.review < |w.db.reviews|
    ensures var s, db, db' := Conclude(t, outcome, now), w.db, Next(cfg, w, Conclude(t, outcome, now)).db;
            && (Commits(cfg, w, s) <==> Commitable(db, t, outcome, now))
            && (if !Commits(cfg, w, s) then db' == db
                else
                  var x, p := db.sessions[t.session], db.profiles[t.playerId];
                  && db'.sessions == db.sessions[t.session := DecidedSession(x, outcome, now)]
                  && Moves(db, db', t.playerId, DecidedProfile(cfg, p, x, t.session, outcome, now), ReviewDecision,
                           None, now)
                  && db'.events == db.events)
  {
    hide Inv, Reachable, Decide, Commitable, Moves;
    ReachableOk(cfg, w);
    assert TicketOk(w.db, t);
    TicketRows(cfg, w.db, t);
    DecideWrites(cfg, w.db, t, outcome, now);
  }

  // ---- opening and assigning ----

  /** The review with one action more; its first opening time is kept. */
  function Acted(r: Review, act: ReviewAct, status: ReviewStatus, assignee: Option<string>, now: Time): Review {
    r.(status := status, assignee := assignee, openedAt := if r.openedAt.Some? then r.openedAt else Some(now),
       actions := r.actions + [ReviewAction(act, ManualReview, ManualReview, now)])
  }

  /** In every run a review that exists and is not completed can be read for a decision; it is opened, keeping its
      assignee, or assigned, unless the clock reads less than when it was requested. Nothing else changes. */
  lemma ReviewActions(cfg: Config, w: World, r: Id, assignee: string, now: Time)
    requires Reachable(cfg, w)
    ensures var read, taken, given :=
              Next(cfg, w, Look(r)), Next(cfg, w, Open(r, now)), Next(cfg, w, Assign(r, assignee, now));
            if r >= |w.db.reviews| || w.db.reviews[r].status == Completed then read == w && taken == w && given == w
            else
              var review := w.db.reviews[r];
              var status := if review.assignee.Some? then Assigned else Opened;
              && review.session.Some?
              && read == w.(tickets := w.tickets + {Ticket(r, review.playerId, review.session.value)})
              && (if now < review.requestedAt then taken == w && given == w
                  else
                    && taken == w.(db := w.db.(reviews := w.db.reviews[r :=
                         Acted(review, ReviewOpened, status, review.assignee, now)]))
                    && given == w.(db := w.db.(reviews := w.db.reviews[r :=
                         Acted(review, ReviewAssigned, Assigned, Some(assignee), now)])))
  {
    hide Filed, CurrentOk, SessionsOk, AttemptsIncrease, CreatingIsNewest, OneEffective, ReferencesUnique, KeysUnique,
      ReviewSessionsOk, EventsOk, AllJustified, AllDated, TicketsOk, Reachable;
    ReachableOk(cfg, w);
    if r < |w.db.reviews| { assert ReviewShape(w.db.reviews[r]); }
  }
}
