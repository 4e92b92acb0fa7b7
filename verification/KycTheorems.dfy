/** The promises of KYC, for every run from the empty tables. */
module KycTheorems {
  import opened Wrappers
  import opened KycDomain
  import opened KycProtocol
  import opened KycInvariants
  import opened KycHistory
  import opened KycTables
  import opened KycTransactions
  import opened KycRuns

  /** Reached by some run. */
  ghost predicate Reachable(cfg: Config, w: World) {
    exists steps :: w == Run(cfg, START, steps)
  }

  /** Reached by a run that is timely for the player. */
  ghost predicate TimelyReachable(cfg: Config, w: World, player: string) {
    exists steps :: w == Run(cfg, START, steps) && AllTimely(cfg, START, steps, player)
  }

  lemma ReachableOk(cfg: Config, w: World)
    requires Reachable(cfg, w)
    ensures WorldOk(cfg, w)
  {
    hide WorldOk, Run;
    var steps :| w == Run(cfg, START, steps);
    ReachableIsOk(cfg, steps, "");
  }

  lemma TimelyOk(cfg: Config, w: World, player: string)
    requires TimelyReachable(cfg, w, player)
    ensures WorldOk(cfg, w) && IsCoherent(w, player) && Reachable(cfg, w)
  {
    hide WorldOk, IsCoherent, Run;
    var steps :| w == Run(cfg, START, steps) && AllTimely(cfg, START, steps, player);
    ReachableIsOk(cfg, steps, player);
  }

  // ---- coherence ----

  ghost function OpenReviews(reviews: seq<Review>, player: string): nat {
    if reviews == [] then 0
    else OpenReviews(reviews[..|reviews| - 1], player) + if Active(reviews[|reviews| - 1], player) then 1 else 0
  }

  lemma {:induction false} CountOpen(reviews: seq<Review>, player: string)
    requires forall q, r :: 0 <= q < r < |reviews| && reviews[q].playerId == reviews[r].playerId
                            ==> reviews[q].status == Completed || reviews[r].status == Completed
    ensures OpenReviews(reviews, player) == if ActiveReview(reviews, player).Some? then 1 else 0
  {
    if reviews != [] {
      var n := |reviews| - 1;
      CountOpen(reviews[..n], player);
      forall k | 0 <= k < n && Active(reviews[n], player) ensures !Active(reviews[..n][k], player) {
        assert reviews[..n][k] == reviews[k];
      }
      assert ActiveReview(reviews[..n], player).Some? ==>
               Active(reviews[ActiveReview(reviews[..n], player).value], player);
    }
  }

  /** In every run whatsoever, a profile is in manual review exactly when it has one review open, and
      that review is for its current session; otherwise it has none. */
  lemma OneReviewInReview(cfg: Config, w: World, player: string)
    requires Reachable(cfg, w) && player in w.db.profiles
    ensures OpenReviews(w.db.reviews, player) == if w.db.profiles[player].status == ManualReview then 1 else 0
    ensures forall r :: 0 <= r < |w.db.reviews| && Active(w.db.reviews[r], player) ==>
              w.db.profiles[player].current == w.db.reviews[r].session
  {
    hide Filed, CurrentOk, SessionsOk, AttemptsIncrease, CreatingIsNewest, OneEffective, ReferencesUnique, KeysUnique,
      ReviewSessionsOk, EventsOk, AllJustified, ReviewShape, TicketsOk, Reachable;
    ReachableOk(cfg, w);
    CountOpen(w.db.reviews, player);
    ReviewFacts(cfg, w.db, player);
  }

  ghost function StatusOf(w: World, s: Id): SessionStatus
    requires s < |w.db.sessions|
  {
    w.db.sessions[s].status
  }

  /** Coherence in every run that is timely for the player: a waiting session is its player's current one and has the
      profile's status, so a player has at most one; a pending, reviewed, verified or failed profile has
      a current session of its own status, and an expired one has an expired or verified session. */
  lemma ProfilesAndSessionsAgree(cfg: Config, w: World, player: string)
    requires TimelyReachable(cfg, w, player) && player in w.db.profiles
    ensures forall s :: 0 <= s < |w.db.sessions| && w.db.sessions[s].playerId == player ==>
              StatusOf(w, s) in {At(Pending), At(ManualReview)} ==>
                w.db.profiles[player].current == Some(s) && StatusOf(w, s) == At(w.db.profiles[player].status)
    ensures w.db.profiles[player].status == NotStarted <==> w.db.profiles[player].current.None?
    ensures w.db.profiles[player].current.Some? ==>
              var p, s := w.db.profiles[player], w.db.profiles[player].current.value;
              && s < |w.db.sessions| && w.db.sessions[s].playerId == player
              && (p.status != Expired ==> StatusOf(w, s) == At(p.status))
              && (p.status == Expired ==> StatusOf(w, s) in {At(Expired), At(Verified)})
  {
    hide LogReplays, SessionsOk, AttemptsIncrease, CreatingIsNewest, OneEffective, ReferencesUnique, KeysUnique,
      ReviewsOk, ReviewSessionsOk, EventsOk, AllJustified, TicketsOk, TimelyReachable, Reachable;
    TimelyOk(cfg, w, player);
    assert ProfileShape(cfg, w.db.profiles[player]) && ProfileFits(w.db.profiles[player], w.db.sessions);
    forall s | && 0 <= s < |w.db.sessions| && w.db.sessions[s].playerId == player
               && StatusOf(w, s) in {At(Pending), At(ManualReview)}
      ensures w.db.profiles[player].current == Some(s) && StatusOf(w, s) == At(w.db.profiles[player].status)
    {
      assert SessionFits(w.db.profiles, s, w.db.sessions[s]);
    }
  }

  // ---- review decisions ----

  /** When a decision whose review was completed since it was read still commits. */
  ghost predicate LateCommits(db: Db, t: Ticket, outcome: KycStatus, now: Time)
    requires t.session < |db.sessions| && t.playerId in db.profiles
  {
    && db.sessions[t.session].status in {At(ManualReview), At(Verified)}
    && db.profiles[t.playerId].status in (if outcome == Pending then {NotStarted, Failed, Expired} else {Pending})
    && (outcome == Pending ==> !OtherEffective(db.sessions, t.session))
    && (outcome != Pending ==> db.sessions[t.session].startedAt <= now)
  }

  lemma TicketRows(cfg: Config, db: Db, t: Ticket)
    requires Inv(cfg, db) && TicketOk(db, t)
    ensures t.session < |db.sessions| && t.playerId in db.profiles && t.playerId in db.log
    ensures db.sessions[t.session].playerId == t.playerId && db.sessions[t.session].status.At?
    ensures SessionShape(db.sessions[t.session])
  {
    hide Inv, SessionShape, TicketOk;
    TicketFacts(cfg, db, t);
    SessionFacts(cfg, db, t.session);
  }

  /** In every run, a decision whose review was completed since it was read commits exactly then. */
  lemma LateDecisionCommitsIff(cfg: Config, w: World, t: Ticket, outcome: KycStatus, now: Time)
    requires Reachable(cfg, w) && t in w.tickets && !ReviewOpen(w.db, t) && outcome in {Verified, Failed, Pending}
    ensures t.session < |w.db.sessions| && t.playerId in w.db.profiles
    ensures Decide(cfg, w.db, t, outcome, now).1.Ok? <==> LateCommits(w.db, t, outcome, now)
  {
    hide Inv, Reachable, TicketOk, Decide;
    ReachableOk(cfg, w);
    assert TicketOk(w.db, t);
    TicketRows(cfg, w.db, t);
    LateCommitsIff(cfg, w.db, t, outcome, now);
  }

  lemma LateCommitsIff(cfg: Config, db: Db, t: Ticket, outcome: KycStatus, now: Time)
    requires Inv(cfg, db) && TicketOk(db, t) && !ReviewOpen(db, t) && outcome in {Verified, Failed, Pending}
    requires t.session < |db.sessions| && t.playerId in db.profiles
    ensures Decide(cfg, db, t, outcome, now).1.Ok? <==> LateCommits(db, t, outcome, now)
  {
    hide Inv, ReviewShape, OtherEffective, SessionShape, Move, SessionOrdered;
    TicketRows(cfg, db, t);
    ReviewFacts(cfg, db, t.playerId);
    assert ActiveReview(db.reviews, t.playerId) != Some(t.review);
    SessionFacts(cfg, db, t.session);
    var x := db.sessions[t.session];
    if x.status in {At(ManualReview), At(Verified)} {
      DecidedOrdered(x, outcome, now);
      if UpdateFromEvent(db, t.session, outcome, now, if outcome == Pending then None else Some(now)).Ok? {
        LateMoveIff(cfg, db, PutSession(db, t.session, Decided(x, outcome, now)), t, x, outcome, now);
      }
    }
  }

  /** The profile takes a late decision exactly when it is not in review and may take the outcome. */
  lemma LateMoveIff(cfg: Config, db: Db, mid: Db, t: Ticket, x: Session, outcome: KycStatus, now: Time)
    requires mid == db.(sessions := mid.sessions) && t.playerId in db.profiles && t.playerId in db.log
    requires ActiveReview(db.reviews, t.playerId) != Some(t.review) && outcome in {Verified, Failed, Pending}
    ensures Move(mid, t.playerId, DecisionChange(cfg, t, x, outcome, now), now).Ok? <==>
              db.profiles[t.playerId].status in
                (if outcome == Pending then {NotStarted, Failed, Expired} else {Pending})
  {
  }

  /** What coherent rows say of a late decision that commits: its session is verified, and the profile waits on
      another session (approve, reject) or has failed or expired (resume). */
  lemma LateDecisionFinds(cfg: Config, db: Db, t: Ticket, outcome: KycStatus, now: Time)
    requires Inv(cfg, db) && CoherentFor(db.profiles, db.sessions, t.playerId) && TicketOk(db, t)
    requires t.session < |db.sessions| && t.playerId in db.profiles && LateCommits(db, t, outcome, now)
    requires outcome in {Verified, Failed, Pending}
    ensures db.sessions[t.session].status == At(Verified)
    ensures var p := db.profiles[t.playerId];
            && p.current.Some? && p.current.value < |db.sessions| && db.sessions[p.current.value].playerId == t.playerId
            && t.session <= p.current.value && db.sessions[p.current.value].status.At?
            && (outcome != Pending ==> db.sessions[p.current.value].status == At(Pending))
            && (outcome == Pending ==> p.status in {Failed, Expired})
            && (p.status == Failed ==> p.current != Some(t.session))
  {
    hide Filed, SessionShape, AttemptsIncrease, CreatingIsNewest, OneEffective, ReferencesUnique, KeysUnique, ReviewsOk,
      ReviewSessionsOk, EventsOk, AllJustified, AllDated, OtherEffective;
    TicketRows(cfg, db, t);
    assert SessionFits(db.profiles, t.session, db.sessions[t.session]);
    assert ProfileFits(db.profiles[t.playerId], db.sessions);
    ReachedProvider(cfg, db, t.session);
  }

  lemma ReachedProvider(cfg: Config, db: Db, s: Id)
    requires Inv(cfg, db) && s < |db.sessions| && CoherentFor(db.profiles, db.sessions, db.sessions[s].playerId)
    requires db.sessions[s].status.At?
    ensures db.sessions[s].playerId in db.profiles && db.profiles[db.sessions[s].playerId].status != NotStarted
  {
    hide CurrentOk, SessionsOk, AttemptsIncrease, CreatingIsNewest, OneEffective, ReferencesUnique, KeysUnique,
      ReviewsOk, ReviewSessionsOk, EventsOk, AllJustified, LogReplays;
    assert SessionFits(db.profiles, s, db.sessions[s]);
    assert ProfileShape(cfg, db.profiles[db.sessions[s].playerId]);
  }

  /** The tables after a decision that commits. */
  lemma DecisionWrites(cfg: Config, db: Db, t: Ticket, outcome: KycStatus, now: Time)
    requires Inv(cfg, db) && TicketOk(db, t) && outcome in {Verified, Failed, Pending}
    requires Decide(cfg, db, t, outcome, now).1.Ok?
    ensures t.session < |db.sessions| && t.playerId in db.profiles
    ensures var after := Decide(cfg, db, t, outcome, now).0;
            && after.sessions == db.sessions[t.session := Decided(db.sessions[t.session], outcome, now)]
            && t.playerId in after.profiles && after.profiles == db.profiles[t.playerId := after.profiles[t.playerId]]
            && after.profiles[t.playerId].status == outcome && after.profiles[t.playerId].current == Some(t.session)
  {
    hide Inv, Move, TicketOk, OtherEffective;
    TicketRows(cfg, db, t);
    var mid := UpdateFromEvent(db, t.session, outcome, now, if outcome == Pending then None else Some(now)).value;
    MoveShows(mid, t.playerId, DecisionChange(cfg, t, db.sessions[t.session], outcome, now), now);
  }

  /** A late decision leaves the player's rows coherent exactly when it resumes the profile's own current session. */
  lemma LateCoherence(cfg: Config, db: Db, t: Ticket, outcome: KycStatus, now: Time)
    requires Inv(cfg, db) && CoherentFor(db.profiles, db.sessions, t.playerId) && TicketOk(db, t) && !ReviewOpen(db, t)
    requires outcome in {Verified, Failed, Pending} && Decide(cfg, db, t, outcome, now).1.Ok?
    requires t.playerId in db.profiles
    ensures var after := Decide(cfg, db, t, outcome, now).0;
            CoherentFor(after.profiles, after.sessions, t.playerId) <==>
            outcome == Pending && db.profiles[t.playerId].current == Some(t.session)
  {
    hide Inv, TicketOk, Decide, OtherEffective, CoherentFor, LateCommits, SessionShape;
    TicketRows(cfg, db, t);
    LateCommitsIff(cfg, db, t, outcome, now);
    LateDecisionFinds(cfg, db, t, outcome, now);
    DecisionWrites(cfg, db, t, outcome, now);
    var after := Decide(cfg, db, t, outcome, now).0;
    var current := db.profiles[t.playerId].current.value;
    if current == t.session {
      SessionFacts(cfg, db, t.session);
      Sessions(cfg, db);
      assert !OtherEffective(db.sessions, t.session) by { LateResumes(db, t, outcome, now); }
      ResumedIsCoherent(db, after, t);
    } else {
      LeftBehind(after, current, t);
    }
  }

  lemma LateResumes(db: Db, t: Ticket, outcome: KycStatus, now: Time)
    requires t.session < |db.sessions| && t.playerId in db.profiles && LateCommits(db, t, outcome, now)
    requires outcome == Pending
    ensures !OtherEffective(db.sessions, t.session)
  {
  }

  lemma ResumedIsCoherent(db: Db, after: Db, t: Ticket)
    requires t.session < |db.sessions| && t.playerId in db.profiles && CoherentFor(db.profiles, db.sessions, t.playerId)
    requires db.sessions[t.session].playerId == t.playerId && db.profiles[t.playerId].current == Some(t.session)
    requires !OtherEffective(db.sessions, t.session)
    requires |after.sessions| == |db.sessions| && after.sessions == db.sessions[t.session := after.sessions[t.session]]
    requires after.sessions[t.session].playerId == t.playerId && after.sessions[t.session].status == At(Pending)
    requires t.playerId in after.profiles && after.profiles[t.playerId].status == Pending
    requires after.profiles[t.playerId].current == Some(t.session)
    ensures CoherentFor(after.profiles, after.sessions, t.playerId)
  {
    forall s | 0 <= s < |after.sessions| && after.sessions[s].playerId == t.playerId
      ensures SessionFits(after.profiles, s, after.sessions[s])
    {
      assert SessionFits(db.profiles, s, db.sessions[s]);
    }
  }

  /** A later session that reached the provider is left behind. */
  lemma LeftBehind(after: Db, s: Id, t: Ticket)
    requires s < |after.sessions| && after.sessions[s].playerId == t.playerId && after.sessions[s].status.At?
    requires t.session < s
    requires t.playerId in after.profiles && after.profiles[t.playerId].current == Some(t.session)
    ensures !CoherentFor(after.profiles, after.sessions, t.playerId)
  {
    assert !SessionFits(after.profiles, s, after.sessions[s]);
  }

  /** What a late decision does to the closed session it names. */
  lemma LateAbsorption(cfg: Config, db: Db, t: Ticket, outcome: KycStatus, now: Time)
    requires Inv(cfg, db) && CoherentFor(db.profiles, db.sessions, t.playerId) && TicketOk(db, t) && !ReviewOpen(db, t)
    requires outcome in {Verified, Failed, Pending} && Decide(cfg, db, t, outcome, now).1.Ok?
    requires t.session < |db.sessions|
    ensures db.sessions[t.session].status == At(Verified)
    ensures ClosedStay(db.sessions, Decide(cfg, db, t, outcome, now).0.sessions) <==>
            outcome == Verified && db.sessions[t.session] == Decided(db.sessions[t.session], outcome, now)
  {
    hide Inv, TicketOk, Decide, OtherEffective, CoherentFor, LateCommits, SessionShape;
    TicketRows(cfg, db, t);
    LateCommitsIff(cfg, db, t, outcome, now);
    LateDecisionFinds(cfg, db, t, outcome, now);
    DecisionWrites(cfg, db, t, outcome, now);
    var after := Decide(cfg, db, t, outcome, now).0;
    assert Absorbing(db.sessions[t.session], after.sessions[t.session]) <==>
           db.sessions[t.session] == Decided(db.sessions[t.session], outcome, now);
  }

  /** The row of a verified session is already what a repeated approval would write. */
  predicate ApprovedAt(x: Session, now: Time) {
    x.completedAt == Some(now) && x.lastEventAt.Some? && x.lastEventAt.value >= now
  }

  /** The exact conditions, for a decision that commits while its player's rows are coherent. It leaves them coherent
      if and only if its review is still open, or it resumes the profile's own current session; it leaves every
      closed session as it was if and only if its review is still open, or it approves again at the very
      time the session was completed; and both if and only if its review is still open. */
  lemma DecisionIsSafeIffReviewOpen(cfg: Config, w: World, t: Ticket, outcome: KycStatus, now: Time)
    requires TimelyReachable(cfg, w, t.playerId) && t in w.tickets && outcome in {Verified, Failed, Pending}
    requires Decide(cfg, w.db, t, outcome, now).1.Ok?
    ensures t.playerId in w.db.profiles && t.session < |w.db.sessions|
    ensures var after := Decide(cfg, w.db, t, outcome, now).0;
            var coherent, closed := CoherentFor(after.profiles, after.sessions, t.playerId),
                                    ClosedStay(w.db.sessions, after.sessions);
            && (coherent <==>
                  ReviewOpen(w.db, t) || (outcome == Pending && w.db.profiles[t.playerId].current == Some(t.session)))
            && (closed <==> ReviewOpen(w.db, t) || (outcome == Verified && ApprovedAt(w.db.sessions[t.session], now)))
            && (coherent && closed <==> ReviewOpen(w.db, t))
  {
    hide Inv, CoherentFor, ClosedStay, Decide, Reachable, TimelyReachable, TicketOk, SessionShape;
    TimelyOk(cfg, w, t.playerId);
    assert TicketOk(w.db, t);
    TicketRows(cfg, w.db, t);
    if ReviewOpen(w.db, t) {
      TimelyDecisionKeeps(cfg, w.db, t, outcome, now);
      KeepsShows(cfg, w.db, Decide(cfg, w.db, t, outcome, now).0, {}, t.playerId);
    } else {
      LateCoherence(cfg, w.db, t, outcome, now);
      LateAbsorption(cfg, w.db, t, outcome, now);
    }
  }

  // ---- how many decisions commit ----

  /** The step is a decision on the review, and it commits. */
  predicate Concludes(cfg: Config, w: World, s: Step, review: Id) { Commits(cfg, w, s) && s.ticket.review == review }

  /** All of them, and those of them that find the review open. */
  ghost function Conclusions(cfg: Config, steps: seq<Step>, review: Id): nat {
    if steps == [] then 0
    else
      var n := |steps| - 1;
      Conclusions(cfg, steps[..n], review)
      + if Concludes(cfg, Run(cfg, START, steps[..n]), steps[n], review) then 1 else 0
  }

  ghost predicate ConcludesOpen(cfg: Config, w: World, s: Step, review: Id) {
    Concludes(cfg, w, s, review) && ReviewOpen(w.db, s.ticket)
  }

  ghost function OpenConclusions(cfg: Config, steps: seq<Step>, review: Id): nat {
    if steps == [] then 0
    else
      var n := |steps| - 1;
      OpenConclusions(cfg, steps[..n], review)
      + if ConcludesOpen(cfg, Run(cfg, START, steps[..n]), steps[n], review) then 1 else 0
  }

  ghost predicate IsCompleted(db: Db, review: Id) { review < |db.reviews| && db.reviews[review].status == Completed }

  lemma CompletedStays(a: Db, b: Db, review: Id)
    requires Extends(a, b) && IsCompleted(a, review)
    ensures IsCompleted(b, review)
  {
    assert ReviewEvolves(a.reviews[review], b.reviews[review]);
  }

  /** A decision that commits on an open review completes it, coherent or not. */
  lemma OpenDecisionCompletes(cfg: Config, db: Db, t: Ticket, outcome: KycStatus, now: Time)
    requires Inv(cfg, db) && TicketOk(db, t) && ReviewOpen(db, t) && outcome in {Verified, Failed, Pending}
    requires Decide(cfg, db, t, outcome, now).1.Ok?
    ensures IsCompleted(Decide(cfg, db, t, outcome, now).0, t.review)
  {
    hide Inv, ReviewShape, ActiveReview, SessionShape, OtherEffective;
    TicketRows(cfg, db, t);
    ReviewFacts(cfg, db, t.playerId);
    assert Active(db.reviews[t.review], t.playerId);
    assert db.profiles[t.playerId].status == ManualReview;
  }

  /** In every run whatsoever, of all decisions on one review, however many read it while it was open, at most one
      commits while it is still open, and that one completes it. Any further one that commits is late. */
  lemma {:induction false} AtMostOneDecision(cfg: Config, steps: seq<Step>, review: Id)
    ensures OpenConclusions(cfg, steps, review) <= 1
    ensures OpenConclusions(cfg, steps, review) == 1 ==> IsCompleted(Run(cfg, START, steps).db, review)
  {
    hide Next, WorldOk, Extends, ConcludesOpen, IsCompleted, IsCoherent, Timely;
    if steps != [] {
      var n := |steps| - 1;
      var before := Run(cfg, START, steps[..n]);
      AtMostOneDecision(cfg, steps[..n], review);
      ReachableIsOk(cfg, steps[..n], "");
      NextKeeps(cfg, before, steps[n], "");
      if IsCompleted(before.db, review) { CompletedStays(before.db, Next(cfg, before, steps[n]).db, review); }
      if ConcludesOpen(cfg, before, steps[n], review) { ConcludesOnce(cfg, before, steps[n], review); }
    }
  }

  lemma ConcludesOnce(cfg: Config, w: World, s: Step, review: Id)
    requires WorldOk(cfg, w) && ConcludesOpen(cfg, w, s, review)
    ensures !IsCompleted(w.db, review) && IsCompleted(Next(cfg, w, s).db, review)
  {
    hide Inv, Decide, TicketOk;
    assert TicketOk(w.db, s.ticket);
    OpenDecisionCompletes(cfg, w.db, s.ticket, s.outcome, s.now);
  }

  /** The review, once it exists, is this player's. */
  ghost predicate Concerns(db: Db, review: Id, player: string) {
    review < |db.reviews| ==> db.reviews[review].playerId == player
  }

  lemma ConcernedBefore(a: Db, b: Db, review: Id, player: string)
    requires Extends(a, b) && Concerns(b, review, player)
    ensures Concerns(a, review, player)
  {
    if review < |a.reviews| { assert ReviewEvolves(a.reviews[review], b.reviews[review]); }
  }

  /** So in a run that is timely for the player the review concerns, at most one decision on it commits. */
  lemma OneDecisionWhenTimely(cfg: Config, steps: seq<Step>, review: Id, player: string)
    requires AllTimely(cfg, START, steps, player) && Concerns(Run(cfg, START, steps).db, review, player)
    ensures Conclusions(cfg, steps, review) <= 1
  {
    hide AllTimely, Run, Conclusions, OpenConclusions;
    AllOpen(cfg, steps, review, player);
    AtMostOneDecision(cfg, steps, review);
  }

  lemma {:induction false} AllOpen(cfg: Config, steps: seq<Step>, review: Id, player: string)
    requires AllTimely(cfg, START, steps, player) && Concerns(Run(cfg, START, steps).db, review, player)
    ensures Conclusions(cfg, steps, review) == OpenConclusions(cfg, steps, review)
  {
    hide Next, WorldOk, Extends, Concerns, IsCoherent, Commits, ReviewOpen;
    if steps != [] {
      var n := |steps| - 1;
      var before := Run(cfg, START, steps[..n]);
      ReachableIsOk(cfg, steps[..n], "");
      NextKeeps(cfg, before, steps[n], "");
      ConcernedBefore(before.db, Next(cfg, before, steps[n]).db, review, player);
      AllOpen(cfg, steps[..n], review, player);
      if Concludes(cfg, before, steps[n], review) { TicketPlayer(cfg, before, steps[n], player); }
    }
  }

  lemma TicketPlayer(cfg: Config, w: World, s: Step, player: string)
    requires WorldOk(cfg, w) && Commits(cfg, w, s) && Concerns(w.db, s.ticket.review, player)
    ensures s.ticket.playerId == player
  {
    hide Inv, Decide;
    assert TicketOk(w.db, s.ticket);
  }

  /** After a decision on a review has committed while it was open, a further decision on it commits exactly when it
      is late in the sense above: the plain promise of one decision per review fails there and nowhere else. */
  lemma FurtherDecisionCommitsIff(cfg: Config, steps: seq<Step>, t: Ticket, outcome: KycStatus, now: Time)
    requires t in Run(cfg, START, steps).tickets && outcome in {Verified, Failed, Pending}
    requires OpenConclusions(cfg, steps, t.review) == 1
    ensures var db := Run(cfg, START, steps).db;
            && t.session < |db.sessions| && t.playerId in db.profiles
            && (Decide(cfg, db, t, outcome, now).1.Ok? <==> LateCommits(db, t, outcome, now))
  {
    hide Run, OpenConclusions, Decide, LateCommits;
    AtMostOneDecision(cfg, steps, t.review);
    LateDecisionCommitsIff(cfg, Run(cfg, START, steps), t, outcome, now);
  }

  // ---- nothing raises ----

  /** In every run the callback raises exactly when it is refused by the order of two times in a row, and then leaves
      everything as it was; status reads and verification sweeps never raise. */
  lemma CallbackRaisesIff(cfg: Config, w: World, e: ProviderEvent, player: string, now: Time)
    requires Reachable(cfg, w)
    ensures var (after, r) := Callback(cfg, w.db, e, now);
            && (r.Raised? <==> CallbackRefused(cfg, w.db, e, now))
            && (r.Raised? ==> after == w.db && r.error == CheckViolation)
    ensures ReadStatus(w.db, player, now).1.Ok?
    ensures forall players :: DueProfiles(w.db, now, |players|, players) ==> SweepProfiles(w.db, players, now).Ok?
  {
    hide Inv, TicketsOk, Reachable, Keeps, Callback, CallbackRefused, ReadStatus, SweepProfiles, DueProfiles;
    ReachableOk(cfg, w);
    CallbackKeeps(cfg, w.db, e, now);
    ReadStatusKeeps(cfg, w.db, player, now);
    forall players | DueProfiles(w.db, now, |players|, players) ensures SweepProfiles(w.db, players, now).Ok? {
      SweepProfilesKeeps(cfg, w.db, players, now);
    }
  }

  /** The reply gives a session: of the configured provider, with a reference that is not blank and an expiry after the
      start. */
  predicate IsSafe(cfg: Config, startedAt: Time, reply: Reply) {
    && reply.Created? && reply.provider == cfg.provider && reply.expiresAt > startedAt
    && exists k :: 0 <= k < |reply.reference| && !IsSpace(reply.reference[k])
  }

  lemma SafeIff(cfg: Config, startedAt: Time, reply: Reply)
    ensures Acceptable(cfg, startedAt, reply) <==> IsSafe(cfg, startedAt, reply)
  {
    hide IsSpace;
  }

  /** Another session of the provider holds the reference. */
  predicate HeldElsewhere(sessions: seq<Session>, s: Id, reference: string)
    requires s < |sessions|
  {
    exists t :: 0 <= t < |sessions| && t != s && sessions[t].provider == sessions[s].provider
                && sessions[t].reference == Some(reference)
  }

  lemma HeldIff(sessions: seq<Session>, s: Id, reference: string)
    requires s < |sessions|
    ensures ReferenceTaken(sessions, s, reference) <==> HeldElsewhere(sessions, s, reference)
  {
    if HeldElsewhere(sessions, s, reference) {
      var t :| 0 <= t < |sessions| && t != s && sessions[t].provider == sessions[s].provider
               && sessions[t].reference == Some(reference);
      assert HasReference(sessions[t], sessions[s].provider, reference);
    }
  }

  /** What a provider reply is told, by the rows of its session and of the session's player; `ahead` says whether the
      player has a review that was requested later than now. */
  function ReplyTold(cfg: Config, db: Db, s: Id, reply: Reply, now: Time, ahead: bool): Result<Id, Error> {
    if s >= |db.sessions| then Err(SessionNotFound)
    else
      var x := db.sessions[s];
      if x.status == At(Pending) then Ok(s)
      else if !IsSafe(cfg, x.startedAt, reply) then
        Err(if x.status == Creating && now < x.startedAt then CheckViolation else CreationUnavailable)
      else if x.status != Creating then Err(StateConflict)
      else if x.playerId !in db.profiles then Err(ProfileNotFound)
      else if HeldElsewhere(db.sessions, s, reply.reference) then Err(UniqueViolation)
      else
        match db.profiles[x.playerId].status
        case Pending | Verified => Err(InvalidTransition)
        case ManualReview => if ahead then Err(CheckViolation) else Ok(s)
        case _ => Ok(s)
  }

  /** Every reply, in every run: the profile refuses an acceptable one only when it is pending or verified already, or
      in a review that was requested later than now. */
  lemma ReplyOutcomes(cfg: Config, w: World, s: Id, reply: Reply, now: Time)
    requires Reachable(cfg, w)
    ensures var ahead := s < |w.db.sessions| && ReviewAhead(w.db.reviews, w.db.sessions[s].playerId, now);
            Finish(cfg, w.db, s, reply, now).1 == ReplyTold(cfg, w.db, s, reply, now, ahead)
    ensures s < |w.db.sessions| ==> w.db.sessions[s].playerId in w.db.profiles
  {
    hide Inv, TicketsOk, Reachable, Acceptable, ReferenceTaken, IsSafe, HeldElsewhere, Move, ReviewAhead;
    ReachableOk(cfg, w);
    if s < |w.db.sessions| {
      SessionFacts(cfg, w.db, s);
      var x := w.db.sessions[s];
      SafeIff(cfg, x.startedAt, reply);
      if Acceptable(cfg, x.startedAt, reply) {
        AcceptableShows(cfg, x.startedAt, reply);
        HeldIff(w.db.sessions, s, reply.reference);
        if x.status == Creating && !ReferenceTaken(w.db.sessions, s, reply.reference) {
          ActivatedFits(cfg, w.db.sessions, s, reply);
          PutKeepsInv(cfg, w.db, s, Activated(x, reply));
          var mid := PutSession(w.db, s, Activated(x, reply));
          var p := w.db.profiles[x.playerId];
          if CanTransition(p.status, Pending) {
            MoveIsOk(cfg, mid, x.playerId, StartChange(s, x), now);
          } else {
            assert Move(mid, x.playerId, StartChange(s, x), now) == Err(InvalidTransition) by {
              NoTransition(mid, x.playerId, StartChange(s, x), now);
            }
          }
        }
      }
    }
  }

  lemma NoTransition(db: Db, player: string, c: Change, now: Time)
    requires player in db.profiles && player in db.log && !CanTransition(db.profiles[player].status, c.to)
    ensures Move(db, player, c, now) == Err(InvalidTransition)
  {
  }

  /** In a run that is timely for the session's player the profile never refuses. */
  lemma TimelyReplies(cfg: Config, w: World, s: Id, reply: Reply, now: Time)
    requires s < |w.db.sessions| && TimelyReachable(cfg, w, w.db.sessions[s].playerId)
    requires StatusOf(w, s) == Creating && IsSafe(cfg, w.db.sessions[s].startedAt, reply)
    ensures Finish(cfg, w.db, s, reply, now).1 ==
            if HeldElsewhere(w.db.sessions, s, reply.reference) then Err(UniqueViolation) else Ok(s)
  {
    hide Inv, TicketsOk, TimelyReachable, Reachable, CoherentFor, HeldElsewhere, Finish;
    TimelyOk(cfg, w, w.db.sessions[s].playerId);
    CreatingWaits(w.db, s);
    ReplyOutcomes(cfg, w, s, reply, now);
  }

  lemma AcceptableShows(cfg: Config, startedAt: Time, reply: Reply)
    requires Acceptable(cfg, startedAt, reply)
    ensures reply.Created?
  {
  }

  lemma CreatingWaits(db: Db, s: Id)
    requires s < |db.sessions| && CoherentFor(db.profiles, db.sessions, db.sessions[s].playerId)
    requires db.sessions[s].status == Creating
    ensures db.sessions[s].playerId in db.profiles
    ensures db.profiles[db.sessions[s].playerId].status in {NotStarted, Failed, Expired}
  {
    assert SessionFits(db.profiles, s, db.sessions[s]);
  }

  // ---- starting a verification ----

  /** The verification of the profile outlasts the call, by both of its clock readings. */
  ghost predicate StillVerified(db: Db, player: string, at: Time, now: Time) {
    && player in db.profiles && db.profiles[player].status == Verified
    && !VerificationDue(db.profiles[player], now) && !VerificationDue(db.profiles[player], at)
  }

  /** The player has an effective session, but it has elapsed and no sweep has expired it yet. */
  ghost predicate ElapsedUnswept(db: Db, player: string, at: Time) {
    exists s :: 0 <= s < |db.sessions| && db.sessions[s].playerId == player && SessionDue(db.sessions[s], at)
  }

  ghost function KnownUnder(db: Db, player: string, key: Option<string>): Option<Id> {
    if key.Some? then FindByKey(db.sessions, player, key.value) else None
  }

  /** A start call is refused exactly when the player is still verified or has an elapsed session that no sweep
      has expired; a session known under its key answers the call instead, unless it is the verified
      player's, and one that failed to be created always does. */
  lemma StartRefusedIff(cfg: Config, w: World, player: string, key: Option<string>, at: Time, now: Time)
    requires Reachable(cfg, w)
    ensures var r, known := Prepare(cfg, w.db, player, key, at, now).1, KnownUnder(w.db, player, key);
            var failed := known.Some? && StatusOf(w, known.value) == CreationFailed;
            && (r == Err(AlreadyVerified) <==> !failed && StillVerified(w.db, player, at, now))
            && (r == Err(ConflictUnresolved) <==>
                  known.None? && !StillVerified(w.db, player, at, now) && ElapsedUnswept(w.db, player, at))
            && (r.Err? ==> r.error in {AlreadyVerified, ConflictUnresolved})
            && (r.Ok? && known.Some? ==> r == Ok(known.value))
  {
    hide TicketsOk, Reachable, Filed, CurrentOk, SessionShape, AttemptsIncrease, CreatingIsNewest, ReferencesUnique,
      KeysUnique, ReviewsOk, ReviewSessionsOk, EventsOk, AllJustified, Reviewed, FindByKey, MaxAttempt;
    ReachableOk(cfg, w);
    CreateKeepsInv(cfg, w.db, player);
    var db0 := GetOrCreate(w.db, player);
    ExpireIfDueKeeps(cfg, db0, player, now);
    var db1 := ExpireIfDue(db0, player, now).value;
    assert db1.sessions == w.db.sessions;
    if FindEffective(w.db.sessions, player, at).Some? { UsableIsAlone(cfg, w.db, player, at); }
    else if KnownUnder(w.db, player, key).None? { ConflictIff(cfg, w.db, player, key, at); }
    ExpiredProfile(cfg, db0, player, now);
    if db0.profiles[player].status == Verified { VerifiedExpires(cfg, db0, player); }
  }

  lemma ExpiredProfile(cfg: Config, db: Db, player: string, now: Time)
    requires Inv(cfg, db) && player in db.profiles && ExpireIfDue(db, player, now).Ok?
    ensures var p := ExpireIfDue(db, player, now).value.profiles[player];
            if VerificationDue(db.profiles[player], now) then p.status == Expired else p == db.profiles[player]
  {
    hide Inv, Reviewed;
  }

  lemma VerifiedExpires(cfg: Config, db: Db, player: string)
    requires Inv(cfg, db) && player in db.profiles && db.profiles[player].status == Verified
    ensures db.profiles[player].expiresAt.Some?
  {
    hide LogReplays, SessionsOk, CurrentOk, AttemptsIncrease, CreatingIsNewest, OneEffective, ReferencesUnique,
      KeysUnique, ReviewsOk, ReviewSessionsOk, EventsOk, AllJustified, AllDated;
    assert ProfileShape(cfg, db.profiles[player]);
  }

  lemma UsableIsAlone(cfg: Config, db: Db, player: string, at: Time)
    requires Inv(cfg, db) && FindEffective(db.sessions, player, at).Some?
    ensures !ElapsedUnswept(db, player, at)
  {
    hide Filed, CurrentOk, SessionsOk, AttemptsIncrease, CreatingIsNewest, ReferencesUnique, KeysUnique, ReviewsOk,
      ReviewSessionsOk, EventsOk, AllJustified, FindEffective;
  }

  lemma ConflictIff(cfg: Config, db: Db, player: string, key: Option<string>, at: Time)
    requires Inv(cfg, db) && KnownUnder(db, player, key).None? && FindEffective(db.sessions, player, at).None?
    ensures Conflicts(db.sessions, player, key) <==> ElapsedUnswept(db, player, at)
  {
    hide Filed, CurrentOk, AttemptsIncrease, CreatingIsNewest, OneEffective, ReferencesUnique, KeysUnique, ReviewsOk,
      ReviewSessionsOk, EventsOk, AllJustified, FindByKey, FindEffective;
    forall s | 0 <= s < |db.sessions| && db.sessions[s].playerId == player
      ensures Effective(db.sessions[s].status) <==> SessionDue(db.sessions[s], at)
      ensures !(key.Some? && db.sessions[s].key == key) {
      assert SessionShape(db.sessions[s]) && !Usable(db.sessions[s], player, at);
      if key.Some? { assert !HasKey(db.sessions[s], player, key.value); }
    }
  }

  /** A start call from coherent rows leaves them coherent if and only if it does not race the end of the
      verification. */
  lemma StartIsCoherentIff(cfg: Config, w: World, player: string, key: Option<string>, at: Time, now: Time)
    requires TimelyReachable(cfg, w, player)
    ensures var after := Prepare(cfg, w.db, player, key, at, now).0;
            CoherentFor(after.profiles, after.sessions, player) <==> !RacesExpiry(w.db, player, key, at, now)
  {
    hide Inv, TicketsOk, TimelyReachable, Reachable, Prepare, RacesExpiry, CoherentFor;
    TimelyOk(cfg, w, player);
    PrepareKeeps(cfg, w.db, player, key, at, now);
    KeepsShows(cfg, w.db, Prepare(cfg, w.db, player, key, at, now).0, Unsettled(w.db, player, key, at, now), player);
    if RacesExpiry(w.db, player, key, at, now) { RaceStarts(cfg, w.db, player, key, at, now); }
  }

  lemma RaceStarts(cfg: Config, db: Db, player: string, key: Option<string>, at: Time, now: Time)
    requires Inv(cfg, db) && CoherentFor(db.profiles, db.sessions, player) && RacesExpiry(db, player, key, at, now)
    ensures var after := Prepare(cfg, db, player, key, at, now).0; !CoherentFor(after.profiles, after.sessions, player)
  {
    hide Inv, FindByKey, MaxAttempt, ProfileFits;
    forall s | 0 <= s < |db.sessions| && db.sessions[s].playerId == player ensures !Effective(db.sessions[s].status) {
      assert SessionFits(db.profiles, s, db.sessions[s]);
    }
    assert !Conflicts(db.sessions, player, key) by {
      if key.Some? {
        forall s | 0 <= s < |db.sessions| && db.sessions[s].playerId == player ensures db.sessions[s].key != key {
          assert !HasKey(db.sessions[s], player, key.value);
        }
      }
    }
    var after := Prepare(cfg, db, player, key, at, now).0;
    assert after.sessions[|db.sessions|].status == Creating
           && !SessionFits(after.profiles, |db.sessions|, after.sessions[|db.sessions|]);
  }

  /** A session found under a key stays the player's only session under it, and every later start call
      with that key that succeeds is given that session. */
  lemma OneSessionPerKey(cfg: Config, w: World, steps: seq<Step>, s: Id, key: string, at: Time, now: Time)
    requires Reachable(cfg, w) && s < |w.db.sessions| && w.db.sessions[s].key == Some(key)
    ensures var w', player := Run(cfg, w, steps), w.db.sessions[s].playerId;
            && s < |w'.db.sessions| && HasKey(w'.db.sessions[s], player, key)
            && (forall t :: 0 <= t < |w'.db.sessions| && HasKey(w'.db.sessions[t], player, key) ==> t == s)
            && var r := Prepare(cfg, w'.db, player, Some(key), at, now).1; r == Ok(s) || r == Err(AlreadyVerified)
  {
    hide WorldOk, Reachable, Run, Prepare, Extends, KeysUnique, Inv;
    ReachableOk(cfg, w);
    RunKeeps(cfg, w, steps, "");
    var w', player := Run(cfg, w, steps), w.db.sessions[s].playerId;
    SessionStays(w.db, w'.db, s);
    assert Inv(cfg, w'.db) && KeysUnique(w'.db.sessions) by { WorldKeys(cfg, w'); }
    UnderKey(w'.db.sessions, s, player, key);
    PrepareKnown(cfg, w'.db, player, key, at, now);
  }

  lemma SessionStays(a: Db, b: Db, s: Id)
    requires Extends(a, b) && s < |a.sessions|
    ensures s < |b.sessions| && b.sessions[s].playerId == a.sessions[s].playerId
    ensures b.sessions[s].key == a.sessions[s].key
  {
    assert SessionEvolves(a.sessions[s], b.sessions[s]);
  }

  lemma UnderKey(sessions: seq<Session>, s: Id, player: string, key: string)
    requires KeysUnique(sessions) && s < |sessions| && HasKey(sessions[s], player, key)
    ensures FindByKey(sessions, player, key) == Some(s)
    ensures forall t :: 0 <= t < |sessions| && HasKey(sessions[t], player, key) ==> t == s
  {
    hide FindByKey;
  }

  lemma WorldKeys(cfg: Config, w: World)
    requires WorldOk(cfg, w)
    ensures Inv(cfg, w.db) && KeysUnique(w.db.sessions)
  {
  }

  lemma PrepareKnown(cfg: Config, db: Db, player: string, key: string, at: Time, now: Time)
    requires Inv(cfg, db) && FindByKey(db.sessions, player, key).Some?
    ensures var r := Prepare(cfg, db, player, Some(key), at, now).1;
            r == Ok(FindByKey(db.sessions, player, key).value) || r == Err(AlreadyVerified)
  {
    hide Inv, FindByKey, FindEffective, MaxAttempt, Conflicts, Keeps, ExpireIfDue;
    CreateKeepsInv(cfg, db, player);
    ExpireIfDueKeeps(cfg, GetOrCreate(db, player), player, now);
  }

  // ---- history ----

  /** Some step of the run from w is a committing decision that names the session. */
  ghost predicate EverNamed(cfg: Config, w: World, steps: seq<Step>, s: Id) {
    steps != [] &&
    var n := |steps| - 1;
    EverNamed(cfg, w, steps[..n], s) || Names(cfg, Run(cfg, w, steps[..n]), steps[n], s)
  }

  /** Closed sessions are absorbing in every run, late decisions included: the row of a closed session stays exactly
      as it is until a committing decision names that very session. */
  lemma {:induction false} ClosedSessionsAbsorb(cfg: Config, w: World, steps: seq<Step>, s: Id)
    requires Reachable(cfg, w) && s < |w.db.sessions| && Closed(w.db.sessions[s].status)
    ensures s < |Run(cfg, w, steps).db.sessions|
    ensures !EverNamed(cfg, w, steps, s) ==> Run(cfg, w, steps).db.sessions[s] == w.db.sessions[s]
  {
    hide WorldOk, Reachable, Run;
    ReachableOk(cfg, w);
    ClosedThroughout(cfg, w, steps, s);
  }

  lemma {:induction false} ClosedThroughout(cfg: Config, w: World, steps: seq<Step>, s: Id)
    requires WorldOk(cfg, w) && s < |w.db.sessions| && Closed(w.db.sessions[s].status)
    ensures s < |Run(cfg, w, steps).db.sessions|
    ensures !EverNamed(cfg, w, steps, s) ==> Run(cfg, w, steps).db.sessions[s] == w.db.sessions[s]
  {
    hide WorldOk, Next, Names, Extends, IsCoherent, Timely;
    if steps != [] {
      var n := |steps| - 1;
      var before := Run(cfg, w, steps[..n]);
      ClosedThroughout(cfg, w, steps[..n], s);
      RunKeeps(cfg, w, steps[..n], "");
      NextKeeps(cfg, before, steps[n], "");
      assert |before.db.sessions| <= |Next(cfg, before, steps[n]).db.sessions| by {
        ExtendsSessions(before.db, Next(cfg, before, steps[n]).db);
      }
      if !EverNamed(cfg, w, steps, s) { ClosedUnlessNamed(cfg, before, steps[n], s); }
    }
  }

  lemma ExtendsSessions(a: Db, b: Db)
    requires Extends(a, b)
    ensures |a.sessions| <= |b.sessions|
  {
  }

  /** Some decision of the run from w names a session older than the player's current one, and commits. */
  ghost predicate EverSetBack(cfg: Config, w: World, steps: seq<Step>, player: string) {
    steps != [] &&
    var n := |steps| - 1;
    EverSetBack(cfg, w, steps[..n], player) || SetsBack(cfg, Run(cfg, w, steps[..n]), steps[n], player)
  }

  ghost predicate IsRow(db: Db, s: Option<Id>) { s.Some? && s.value < |db.sessions| }

  /** In every run, one step moves a player's current session to an older attempt if and only if it is a committing
      decision whose ticket names an older session than the current one; every other step keeps the current
      session or moves it to a strictly larger attempt, and so does a decision that finds its review open. */
  lemma SetBackIff(cfg: Config, w: World, s: Step, player: string)
    requires Reachable(cfg, w) && player in w.db.profiles && w.db.profiles[player].current.Some?
    ensures player in Next(cfg, w, s).db.profiles
    ensures var was, now := w.db.profiles[player].current, Next(cfg, w, s).db.profiles[player].current;
            && IsRow(w.db, was) && IsRow(Next(cfg, w, s).db, now)
            && var a, b := w.db.sessions[was.value].attempt, Next(cfg, w, s).db.sessions[now.value].attempt;
               && (b < a <==> SetsBack(cfg, w, s, player))
               && (now != was && !SetsBack(cfg, w, s, player) ==> a < b)
    ensures Commits(cfg, w, s) && ReviewOpen(w.db, s.ticket) ==> !SetsBack(cfg, w, s, player)
  {
    hide WorldOk, Reachable, Next, SetsBack, Decide, Possible, Extends, IsCoherent, Timely, ReviewOpen;
    ReachableOk(cfg, w);
    NextKeeps(cfg, w, s, player);
    ForwardUnlessSetBack(cfg, w, s, player);
    if Commits(cfg, w, s) && ReviewOpen(w.db, s.ticket) { OpenDecisionStays(cfg, w, s, player); }
    if SetsBack(cfg, w, s, player) { SetBackStays(cfg, w, s, player); }
    Attempts(cfg, w, Next(cfg, w, s), player);
  }

  lemma SetBackStays(cfg: Config, w: World, s: Step, player: string)
    requires WorldOk(cfg, w) && SetsBack(cfg, w, s, player)
    ensures player in Next(cfg, w, s).db.profiles && Next(cfg, w, s).db.profiles[player].current.Some?
  {
    hide Inv, Decide;
    assert TicketOk(w.db, s.ticket);
    DecisionMoves(cfg, w.db, s.ticket, s.outcome, s.now);
  }

  /** Positions and attempt numbers of a player's current sessions are in the same order. */
  lemma Attempts(cfg: Config, w: World, w': World, player: string)
    requires WorldOk(cfg, w) && WorldOk(cfg, w') && Extends(w.db, w'.db) && player in w.db.profiles
    requires w.db.profiles[player].current.Some?
    ensures player in w'.db.profiles
    ensures var was, now := w.db.profiles[player].current, w'.db.profiles[player].current;
            && IsRow(w.db, was)
            && (now.Some? ==>
                  && IsRow(w'.db, now)
                  && var a, b := w.db.sessions[was.value].attempt, w'.db.sessions[now.value].attempt;
                     && (was.value < now.value <==> a < b) && (now.value < was.value <==> b < a))
  {
    hide WorldOk, SessionShape;
    CurrentFacts(cfg, w);
    CurrentFacts(cfg, w');
    assert SessionEvolves(w.db.sessions[w.db.profiles[player].current.value],
                          w'.db.sessions[w.db.profiles[player].current.value]);
  }

  /** So along every run a player's current session moves only to strictly larger attempts, until a committing
      decision names an older session than the current one. */
  lemma AttemptsMoveForward(cfg: Config, w: World, steps: seq<Step>, player: string)
    requires Reachable(cfg, w) && player in w.db.profiles && w.db.profiles[player].current.Some?
    requires !EverSetBack(cfg, w, steps, player)
    ensures player in Run(cfg, w, steps).db.profiles
    ensures var was, now := w.db.profiles[player].current, Run(cfg, w, steps).db.profiles[player].current;
            && IsRow(w.db, was) && IsRow(Run(cfg, w, steps).db, now)
            && (now != was ==> w.db.sessions[was.value].attempt < Run(cfg, w, steps).db.sessions[now.value].attempt)
  {
    hide WorldOk, Reachable, Run, EverSetBack, Extends, IsCoherent, AllTimely;
    ReachableOk(cfg, w);
    RunKeeps(cfg, w, steps, player);
    ForwardThroughout(cfg, w, steps, player);
    Attempts(cfg, w, Run(cfg, w, steps), player);
  }

  lemma {:induction false} ForwardThroughout(cfg: Config, w: World, steps: seq<Step>, player: string)
    requires WorldOk(cfg, w) && player in w.db.profiles && !EverSetBack(cfg, w, steps, player)
    ensures Forward(w.db.profiles, Run(cfg, w, steps).db.profiles, player)
  {
    hide WorldOk, Next, SetsBack, Extends, IsCoherent, Timely;
    if steps != [] {
      var n := |steps| - 1;
      ForwardThroughout(cfg, w, steps[..n], player);
      RunKeeps(cfg, w, steps[..n], player);
      ForwardUnlessSetBack(cfg, Run(cfg, w, steps[..n]), steps[n], player);
    }
  }

  /** A run that is timely for the player never sets the player back. */
  lemma {:induction false} TimelyNeverSetsBack(cfg: Config, w: World, steps: seq<Step>, player: string)
    requires Reachable(cfg, w) && AllTimely(cfg, w, steps, player)
    ensures !EverSetBack(cfg, w, steps, player)
  {
    hide WorldOk, Reachable, Next, Commits, ReviewOpen, RacesExpiry, IsCoherent, Extends;
    if steps != [] {
      var n := |steps| - 1;
      TimelyNeverSetsBack(cfg, w, steps[..n], player);
      ReachableOk(cfg, w);
      RunKeeps(cfg, w, steps[..n], player);
      var before := Run(cfg, w, steps[..n]);
      if SetsBack(cfg, before, steps[n], player) { OpenDecisionStays(cfg, before, steps[n], player); }
    }
  }

  lemma CurrentFacts(cfg: Config, w: World)
    requires WorldOk(cfg, w)
    ensures CurrentOk(w.db.profiles, w.db.sessions) && AttemptsIncrease(w.db.sessions)
  {
  }

  /** Along every run, late decisions or not, a session's reference and expiry are written once, its identity and
      attempt never change, its provider time only grows, and logs and event rows are only appended. */
  lemma WriteOnce(cfg: Config, w: World, steps: seq<Step>, s: Id)
    requires Reachable(cfg, w) && s < |w.db.sessions|
    ensures var w' := Run(cfg, w, steps);
            && s < |w'.db.sessions| && SessionEvolves(w.db.sessions[s], w'.db.sessions[s])
            && (w.db.sessions[s].reference.Some? ==> w'.db.sessions[s].reference == w.db.sessions[s].reference)
            && w.db.events <= w'.db.events && LogsGrow(w.db.log, w'.db.log)
  {
    hide WorldOk, Reachable, Run;
    ReachableOk(cfg, w);
    RunKeeps(cfg, w, steps, "");
    assert SessionEvolves(w.db.sessions[s], Run(cfg, w, steps).db.sessions[s]);
    assert w.db.sessions[s].reference.Some? ==> w.db.sessions[s].status.At? by { ShapeOf(cfg, w, s); }
  }

  lemma ShapeOf(cfg: Config, w: World, s: Id)
    requires WorldOk(cfg, w) && s < |w.db.sessions|
    ensures SessionShape(w.db.sessions[s])
  {
    hide TicketsOk, Inv, SessionShape;
    SessionFacts(cfg, w.db, s);
  }

  // ---- why a profile is verified ----

  /** Every verified profile is justified, in every run, late decisions included: its last transition is the move to
      verified for its current session, by an admin decision or by a processed verified event that bears
      that session's provider and reference and was received strictly before the session's expiry; the
      verification then dates from that receipt, and it runs for exactly the configured time. */
  lemma VerifiedIsJustified(cfg: Config, w: World, player: string)
    requires Reachable(cfg, w) && player in w.db.profiles && w.db.profiles[player].status == Verified
    ensures player in w.db.log && w.db.log[player] != []
    ensures var row := w.db.log[player][|w.db.log[player]| - 1];
            && row.to == Verified && row.session.Some? && row.session == w.db.profiles[player].current
            && row.session.value < |w.db.sessions| && w.db.sessions[row.session.value].playerId == player
            && (|| row.trigger == ReviewDecision
                || (&& row.trigger == ProviderEventTrigger && row.eventRow.Some? && row.eventRow.value < |w.db.events|
                    && var e, x := w.db.events[row.eventRow.value], w.db.sessions[row.session.value];
                       && e.processing == Processed && e.event.result == Verified
                       && HasReference(x, e.event.provider, e.event.reference)
                       && x.expiresAt.Some? && e.receivedAt < x.expiresAt.value
                       && w.db.profiles[player].verifiedAt == Some(e.receivedAt)))
    ensures w.db.profiles[player].verifiedAt.Some?
    ensures w.db.profiles[player].expiresAt == Some(w.db.profiles[player].verifiedAt.value + cfg.verificationTtl)
  {
    hide SessionsOk, AttemptsIncrease, CreatingIsNewest, OneEffective, ReferencesUnique, KeysUnique, ReviewsOk,
      ReviewSessionsOk, EventsOk, TicketsOk, Reachable, LogStep;
    ReachableOk(cfg, w);
    assert ProfileShape(cfg, w.db.profiles[player]) && LogReplays(w.db.profiles[player], w.db.log[player]);
    var last := w.db.log[player][|w.db.log[player]| - 1];
    assert Justified(last, w.db.events, w.db.sessions) && DatedBy(w.db.profiles[player], last, w.db.events);
  }

  /** In a run that is timely for the player the session that justifies it is itself still verified. */
  lemma VerifiedSession(cfg: Config, w: World, player: string)
    requires TimelyReachable(cfg, w, player) && player in w.db.profiles && w.db.profiles[player].status == Verified
    ensures var current := w.db.profiles[player].current;
            current.Some? && current.value < |w.db.sessions| && StatusOf(w, current.value) == At(Verified)
  {
    hide WorldOk, TimelyReachable, Reachable, CoherentFor;
    TimelyOk(cfg, w, player);
    CurrentStatus(w.db, player);
  }

  // ---- the log ----

  /** The status a profile had at a version, read off its log. */
  ghost function StatusAt(log: seq<Transition>, version: nat): KycStatus
    requires 1 <= version <= |log| + 1
  {
    if version == 1 then NotStarted else log[version - 2].to
  }

  /** Between two states the log only gained rows, each the allowed transition of the next version from
      the status before it, and at both ends it replays to the stored status and version. */
  ghost predicate Guarded(p: Profile, before: seq<Transition>, q: Profile, after: seq<Transition>) {
    && before <= after
    && 1 <= p.version <= q.version == |after| + 1
    && StatusAt(after, p.version) == p.status && StatusAt(after, q.version) == q.status
    && forall k :: 0 <= k < |after| ==> LogStep(after, k)
  }

  lemma GuardsFromLogs(p: Profile, before: seq<Transition>, q: Profile, after: seq<Transition>)
    requires LogReplays(p, before) && LogReplays(q, after) && before <= after
    ensures Guarded(p, before, q, after)
  {
    hide LogStep;
  }

  /** The deferred guard holds between any two states of any run: a profile's status only ever changes with its
      transition rows, and the log replays to the stored status. */
  lemma DeferredGuardHolds(cfg: Config, w: World, steps: seq<Step>, player: string)
    requires Reachable(cfg, w) && player in w.db.profiles
    ensures var a, b := w.db, Run(cfg, w, steps).db;
            && player in a.log && player in b.profiles && player in b.log
            && Guarded(a.profiles[player], a.log[player], b.profiles[player], b.log[player])
  {
    hide WorldOk, Reachable, Run, LogReplays, Guarded;
    ReachableOk(cfg, w);
    RunKeeps(cfg, w, steps, "");
    StoredLog(cfg, w, player);
    StoredLog(cfg, Run(cfg, w, steps), player);
    GuardsFromLogs(w.db.profiles[player], w.db.log[player], Run(cfg, w, steps).db.profiles[player],
                   Run(cfg, w, steps).db.log[player]);
  }

  lemma StoredLog(cfg: Config, w: World, player: string)
    requires WorldOk(cfg, w) && player in w.db.profiles
    ensures player in w.db.log && LogReplays(w.db.profiles[player], w.db.log[player])
  {
    hide CurrentOk, SessionsOk, AttemptsIncrease, CreatingIsNewest, OneEffective, ReferencesUnique, KeysUnique,
      ReviewsOk, ReviewSessionsOk, EventsOk, AllJustified, TicketsOk, LogReplays;
  }

  /** In every run no stored event is left without an outcome, and the processed events of one session
      strictly advance in provider time. */
  lemma ProcessedEventsAdvance(cfg: Config, w: World, j: Id, k: Id)
    requires Reachable(cfg, w) && j < k < |w.db.events|
    ensures w.db.events[j].processing != Received
    ensures SameSession(w.db.events[j], w.db.events[k]) ==>
              w.db.events[j].event.occurredAt < w.db.events[k].event.occurredAt
  {
    hide Filed, CurrentOk, SessionsOk, AttemptsIncrease, CreatingIsNewest, OneEffective, ReferencesUnique, KeysUnique,
      ReviewsOk, ReviewSessionsOk, AllJustified, TicketsOk, Reachable, Behind;
    ReachableOk(cfg, w);
    assert OutcomeOk(w.db.events[j]);
  }

  // ---- replays ----

  /** The run without the deliveries whose identity is stored when they arrive. */
  ghost function WithoutRepeats(cfg: Config, w: World, steps: seq<Step>): seq<Step> {
    if steps == [] then []
    else
      var n := |steps| - 1;
      if steps[n].Deliver? && FindEvent(Run(cfg, w, steps[..n]).db.events, steps[n].event).Some? then
        WithoutRepeats(cfg, w, steps[..n])
      else WithoutRepeats(cfg, w, steps[..n]) + [steps[n]]
  }

  /** Replay: any run ends in the same state as the run with every delivery of a stored identity removed, whatever
      the repeated deliveries contain and whenever they arrive. */
  lemma {:induction false} RepeatsChangeNothing(cfg: Config, w: World, steps: seq<Step>)
    ensures Run(cfg, w, WithoutRepeats(cfg, w, steps)) == Run(cfg, w, steps)
  {
    hide Next, FindEvent;
    if steps != [] {
      var n := |steps| - 1;
      RepeatsChangeNothing(cfg, w, steps[..n]);
      var before, kept := Run(cfg, w, steps[..n]), WithoutRepeats(cfg, w, steps[..n]);
      if steps[n].Deliver? && FindEvent(before.db.events, steps[n].event).Some? {
        DuplicateIsNoOp(cfg, before, steps[n]);
      } else {
        assert (kept + [steps[n]])[..|kept|] == kept;
      }
    }
  }

  lemma DuplicateIsNoOp(cfg: Config, w: World, s: Step)
    requires s.Deliver? && FindEvent(w.db.events, s.event).Some?
    ensures Next(cfg, w, s) == w
  {
  }

  lemma DeliveryStores(cfg: Config, db: Db, e: ProviderEvent, now: Time)
    requires Inv(cfg, db) && !Callback(cfg, db, e, now).1.Raised?
    ensures FindEvent(Callback(cfg, db, e, now).0.events, e).Some?
  {
    hide Inv, FindByReference, Reviewed, ExpireSession, IsStale, Keeps;
    var next := Callback(cfg, db, e, now).0;
    if FindEvent(db.events, e).None? {
      var found := FindByReference(db.sessions, e.provider, e.reference);
      if found.Some? && e.provider == cfg.provider && e.occurredAt <= now + cfg.maxFutureSkew {
        SessionFacts(cfg, db, found.value);
        HandleAppends(cfg, db, found.value, e, now);
      }
      assert next.events != [] && next.events[|next.events| - 1].event == e;
    }
  }

  lemma HandleAppends(cfg: Config, db: Db, s: Id, e: ProviderEvent, now: Time)
    requires s < |db.sessions| && db.sessions[s].playerId in db.profiles
    ensures var (next, r) := HandleEvent(cfg, db, s, e, now);
            !r.Raised? ==> next.events != [] && next.events[|next.events| - 1].event == e
  {
    hide Reviewed, IsStale, SessionOrdered, ExpiryOrdered, OtherEffective;
  }

  lemma SameIsRow(a: seq<EventRow>, b: seq<EventRow>, e: ProviderEvent, again: ProviderEvent)
    requires a <= b && FindEvent(a, e).Some? && SameIdentity(e, again)
    ensures FindEvent(b, again).Some?
  {
    assert b[FindEvent(a, e).value] == a[FindEvent(a, e).value];
  }

  /** After a delivery that did not raise, its identity is stored for good: however the run goes on, each later delivery
      of that identity is one of the repeats above. */
  lemma DeliveredForGood(cfg: Config, w: World, e: ProviderEvent, t: Time, steps: seq<Step>, again: ProviderEvent)
    requires Reachable(cfg, w) && !Callback(cfg, w.db, e, t).1.Raised? && SameIdentity(e, again)
    ensures FindEvent(Run(cfg, Next(cfg, w, Deliver(e, t)), steps).db.events, again).Some?
  {
    hide Inv, TicketOk, Reachable, Run, Callback, FindEvent, Extends, SameIdentity, IsCoherent, AllTimely, Timely;
    ReachableOk(cfg, w);
    var w1 := Next(cfg, w, Deliver(e, t));
    NextKeeps(cfg, w, Deliver(e, t), "");
    RunKeeps(cfg, w1, steps, "");
    DeliveryStores(cfg, w.db, e, t);
    assert w1.db.events <= Run(cfg, w1, steps).db.events by { ExtendsEvents(w1.db, Run(cfg, w1, steps).db); }
    SameIsRow(w1.db.events, Run(cfg, w1, steps).db.events, e, again);
  }

  lemma ExtendsEvents(a: Db, b: Db)
    requires Extends(a, b)
    ensures a.events <= b.events
  {
  }
}
