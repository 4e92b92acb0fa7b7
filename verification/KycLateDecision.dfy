/** Runs in which a review decision arrives late. In the first its review is approved by a provider event, the
    verification expires and a new attempt starts before the decision takes its locks; it commits, and leaves
    the new session waiting for a profile that no longer refers to it. In the second two decisions on one review
    commit, and the session they leave behind can never be expired. */
module KycLateDecision {
  import opened Wrappers
  import opened KycDomain
  import opened KycProtocol
  import opened KycInvariants
  import opened KycTransactions
  import opened KycRuns
  import opened KycTheorems
  import opened KycClock
  import opened KycSweeps

  const EXAMPLE := Config("idv", 10, 1)

  function Event(id: string, result: KycStatus, at: Time): ProviderEvent {
    ProviderEvent("idv", id, "first", None, "status", result, at, "hash")
  }

  const IN_REVIEW := Event("a", ManualReview, 1)
  const APPROVED := Event("b", Verified, 2)

  const THE_TICKET := Ticket(0, "player", 0)

  const STEPS: seq<Step> := [
    Begin("player", None, 0, 0),
    Answered(0, Created("idv", "first", None, 100), 0),
    Deliver(IN_REVIEW, 1),
    Look(0),
    Deliver(APPROVED, 2),
    Begin("player", None, 20, 20),
    Answered(1, Created("idv", "second", None, 200), 20),
    Conclude(THE_TICKET, Verified, 30)
  ]

  // ---- the rows along the way ----

  const SESSION_0 := FreshSession(EXAMPLE, "player", None, 1, 0)
  const SESSION_0_PENDING := Activated(SESSION_0, Created("idv", "first", None, 100))
  const SESSION_0_IN_REVIEW := Updated(SESSION_0_PENDING, ManualReview, 1, None)
  const SESSION_0_VERIFIED := Updated(SESSION_0_IN_REVIEW, Verified, 2, Some(2))
  const SESSION_1 := FreshSession(EXAMPLE, "player", None, 2, 20)
  const SESSION_1_PENDING := Activated(SESSION_1, Created("idv", "second", None, 200))

  const PENDING_0 := Profile(Pending, Some("idv"), Some(0), None, None, None, 2)
  const IN_REVIEW_0 := Profile(ManualReview, Some("idv"), Some(0), None, None, None, 3)
  const VERIFIED_0 := Profile(Verified, Some("idv"), Some(0), Some(2), Some(12), None, 4)
  const EXPIRED_0 := Profile(Expired, Some("idv"), Some(0), Some(2), Some(12), None, 5)
  const PENDING_1 := Profile(Pending, Some("idv"), Some(1), Some(2), None, None, 6)

  const LOG: seq<Transition> := [
    Transition(Some(0), NotStarted, Pending, SessionStarted, None, 2),
    Transition(Some(0), Pending, ManualReview, ProviderEventTrigger, Some(0), 3),
    Transition(Some(0), ManualReview, Verified, ProviderEventTrigger, Some(1), 4),
    Transition(Some(0), Verified, Expired, RequestTimeExpiry, None, 5),
    Transition(Some(1), Expired, Pending, SessionStarted, None, 6)
  ]

  const ASKED := Request("player", Some(0), Pending, 1)
  const ROW_A := Row(IN_REVIEW, Processed, Applied(ManualReview), 1)
  const ROW_B := Row(APPROVED, Processed, Applied(Verified), 2)

  function Tables(p: Profile, log: seq<Transition>, sessions: seq<Session>, reviews: seq<Review>,
                  events: seq<EventRow>): Db
  {
    Db(map["player" := p], map["player" := log], sessions, reviews, events)
  }

  const W1 := World(Tables(FRESH_PROFILE, [], [SESSION_0], [], []), {})
  const W2 := World(Tables(PENDING_0, LOG[..1], [SESSION_0_PENDING], [], []), {})
  const W3 := World(Tables(IN_REVIEW_0, LOG[..2], [SESSION_0_IN_REVIEW], [ASKED], [ROW_A]), {})
  const W4 := W3.(tickets := {THE_TICKET})
  const W5 := World(
    Tables(VERIFIED_0, LOG[..3], [SESSION_0_VERIFIED], [Close(ASKED, Verified, 2)], [ROW_A, ROW_B]),
    {THE_TICKET})
  const W6 := World(
    Tables(EXPIRED_0, LOG[..4], [SESSION_0_VERIFIED, SESSION_1], [Close(ASKED, Verified, 2)], [ROW_A, ROW_B]),
    {THE_TICKET})
  const W7 := World(
    Tables(PENDING_1, LOG, [SESSION_0_VERIFIED, SESSION_1_PENDING], [Close(ASKED, Verified, 2)], [ROW_A, ROW_B]),
    {THE_TICKET})

  // ---- the steps ----

  lemma Moves(mid: Db, p: Profile, log: seq<Transition>, c: Change, at: Time, reviews: seq<Review>, next: Db)
    requires mid.profiles == map["player" := p] && mid.log == map["player" := log] && CanTransition(p.status, c.to)
    requires ExpiryOrdered(Changed(p, c))
    requires Reviewed(mid.reviews, "player", p, c, at) == Ok(reviews)
    requires next == Tables(Changed(p, c), log + [LogRow(p, c)], mid.sessions, reviews, mid.events)
    ensures Move(mid, "player", c, at) == Ok(next)
  {
    hide Reviewed, Changed, LogRow;
    assert mid.profiles["player" := Changed(p, c)] == next.profiles;
    assert mid.log["player" := log + [LogRow(p, c)]] == next.log;
  }

  lemma Step1()
    ensures Next(EXAMPLE, START, STEPS[0]) == W1
  {
  }

  lemma Step2()
    ensures Next(EXAMPLE, W1, STEPS[1]) == W2
  {
    var reply := Created("idv", "first", None, 100);
    assert !Blank(reply.reference) by { assert !IsSpace(reply.reference[0]); }
    var mid := PutSession(W1.db, 0, SESSION_0_PENDING);
    assert mid.sessions == [SESSION_0_PENDING];
    assert LOG[..1] == [] + [LogRow(FRESH_PROFILE, StartChange(0, SESSION_0))];
    Moves(mid, FRESH_PROFILE, [], StartChange(0, SESSION_0), 0, [], W2.db);
    assert Activate(W1.db, 0, reply, 0).0 == W2.db;
  }

  lemma Step3()
    ensures Next(EXAMPLE, W2, STEPS[2]) == W3
  {
    var db := W2.db;
    var c := EventChange(EXAMPLE, PENDING_0, 0, SESSION_0_PENDING, IN_REVIEW, 0, 1);
    assert FindByReference(db.sessions, "idv", "first") == Some(0);
    var mid := Insert(PutSession(db, 0, SESSION_0_IN_REVIEW), ROW_A);
    assert mid.sessions == [SESSION_0_IN_REVIEW] && mid.events == [ROW_A];
    assert LOG[..2] == LOG[..1] + [LogRow(PENDING_0, c)];
    assert [] + [ASKED] == [ASKED];
    Moves(mid, PENDING_0, LOG[..1], c, 1, [ASKED], W3.db);
    assert ApplyEvent(EXAMPLE, db, 0, IN_REVIEW, 1) == Ok(W3.db);
  }

  lemma Step4()
    ensures Next(EXAMPLE, W3, STEPS[3]) == W4
  {
  }

  lemma Step5()
    ensures Next(EXAMPLE, W4, STEPS[4]) == W5
  {
    hide Move, FindEvent;
    var db := W4.db;
    var c := EventChange(EXAMPLE, IN_REVIEW_0, 0, SESSION_0_IN_REVIEW, APPROVED, 1, 2);
    assert FindByReference(db.sessions, "idv", "first") == Some(0);
    assert FindEvent(db.events, APPROVED) == None;
    var mid := Insert(PutSession(db, 0, SESSION_0_VERIFIED), ROW_B);
    assert mid.sessions == [SESSION_0_VERIFIED] && mid.events == [ROW_A, ROW_B];
    assert Move(mid, "player", c, 2) == Ok(W5.db) by { Step5Move(mid, c); }
    assert ApplyEvent(EXAMPLE, db, 0, APPROVED, 2) == Ok(W5.db);
  }

  lemma Step5Move(mid: Db, c: Change)
    requires c == EventChange(EXAMPLE, IN_REVIEW_0, 0, SESSION_0_IN_REVIEW, APPROVED, 1, 2)
    requires mid == W5.db.(profiles := W4.db.profiles, log := W4.db.log, reviews := W4.db.reviews)
    ensures Move(mid, "player", c, 2) == Ok(W5.db)
  {
    assert ActiveReview([ASKED], "player") == Some(0);
    assert [ASKED][0 := Close(ASKED, Verified, 2)] == [Close(ASKED, Verified, 2)];
    assert LOG[..3] == LOG[..2] + [LogRow(IN_REVIEW_0, c)];
    Moves(mid, IN_REVIEW_0, LOG[..2], c, 2, [Close(ASKED, Verified, 2)], W5.db);
  }

  lemma Step6()
    ensures Next(EXAMPLE, W5, STEPS[5]) == W6
  {
    hide ActiveReview;
    assert LOG[..4] == LOG[..3] + [LogRow(VERIFIED_0, RequestExpiry(VERIFIED_0))];
    var expired := Tables(EXPIRED_0, LOG[..4], [SESSION_0_VERIFIED], [Close(ASKED, Verified, 2)], [ROW_A, ROW_B]);
    Moves(W5.db, VERIFIED_0, LOG[..3], RequestExpiry(VERIFIED_0), 20, W5.db.reviews, expired);
    assert ExpireIfDue(W5.db, "player", 20) == Ok(expired);
    assert MaxAttempt([], "player") == 0;
    assert [SESSION_0_VERIFIED][..0] == [];
    assert MaxAttempt([SESSION_0_VERIFIED], "player") == 1;
    assert [SESSION_0_VERIFIED] + [SESSION_1] == [SESSION_0_VERIFIED, SESSION_1];
  }

  lemma Step7()
    ensures Next(EXAMPLE, W6, STEPS[6]) == W7
  {
    var reply := Created("idv", "second", None, 200);
    assert !Blank(reply.reference) by { assert !IsSpace(reply.reference[0]); }
    var mid := PutSession(W6.db, 1, SESSION_1_PENDING);
    assert mid.sessions == [SESSION_0_VERIFIED, SESSION_1_PENDING];
    assert !ReferenceTaken(W6.db.sessions, 1, "second") by { assert "first"[0] != "second"[0]; }
    assert LOG == LOG[..4] + [LogRow(EXPIRED_0, StartChange(1, SESSION_1))];
    Moves(mid, EXPIRED_0, LOG[..4], StartChange(1, SESSION_1), 20, W6.db.reviews, W7.db);
    assert Activate(W6.db, 1, reply, 20).0 == W7.db;
  }

  lemma Step8()
    ensures Commits(EXAMPLE, W7, STEPS[7])
    ensures !IsCoherent(Next(EXAMPLE, W7, STEPS[7]), "player")
  {
    var c := DecisionChange(EXAMPLE, THE_TICKET, SESSION_0_VERIFIED, Verified, 30);
    var db := Decide(EXAMPLE, W7.db, THE_TICKET, Verified, 30).0;
    assert CanTransition(Pending, Verified);
    assert db.profiles["player"] == Changed(PENDING_1, c) && db.sessions[1] == SESSION_1_PENDING;
    assert !SessionFits(db.profiles, 1, db.sessions[1]);
  }

  lemma Prefix(steps: seq<Step>, k: nat)
    requires k < |steps|
    ensures Run(EXAMPLE, START, steps[..k + 1]) == Next(EXAMPLE, Run(EXAMPLE, START, steps[..k]), steps[k])
    ensures && Timely(EXAMPLE, Run(EXAMPLE, START, steps[..k]), steps[k], "player")
            && AllTimely(EXAMPLE, START, steps[..k], "player") ==>
              AllTimely(EXAMPLE, START, steps[..k + 1], "player")
    ensures steps[..0] == [] && steps[..|steps|] == steps
  {
    hide Next, Timely;
    assert steps[..k + 1][..k] == steps[..k];
  }

  lemma OthersAreTimely(w: World, s: Step)
    requires !s.Conclude? && (s.Begin? ==> s.at <= s.now)
    ensures Timely(EXAMPLE, w, s, "player")
  {
  }

  lemma FirstSteps()
    ensures Run(EXAMPLE, START, STEPS[..4]) == W4 && Run(EXAMPLE, START, STEPS[..7]) == W7
    ensures AllTimely(EXAMPLE, START, STEPS[..7], "player")
  {
    hide Next, IsCoherent, Timely;
    Step1(); Step2(); Step3(); Step4(); Step5(); Step6(); Step7();
    for k := 0 to 7
      invariant AllTimely(EXAMPLE, START, STEPS[..k], "player")
      invariant Run(EXAMPLE, START, STEPS[..k]) == [START, W1, W2, W3, W4, W5, W6, W7][k]
      invariant k >= 4 ==> Run(EXAMPLE, START, STEPS[..4]) == W4
    {
      OthersAreTimely(Run(EXAMPLE, START, STEPS[..k]), STEPS[k]);
      Prefix(STEPS, k);
    }
  }

  /** The example is a run from the empty tables whose every step but the last is timely, and whose
      last step, a committed decision, leaves the player's rows incoherent. */
  lemma LateDecisionBreaksCoherence()
    ensures AllTimely(EXAMPLE, START, STEPS[..7], "player") && Run(EXAMPLE, START, STEPS[..7]) == W7
    ensures Commits(EXAMPLE, W7, STEPS[7]) && !ReviewOpen(W7.db, THE_TICKET)
    ensures !IsCoherent(Run(EXAMPLE, START, STEPS), "player")
  {
    hide Next, IsCoherent, Commits, Timely, AllTimely;
    FirstSteps();
    Prefix(STEPS, 7);
    Step8();
  }

  // ---- two decisions on one review ----

  /** The review is approved although its session has expired, the verification expires, and the same ticket then
      resumes the session. */
  const APPROVE := Conclude(THE_TICKET, Verified, 150)
  const EXPIRE := Read("player", 170)
  const RESUME := Conclude(THE_TICKET, Pending, 180)

  const TWICE: seq<Step> := STEPS[..4] + [APPROVE, EXPIRE, RESUME]

  const APPROVAL := Transition(Some(0), ManualReview, Verified, ReviewDecision, None, 4)
  const LAPSE := Transition(Some(0), Verified, Expired, RequestTimeExpiry, None, 5)
  const RESUMPTION := Transition(Some(0), Expired, Pending, ReviewDecision, None, 6)

  const SESSION_0_APPROVED := Updated(SESSION_0_IN_REVIEW, Verified, 150, Some(150))
  const SESSION_0_RESUMED := Updated(SESSION_0_APPROVED, Pending, 180, None)

  const APPROVED_0 := Profile(Verified, Some("idv"), Some(0), Some(150), Some(160), None, 4)
  const LAPSED_0 := Profile(Expired, Some("idv"), Some(0), Some(150), Some(160), None, 5)
  const RESUMED_0 := Profile(Pending, Some("idv"), Some(0), Some(150), None, None, 6)

  const DECIDED := Close(ASKED, Verified, 150)

  const V5 := World(Tables(APPROVED_0, LOG[..2] + [APPROVAL], [SESSION_0_APPROVED], [DECIDED], [ROW_A]), {THE_TICKET})
  const V6 := World(
    Tables(LAPSED_0, LOG[..2] + [APPROVAL, LAPSE], [SESSION_0_APPROVED], [DECIDED], [ROW_A]),
    {THE_TICKET})
  const V7 := World(
    Tables(RESUMED_0, LOG[..2] + [APPROVAL, LAPSE, RESUMPTION], [SESSION_0_RESUMED], [DECIDED], [ROW_A]),
    {THE_TICKET})

  lemma ApproveStep()
    ensures Commits(EXAMPLE, W4, APPROVE) && Next(EXAMPLE, W4, APPROVE) == V5
  {
    var c := DecisionChange(EXAMPLE, THE_TICKET, SESSION_0_IN_REVIEW, Verified, 150);
    var mid := PutSession(W4.db, 0, SESSION_0_APPROVED);
    assert mid.sessions == [SESSION_0_APPROVED];
    assert ActiveReview([ASKED], "player") == Some(0);
    assert [ASKED][0 := DECIDED] == [DECIDED];
    Moves(mid, IN_REVIEW_0, LOG[..2], c, 150, [DECIDED], V5.db);
    assert Decide(EXAMPLE, W4.db, THE_TICKET, Verified, 150) == (V5.db, Ok(0));
  }

  lemma ExpireStep()
    ensures !Commits(EXAMPLE, V5, EXPIRE) && Next(EXAMPLE, V5, EXPIRE) == V6
  {
    assert LOG[..2] + [APPROVAL, LAPSE] == LOG[..2] + [APPROVAL] + [LogRow(APPROVED_0, RequestExpiry(APPROVED_0))];
    Moves(V5.db, APPROVED_0, LOG[..2] + [APPROVAL], RequestExpiry(APPROVED_0), 170, V5.db.reviews, V6.db);
    assert ExpireIfDue(V5.db, "player", 170) == Ok(V6.db);
  }

  lemma ResumeStep()
    ensures Commits(EXAMPLE, V6, RESUME) && Next(EXAMPLE, V6, RESUME) == V7
  {
    var c := DecisionChange(EXAMPLE, THE_TICKET, SESSION_0_APPROVED, Pending, 180);
    assert !OtherEffective(V6.db.sessions, 0);
    var mid := PutSession(V6.db, 0, SESSION_0_RESUMED);
    assert mid.sessions == [SESSION_0_RESUMED];
    var log := LOG[..2] + [APPROVAL, LAPSE];
    assert LOG[..2] + [APPROVAL, LAPSE, RESUMPTION] == log + [LogRow(LAPSED_0, c)];
    Moves(mid, LAPSED_0, log, c, 180, V6.db.reviews, V7.db);
    assert Decide(EXAMPLE, V6.db, THE_TICKET, Pending, 180) == (V7.db, Ok(0));
  }

  lemma NoneBefore(k: nat)
    requires k <= 4
    ensures Conclusions(EXAMPLE, TWICE[..k], 0) == 0
  {
    hide Run, Next;
    if k > 0 {
      NoneBefore(k - 1);
      assert TWICE[..k][..k - 1] == TWICE[..k - 1] && TWICE[..k][k - 1] == STEPS[k - 1] && !STEPS[k - 1].Conclude?;
    }
  }

  lemma CountPrefix(k: nat, w: World)
    requires k < |TWICE| && Run(EXAMPLE, START, TWICE[..k]) == w
    ensures Conclusions(EXAMPLE, TWICE[..k + 1], 0) ==
            Conclusions(EXAMPLE, TWICE[..k], 0) + if Concludes(EXAMPLE, w, TWICE[k], 0) then 1 else 0
  {
    hide Next, Concludes;
    assert TWICE[..k + 1][..k] == TWICE[..k];
  }

  /** One decision per review is false of runs in which a decision arrives late: a run from the empty tables in
      which two decisions on one review commit, both with the ticket that was read while it was open. */
  lemma TwoDecisionsCommit()
    ensures Conclusions(EXAMPLE, TWICE, 0) == 2 && Run(EXAMPLE, START, TWICE) == V7
  {
    hide Next, Run, Conclusions, Commits, AllTimely;
    FirstSteps();
    assert TWICE[..4] == STEPS[..4] && TWICE[4] == APPROVE && TWICE[5] == EXPIRE && TWICE[6] == RESUME && |TWICE| == 7;
    ApproveStep();
    ExpireStep();
    ResumeStep();
    NoneBefore(4);
    Prefix(TWICE, 4);
    CountPrefix(4, W4);
    Prefix(TWICE, 5);
    CountPrefix(5, V5);
    Prefix(TWICE, 6);
    CountPrefix(6, V6);
    assert TWICE[..7] == TWICE;
  }

  // ---- a session that cannot be expired ----

  /** The event is new, in time, and names the resumed session. */
  predicate NamesResumed(e: ProviderEvent, now: Time) {
    e.provider == "idv" && e.reference == "first" && e.eventId != "a" && e.occurredAt <= now + 1
  }

  /** That run, whose readings of the clock never decrease, leaves a pending session that expired before its player was
      verified. From its expiry on every event for it makes the callback raise, and every sweep whose batch holds it
      is rolled back. */
  lemma NeverExpires(e: ProviderEvent, ids: seq<Id>, limit: nat, now: Time)
    requires now >= 100
    ensures Run(EXAMPLE, START, TWICE) == V7 && NonDecreasing(TWICE) && V7.db.sessions[0].status == At(Pending)
    ensures NamesResumed(e, now) ==> Callback(EXAMPLE, V7.db, e, now) == (V7.db, Raised(CheckViolation))
    ensures IsBatch(V7.db, now, limit, ids) && 0 in ids ==> Next(EXAMPLE, V7, ElapseSessions(ids, limit, now)) == V7
  {
    hide Run, Next, Inv, TicketsOk, Callback, IsBatch, SweptSessions;
    TwoDecisionsCommit();
    assert NonDecreasing(TWICE) by { TwiceInOrder(); }
    assert Reachable(EXAMPLE, V7);
    assert Blocked(V7.db, 0, now);
    if NamesResumed(e, now) {
      CallbackRaisesIff(EXAMPLE, V7, e, "player", now);
      assert CallbackRefused(EXAMPLE, V7.db, e, now) by { Refused0(e, now); }
    }
    if IsBatch(V7.db, now, limit, ids) && 0 in ids {
      SessionSweepRaisesIff(EXAMPLE, V7, ids, limit, now);
    }
  }

  lemma Refused0(e: ProviderEvent, now: Time)
    requires NamesResumed(e, now) && now >= 100
    ensures CallbackRefused(EXAMPLE, V7.db, e, now)
  {
    assert FindByReference(V7.db.sessions, "idv", "first") == Some(0);
    assert !SameIdentity(ROW_A.event, e);
    assert FindEvent([ROW_A], e) == None;
  }

  lemma TwiceInOrder()
    ensures NonDecreasing(TWICE)
  {
    assert STEPS[..4] == [STEPS[0], STEPS[1], STEPS[2], STEPS[3]];
    assert TWICE == [STEPS[0], STEPS[1], STEPS[2], STEPS[3], APPROVE, EXPIRE, RESUME];
  }
}
