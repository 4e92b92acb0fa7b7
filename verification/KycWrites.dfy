/** What a move of a profile writes: the profile, its log row, and the review it requests or completes. */
module KycWrites {
  import opened Wrappers
  import opened KycDomain
  import opened KycProtocol
  import opened KycInvariants
  import opened KycHistory
  import opened KycTransactions

  /** A profile that enters manual review has a review requested for its session; one that leaves it has its open
      review completed with the status it leaves for; no other review changes. */
  ghost predicate ReviewsFollow(a: seq<Review>, b: seq<Review>, player: string, p: Profile, q: Profile, now: Time) {
    if p.status != ManualReview && q.status == ManualReview then
      b == a + [Review(player, q.current, Requested, None, now, None, None,
                       [ReviewAction(ReviewRequested, p.status, ManualReview, now)])]
    else if p.status == ManualReview && q.status != ManualReview then
      && |b| == |a|
      && (forall r :: 0 <= r < |a| ==>
            b[r] == if a[r].playerId != player || a[r].status == Completed then a[r]
                    else a[r].(status := Completed, completedAt := Some(now),
                               actions := a[r].actions
                                          + [ReviewAction(ReviewClosed(q.status), ManualReview, q.status, now)]))
    else b == a
  }

  /** The player's profile, and only it, became q, with one log row that says why. */
  ghost predicate Moves(a: Db, b: Db, player: string, q: Profile, trigger: Trigger, eventRow: Option<Id>, now: Time) {
    && player in a.profiles && player in a.log
    && var p := a.profiles[player];
       && q.version == p.version + 1
       && b.profiles == a.profiles[player := q]
       && b.log == a.log[player :=
            a.log[player] + [Transition(q.current, p.status, q.status, trigger, eventRow, q.version)]]
       && ReviewsFollow(a.reviews, b.reviews, player, p, q, now)
  }

  /** No profile moved. */
  ghost predicate Stays(a: Db, b: Db) { b.profiles == a.profiles && b.log == a.log && b.reviews == a.reviews }

  /** At most one review of a player is open. */
  ghost predicate OneOpen(reviews: seq<Review>) {
    forall q, r :: 0 <= q < r < |reviews| && reviews[q].playerId == reviews[r].playerId
                   ==> reviews[q].status == Completed || reviews[r].status == Completed
  }

  lemma OneOpenReview(cfg: Config, db: Db)
    requires Inv(cfg, db)
    ensures OneOpen(db.reviews)
  {
    hide Filed, CurrentOk, SessionsOk, AttemptsIncrease, CreatingIsNewest, OneEffective, ReferencesUnique, KeysUnique,
      ReviewSessionsOk, EventsOk, AllJustified, AllDated, ReviewShape;
  }

  lemma MoveWrites(db: Db, player: string, c: Change, now: Time)
    requires OneOpen(db.reviews) && Move(db, player, c, now).Ok?
    ensures player in db.profiles
    ensures var next := Move(db, player, c, now).value;
            && next.sessions == db.sessions && next.events == db.events
            && Moves(db, next, player, Changed(db.profiles[player], c), c.trigger, c.eventRow, now)
  {
  }
}
