/** The KYC expiry sweeps: when one raises, and that full batches at one time otherwise expire every due row, once. */
module KycSweeps {
  import opened Wrappers
  import opened Batches
  import opened KycDomain
  import opened KycProtocol
  import opened KycInvariants
  import opened KycHistory
  import opened KycTransactions
  import opened KycWrites
  import opened KycRuns
  import opened KycTheorems

  // ---- sessions ----

  /** The session is pending or in review, and its expiry has come. */
  predicate IsDue(x: Session, now: Time) {
    x.status in {At(Pending), At(ManualReview)} && x.expiresAt.Some? && x.expiresAt.value <= now
  }

  ghost function DueSessionSet(db: Db, now: Time): set<Id> {
    set s | 0 <= s < |db.sessions| && IsDue(db.sessions[s], now)
  }

  /** The player's profile waits on one of the sessions. */
  ghost predicate WaitsOnOne(db: Db, player: string, sessions: set<Id>) {
    && player in db.profiles
    && var p := db.profiles[player];
       p.status in {Pending, ManualReview} && p.current.Some? && p.current.value in sessions
       && p.current.value < |db.sessions|
  }

  function Lapsed(p: Profile, at: Option<Time>): Profile {
    p.(status := Expired, expiresAt := at, failure := None, version := p.version + 1)
  }

  /** Exactly the sessions in the set have expired, each in one step, and with each the profile that waited on it, which
      expires when its session did; and the open review of such a profile is completed. */
  ghost predicate SweptSessions(a: Db, b: Db, swept: set<Id>, now: Time) {
    && |b.sessions| == |a.sessions| && b.events == a.events
    && (forall s :: 0 <= s < |a.sessions| ==>
          b.sessions[s] == if s in swept then a.sessions[s].(status := At(Expired), completedAt := Some(now))
                           else a.sessions[s])
    && b.profiles.Keys == a.profiles.Keys && b.log.Keys == a.log.Keys
    && (forall p :: p in a.profiles ==> b.profiles[p] == ProfileSwept(a, p, swept))
    && (forall p :: p in a.log ==> b.log[p] == LogSwept(a, p, swept))
    && |b.reviews| == |a.reviews|
    && (forall r :: 0 <= r < |a.reviews| ==> b.reviews[r] == ReviewSwept(a, a.reviews[r], swept, now))
  }

  ghost function ProfileSwept(a: Db, player: string, swept: set<Id>): Profile
    requires player in a.profiles
  {
    var p := a.profiles[player];
    if WaitsOnOne(a, player, swept) then Lapsed(p, a.sessions[p.current.value].expiresAt) else p
  }

  ghost function LogSwept(a: Db, player: string, swept: set<Id>): seq<Transition>
    requires player in a.log
  {
    if WaitsOnOne(a, player, swept) then
      var p := a.profiles[player];
      a.log[player] + [Transition(p.current, p.status, Expired, SessionExpiry, None, p.version + 1)]
    else a.log[player]
  }

  ghost function ReviewSwept(a: Db, r: Review, swept: set<Id>, now: Time): Review {
    if r.status != Completed && WaitsOnOne(a, r.playerId, swept) && a.profiles[r.playerId].status == ManualReview then
      r.(status := Completed, completedAt := Some(now),
         actions := r.actions + [ReviewAction(ReviewClosed(Expired), ManualReview, Expired, now)])
    else r
  }

  /** Only one player's profile and reviews may differ. */
  ghost predicate OnlyRowsOf(a: Db, b: Db, player: string) {
    && b.profiles.Keys == a.profiles.Keys
    && (forall p :: p in a.profiles && p != player ==> b.profiles[p] == a.profiles[p])
    && |b.reviews| == |a.reviews|
    && (forall r :: 0 <= r < |a.reviews| ==>
          && b.reviews[r].playerId == a.reviews[r].playerId
          && (a.reviews[r].playerId != player ==> b.reviews[r] == a.reviews[r]))
  }

  lemma MoveTouches(db: Db, player: string, c: Change, now: Time)
    requires Move(db, player, c, now).Ok? && c.to != ManualReview
    ensures OnlyRowsOf(db, Move(db, player, c, now).value, player)
    ensures Move(db, player, c, now).value.sessions == db.sessions
  {
    hide ExpiryOrdered, ReviewOrdered;
  }

  lemma ExpireSessionSweeps(cfg: Config, db: Db, s: Id, now: Time)
    requires Inv(cfg, db) && s < |db.sessions| && SessionDue(db.sessions[s], now) && SweepSession(db, s, now).Ok?
    ensures var after := SweepSession(db, s, now).value;
            && Inv(cfg, after) && SweptSessions(db, after, {s}, now) && OnlyRowsOf(db, after, db.sessions[s].playerId)
  {
    hide Inv, Move, Keeps, BlockedDue, SweptSessions, Moves;
    SweepSessionKeeps(cfg, db, s, now);
    KeepsInv(cfg, db, SweepSession(db, s, now).value);
    OneOpenReview(cfg, db);
    CurrentIsOwn(cfg, db);
    var player := db.sessions[s].playerId;
    var provider := if player in db.profiles then db.profiles[player].provider else None;
    var mid := PutSession(db, s, Elapsed(db.sessions[s], now));
    if WaitsOn(db, s) {
      var c := ElapsedChange(db.profiles[player], s, db.sessions[s], provider, now);
      MoveTouches(mid, player, c, now);
      MoveWrites(mid, player, c, now);
      FollowSweeps(db, Move(mid, player, c, now).value, s, now);
    } else {
      AloneSweeps(db, mid, s, now);
    }
  }

  /** A profile's current session is its player's. */
  ghost predicate OwnCurrent(db: Db) {
    forall p :: p in db.profiles && db.profiles[p].current.Some? ==>
      var s := db.profiles[p].current.value; s < |db.sessions| && db.sessions[s].playerId == p
  }

  lemma CurrentIsOwn(cfg: Config, db: Db)
    requires Inv(cfg, db)
    ensures OwnCurrent(db)
  {
    hide Filed, SessionsOk, AttemptsIncrease, CreatingIsNewest, OneEffective, ReferencesUnique, KeysUnique, ReviewsOk,
      ReviewSessionsOk, EventsOk, AllJustified, AllDated;
  }

  lemma FollowSweeps(db: Db, after: Db, s: Id, now: Time)
    requires s < |db.sessions| && SessionDue(db.sessions[s], now) && WaitsOn(db, s) && OwnCurrent(db)
    requires after.sessions == db.sessions[s := Elapsed(db.sessions[s], now)] && after.events == db.events
    requires var player := db.sessions[s].playerId;
             Moves(db, after, player, Lapsed(db.profiles[player], db.sessions[s].expiresAt), SessionExpiry, None, now)
    ensures SweptSessions(db, after, {s}, now)
  {
  }

  lemma AloneSweeps(db: Db, after: Db, s: Id, now: Time)
    requires s < |db.sessions| && SessionDue(db.sessions[s], now) && !WaitsOn(db, s) && OwnCurrent(db)
    requires after == db.(sessions := db.sessions[s := Elapsed(db.sessions[s], now)])
    ensures SweptSessions(db, after, {s}, now)
  {
  }

  /** Expiring one due session leaves another as due, and as blocked, as it was. */
  lemma OthersAsBlocked(cfg: Config, db: Db, db1: Db, s: Id, t: Id, now: Time)
    requires Inv(cfg, db) && s < |db.sessions| && t < |db.sessions| && s != t
    requires SessionDue(db.sessions[s], now) && SessionDue(db.sessions[t], now)
    requires SweptSessions(db, db1, {s}, now) && OnlyRowsOf(db, db1, db.sessions[s].playerId)
    ensures BlockedDue(db1, t, now) == BlockedDue(db, t, now) && t < |db1.sessions| && SessionDue(db1.sessions[t], now)
  {
    hide Inv;
    Sessions(cfg, db);
    var player := db.sessions[t].playerId;
    assert player != db.sessions[s].playerId;
    assert ReviewAhead(db1.reviews, player, now) == ReviewAhead(db.reviews, player, now) by {
      SameAhead(db.reviews, db1.reviews, player, now);
    }
  }

  lemma SameAhead(a: seq<Review>, b: seq<Review>, player: string, now: Time)
    requires |b| == |a|
    requires forall r :: 0 <= r < |a| ==>
               b[r].playerId == a[r].playerId && (a[r].playerId == player ==> b[r] == a[r])
    ensures ReviewAhead(b, player, now) == ReviewAhead(a, player, now)
  {
    if ReviewAhead(a, player, now) {
      var r :| 0 <= r < |a| && Active(a[r], player) && a[r].requestedAt > now;
      assert Active(b[r], player);
    }
    if ReviewAhead(b, player, now) {
      var r :| 0 <= r < |b| && Active(b[r], player) && b[r].requestedAt > now;
      assert Active(a[r], player);
    }
  }

  ghost predicate NoneBlocked(db: Db, ids: seq<Id>, now: Time) {
    forall k :: 0 <= k < |ids| ==> !BlockedDue(db, ids[k], now)
  }

  /** Sweeping one set and then another is sweeping both, player by player and review by review. */
  lemma PlayerSweptMore(a: Db, b: Db, player: string, first: set<Id>, rest: set<Id>, now: Time)
    requires SweptSessions(a, b, first, now) && first !! rest && player in a.profiles
    ensures player in b.profiles && ProfileSwept(b, player, rest) == ProfileSwept(a, player, first + rest)
    ensures player in a.log ==>
              player in b.log && LogSwept(b, player, rest) == LogSwept(a, player, first + rest)
    ensures WaitsOnOne(b, player, rest) <==> !WaitsOnOne(a, player, first) && WaitsOnOne(a, player, rest)
  {
    assert b.profiles[player] == ProfileSwept(a, player, first);
    assert player in a.log ==> b.log[player] == LogSwept(a, player, first);
  }

  lemma NobodyWaits(a: Db, b: Db, player: string, first: set<Id>, rest: set<Id>, now: Time)
    requires SweptSessions(a, b, first, now) && player !in a.profiles
    ensures !WaitsOnOne(b, player, rest) && !WaitsOnOne(a, player, first + rest)
  {
  }

  lemma ReviewSweptMore(a: Db, b: Db, r: Review, first: set<Id>, rest: set<Id>, now: Time)
    requires SweptSessions(a, b, first, now) && first !! rest
    ensures ReviewSwept(b, ReviewSwept(a, r, first, now), rest, now) == ReviewSwept(a, r, first + rest, now)
  {
    if r.playerId in a.profiles {
      PlayerSweptMore(a, b, r.playerId, first, rest, now);
      assert b.profiles[r.playerId] == ProfileSwept(a, r.playerId, first);
    } else {
      NobodyWaits(a, b, r.playerId, first, rest, now);
    }
  }

  lemma SweptMore(a: Db, b: Db, c: Db, first: set<Id>, rest: set<Id>, now: Time)
    requires SweptSessions(a, b, first, now) && SweptSessions(b, c, rest, now) && first !! rest
    requires a.log.Keys <= a.profiles.Keys
    ensures SweptSessions(a, c, first + rest, now)
  {
    hide ProfileSwept, LogSwept, ReviewSwept, WaitsOnOne;
    forall p | p in a.profiles
      ensures c.profiles[p] == ProfileSwept(a, p, first + rest)
      ensures p in a.log ==> c.log[p] == LogSwept(a, p, first + rest)
    {
      PlayerSweptMore(a, b, p, first, rest, now);
    }
    forall r | 0 <= r < |a.reviews| ensures c.reviews[r] == ReviewSwept(a, a.reviews[r], first + rest, now) {
      ReviewSweptMore(a, b, a.reviews[r], first, rest, now);
    }
  }

  /** A sweep over due sessions raises exactly when one of them is blocked, and otherwise expires them all. */
  lemma {:induction false} BatchSweeps(cfg: Config, db: Db, ids: seq<Id>, now: Time)
    requires Inv(cfg, db) && DueSessions(db, now, |ids|, ids)
    ensures SweepSessions(db, ids, now).Ok? <==> NoneBlocked(db, ids, now)
    ensures SweepSessions(db, ids, now).Ok? ==>
              var after := SweepSessions(db, ids, now).value;
              && Inv(cfg, after) && SweptSessions(db, after, Elements(ids), now)
              && forall s: Id :: s < |db.sessions| && SessionDue(db.sessions[s], now) && s !in ids ==>
                   BlockedDue(after, s, now) == BlockedDue(db, s, now)
    decreases |ids|
  {
    hide Inv, SweepSession, SweptSessions, BlockedDue, OnlyRowsOf;
    if ids == [] {
      assert SweptSessions(db, db, Elements(ids), now) by { NothingSwept(db, Elements(ids), now); }
    } else {
      SweepSessionKeeps(cfg, db, ids[0], now);
      assert BlockedDue(db, ids[0], now) ==> !NoneBlocked(db, ids, now);
      if SweepSession(db, ids[0], now).Ok? {
        ExpireSessionSweeps(cfg, db, ids[0], now);
        var db1 := SweepSession(db, ids[0], now).value;
        forall s: Id | s < |db.sessions| && SessionDue(db.sessions[s], now) && s != ids[0]
          ensures BlockedDue(db1, s, now) == BlockedDue(db, s, now) && s < |db1.sessions|
          ensures SessionDue(db1.sessions[s], now)
        {
          OthersAsBlocked(cfg, db, db1, ids[0], s, now);
        }
        RestDue(db, db1, ids, now);
        RestBlocked(db, db1, ids, now);
        BatchSweeps(cfg, db1, ids[1..], now);
        if SweepSessions(db, ids, now).Ok? {
          LogKeys(cfg, db);
          SweptMore(db, db1, SweepSessions(db, ids, now).value, {ids[0]}, Elements(ids[1..]), now);
          assert Elements(ids) == {ids[0]} + Elements(ids[1..]);
        }
      }
    }
  }

  lemma RestBlocked(db: Db, db1: Db, ids: seq<Id>, now: Time)
    requires ids != [] && DueSessions(db, now, |ids|, ids) && !BlockedDue(db, ids[0], now)
    requires forall s: Id :: s < |db.sessions| && SessionDue(db.sessions[s], now) && s != ids[0] ==>
               BlockedDue(db1, s, now) == BlockedDue(db, s, now)
    ensures NoneBlocked(db1, ids[1..], now) == NoneBlocked(db, ids, now)
  {
    hide BlockedDue;
    forall k | 0 < k < |ids| ensures BlockedDue(db1, ids[k], now) == BlockedDue(db, ids[k], now) {
      assert ids[k] != ids[0];
    }
    assert forall k :: 0 < k < |ids| ==> ids[k] == ids[1..][k - 1];
  }

  lemma NothingSwept(db: Db, none: set<Id>, now: Time)
    requires none == {}
    ensures SweptSessions(db, db, none, now)
  {
  }

  lemma RestDue(db: Db, db1: Db, ids: seq<Id>, now: Time)
    requires ids != [] && DueSessions(db, now, |ids|, ids) && SweptSessions(db, db1, {ids[0]}, now)
    ensures DueSessions(db1, now, |ids| - 1, ids[1..])
  {
    forall k | 0 <= k < |ids| - 1 ensures ids[1..][k] < |db1.sessions| && SessionDue(db1.sessions[ids[1..][k]], now) {
      assert ids[k + 1] != ids[0] && SessionDue(db.sessions[ids[k + 1]], now);
    }
  }

  lemma OwnLimit(db: Db, now: Time, limit: nat, ids: seq<Id>)
    requires DueSessions(db, now, limit, ids)
    ensures DueSessions(db, now, |ids|, ids)
  {
  }

  /** Distinct due sessions, no more than the limit. */
  predicate IsBatch(db: Db, now: Time, limit: nat, ids: seq<Id>) {
    && |ids| <= limit && (forall j, k :: 0 <= j < k < |ids| ==> ids[j] != ids[k])
    && forall k :: 0 <= k < |ids| ==> ids[k] < |db.sessions| && IsDue(db.sessions[ids[k]], now)
  }

  /** In every run a session sweep raises if and only if its batch holds a session that cannot be expired: the current
      one of a waiting profile that was verified after the session's expiry, or that is in a review requested
      later than now. A sweep that raises changes nothing; any other expires exactly its batch. */
  lemma SessionSweepRaisesIff(cfg: Config, w: World, ids: seq<Id>, limit: nat, now: Time)
    requires Reachable(cfg, w) && IsBatch(w.db, now, limit, ids)
    ensures SweepSessions(w.db, ids, now).Err? <==> exists k :: 0 <= k < |ids| && Blocked(w.db, ids[k], now)
    ensures var after := Next(cfg, w, ElapseSessions(ids, limit, now));
            if SweepSessions(w.db, ids, now).Err? then after == w
            else after.tickets == w.tickets && SweptSessions(w.db, after.db, Elements(ids), now)
  {
    hide Inv, TicketsOk, Reachable, SweepSessions, Blocked, SweptSessions;
    ReachableOk(cfg, w);
    assert DueSessions(w.db, now, limit, ids);
    OwnLimit(w.db, now, limit, ids);
    BatchSweeps(cfg, w.db, ids, now);
    assert forall k :: 0 <= k < |ids| ==> BlockedDue(w.db, ids[k], now) == Blocked(w.db, ids[k], now);
  }

  // ---- full session sweeps ----

  ghost predicate FullSessionBatch(db: Db, now: Time, limit: nat, ids: seq<Id>) {
    DueSessions(db, now, limit, ids) && |ids| == Taken(|DueSessionSet(db, now)|, limit)
  }

  /** Session sweeps one after another at a fixed time, each taking as much as its limit allows. */
  ghost predicate FullSessionSweeps(cfg: Config, w: World, now: Time, limit: nat, steps: seq<Step>) {
    steps != [] ==>
      var n := |steps| - 1;
      && FullSessionSweeps(cfg, w, now, limit, steps[..n])
      && steps[n].ElapseSessions? && steps[n].now == now && steps[n].limit == limit
      && FullSessionBatch(Run(cfg, w, steps[..n]).db, now, limit, steps[n].ids)
  }

  /** No due session is blocked. */
  ghost predicate Unblocked(db: Db, now: Time) { forall s :: s in DueSessionSet(db, now) ==> !BlockedDue(db, s, now) }

  lemma OneFullSweep(cfg: Config, w: World, s: Step)
    requires WorldOk(cfg, w) && s.ElapseSessions? && FullSessionBatch(w.db, s.now, s.limit, s.ids)
    requires Unblocked(w.db, s.now)
    ensures var w1 := Next(cfg, w, s);
            && WorldOk(cfg, w1) && Unblocked(w1.db, s.now)
            && DueSessionSet(w1.db, s.now) <= DueSessionSet(w.db, s.now)
            && SweptSessions(w.db, w1.db, DueSessionSet(w.db, s.now) - DueSessionSet(w1.db, s.now), s.now)
            && var due := |DueSessionSet(w.db, s.now)|; |DueSessionSet(w1.db, s.now)| == due - Taken(due, s.limit)
  {
    hide Inv, TicketsOk, SweepSessions, BlockedDue, Extends, IsCoherent, Timely;
    var ids, w1 := s.ids, Next(cfg, w, s);
    NextKeeps(cfg, w, s, "");
    OwnLimit(w.db, s.now, s.limit, ids);
    BatchSweeps(cfg, w.db, ids, s.now);
    assert NoneBlocked(w.db, ids, s.now);
    assert w1.db == SweepSessions(w.db, ids, s.now).value;
    DistinctSize(ids);
    assert Elements(ids) <= DueSessionSet(w.db, s.now);
    RemoveTaken(DueSessionSet(w.db, s.now), Elements(ids));
    assert DueSessionSet(w1.db, s.now) == DueSessionSet(w.db, s.now) - Elements(ids);
    assert DueSessionSet(w.db, s.now) - DueSessionSet(w1.db, s.now) == Elements(ids);
  }

  lemma WorldLogKeys(cfg: Config, w: World)
    requires WorldOk(cfg, w)
    ensures w.db.log.Keys == w.db.profiles.Keys
  {
    hide Inv;
    LogKeys(cfg, w.db);
  }

  lemma {:induction false} SessionSweepsLeave(cfg: Config, w: World, now: Time, limit: nat, steps: seq<Step>)
    requires WorldOk(cfg, w) && FullSessionSweeps(cfg, w, now, limit, steps) && Unblocked(w.db, now)
    ensures var after, due := Run(cfg, w, steps), DueSessionSet(w.db, now);
            && WorldOk(cfg, after) && Unblocked(after.db, now) && DueSessionSet(after.db, now) <= due
            && |DueSessionSet(after.db, now)| == Left(|due|, |steps|, limit)
            && SweptSessions(w.db, after.db, due - DueSessionSet(after.db, now), now)
  {
    hide WorldOk, Unblocked, Next, FullSessionBatch, DueSessionSet, SweptSessions;
    var due := DueSessionSet(w.db, now);
    if steps == [] {
      NothingSwept(w.db, due - due, now);
    } else {
      var n := |steps| - 1;
      SessionSweepsLeave(cfg, w, now, limit, steps[..n]);
      var mid, after := Run(cfg, w, steps[..n]), Run(cfg, w, steps);
      OneFullSweep(cfg, mid, steps[n]);
      LeftNext(|due|, n, limit);
      var middle, last := DueSessionSet(mid.db, now), DueSessionSet(after.db, now);
      WorldLogKeys(cfg, w);
      SweptMore(w.db, mid.db, after.db, due - middle, middle - last, now);
      assert due - last == (due - middle) + (middle - last);
    }
  }

  /** Session sweeps are complete unless a due session is blocked: of n due sessions, k full sweeps with limit b leave
      max(0, n - k*b) due; each session they took has expired in one step and no other session changed. */
  lemma SessionSweepsFinish(cfg: Config, w: World, now: Time, limit: nat, steps: seq<Step>)
    requires Reachable(cfg, w) && FullSessionSweeps(cfg, w, now, limit, steps) && Unblocked(w.db, now)
    ensures var after, due := Run(cfg, w, steps).db, DueSessionSet(w.db, now);
            && |DueSessionSet(after, now)| == (if |due| <= |steps| * limit then 0 else |due| - |steps| * limit)
            && DueSessionSet(after, now) <= due
            && SweptSessions(w.db, after, due - DueSessionSet(after, now), now)
  {
    hide WorldOk, Reachable, Run, Unblocked, FullSessionSweeps, DueSessionSet, SweptSessions;
    ReachableOk(cfg, w);
    SessionSweepsLeave(cfg, w, now, limit, steps);
  }

  // ---- a blocked session starves the sweep ----

  /** The batch takes the sessions that expired first, as the query orders them. */
  ghost predicate OldestFirst(db: Db, now: Time, ids: seq<Id>) {
    forall s, t :: s in DueSessionSet(db, now) && t in ids && t < |db.sessions| && Earlier(db.sessions, s, t) ==>
      s in ids
  }

  /** Session sweeps one after another, at any times and with any limits, each taking the oldest sessions due then. */
  ghost predicate OldestSweeps(cfg: Config, w: World, steps: seq<Step>) {
    steps != [] ==>
      var n := |steps| - 1;
      var db, s := Run(cfg, w, steps[..n]).db, steps[n];
      && OldestSweeps(cfg, w, steps[..n]) && s.ElapseSessions?
      && FullSessionBatch(db, s.now, s.limit, s.ids) && OldestFirst(db, s.now, s.ids)
  }

  /** Fewer due sessions than the limit expired before this one. */
  ghost predicate AmongOldest(db: Db, s: Id, now: Time, limit: nat)
    requires s < |db.sessions|
  {
    |set t | t in DueSessionSet(db, now) && Earlier(db.sessions, t, s)| < limit
  }

  lemma SubsetSize<T>(a: set<T>, b: set<T>)
    requires a <= b
    ensures |a| <= |b|
  {
    RemoveTaken(b, a);
  }

  lemma OldestIsTaken(cfg: Config, db: Db, s: Id, now: Time, limit: nat, ids: seq<Id>)
    requires s < |db.sessions| && SessionDue(db.sessions[s], now) && AmongOldest(db, s, now, limit)
    requires FullSessionBatch(db, now, limit, ids) && OldestFirst(db, now, ids)
    ensures s in ids
  {
    var due := DueSessionSet(db, now);
    var before := set t | t in due && Earlier(db.sessions, t, s);
    DistinctSize(ids);
    if s !in ids {
      assert Elements(ids) <= due - {s};
      SubsetSize(Elements(ids), due - {s});
      forall t | t in Elements(ids) ensures t in before {
        assert !Earlier(db.sessions, s, t) && t != s;
      }
      SubsetSize(Elements(ids), before);
      assert false;
    }
  }

  /** The step is a sweep that finds the session blocked and among the oldest due ones. */
  ghost predicate MeetsBlocked(db: Db, s: Id, step: Step) {
    step.ElapseSessions? && BlockedDue(db, s, step.now) && AmongOldest(db, s, step.now, step.limit)
  }

  /** As long as a blocked session is among the oldest due ones, sweeping achieves nothing at all: every sweep takes
      it, raises and is rolled back, so no due session of any player expires, whenever the sweeps come. */
  lemma {:induction false} BlockedSweepsStarve(cfg: Config, w: World, s: Id, steps: seq<Step>)
    requires Reachable(cfg, w) && OldestSweeps(cfg, w, steps)
    requires forall k :: 0 <= k < |steps| ==> MeetsBlocked(w.db, s, steps[k])
    ensures Run(cfg, w, steps) == w
  {
    hide Reachable, Next, AmongOldest, FullSessionBatch, OldestFirst, Blocked;
    if steps != [] {
      var n := |steps| - 1;
      BlockedSweepsStarve(cfg, w, s, steps[..n]);
      assert MeetsBlocked(w.db, s, steps[n]);
      OldestIsTaken(cfg, w.db, s, steps[n].now, steps[n].limit, steps[n].ids);
      BlockedSweep(cfg, w, s, steps[n]);
    }
  }

  lemma BlockedSweep(cfg: Config, w: World, s: Id, step: Step)
    requires Reachable(cfg, w) && step.ElapseSessions? && BlockedDue(w.db, s, step.now)
    requires FullSessionBatch(w.db, step.now, step.limit, step.ids) && s in step.ids
    ensures Next(cfg, w, step) == w
  {
    hide Reachable, Next, Blocked;
    SessionSweepRaisesIff(cfg, w, step.ids, step.limit, step.now);
  }

  // ---- profiles ----

  /** The verification is over. */
  predicate IsOver(p: Profile, now: Time) { p.status == Verified && p.expiresAt.Some? && p.expiresAt.value <= now }

  ghost function DueProfileSet(db: Db, now: Time): set<string> {
    set p | p in db.profiles && IsOver(db.profiles[p], now)
  }

  /** Exactly the profiles in the set have expired, with a log row each; nothing else changed. */
  ghost predicate SweptProfiles(a: Db, b: Db, swept: set<string>) {
    && b == a.(profiles := b.profiles, log := b.log)
    && b.profiles.Keys == a.profiles.Keys && b.log.Keys == a.log.Keys
    && (forall p :: p in a.profiles ==>
          b.profiles[p] == if p in swept then Lapsed(a.profiles[p], a.profiles[p].expiresAt) else a.profiles[p])
    && (forall p :: p in a.profiles && p in a.log ==>
          b.log[p] == a.log[p] + if p in swept then [OverRow(a.profiles[p])] else [])
  }

  function OverRow(p: Profile): Transition {
    Transition(p.current, Verified, Expired, VerificationExpiry, None, p.version + 1)
  }

  lemma ProfileIsSwept(cfg: Config, db: Db, player: string, now: Time)
    requires Inv(cfg, db) && player in db.profiles && VerificationDue(db.profiles[player], now)
    ensures var r := SweepProfile(db, player, now); r.Ok? && Inv(cfg, r.value) && SweptProfiles(db, r.value, {player})
  {
    hide Inv, Move, Extends, CoherentFor, ClosedStay, AllForward;
    SweepProfileKeeps(cfg, db, player, now);
    OneOpenReview(cfg, db);
    MoveWrites(db, player, VerificationChange(db.profiles[player]), now);
  }

  lemma {:induction false} ProfileBatchSweeps(cfg: Config, db: Db, players: seq<string>, now: Time)
    requires Inv(cfg, db) && DueProfiles(db, now, |players|, players)
    ensures SweepProfiles(db, players, now).Ok? && Inv(cfg, SweepProfiles(db, players, now).value)
    ensures SweptProfiles(db, SweepProfiles(db, players, now).value, Elements(players))
    decreases |players|
  {
    hide Inv, SweepProfile;
    if players != [] {
      ProfileIsSwept(cfg, db, players[0], now);
      var db1 := SweepProfile(db, players[0], now).value;
      DueRest(db, db1, now, players);
      ProfileBatchSweeps(cfg, db1, players[1..], now);
      assert Elements(players) == {players[0]} + Elements(players[1..]);
    }
  }

  predicate IsProfileBatch(db: Db, now: Time, limit: nat, players: seq<string>) {
    && |players| <= limit && (forall j, k :: 0 <= j < k < |players| ==> players[j] != players[k])
    && forall k :: 0 <= k < |players| ==> players[k] in db.profiles && IsOver(db.profiles[players[k]], now)
  }

  /** In every run a profile sweep over any due batch expires exactly its profiles and changes nothing else. */
  lemma ProfileSweepOutcome(cfg: Config, w: World, players: seq<string>, limit: nat, now: Time)
    requires Reachable(cfg, w) && IsProfileBatch(w.db, now, limit, players)
    ensures var after := Next(cfg, w, ElapseProfiles(players, limit, now));
            after.tickets == w.tickets && SweptProfiles(w.db, after.db, Elements(players))
  {
    hide Inv, TicketsOk, Reachable, SweepProfiles, SweptProfiles;
    ReachableOk(cfg, w);
    assert DueProfiles(w.db, now, limit, players);
    ProfilesOwnLimit(w.db, now, limit, players);
    ProfileBatchSweeps(cfg, w.db, players, now);
  }

  ghost predicate FullProfileBatch(db: Db, now: Time, limit: nat, players: seq<string>) {
    DueProfiles(db, now, limit, players) && |players| == Taken(|DueProfileSet(db, now)|, limit)
  }

  ghost predicate FullProfileSweeps(cfg: Config, w: World, now: Time, limit: nat, steps: seq<Step>) {
    steps != [] ==>
      var n := |steps| - 1;
      && FullProfileSweeps(cfg, w, now, limit, steps[..n])
      && steps[n].ElapseProfiles? && steps[n].now == now && steps[n].limit == limit
      && FullProfileBatch(Run(cfg, w, steps[..n]).db, now, limit, steps[n].players)
  }

  lemma OneFullProfileSweep(cfg: Config, w: World, s: Step)
    requires WorldOk(cfg, w) && s.ElapseProfiles? && FullProfileBatch(w.db, s.now, s.limit, s.players)
    ensures var w1 := Next(cfg, w, s);
            && WorldOk(cfg, w1) && DueProfileSet(w1.db, s.now) <= DueProfileSet(w.db, s.now)
            && SweptProfiles(w.db, w1.db, DueProfileSet(w.db, s.now) - DueProfileSet(w1.db, s.now))
            && var due := |DueProfileSet(w.db, s.now)|; |DueProfileSet(w1.db, s.now)| == due - Taken(due, s.limit)
  {
    hide Inv, TicketsOk, SweepProfiles, Extends, IsCoherent, Timely;
    var players, w1 := s.players, Next(cfg, w, s);
    NextKeeps(cfg, w, s, "");
    ProfilesOwnLimit(w.db, s.now, s.limit, players);
    ProfileBatchSweeps(cfg, w.db, players, s.now);
    assert w1.db == SweepProfiles(w.db, players, s.now).value;
    DistinctSize(players);
    assert Elements(players) <= DueProfileSet(w.db, s.now);
    RemoveTaken(DueProfileSet(w.db, s.now), Elements(players));
    assert DueProfileSet(w1.db, s.now) == DueProfileSet(w.db, s.now) - Elements(players);
    assert DueProfileSet(w.db, s.now) - DueProfileSet(w1.db, s.now) == Elements(players);
  }

  lemma ProfilesOwnLimit(db: Db, now: Time, limit: nat, players: seq<string>)
    requires DueProfiles(db, now, limit, players)
    ensures DueProfiles(db, now, |players|, players)
  {
  }

  lemma ProfilesSweptMore(a: Db, b: Db, c: Db, first: set<string>, rest: set<string>)
    requires SweptProfiles(a, b, first) && SweptProfiles(b, c, rest) && first !! rest
    ensures SweptProfiles(a, c, first + rest)
  {
  }

  lemma NoProfileSwept(db: Db, none: set<string>)
    requires none == {}
    ensures SweptProfiles(db, db, none)
  {
  }

  lemma {:induction false} ProfileSweepsLeave(cfg: Config, w: World, now: Time, limit: nat, steps: seq<Step>)
    requires WorldOk(cfg, w) && FullProfileSweeps(cfg, w, now, limit, steps)
    ensures var after, due := Run(cfg, w, steps), DueProfileSet(w.db, now);
            && WorldOk(cfg, after) && DueProfileSet(after.db, now) <= due
            && |DueProfileSet(after.db, now)| == Left(|due|, |steps|, limit)
            && SweptProfiles(w.db, after.db, due - DueProfileSet(after.db, now))
  {
    hide WorldOk, Next, FullProfileBatch, DueProfileSet, SweptProfiles;
    var due := DueProfileSet(w.db, now);
    if steps == [] {
      NoProfileSwept(w.db, due - due);
    } else {
      var n := |steps| - 1;
      ProfileSweepsLeave(cfg, w, now, limit, steps[..n]);
      var mid, after := Run(cfg, w, steps[..n]), Run(cfg, w, steps);
      OneFullProfileSweep(cfg, mid, steps[n]);
      LeftNext(|due|, n, limit);
      var middle, last := DueProfileSet(mid.db, now), DueProfileSet(after.db, now);
      ProfilesSweptMore(w.db, mid.db, after.db, due - middle, middle - last);
      assert due - last == (due - middle) + (middle - last);
    }
  }

  /** Profile sweeps never raise, and are complete in the same way. */
  lemma ProfileSweepsFinish(cfg: Config, w: World, now: Time, limit: nat, steps: seq<Step>)
    requires Reachable(cfg, w) && FullProfileSweeps(cfg, w, now, limit, steps)
    ensures var after, due := Run(cfg, w, steps).db, DueProfileSet(w.db, now);
            && |DueProfileSet(after, now)| == (if |due| <= |steps| * limit then 0 else |due| - |steps| * limit)
            && DueProfileSet(after, now) <= due
            && SweptProfiles(w.db, after, due - DueProfileSet(after, now))
  {
    hide WorldOk, Reachable, Run, FullProfileSweeps, DueProfileSet, SweptProfiles;
    ReachableOk(cfg, w);
    ProfileSweepsLeave(cfg, w, now, limit, steps);
  }
}
