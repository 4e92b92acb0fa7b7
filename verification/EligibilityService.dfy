/** Evaluating eligibility from the stored state, and why no expiry sweep can change the answer. */
module EligibilityService {
  import opened Wrappers
  import opened EligibilityPolicy
  import K = KycDomain
  import KycProtocol
  import KycInvariants
  import KycHistory
  import KycTransactions
  import KycStore

  type Time = int

  datatype RestrictionStatus = InForce | Lapsed | Removed

  datatype Restriction = Restriction(playerId: string, kind: RestrictionType, status: RestrictionStatus, startsAt: Time,
                                     endsAt: Option<Time>)

  predicate ActiveAt(r: Restriction, player: string, at: Time) {
    r.playerId == player && r.status == InForce && r.startsAt <= at && (r.endsAt.None? || r.endsAt.value > at)
  }

  predicate LapsedAt(r: Restriction, player: string, at: Time) {
    r.playerId == player && r.status == InForce && r.endsAt.Some? && r.endsAt.value <= at
  }

  function ActiveTypes(rows: seq<Restriction>, player: string, at: Time): set<RestrictionType> {
    set k | 0 <= k < |rows| && ActiveAt(rows[k], player, at) :: rows[k].kind
  }

  /** What an evaluation of a player is based on; `at` was read before the transaction, `now` within it. */
  function SnapshotOf(account: AccountStatus, db: KycProtocol.Db, rows: seq<Restriction>, player: string, at: Time,
                      now: Time): Snapshot
  {
    var status := KycProtocol.ReadStatus(db, player, now).1;
    Snapshot(account, if status.Ok? then Some(status.value) else None, ActiveTypes(rows, player, at))
  }

  datatype DecisionRow = DecisionRow(playerId: string, operation: Operation, verdict: Verdict, snapshot: Snapshot,
                                     evaluatedAt: Time)

  function DecisionRows(player: string, operations: seq<Operation>, s: Snapshot, at: Time): (rows: seq<DecisionRow>)
    ensures |rows| == |operations|
    ensures forall k :: 0 <= k < |rows| ==>
              rows[k] == DecisionRow(player, operations[k], Evaluate(operations[k], s), s, at)
  {
    if operations == [] then []
    else
      var n := |operations| - 1;
      DecisionRows(player, operations[..n], s, at)
      + [DecisionRow(player, operations[n], Evaluate(operations[n], s), s, at)]
  }

  // ---- restriction expiry ----

  /** The player's restrictions in force whose end has come have lapsed. */
  function Swept(r: Restriction, player: string, at: Time): Restriction {
    if r.playerId == player && r.status == InForce && r.endsAt.Some? && r.endsAt.value <= at then r.(status := Lapsed)
    else r
  }

  ghost predicate RestrictionsSwept(a: seq<Restriction>, b: seq<Restriction>, player: string, at: Time) {
    |b| == |a| && forall k :: 0 <= k < |a| ==> b[k] == Swept(a[k], player, at)
  }

  lemma SweptStayActive(a: seq<Restriction>, b: seq<Restriction>, swept: string, player: string, at: Time)
    requires RestrictionsSwept(a, b, swept, at)
    ensures ActiveTypes(b, player, at) == ActiveTypes(a, player, at)
  {
    forall kind ensures kind in ActiveTypes(b, player, at) <==> kind in ActiveTypes(a, player, at) {
      if kind in ActiveTypes(a, player, at) {
        var k :| 0 <= k < |a| && ActiveAt(a[k], player, at) && a[k].kind == kind;
        assert ActiveAt(b[k], player, at);
      }
      if kind in ActiveTypes(b, player, at) {
        var k :| 0 <= k < |b| && ActiveAt(b[k], player, at) && b[k].kind == kind;
        assert ActiveAt(a[k], player, at);
      }
    }
  }

  // ---- the status after KYC sweeps ----

  /** A profile the session sweeps have touched was waiting and is now expired. */
  ghost predicate OnlyWaitingExpired(a: KycProtocol.Db, b: KycProtocol.Db) {
    && b.profiles.Keys == a.profiles.Keys
    && forall p :: p in a.profiles ==>
         || b.profiles[p] == a.profiles[p]
         || (a.profiles[p].status in {K.Pending, K.ManualReview} && b.profiles[p].status == K.Expired)
  }

  lemma OneSessionSwept(db: KycProtocol.Db, s: K.Id, now: Time)
    requires KycProtocol.SweepSession(db, s, now).Ok?
    ensures OnlyWaitingExpired(db, KycProtocol.SweepSession(db, s, now).value)
  {
    hide KycProtocol.Reviewed;
  }

  lemma {:induction false} SessionsSwept(db: KycProtocol.Db, ids: seq<K.Id>, now: Time)
    requires KycProtocol.SweepSessions(db, ids, now).Ok?
    ensures OnlyWaitingExpired(db, KycProtocol.SweepSessions(db, ids, now).value)
    decreases |ids|
  {
    hide KycProtocol.SweepSession;
    if ids != [] {
      OneSessionSwept(db, ids[0], now);
      SessionsSwept(KycProtocol.SweepSession(db, ids[0], now).value, ids[1..], now);
    }
  }

  /** A profile the profile sweeps have touched had a verification that was due. */
  ghost predicate OnlyDueExpired(a: KycProtocol.Db, b: KycProtocol.Db, now: Time) {
    && b.profiles.Keys == a.profiles.Keys
    && forall p :: p in a.profiles ==>
         || b.profiles[p] == a.profiles[p]
         || (KycProtocol.VerificationDue(a.profiles[p], now) && b.profiles[p].status == K.Expired)
  }

  lemma {:induction false} ProfilesSwept(cfg: K.Config, db: KycProtocol.Db, players: seq<string>, now: Time)
    requires KycInvariants.Inv(cfg, db) && KycProtocol.DueProfiles(db, now, |players|, players)
    ensures KycProtocol.SweepProfiles(db, players, now).Ok?
    ensures OnlyDueExpired(db, KycProtocol.SweepProfiles(db, players, now).value, now)
    decreases |players|
  {
    hide KycInvariants.Inv, KycProtocol.SweepProfile, KycTransactions.Keeps;
    if players != [] {
      KycTransactions.SweepProfileKeeps(cfg, db, players[0], now);
      var db1 := KycProtocol.SweepProfile(db, players[0], now).value;
      KycTransactions.KeepsInv(cfg, db, db1);
      KycTransactions.DueRest(db, db1, now, players);
      ProfilesSwept(cfg, db1, players[1..], now);
    }
  }

  lemma StatusRead(cfg: K.Config, db: KycProtocol.Db, player: string, now: Time)
    requires KycInvariants.Inv(cfg, db)
    ensures KycProtocol.ReadStatus(db, player, now).1 ==
            Ok(if player !in db.profiles then K.NotStarted
               else if KycProtocol.VerificationDue(db.profiles[player], now) then K.Expired
               else db.profiles[player].status)
  {
    hide KycInvariants.Inv, KycProtocol.Reviewed, KycTransactions.Keeps;
    KycTransactions.ReadStatusKeeps(cfg, db, player, now);
  }

  /** What an evaluation is based on, read off the stored rows: the types of the player's restrictions in force that
      have begun and not ended, and the KYC status, where a missing profile has not started and a verification
      that is over has expired. */
  lemma SnapshotReads(cfg: K.Config, account: AccountStatus, db: KycProtocol.Db, rows: seq<Restriction>, player: string,
                      at: Time, now: Time)
    requires KycInvariants.Inv(cfg, db)
    ensures var s := SnapshotOf(account, db, rows, player, at, now);
            && s.account == account
            && (forall kind :: kind in s.restrictions <==>
                  exists k :: 0 <= k < |rows| && rows[k].kind == kind && rows[k].playerId == player
                              && rows[k].status == InForce && rows[k].startsAt <= at
                              && (rows[k].endsAt.Some? ==> at < rows[k].endsAt.value))
            && s.kyc == Some(
                 if player !in db.profiles then K.NotStarted
                 else
                   var p := db.profiles[player];
                   if p.status == K.Verified && p.expiresAt.Some? && p.expiresAt.value <= now then K.Expired
                   else p.status)
  {
    hide KycInvariants.Inv, KycProtocol.ReadStatus;
    StatusRead(cfg, db, player, now);
  }

  /** The two KYC sweeps at a time, one after the other, over any due rows. */
  ghost predicate KycSwept(a: KycProtocol.Db, ids: seq<K.Id>, players: seq<string>, b: KycProtocol.Db, now: Time) {
    && KycProtocol.SweepSessions(a, ids, now).Ok?
    && var mid := KycProtocol.SweepSessions(a, ids, now).value;
       KycProtocol.DueProfiles(mid, now, |players|, players) && KycProtocol.SweepProfiles(mid, players, now) == Ok(b)
  }

  lemma StatusAfterSweeps(cfg: K.Config, a: KycProtocol.Db, ids: seq<K.Id>, players: seq<string>, b: KycProtocol.Db,
                          player: string, now: Time)
    requires KycInvariants.Inv(cfg, a) && KycSwept(a, ids, players, b, now)
    ensures var before, after := KycProtocol.ReadStatus(a, player, now).1, KycProtocol.ReadStatus(b, player, now).1;
            && before.Ok? && after.Ok?
            && (after == before || (before.value in {K.Pending, K.ManualReview} && after.value == K.Expired))
            && (ids == [] ==> after == before)
  {
    hide KycInvariants.Inv, KycTransactions.Keeps, KycProtocol.SweepSessions, KycProtocol.SweepProfiles,
      KycProtocol.ReadStatus, KycProtocol.DueProfiles;
    var mid := KycProtocol.SweepSessions(a, ids, now).value;
    KycTransactions.SweepSessionsKeeps(cfg, a, ids, now);
    KycTransactions.KeepsInv(cfg, a, mid);
    SessionsSwept(a, ids, now);
    ProfilesSwept(cfg, mid, players, now);
    KycTransactions.SweepProfilesKeeps(cfg, mid, players, now);
    KycTransactions.KeepsInv(cfg, mid, b);
    StatusRead(cfg, a, player, now);
    StatusRead(cfg, b, player, now);
    if ids == [] { assert mid == a by { NoSessions(a, ids, now); } }
  }

  lemma NoSessions(db: KycProtocol.Db, ids: seq<K.Id>, now: Time)
    requires ids == []
    ensures KycProtocol.SweepSessions(db, ids, now) == Ok(db)
  {
  }

  // ---- the answer ----

  lemma SameVerifiedSameAllowed(operation: Operation, s: Snapshot, t: Snapshot)
    requires t == s.(kyc := t.kyc) && s.kyc.Some? && t.kyc.Some?
    requires (s.kyc.value == K.Verified <==> t.kyc.value == K.Verified)
    ensures Evaluate(operation, s).allowed == Evaluate(operation, t).allowed
  {
    hide BlockingReasons;
    if operation != ManageProfile {
      assert AccountAndKycReasons(operation, s) == [] <==> AccountAndKycReasons(operation, t) == [];
      AppendNothing(AccountAndKycReasons(operation, s), BlockingReasons(Blocking(operation), s.restrictions));
      AppendNothing(AccountAndKycReasons(operation, t), BlockingReasons(Blocking(operation), t.restrictions));
    }
  }

  lemma AppendNothing(a: seq<ReasonCode>, b: seq<ReasonCode>)
    ensures a + b == [] <==> a == [] && b == []
  {
  }

  /** Sweeps are unobservable: at one time t, sweeping lapsed restrictions, elapsed sessions and due verifications - any
      batch of them, for any players - before evaluating a player never changes what the player may do; and
      unless a session sweep expired a session the profile was waiting on, not even the reasons. */
  lemma SweepsAreUnobservable(cfg: K.Config, a: KycProtocol.Db, ids: seq<K.Id>, players: seq<string>, b: KycProtocol.Db,
                              rows: seq<Restriction>, sweptRows: seq<Restriction>, owner: string,
                              account: AccountStatus, player: string, operation: Operation, t: Time)
    requires KycInvariants.Inv(cfg, a) && KycSwept(a, ids, players, b, t)
    requires RestrictionsSwept(rows, sweptRows, owner, t)
    ensures var before, after :=
              SnapshotOf(account, a, rows, player, t, t), SnapshotOf(account, b, sweptRows, player, t, t);
            && Evaluate(operation, after).allowed == Evaluate(operation, before).allowed
            && (ids == [] ==> Evaluate(operation, after) == Evaluate(operation, before))
            && (|| after == before
                || (before.kyc in {Some(K.Pending), Some(K.ManualReview)} && after == before.(kyc := Some(K.Expired))))
            && (before.kyc != Some(K.Pending) ==> Evaluate(operation, after) == Evaluate(operation, before))
  {
    hide KycInvariants.Inv, KycSwept, RestrictionsSwept, ActiveTypes, KycProtocol.ReadStatus, Evaluate;
    SweptStayActive(rows, sweptRows, owner, player, t);
    StatusAfterSweeps(cfg, a, ids, players, b, player, t);
    var before, after := SnapshotOf(account, a, rows, player, t, t), SnapshotOf(account, b, sweptRows, player, t, t);
    SameVerifiedSameAllowed(operation, before, after);
    if after != before && before.kyc != Some(K.Pending) { ReviewExpiresSilently(operation, before, after); }
  }

  /** A review that expires leaves the reason the same: not verified. */
  lemma ReviewExpiresSilently(operation: Operation, s: Snapshot, t: Snapshot)
    requires s.kyc == Some(K.ManualReview) && t == s.(kyc := Some(K.Expired))
    ensures Evaluate(operation, s) == Evaluate(operation, t)
  {
    hide BlockingReasons, Unique;
    if operation != ManageProfile { assert AccountAndKycReasons(operation, s) == AccountAndKycReasons(operation, t); }
  }

  // ---- the services ----

  class Service {
    const kyc: KycStore.Store
    var restrictions: seq<Restriction>
    var decisions: seq<DecisionRow>

    constructor (kyc: KycStore.Store)
      ensures this.kyc == kyc && restrictions == [] && decisions == []
    {
      this.kyc, restrictions, decisions := kyc, [], [];
    }

    method ListActiveAt(player: string, at: Time) returns (types: set<RestrictionType>)
      ensures types == ActiveTypes(restrictions, player, at)
    {
      types := {};
      for k := 0 to |restrictions|
        invariant types == set j | 0 <= j < k && ActiveAt(restrictions[j], player, at) :: restrictions[j].kind
      {
        if ActiveAt(restrictions[k], player, at) { types := types + {restrictions[k].kind}; }
      }
    }

    /** UPDATE ... WHERE id AND status. */
    method ChangeStatus(k: nat, from: RestrictionStatus, to: RestrictionStatus) returns (changed: bool)
      modifies this`restrictions
      ensures changed <==> k < |old(restrictions)| && old(restrictions)[k].status == from
      ensures restrictions == if changed then old(restrictions)[k := old(restrictions)[k].(status := to)]
                              else old(restrictions)
    {
      changed := k < |restrictions| && restrictions[k].status == from;
      if changed { restrictions := restrictions[k := restrictions[k].(status := to)]; }
    }

    /** Expire the player's restrictions whose end has passed. */
    method ExpireDueRestrictions(player: string, at: Time) returns (expired: seq<nat>)
      modifies this`restrictions
      ensures RestrictionsSwept(old(restrictions), restrictions, player, at)
      ensures forall k: nat :: k in expired <==> k < |old(restrictions)| && LapsedAt(old(restrictions)[k], player, at)
    {
      expired := [];
      for k := 0 to |restrictions|
        invariant |restrictions| == |old(restrictions)|
        invariant forall j :: 0 <= j < |restrictions| ==>
                    restrictions[j] == if j < k then Swept(old(restrictions)[j], player, at) else old(restrictions)[j]
        invariant forall j: nat :: j in expired <==> j < k && LapsedAt(old(restrictions)[j], player, at)
      {
        if LapsedAt(restrictions[k], player, at) {
          var changed := ChangeStatus(k, InForce, Lapsed);
          expired := expired + [k];
        }
      }
    }

    /** One transaction: the restrictions and the KYC status are read once, and one decision is stored for each
        distinct operation, in the order asked. */
    method ExecuteMany(cfg: K.Config, account: AccountStatus, player: string, operations: seq<Operation>, at: Time,
                       now: Time)
      returns (made: seq<DecisionRow>)
      requires KycInvariants.Inv(cfg, kyc.Tables())
      modifies this`decisions, kyc
      ensures KycInvariants.Inv(cfg, kyc.Tables())
      ensures kyc.Tables() == KycProtocol.ReadStatus(old(kyc.Tables()), player, now).0
      ensures made == DecisionRows(player, Unique(operations),
                                   SnapshotOf(account, old(kyc.Tables()), restrictions, player, at, now), at)
      ensures decisions == old(decisions) + made
    {
      hide KycInvariants.Inv, KycProtocol.ReadStatus, Evaluate, ActiveTypes;
      var types := ListActiveAt(player, at);
      var status := kyc.GetStatusForPlayer(cfg, player, now);
      var snapshot := Snapshot(account, if status.Ok? then Some(status.value) else None, types);
      var distinct := Unique(operations);
      made := [];
      for k := 0 to |distinct|
        invariant made == DecisionRows(player, distinct[..k], snapshot, at)
        invariant decisions == old(decisions) + made
        modifies this`decisions
      {
        assert distinct[..k + 1][..k] == distinct[..k];
        var verdict := EvaluatePolicy(distinct[k], snapshot);
        var row := DecisionRow(player, distinct[k], verdict, snapshot, at);
        decisions := decisions + [row];
        made := made + [row];
      }
      assert distinct[..|distinct|] == distinct;
    }
  }
}
