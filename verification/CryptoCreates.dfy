/** What the steps of a create call and of the expiry sweep do, in every run: which calls are accepted, what is stored,
    what is returned. */
module CryptoCreates {
  import opened Wrappers
  import opened Batches
  import opened CryptoDomain
  import opened CryptoProtocol
  import opened CryptoInvariants
  import opened CryptoHandling
  import opened CryptoTables
  import opened CryptoTransactions
  import opened CryptoHistory
  import opened CryptoRuns
  import opened CryptoTheorems
  import CryptoAmount
  import EligibilityPolicy

  // ---- the decision ----

  /** In every run, a new call with a new decision id stores its decision, and goes on if and only if the snapshot
      permits a deposit and the amount parses and lies within the bounds of the asset's policy; it then asks
      for the amount in canonical text. Otherwise it is refused. */
  lemma DecideOutcome(cfg: Config, w: World, s: Step)
    requires Reachable(cfg, w) && s.Decide? && s.call !in w.calls && s.decisionId !in w.db.decisions
    ensures var w', permitted := Next(cfg, w, s), EligibilityPolicy.PermitsDeposit(s.snapshot);
            && w'.db == w.db.(decisions := w'.db.decisions)
            && w'.db.decisions == w.db.decisions[s.decisionId :=
                 Decision(s.request.playerId, EligibilityPolicy.Deposit, permitted, s.snapshot, "eligibility-policy-v1",
                          s.now)]
            && s.call in w'.calls && w'.calls == w.calls[s.call := w'.calls[s.call]]
            && (if permitted && WithinBounds(cfg, s.request.asset, s.request.amount) then
                  var p := CryptoAmount.Parse(s.request.amount, cfg.policies[s.request.asset].decimals);
                  w'.calls[s.call] == Prepared(Accepted(s.request.playerId, s.request.key, s.request.asset,
                                                        p.value.canonical, s.decisionId))
                else w'.calls[s.call] == Refused)
  {
    hide Reachable, ValidAmount, EligibilityPolicy.Evaluate, EligibilityPolicy.PermitsDeposit;
    EligibilityPolicy.DepositAllowedIff(s.snapshot);
    ValidAmountIff(cfg, s.request.asset, s.request.amount);
  }

  /** So every stored amount is canonical and lies within the bounds of its asset's policy. */
  lemma AmountsWithinBounds(cfg: Config, w: World, i: Id)
    requires Reachable(cfg, w) && i in w.db.intents
    ensures var it := w.db.intents[i];
            && WithinBounds(cfg, it.asset, it.requestedAmount)
            && CryptoAmount.Parse(it.requestedAmount, cfg.policies[it.asset].decimals).value.canonical ==
               it.requestedAmount
  {
    hide ReferencesUnique, KeysUnique, EventsOk, Attested, Corresponds, RecordsTerminal, RecordsCounted, CallsOk,
      LogReplays, Reachable;
    ReachableSound(cfg, w);
    StoredId(cfg, w.db, i);
  }

  // ---- the first transaction ----

  /** The rows of an intent that has just been created: it expires exactly the configured time later. */
  function Fresh(cfg: Config, a: Accepted, d: Decision, id: Id, now: Time): File {
    File(Intent(id, a.playerId, a.asset, a.canonical, ProviderPending, cfg.provider, a.key,
                RequestHash(a.asset, a.canonical), Some(Eligibility(a.decisionId, d.policyVersion, d.evaluatedAt)),
                None, None, now + cfg.intentTtl, None, None, None, 1, now),
         ProviderSession(cfg.provider, None, Creating), [])
  }

  predicate Stores(db: Db, i: Id, f: File) {
    i in db.intents && i in db.sessions && i in db.log
    && db.intents[i] == f.intent && db.sessions[i] == f.session && db.log[i] == f.log
  }

  /** Nothing but the rows of one intent differs. */
  ghost predicate OnlyFile(a: Db, b: Db, i: Id) {
    && i in b.intents && i in b.sessions && i in b.log
    && b == a.(intents := a.intents[i := b.intents[i]], sessions := a.sessions[i := b.sessions[i]],
               log := a.log[i := b.log[i]])
  }

  /** In every run: a prepared call that finds an intent of its player under its key stores nothing; it is refused when
      that intent asks for something else or could not be created, waits with it while it is being created,
      and otherwise returns it. With no such intent it stores a fresh one and waits. */
  lemma BeginOutcome(cfg: Config, w: World, s: Step)
    requires Reachable(cfg, w) && s.Begin? && s.call in w.calls && w.calls[s.call].Prepared?
    ensures var w', a := Next(cfg, w, s), w.calls[s.call].a;
            && a.decisionId in w.db.decisions
            && s.call in w'.calls && w'.calls == w.calls[s.call := w'.calls[s.call]]
            && (forall i :: i in w.db.intents && w.db.intents[i].playerId == a.playerId
                            && w.db.intents[i].idempotencyKey == a.key ==>
                  var it := w.db.intents[i];
                  && w'.db == w.db
                  && w'.calls[s.call] ==
                       if it.asset != a.asset || it.requestedAmount != a.canonical || it.status == CreationFailed
                       then Refused
                       else if it.status == ProviderPending then Waiting(a, i) else Returned(a, it))
            && ((forall i :: i in w.db.intents && w.db.intents[i].playerId == a.playerId ==>
                   w.db.intents[i].idempotencyKey != a.key) ==>
                  if s.intentId in w.db.intents then w'.db == w.db && w'.calls[s.call] == Refused
                  else
                    && OnlyFile(w.db, w'.db, s.intentId)
                    && Stores(w'.db, s.intentId, Fresh(cfg, a, w.db.decisions[a.decisionId], s.intentId, s.now))
                    && w'.calls[s.call] == Waiting(a, s.intentId))
  {
    hide SessionAgrees, ShapeOk, LogReplays, Justified, WithinBounds, ReferencesUnique, EventsOk, Attested, Corresponds,
      RecordsTerminal, RecordsCounted, Reachable;
    ReachableSound(cfg, w);
    var a := w.calls[s.call].a;
    assert CallOk(cfg, w.db, w.calls[s.call]);
    var found := FindByKey(w.db, a.playerId, a.key);
    forall i | i in w.db.intents && w.db.intents[i].playerId == a.playerId && w.db.intents[i].idempotencyKey == a.key
      ensures found == Some(i) && Funded(cfg, w.db.intents[i]) && w.db.intents[i].id == i
    {
      assert HoldsKey(w.db, i, a.playerId, a.key);
      StoredId(cfg, w.db, i);
    }
  }

  // ---- the second transaction ----

  /** An activated session: the intent waits for its payment if it was being created. */
  function SessionGiven(f: File, reference: string, url: Option<string>): File {
    var creating := f.intent.status == ProviderPending;
    File(f.intent.(status := if creating then AwaitingPayment else f.intent.status,
                   providerReference := Some(reference), paymentUrl := url,
                   version := if creating then f.intent.version + 1 else f.intent.version),
         f.session.(providerReference := Some(reference), status := Active),
         if creating then
           f.log + [Transition(ProviderPending, AwaitingPayment, f.intent.version + 1, f.intent.playerId,
                               ProviderSessionCreated, None)]
         else f.log)
  }

  function CreationRefused(f: File, now: Time): File {
    File(f.intent.(status := CreationFailed, failedAt := Some(now), version := f.intent.version + 1),
         f.session.(status := SessionFailed),
         f.log + [Transition(ProviderPending, CreationFailed, f.intent.version + 1, f.intent.playerId,
                             ProviderCreationFailed, None)])
  }

  /** The intent holds another reference, or another intent of the provider holds this one. */
  ghost predicate IsRefused(db: Db, i: Id, reference: string)
    requires i in db.intents
  {
    || db.intents[i].providerReference !in {None, Some(reference)}
    || exists j :: j in db.intents && j != i && db.intents[j].provider == db.intents[i].provider
                   && db.intents[j].providerReference == Some(reference)
  }

  /** In every run: a waiting call whose provider fails for the moment is refused and changes nothing. A session is
      refused, and changes nothing, exactly when the intent holds another reference or another intent of the
      provider holds this one; otherwise both rows get it and the call returns the intent. A final refusal
      marks an intent that is still being created, and returns any other unless it was marked before. */
  lemma RespondOutcome(cfg: Config, w: World, s: Step)
    requires Reachable(cfg, w) && s.Respond? && s.call in w.calls && w.calls[s.call].Waiting?
    ensures var w', a, i := Next(cfg, w, s), w.calls[s.call].a, w.calls[s.call].intentId;
            && HasFile(w.db, i) && HasFile(w'.db, i)
            && s.call in w'.calls && w'.calls == w.calls[s.call := w'.calls[s.call]] && OnlyFile(w.db, w'.db, i)
            && var f, g, told := FileOf(w.db, i), FileOf(w'.db, i), w'.calls[s.call];
               match s.outcome
               case Unavailable => g == f && told == Refused
               case SessionCreated(reference, url) =>
                 if IsRefused(w.db, i, reference) then g == f && told == Refused
                 else g == SessionGiven(f, reference, url) && told == Returned(a, g.intent)
               case Permanent =>
                 if f.intent.status == ProviderPending then g == CreationRefused(f, s.now) && told == Refused
                 else g == f && told == if f.intent.status == CreationFailed then Refused else Returned(a, f.intent)
  {
    hide FileOk, ReferencesUnique, KeysUnique, EventsOk, Attested, Corresponds, RecordsTerminal, RecordsCounted,
      Reachable, Activate, MarkCreationFailed, IsRefused, SessionGiven;
    ReachableSound(cfg, w);
    var i := w.calls[s.call].intentId;
    assert CallOk(cfg, w.db, w.calls[s.call]);
    assert HasFile(w.db, i) && (w.db.intents[i].status == ProviderPending ==> w.db.sessions[i].status == Creating) by {
      StoredId(cfg, w.db, i);
      CreatingSession(cfg, w.db, i);
    }
    PutSame(w.db, i);
    match s.outcome
    case Unavailable =>
    case SessionCreated(reference, url) => ActivateWrites(cfg, w.db, i, reference, url);
    case Permanent => MarkWrites(w.db, i, s.now);
  }

  lemma CreatingSession(cfg: Config, db: Db, i: Id)
    requires HasFile(db, i) && FileOk(cfg, db.decisions, i, FileOf(db, i))
    ensures db.intents[i].status == ProviderPending ==> db.sessions[i].status == Creating
  {
  }

  lemma PutSame(db: Db, i: Id)
    requires HasFile(db, i)
    ensures Put(db, i, FileOf(db, i)) == db
  {
    assert db.intents[i := db.intents[i]] == db.intents && db.sessions[i := db.sessions[i]] == db.sessions
           && db.log[i := db.log[i]] == db.log;
  }

  lemma ActivateWrites(cfg: Config, db: Db, i: Id, reference: string, url: Option<string>)
    requires Filed(cfg, db) && HasFile(db, i)
    ensures var g := SessionGiven(FileOf(db, i), reference, url);
            if IsRefused(db, i, reference) then
              Activate(db, i, reference, url).0 == db && Activate(db, i, reference, url).1.Err?
            else Activate(db, i, reference, url) == (Put(db, i, g), Ok(g.intent))
  {
    hide FileOk, ReferenceFree;
    FreeIff(cfg, db, i, reference);
  }

  lemma MarkWrites(db: Db, i: Id, now: Time)
    requires HasFile(db, i) && (db.intents[i].status == ProviderPending ==> db.sessions[i].status == Creating)
    ensures var f := FileOf(db, i);
            MarkCreationFailed(db, i, now) ==
            if f.intent.status == ProviderPending then
              (Put(db, i, CreationRefused(f, now)), Ok(CreationRefused(f, now).intent))
            else (db, Ok(f.intent))
  {
  }

  lemma FreeIff(cfg: Config, db: Db, i: Id, reference: string)
    requires Filed(cfg, db) && i in db.intents
    ensures ReferenceFree(db, i, reference) <==>
            !exists j :: j in db.intents && j != i && db.intents[j].provider == db.intents[i].provider
                         && db.intents[j].providerReference == Some(reference)
  {
    hide ShapeOk, LogReplays, Funded, Justified;
    forall j | j in db.intents
      ensures db.sessions[j].provider == db.intents[j].provider
      ensures db.sessions[j].providerReference == db.intents[j].providerReference
    {
      StoredId(cfg, db, j);
    }
  }

  // ---- the sweep ----

  /** The records a sweep leaves: one for each intent whose payment had been seen, in the order of the batch. */
  function SweepRecords(db: Db, ids: seq<Id>, now: Time): seq<Reconciliation> {
    if ids == [] then []
    else
      var last := ids[|ids| - 1];
      SweepRecords(db, ids[..|ids| - 1], now)
      + if last in db.intents && db.intents[last].status in {Detected, Confirming} then
          var it := db.intents[last];
          [Reconciliation(Some(last), None, ExpiredAfterPaymentDetected, Some(it.asset), Some(it.asset),
                          Some(it.requestedAmount), None, now)]
        else []
  }

  function Lapsed(f: File): File {
    File(f.intent.(status := Expired, version := f.intent.version + 1), f.session,
         f.log + [Transition(f.intent.status, Expired, f.intent.version + 1, f.intent.playerId, ExpiryWorker, None)])
  }

  ghost predicate SweptAs(a: Db, b: Db, ids: seq<Id>, now: Time) {
    && b.intents.Keys == a.intents.Keys && b.sessions.Keys == a.sessions.Keys && b.log.Keys == a.log.Keys
    && (forall i :: HasFile(a, i) ==>
          HasFile(b, i) && FileOf(b, i) == if i in ids then Lapsed(FileOf(a, i)) else FileOf(a, i))
    && b.reconciliations == a.reconciliations + SweepRecords(a, ids, now)
    && b.events == a.events && b.attestations == a.attestations && b.evidence == a.evidence
    && b.decisions == a.decisions
  }

  lemma RecordsSplit(db: Db, ids: seq<Id>, now: Time)
    requires ids != []
    ensures SweepRecords(db, ids, now) == SweepRecords(db, ids[..1], now) + SweepRecords(db, ids[1..], now)
  {
    var n := |ids| - 1;
    if n > 0 {
      RecordsSplit(db, ids[..n], now);
      assert ids[..n][..1] == ids[..1] && ids[..n][1..] == ids[1..][..n - 1] && ids[1..][n - 1] == ids[n];
    } else {
      assert ids[..1] == ids;
    }
  }

  lemma {:induction false} SameRecords(a: Db, b: Db, ids: seq<Id>, now: Time)
    requires forall k :: 0 <= k < |ids| ==>
               ids[k] in a.intents && ids[k] in b.intents && b.intents[ids[k]] == a.intents[ids[k]]
    ensures SweepRecords(b, ids, now) == SweepRecords(a, ids, now)
  {
    if ids != [] { SameRecords(a, b, ids[..|ids| - 1], now); }
  }

  lemma OneSwept(cfg: Config, db: Db, i: Id, now: Time)
    requires Filed(cfg, db) && i in db.intents && Due(db.intents[i], now)
    ensures ExpireOne(db, i, now).Ok? && SweptAs(db, ExpireOne(db, i, now).value, [i], now)
  {
    hide FileOk, ExpireOne, SweepRecords, ExpiredRecord, Due;
    assert HasFile(db, i) && db.intents[i].id == i by {
      StoredId(cfg, db, i);
      FileId(cfg, db.decisions, i, FileOf(db, i));
    }
    OneRecord(db, i, now);
    OneExpired(db, i, now);
  }

  lemma OneExpired(db: Db, i: Id, now: Time)
    requires HasFile(db, i) && Due(db.intents[i], now)
    ensures var f, seen := FileOf(db, i), db.intents[i].status in {Detected, Confirming};
            ExpireOne(db, i, now) ==
            Ok(Put(db, i, Lapsed(f)).(
                 reconciliations := db.reconciliations + if seen then [ExpiredRecord(f.intent, now)] else []))
  {
    assert db.reconciliations + [] == db.reconciliations;
  }

  lemma OneRecord(db: Db, i: Id, now: Time)
    requires i in db.intents && db.intents[i].id == i
    ensures SweepRecords(db, [i], now) ==
            if db.intents[i].status in {Detected, Confirming} then [ExpiredRecord(db.intents[i], now)] else []
  {
    assert [i][..0] == [];
    assert SweepRecords(db, [], now) == [];
  }

  lemma SweptTogether(a: Db, b: Db, c: Db, ids: seq<Id>, now: Time)
    requires ids != [] && Distinct(ids) && (forall k :: 0 <= k < |ids| ==> HasFile(a, ids[k]))
    requires SweptAs(a, b, ids[..1], now) && SweptAs(b, c, ids[1..], now)
    ensures SweptAs(a, c, ids, now)
  {
    hide Lapsed, SweepRecords;
    RecordsSplit(a, ids, now);
    forall k | 0 <= k < |ids[1..]|
      ensures ids[1..][k] in a.intents && ids[1..][k] in b.intents && b.intents[ids[1..][k]] == a.intents[ids[1..][k]]
    {
      assert HasFile(a, ids[k + 1]) && ids[k + 1] != ids[0] && FileOf(b, ids[k + 1]) == FileOf(a, ids[k + 1]);
    }
    SameRecords(a, b, ids[1..], now);
    assert ids == [ids[0]] + ids[1..];
    forall i | HasFile(a, i)
      ensures HasFile(c, i) && FileOf(c, i) == if i in ids then Lapsed(FileOf(a, i)) else FileOf(a, i)
    {
      assert i in ids <==> i == ids[0] || i in ids[1..];
      assert i == ids[0] ==> i !in ids[1..];
    }
  }

  lemma {:induction false} BatchSwept(cfg: Config, db: Db, ids: seq<Id>, now: Time)
    requires Inv(cfg, db) && DueBatch(db, now, |ids|, ids)
    ensures Sweep(db, ids, now).Ok? && SweptAs(db, Sweep(db, ids, now).value, ids, now)
    decreases |ids|
  {
    hide Inv, ExpireOne, SweptAs, DueBatch, Distinct;
    if ids == [] {
      NothingSwept(db, ids, now);
    } else {
      FirstSwept(cfg, db, ids, now);
      var db1 := ExpireOne(db, ids[0], now).value;
      BatchSwept(cfg, db1, ids[1..], now);
      SweptTogether(db, db1, Sweep(db, ids, now).value, ids, now);
    }
  }

  lemma FirstSwept(cfg: Config, db: Db, ids: seq<Id>, now: Time)
    requires Inv(cfg, db) && ids != [] && DueBatch(db, now, |ids|, ids)
    ensures Distinct(ids) && forall k :: 0 <= k < |ids| ==> HasFile(db, ids[k])
    ensures ExpireOne(db, ids[0], now).Ok?
    ensures var db1 := ExpireOne(db, ids[0], now).value;
            Inv(cfg, db1) && SweptAs(db, db1, ids[..1], now) && DueBatch(db1, now, |ids[1..]|, ids[1..])
  {
    hide Inv, ExpireOne, SweptAs, Sweep, FileOk;
    AllFiled(cfg, db, ids, now);
    OneSwept(cfg, db, ids[0], now);
    var db1 := ExpireOne(db, ids[0], now).value;
    assert ids[..1] == [ids[0]];
    ExpireOneKeepsInv(cfg, db, ids[0], now);
    RestIsDue(db, db1, ids, now);
  }

  lemma AllFiled(cfg: Config, db: Db, ids: seq<Id>, now: Time)
    requires Inv(cfg, db) && DueBatch(db, now, |ids|, ids)
    ensures Filed(cfg, db) && forall k :: 0 <= k < |ids| ==> HasFile(db, ids[k])
  {
    hide ReferencesUnique, KeysUnique, EventsOk, Attested, Corresponds, RecordsTerminal, RecordsCounted, FileOk;
  }

  lemma NothingSwept(db: Db, ids: seq<Id>, now: Time)
    requires ids == []
    ensures SweptAs(db, db, ids, now)
  {
  }

  lemma RestIsDue(db: Db, db1: Db, ids: seq<Id>, now: Time)
    requires ids != [] && DueBatch(db, now, |ids|, ids) && SweptAs(db, db1, ids[..1], now)
    requires forall k :: 0 <= k < |ids| ==> HasFile(db, ids[k])
    ensures DueBatch(db1, now, |ids| - 1, ids[1..])
  {
    hide Lapsed, SweepRecords;
    forall k | 0 <= k < |ids| - 1
      ensures ids[1..][k] in db1.intents && Due(db1.intents[ids[1..][k]], now)
    {
      assert ids[k + 1] != ids[0] && HasFile(db, ids[k + 1]);
      assert FileOf(db1, ids[k + 1]) == FileOf(db, ids[k + 1]);
    }
  }

  /** Distinct open intents whose expiry has come, no more than the limit. */
  predicate IsBatch(db: Db, now: Time, limit: nat, ids: seq<Id>) {
    && |ids| <= limit && (forall j, k :: 0 <= j < k < |ids| ==> ids[j] != ids[k])
    && forall k :: 0 <= k < |ids| ==>
         && ids[k] in db.intents && db.intents[ids[k]].expiresAt <= now
         && db.intents[ids[k]].status in {ProviderPending, AwaitingPayment, Detected, Confirming}
  }

  /** In every run a sweep over any such batch expires exactly its intents, with one log row each, leaves one record for
      each of them whose payment had been detected or was being confirmed and no other, and changes nothing else; over
      anything else it does nothing. */
  lemma SweepOutcome(cfg: Config, w: World, ids: seq<Id>, limit: nat, now: Time)
    requires Reachable(cfg, w)
    ensures var w' := Next(cfg, w, Expire(ids, limit, now));
            if IsBatch(w.db, now, limit, ids) then SweptAs(w.db, w'.db, ids, now) && w'.calls == w.calls else w' == w
  {
    hide Inv, CallsOk, Reachable, Sweep, SweptAs;
    ReachableSound(cfg, w);
    assert IsBatch(w.db, now, limit, ids) <==> DueBatch(w.db, now, limit, ids);
    if DueBatch(w.db, now, limit, ids) {
      assert DueBatch(w.db, now, |ids|, ids);
      BatchSwept(cfg, w.db, ids, now);
    }
  }
}
