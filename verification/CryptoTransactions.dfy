/** Each funding transaction keeps the invariant, and the callback raises an error in one case only. */
module CryptoTransactions {
  import opened Wrappers
  import opened CryptoDomain
  import opened CryptoProtocol
  import opened CryptoInvariants
  import opened CryptoHandling
  import opened CryptoTables
  import CryptoAmount
  import EligibilityPolicy

  // ---- the callback ----

  lemma NobodyHolds(cfg: Config, db: Db, i: Id, reference: string)
    requires Filed(cfg, db) && i in db.intents && FindByReference(db, db.intents[i].provider, reference).None?
    ensures ReferenceFree(db, i, reference)
  {
    forall j | j in db.intents ensures db.sessions[j].provider == db.intents[j].provider
                               ensures db.sessions[j].providerReference == db.intents[j].providerReference {
      assert FileOk(cfg, db.decisions, j, FileOf(db, j));
    }
    forall j | j in db.intents && db.intents[j].provider == db.intents[i].provider
      ensures db.intents[j].providerReference != Some(reference)
    {
      assert !HoldsReference(db, j, db.intents[i].provider, reference);
    }
  }

  /** What locating an event's intent guarantees about the rows handed to Handle. */
  ghost predicate GoodLocation(cfg: Config, db: Db, e: ProviderEvent, i: Id, f: File) {
    && HasFile(db, i)
    && FileOk(cfg, db.decisions, i, f)
    && f.intent.providerReference == Some(e.reference)
    && (|| f == FileOf(db, i)
        || (&& Evolves(db.intents[i], f.intent)
            && db.intents[i].status == ProviderPending && f.intent.status == AwaitingPayment
            && db.intents[i].lastEventAt == f.intent.lastEventAt && ReferenceFree(db, i, e.reference)))
  }

  /** The one way a new event can fail to be stored: nobody holds its reference and the intent id
      it claims is not a UUID. */
  ghost predicate Unstorable(db: Db, e: ProviderEvent) {
    FindByReference(db, e.provider, e.reference).None? && e.claimedIntent.NotUuid?
  }

  lemma LocateIsGood(cfg: Config, db: Db, e: ProviderEvent)
    requires Filed(cfg, db)
    ensures Locate(db, e).Found? ==>
              HasFile(db, Locate(db, e).id) && GoodLocation(cfg, db, e, Locate(db, e).id, Locate(db, e).file)
    ensures Locate(db, e).Broken? <==> Unstorable(db, e)
    ensures Locate(db, e).Broken? ==> Locate(db, e).error == InvalidUuid
  {
    hide LogReplays, Funded, Justified;
    var known := FindByReference(db, e.provider, e.reference);
    if known.Some? {
      assert FileOk(cfg, db.decisions, known.value, FileOf(db, known.value));
    } else if e.claimedIntent.Uuid? {
      var i := e.claimedIntent.id;
      if HasFile(db, i) && db.intents[i].provider == e.provider && db.intents[i].status == ProviderPending {
        NobodyHolds(cfg, db, i, e.reference);
        assert FileOk(cfg, db.decisions, i, FileOf(db, i));
        ActivateKeepsFile(cfg, db.decisions, FileOf(db, i), e.reference, None,
                          Activation(ProviderEventBeforeSessionResponse, Some(|db.events|), e.reference, None));
      }
    }
  }

  lemma HandleLocated(cfg: Config, db: Db, e: ProviderEvent, i: Id, f: File, now: Time)
    requires HasFile(db, i) && GoodLocation(cfg, db, e, i, f) && db.intents[i].id == i
    ensures Handle(cfg, f, e, |db.events|, now).Ok?
    ensures Good(cfg, db.decisions, db.intents[i], Handle(cfg, f, e, |db.events|, now).value, e, |db.events|, now)
    ensures Evolves(f.intent, Handle(cfg, f, e, |db.events|, now).value.file.intent)
  {
    hide Handle, FileOk, GoodRow, GoodRecord, GoodAttestation, Evolves;
    var h := Handle(cfg, f, e, |db.events|, now);
    assert f.intent.id == i by { assert FileOk(cfg, db.decisions, i, f); FileId(cfg, db.decisions, i, f); }
    HandleIsGood(cfg, db.decisions, f, e, |db.events|, now);
    if f != FileOf(db, i) {
      GoodThroughRecovery(cfg, db.decisions, db.intents[i], f, h.value, e, |db.events|, now);
    }
  }

  lemma FileId(cfg: Config, decisions: map<Id, Decision>, i: Id, f: File)
    requires FileOk(cfg, decisions, i, f)
    ensures f.intent.id == i
  {
  }

  lemma StoredId(cfg: Config, db: Db, i: Id)
    requires Filed(cfg, db) && i in db.intents
    ensures HasFile(db, i) && db.intents[i].id == i && FileOk(cfg, db.decisions, i, FileOf(db, i))
  {
  }

  /** On every table state satisfying the invariant, for every event: the callback keeps the
      invariant, and raises an error exactly when a new, timely event is unstorable. */
  lemma CallbackKeepsInv(cfg: Config, db: Db, e: ProviderEvent, now: Time)
    requires Inv(cfg, db)
    ensures Inv(cfg, Callback(cfg, db, e, now).0)
    ensures Callback(cfg, db, e, now).1.Raised? <==>
            FindEvent(db.events, e).None? && e.occurredAt <= now + cfg.maxFutureSkew && Unstorable(db, e)
    ensures Callback(cfg, db, e, now).1.Raised? ==>
            Callback(cfg, db, e, now).1.error == InvalidUuid && Callback(cfg, db, e, now).0 == db
  {
    hide Filed, FileOk, ReferencesUnique, KeysUnique, EventsOk, Attested, Corresponds, RecordsTerminal, RecordsCounted,
      Handle, Locate, GoodRow, GoodRecord, GoodAttestation, Evolves, Commit;
    if FindEvent(db.events, e).None? {
      if e.occurredAt > now + cfg.maxFutureSkew {
        assert RejectUnlinked(db, e, FutureTimestamp, now) == RejectUnlinked(db, e, FutureTimestamp, now).(
                 reconciliations := db.reconciliations + []);
        UnlinkedKeepsInv(cfg, db, RejectUnlinked(db, e, FutureTimestamp, now), e, FutureTimestamp, now, None);
      } else {
        LocateIsGood(cfg, db, e);
        match Locate(db, e)
        case Broken(_) =>
        case Unknown => UnknownKeepsInv(cfg, db, e, now);
        case Found(i, f) => FoundKeepsInv(cfg, db, e, i, f, now);
      }
    }
  }

  lemma UnknownKeepsInv(cfg: Config, db: Db, e: ProviderEvent, now: Time)
    requires Inv(cfg, db) && FindEvent(db.events, e).None?
    ensures Inv(cfg,
                InsertReconciliation(RejectUnlinked(db, e, UnknownReference, now), UnknownRecord(e, |db.events|, now)))
  {
    hide Filed, FileOk, ReferencesUnique, KeysUnique, EventsOk, Attested, Corresponds, RecordsTerminal;
    var r := UnknownRecord(e, |db.events|, now);
    var db1 := RejectUnlinked(db, e, UnknownReference, now);
    assert forall k :: 0 <= k < |db.reconciliations| ==> db.reconciliations[k].eventRow != r.eventRow;
    assert InsertReconciliation(db1, r) == db1.(reconciliations := db.reconciliations + [r]);
    UnlinkedKeepsInv(cfg, db, InsertReconciliation(db1, r), e, UnknownReference, now, Some(r));
  }

  lemma FoundKeepsInv(cfg: Config, db: Db, e: ProviderEvent, i: Id, f: File, now: Time)
    requires Inv(cfg, db) && FindEvent(db.events, e).None?
    requires HasFile(db, i) && GoodLocation(cfg, db, e, i, f)
    ensures Handle(cfg, f, e, |db.events|, now).Ok?
    ensures Inv(cfg, Commit(db, i, Handle(cfg, f, e, |db.events|, now).value))
  {
    hide Filed, FileOk, ReferencesUnique, KeysUnique, EventsOk, Attested, Corresponds, RecordsTerminal, RecordsCounted,
      Handle, Good, Commit, ReferenceFree;
    StoredId(cfg, db, i);
    HandleLocated(cfg, db, e, i, f, now);
    CommitKeepsInv(cfg, db, i, Handle(cfg, f, e, |db.events|, now).value, e, now);
  }

  // ---- creating ----

  ghost predicate AcceptedOk(cfg: Config, decisions: map<Id, Decision>, a: Accepted) {
    && a.asset in cfg.policies
    && a.decisionId in decisions
    && (var p := CryptoAmount.Parse(a.canonical, cfg.policies[a.asset].decimals);
        p.Some? && p.value.canonical == a.canonical)
    && WithinBounds(cfg, a.asset, a.canonical)
    && (var d := decisions[a.decisionId];
        && d.playerId == a.playerId && d.operation == EligibilityPolicy.Deposit && d.allowed
        && EligibilityPolicy.PermitsDeposit(d.snapshot))
  }

  lemma FreshFileOk(cfg: Config, db: Db, a: Accepted, id: Id, now: Time)
    requires AcceptedOk(cfg, db.decisions, a)
    ensures FileOk(cfg, db.decisions, id, FreshFile(cfg, id, a, db.decisions[a.decisionId], now))
  {
  }

  lemma InsertKeepsInv(cfg: Config, db: Db, i: Id, f: File)
    requires Inv(cfg, db) && i !in db.intents && FileOk(cfg, db.decisions, i, f)
    requires f.intent.providerReference.None? && f.intent.status == ProviderPending
    requires FindByKey(db, f.intent.playerId, f.intent.idempotencyKey).None?
    ensures Inv(cfg, Put(db, i, f))
  {
    hide FileOk, RowOk, ReferencesUnique, KeysUnique, EventsOk, Attested, Corresponds, RecordsTerminal, RecordsCounted,
      Evolves;
    PutKeepsFiled(cfg, db, i, f);
    forall j | j in db.intents && j != i && db.intents[j].playerId == f.intent.playerId
      ensures db.intents[j].idempotencyKey != f.intent.idempotencyKey
    {
      assert !HoldsKey(db, j, f.intent.playerId, f.intent.idempotencyKey);
    }
    PutKeepsReferences(db, i, f.intent);
    PutKeepsKeys(db, i, f.intent);
    PutAdvances(db, i, f);
    EventsFollow(db, Put(db, i, f));
    AttestedFollows(cfg, db, Put(db, i, f));
    CorrespondsFollows(cfg, db, Put(db, i, f));
    RecordsFollow(db, Put(db, i, f));
    CountedFollows(db, Put(db, i, f));
  }

  lemma PrepareKeepsInv(cfg: Config, db: Db, a: Accepted, id: Id, now: Time)
    requires Inv(cfg, db) && AcceptedOk(cfg, db.decisions, a)
    ensures Inv(cfg, Prepare(cfg, db, a, db.decisions[a.decisionId], id, now).0)
  {
    hide Inv, FileOk;
    FreshFileOk(cfg, db, a, id, now);
    if FindByKey(db, a.playerId, a.key).None? && id !in db.intents {
      InsertKeepsInv(cfg, db, id, FreshFile(cfg, id, a, db.decisions[a.decisionId], now));
    }
  }

  lemma ActivateKeepsInv(cfg: Config, db: Db, i: Id, reference: string, url: Option<string>)
    requires Inv(cfg, db)
    ensures Inv(cfg, Activate(db, i, reference, url).0)
    ensures i in db.intents ==> Activate(db, i, reference, url).0.intents.Keys == db.intents.Keys
    ensures i in db.intents ==> Evolves(db.intents[i], Activate(db, i, reference, url).0.intents[i])
  {
    hide FileOk, ReferencesUnique, KeysUnique, EventsOk, Attested, Corresponds, RecordsTerminal, RecordsCounted,
      Evolves, ReferenceFree;
    if i in db.intents {
      StoredId(cfg, db, i);
      ReflexiveEvolves(db.intents[i]);
      var f := FileOf(db, i);
      if (f.intent.providerReference.Some? ==> f.intent.providerReference.value == reference)
         && ReferenceFree(db, i, reference) {
        ActivateKeepsFile(cfg, db.decisions, f, reference, url,
                          Activation(ProviderSessionCreated, None, reference, url));
        var g := Activated(f, reference, url);
        var moved := Move(g, Activation(ProviderSessionCreated, None, reference, url));
        PutKeepsInv(cfg, db, i, if f.intent.status != ProviderPending then g else moved.value);
      }
    }
  }

  lemma ReflexiveEvolves(a: Intent)
    ensures Evolves(a, a)
  {
  }

  lemma FailKeepsFile(cfg: Config, decisions: map<Id, Decision>, f: File, now: Time)
    requires FileOk(cfg, decisions, f.intent.id, f) && f.intent.status == ProviderPending
    ensures var m := Move(SessionFailing(f), CreationFailure(now));
            m.Ok? && FileOk(cfg, decisions, f.intent.id, m.value) && Evolves(f.intent, m.value.intent)
  {
    hide LogReplays, Funded, Justified, Evolves;
    var g := SessionFailing(f);
    SameLogReplays(f, g);
    MoveKeepsFile(cfg, decisions, g, CreationFailure(now));
  }

  lemma MarkKeepsInv(cfg: Config, db: Db, i: Id, now: Time)
    requires Inv(cfg, db)
    ensures Inv(cfg, MarkCreationFailed(db, i, now).0)
    ensures i in db.intents ==> MarkCreationFailed(db, i, now).1.Ok?
    ensures i in db.intents ==> MarkCreationFailed(db, i, now).0.intents.Keys == db.intents.Keys
    ensures i in db.intents ==> Evolves(db.intents[i], MarkCreationFailed(db, i, now).0.intents[i])
  {
    hide FileOk, ReferencesUnique, KeysUnique, EventsOk, Attested, Corresponds, RecordsTerminal, RecordsCounted,
      Evolves;
    if i in db.intents {
      StoredId(cfg, db, i);
      ReflexiveEvolves(db.intents[i]);
      var f := FileOf(db, i);
      if f.intent.status == ProviderPending {
        FailKeepsFile(cfg, db.decisions, f, now);
        PutKeepsInv(cfg, db, i, Move(SessionFailing(f), CreationFailure(now)).value);
      }
    }
  }

  // ---- the expiry sweep ----

  lemma ExpireOneKeepsInv(cfg: Config, db: Db, i: Id, now: Time)
    requires Inv(cfg, db) && i in db.intents && Due(db.intents[i], now)
    ensures var r := ExpireOne(db, i, now);
            && r.Ok? && Inv(cfg, r.value)
            && r.value.intents ==
                 db.intents[i := db.intents[i].(status := Expired, version := db.intents[i].version + 1)]
            && r.value.events == db.events && r.value.attestations == db.attestations
            && r.value.decisions == db.decisions
  {
    hide FileOk, ReferencesUnique, KeysUnique, EventsOk, Attested, Corresponds, RecordsTerminal, RecordsCounted,
      Evolves;
    StoredId(cfg, db, i);
    var f := FileOf(db, i);
    assert Fit(f.intent, PlainChange(Expired, ExpiryWorker));
    MoveFromFile(cfg, db, i, PlainChange(Expired, ExpiryWorker));
    var g := Move(f, PlainChange(Expired, ExpiryWorker)).value;
    var db1 := Put(db, i, g);
    PutKeepsInv(cfg, db, i, g);
    if f.intent.status in {Detected, Confirming} {
      var r := ExpiredRecord(f.intent, now);
      var db2 := db1.(reconciliations := db1.reconciliations + [r]);
      assert ExpireOne(db, i, now) == Ok(db2);
      AddExpiredRecord(cfg, db1, db2, r);
    }
  }

  lemma MoveFromFile(cfg: Config, db: Db, i: Id, c: Change)
    requires Filed(cfg, db) && i in db.intents && Fit(db.intents[i], c) && !NeedsReference(c.to)
    ensures HasFile(db, i) && Move(FileOf(db, i), c).Ok?
    ensures FileOk(cfg, db.decisions, i, Move(FileOf(db, i), c).value)
    ensures Evolves(db.intents[i], Move(FileOf(db, i), c).value.intent)
  {
    StoredId(cfg, db, i);
    MoveKeepsFile(cfg, db.decisions, FileOf(db, i), c);
  }

  lemma AddExpiredRecord(cfg: Config, db: Db, db': Db, r: Reconciliation)
    requires Inv(cfg, db) && r.eventRow.None? && r.intentId.Some?
    requires r.intentId.value in db.intents && IsTerminal(db.intents[r.intentId.value].status)
    requires db' == db.(reconciliations := db.reconciliations + [r])
    ensures Inv(cfg, db')
  {
    hide Filed, FileOk, ReferencesUnique, KeysUnique, EventsOk, Attested, Corresponds, RecordsTerminal, RecordsCounted;
    FiledIgnoresShared(cfg, db, db');
    EventsFollow(db, db');
    AttestedFollows(cfg, db, db');
    CorrespondsFollows(cfg, db, db');
    RecordsTerminalAppend(db, db', Some(r));
    CountedWithoutEvent(db, db', r);
  }

  /** The intents after a sweep: the swept ones expired, one version on; the others untouched. */
  ghost function Swept(intents: map<Id, Intent>, ids: seq<Id>): map<Id, Intent> {
    map i | i in intents :: if i in ids then intents[i].(status := Expired, version := intents[i].version + 1)
                            else intents[i]
  }

  /** A sweep of due rows never raises, whatever the order, and expires each row exactly once. */
  lemma {:induction false} SweepKeepsInv(cfg: Config, db: Db, ids: seq<Id>, now: Time)
    requires Inv(cfg, db) && DueBatch(db, now, |ids|, ids)
    ensures Sweep(db, ids, now).Ok?
    ensures Inv(cfg, Sweep(db, ids, now).value)
    ensures Sweep(db, ids, now).value.intents == Swept(db.intents, ids)
    ensures Sweep(db, ids, now).value.decisions == db.decisions
    ensures Sweep(db, ids, now).value.events == db.events && Sweep(db, ids, now).value.attestations == db.attestations
    decreases |ids|
  {
    hide Inv, ExpireOne;
    if ids == [] {
      assert Swept(db.intents, ids) == db.intents;
    } else {
      var i, rest := ids[0], ids[1..];
      ExpireOneKeepsInv(cfg, db, i, now);
      var db1 := ExpireOne(db, i, now).value;
      assert DueBatch(db1, now, |rest|, rest);
      SweepKeepsInv(cfg, db1, rest, now);
      assert ids == [i] + rest;
      assert Swept(db1.intents, rest) == Swept(db.intents, ids);
    }
  }
}
