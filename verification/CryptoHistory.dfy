/** What no funding transaction ever takes back: tables only grow, intents only evolve. */
module CryptoHistory {
  import opened Wrappers
  import opened CryptoDomain
  import opened CryptoProtocol
  import opened CryptoInvariants
  import opened CryptoHandling
  import opened CryptoTables
  import opened CryptoTransactions

  ghost predicate LogsGrow(before: map<Id, seq<Transition>>, after: map<Id, seq<Transition>>) {
    forall i :: i in before ==> i in after && before[i] <= after[i]
  }

  ghost predicate DecisionsKept(before: map<Id, Decision>, after: map<Id, Decision>) {
    forall i :: i in before ==> i in after && after[i] == before[i]
  }

  ghost predicate Extends(a: Db, b: Db) {
    && Advances(a.intents, b.intents)
    && LogsGrow(a.log, b.log)
    && a.events <= b.events
    && a.reconciliations <= b.reconciliations
    && a.attestations <= b.attestations
    && a.evidence <= b.evidence
    && DecisionsKept(a.decisions, b.decisions)
  }

  lemma ExtendsReflexive(a: Db)
    ensures Extends(a, a)
  {
  }

  lemma AdvancesTransitive(a: map<Id, Intent>, b: map<Id, Intent>, c: map<Id, Intent>)
    requires Advances(a, b) && Advances(b, c)
    ensures Advances(a, c)
  {
    hide Evolves;
    forall i | i in a ensures i in c && Evolves(a[i], c[i]) { EvolvesTransitive(a[i], b[i], c[i]); }
  }

  lemma ExtendsTransitive(a: Db, b: Db, c: Db)
    requires Extends(a, b) && Extends(b, c)
    ensures Extends(a, c)
  {
    hide Advances, Evolves;
    AdvancesTransitive(a.intents, b.intents, c.intents);
  }

  lemma InsertRecordExtends(db: Db, r: Reconciliation)
    ensures Extends(db, InsertReconciliation(db, r))
  {
  }

  lemma PutExtends(db: Db, i: Id, f: File)
    requires i in db.intents ==> Evolves(db.intents[i], f.intent)
    requires i in db.log ==> db.log[i] <= f.log
    ensures Extends(db, Put(db, i, f))
  {
    hide Advances, Evolves;
    PutAdvances(db, i, f);
  }

  lemma CommitExtends(db: Db, i: Id, h: Handled)
    requires i in db.intents ==> Evolves(db.intents[i], h.file.intent)
    requires i in db.log ==> db.log[i] <= h.file.log
    ensures Extends(db, Commit(db, i, h))
  {
    hide Advances, Evolves;
    PutAdvances(db, i, h.file);
  }

  lemma HandleGrowsLog(cfg: Config, f: File, e: ProviderEvent, eventRow: Id, now: Time)
    ensures Handle(cfg, f, e, eventRow, now).Ok? ==> f.log <= Handle(cfg, f, e, eventRow, now).value.file.log
  {
    hide Discrepancy, IsStale, Attest;
  }

  lemma LocateGrowsLog(db: Db, e: ProviderEvent)
    ensures Locate(db, e).Found? ==> HasFile(db, Locate(db, e).id) && db.log[Locate(db, e).id] <= Locate(db, e).file.log
  {
  }

  lemma CallbackExtends(cfg: Config, db: Db, e: ProviderEvent, now: Time)
    requires Filed(cfg, db)
    ensures Extends(db, Callback(cfg, db, e, now).0)
  {
    hide Filed, FileOk, Handle, Locate, GoodRow, GoodRecord, GoodAttestation, Evolves, Commit, Extends, GoodLocation,
      InsertReconciliation;
    ExtendsReflexive(db);
    var far := RejectUnlinked(db, e, FutureTimestamp, now);
    UnlinkedExtends(db, e, FutureTimestamp, now);
    UnlinkedExtends(db, e, UnknownReference, now);
    var unknown := RejectUnlinked(db, e, UnknownReference, now);
    InsertRecordExtends(unknown, UnknownRecord(e, |db.events|, now));
    ExtendsTransitive(db, unknown, InsertReconciliation(unknown, UnknownRecord(e, |db.events|, now)));
    LocateIsGood(cfg, db, e);
    LocateGrowsLog(db, e);
    if Locate(db, e).Found? { FoundExtends(cfg, db, e, Locate(db, e).id, Locate(db, e).file, now); }
  }

  lemma UnlinkedExtends(db: Db, e: ProviderEvent, reason: Reason, now: Time)
    ensures Extends(db, RejectUnlinked(db, e, reason, now))
  {
  }

  lemma FoundExtends(cfg: Config, db: Db, e: ProviderEvent, i: Id, f: File, now: Time)
    requires Filed(cfg, db) && HasFile(db, i) && GoodLocation(cfg, db, e, i, f) && db.log[i] <= f.log
    ensures Handle(cfg, f, e, |db.events|, now).Ok?
    ensures Extends(db, Commit(db, i, Handle(cfg, f, e, |db.events|, now).value))
  {
    hide Filed, FileOk, Handle, GoodRow, GoodRecord, GoodAttestation, Evolves, Commit, Extends, GoodLocation;
    StoredId(cfg, db, i);
    HandleLocated(cfg, db, e, i, f, now);
    HandleGrowsLog(cfg, f, e, |db.events|, now);
    CommitExtends(db, i, Handle(cfg, f, e, |db.events|, now).value);
  }

  lemma PrepareExtends(cfg: Config, db: Db, a: Accepted, d: Decision, id: Id, now: Time)
    requires Filed(cfg, db)
    ensures Extends(db, Prepare(cfg, db, a, d, id, now).0)
  {
    hide FileOk, Extends;
    ExtendsReflexive(db);
    if id !in db.intents { PutExtends(db, id, FreshFile(cfg, id, a, d, now)); }
  }

  lemma ActivateExtends(cfg: Config, db: Db, i: Id, reference: string, url: Option<string>)
    requires Inv(cfg, db)
    ensures Extends(db, Activate(db, i, reference, url).0)
  {
    hide Inv, Evolves, ReferenceFree, Extends;
    ExtendsReflexive(db);
    ActivateKeepsInv(cfg, db, i, reference, url);
    if HasFile(db, i) && Activate(db, i, reference, url).1.Ok? {
      var f := FileOf(db, i);
      var g := Activated(f, reference, url);
      var moved := Move(g, Activation(ProviderSessionCreated, None, reference, url));
      PutExtends(db, i, if f.intent.status != ProviderPending then g else moved.value);
    }
  }

  lemma MarkExtends(cfg: Config, db: Db, i: Id, now: Time)
    requires Inv(cfg, db)
    ensures Extends(db, MarkCreationFailed(db, i, now).0)
  {
    hide Inv, Evolves, Extends;
    ExtendsReflexive(db);
    MarkKeepsInv(cfg, db, i, now);
    if HasFile(db, i) && db.intents[i].status == ProviderPending {
      PutExtends(db, i, Move(SessionFailing(FileOf(db, i)), CreationFailure(now)).value);
    }
  }

  lemma {:induction false} SweepExtends(cfg: Config, db: Db, ids: seq<Id>, now: Time)
    requires Inv(cfg, db) && DueBatch(db, now, |ids|, ids)
    ensures Sweep(db, ids, now).Ok? && Extends(db, Sweep(db, ids, now).value)
    decreases |ids|
  {
    hide Inv, ExpireOne, Extends;
    if ids == [] {
      ExtendsReflexive(db);
    } else {
      var i, rest := ids[0], ids[1..];
      ExpireOneKeepsInv(cfg, db, i, now);
      var db1 := ExpireOne(db, i, now).value;
      assert DueBatch(db1, now, |rest|, rest);
      ExpireOneExtends(cfg, db, i, now);
      SweepExtends(cfg, db1, rest, now);
      ExtendsTransitive(db, db1, Sweep(db1, rest, now).value);
    }
  }

  lemma ExpireOneExtends(cfg: Config, db: Db, i: Id, now: Time)
    requires Inv(cfg, db) && i in db.intents && Due(db.intents[i], now)
    ensures ExpireOne(db, i, now).Ok? && Extends(db, ExpireOne(db, i, now).value)
  {
    hide FileOk, ReferencesUnique, KeysUnique, EventsOk, Attested, Corresponds, RecordsTerminal, RecordsCounted,
      Evolves, Extends;
    MoveFromFile(cfg, db, i, PlainChange(Expired, ExpiryWorker));
    var f := FileOf(db, i);
    var g := Move(f, PlainChange(Expired, ExpiryWorker)).value;
    var db1 := if f.intent.status in {Detected, Confirming} then InsertReconciliation(db, ExpiredRecord(f.intent, now))
               else db;
    ExtendsReflexive(db);
    InsertRecordExtends(db, ExpiredRecord(f.intent, now));
    PutExtends(db1, i, g);
    ExtendsTransitive(db, db1, Put(db1, i, g));
  }
}
