/** What the reconciliation records say: in every run each record names what its intent asked for and what
    its event reported, and its kind is the true relation between the two. */
module CryptoRecords {
  import opened Wrappers
  import opened CryptoDomain
  import opened CryptoProtocol
  import opened CryptoInvariants
  import opened CryptoHandling
  import opened CryptoTransactions
  import opened CryptoHistory
  import opened CryptoRuns
  import opened CryptoTheorems
  import CryptoAmount

  ghost predicate Parses(cfg: Config, asset: string, amount: Option<string>) {
    asset in cfg.policies && amount.Some? && CryptoAmount.Parse(amount.value, cfg.policies[asset].decimals).Some?
  }

  /** The kind is true of the stored intent and of what the record says was reported. */
  ghost predicate KindFits(cfg: Config, it: Intent, r: Reconciliation) {
    match r.kind
    case Underpaid => Parses(cfg, it.asset, r.actualAmount) && r.actualAsset == Some(it.asset)
                      && ExactUnits(cfg, it.asset, r.actualAmount) < ExactUnits(cfg, it.asset, Some(it.requestedAmount))
    case Overpaid => r.actualAsset == Some(it.asset)
                     && ExactUnits(cfg, it.asset, r.actualAmount) > ExactUnits(cfg, it.asset, Some(it.requestedAmount))
    case WrongAsset => r.actualAsset != Some(it.asset)
    case AmountUndetermined => r.actualAsset == Some(it.asset) && !Parses(cfg, it.asset, r.actualAmount)
    case PaymentAfterExpiry => it.status == Expired || it.expiresAt <= r.createdAt
    case PaymentOnTerminalIntent => it.status in {Failed, CreationFailed}
    case UnknownProviderReference => false
    case ExpiredAfterPaymentDetected => it.status == Expired && it.expiresAt <= r.createdAt
  }

  ghost predicate NamesIntent(cfg: Config, intents: map<Id, Intent>, r: Reconciliation) {
    if r.intentId.None? then r.kind == UnknownProviderReference && r.expectedAsset.None? && r.expectedAmount.None?
    else
      && r.intentId.value in intents
      && var it := intents[r.intentId.value];
         && r.expectedAsset == Some(it.asset) && r.expectedAmount == Some(it.requestedAmount) && IsTerminal(it.status)
         && KindFits(cfg, it, r)
  }

  ghost predicate NamesEvent(events: seq<EventRow>, r: Reconciliation) {
    if r.eventRow.None? then r.kind == ExpiredAfterPaymentDetected
    else
      && r.eventRow.value < |events|
      && var row := events[r.eventRow.value];
         && r.actualAsset == row.event.asset && r.actualAmount == row.event.amount && r.createdAt == row.receivedAt
         && r.intentId == row.intentId
  }

  ghost predicate Truthful(cfg: Config, db: Db) {
    forall k :: 0 <= k < |db.reconciliations| ==>
      NamesIntent(cfg, db.intents, db.reconciliations[k]) && NamesEvent(db.events, db.reconciliations[k])
  }

  // ---- records already there ----

  lemma StaysTrue(cfg: Config, a: Db, b: Db, r: Reconciliation)
    requires Extends(a, b) && NamesIntent(cfg, a.intents, r) && NamesEvent(a.events, r)
    ensures NamesIntent(cfg, b.intents, r) && NamesEvent(b.events, r)
  {
    hide ExactUnits, Parses;
    if r.intentId.Some? { assert Evolves(a.intents[r.intentId.value], b.intents[r.intentId.value]); }
  }

  /** Only the last record can be new. */
  lemma AddTruth(cfg: Config, a: Db, b: Db)
    requires Truthful(cfg, a) && Extends(a, b) && |b.reconciliations| <= |a.reconciliations| + 1
    requires |b.reconciliations| > |a.reconciliations| ==>
               var r := b.reconciliations[|a.reconciliations|];
               NamesIntent(cfg, b.intents, r) && NamesEvent(b.events, r)
    ensures Truthful(cfg, b)
  {
    hide Extends, NamesIntent, NamesEvent;
    assert a.reconciliations <= b.reconciliations by { ExtendsRecords(a, b); }
    forall k | 0 <= k < |b.reconciliations|
      ensures NamesIntent(cfg, b.intents, b.reconciliations[k]) && NamesEvent(b.events, b.reconciliations[k])
    {
      if k < |a.reconciliations| {
        assert b.reconciliations[k] == a.reconciliations[k];
        StaysTrue(cfg, a, b, a.reconciliations[k]);
      }
    }
  }

  lemma ExtendsRecords(a: Db, b: Db)
    requires Extends(a, b)
    ensures a.reconciliations <= b.reconciliations
  {
  }

  // ---- the record of an event ----

  lemma DiscrepancyIsTrue(cfg: Config, it: Intent, e: ProviderEvent, row: Id, now: Time)
    requires Funded(cfg, it) && Discrepancy(cfg, it, e).Some?
    ensures KindFits(cfg, it, Reconcile(it, row, Discrepancy(cfg, it, e).value, e, now))
    ensures Discrepancy(cfg, it, e).value in {Underpaid, Overpaid, WrongAsset, AmountUndetermined}
  {
    if e.asset == Some(it.asset) && e.amount.Some? {
      var decimals := cfg.policies[it.asset].decimals;
      var paid, asked := CryptoAmount.Parse(e.amount.value, decimals), CryptoAmount.Parse(it.requestedAmount, decimals);
      if paid.Some? { CryptoAmount.CompareSameScale(paid.value, asked.value); }
    }
  }

  /** Between the row an event found and the row it leaves, everything a record's kind speaks of but the status
      is the same. */
  lemma KindFollows(cfg: Config, a: Intent, b: Intent, r: Reconciliation)
    requires Evolves(a, b) && r.kind in {Underpaid, Overpaid, WrongAsset, AmountUndetermined} && KindFits(cfg, a, r)
    ensures KindFits(cfg, b, r)
  {
    hide ExactUnits, Parses;
  }

  /** The record that handling an event leaves is true of the intent it leaves. */
  lemma HandledRecordIsTrue(cfg: Config, decisions: map<Id, Decision>, f: File, e: ProviderEvent, row: Id, now: Time)
    requires FileOk(cfg, decisions, f.intent.id, f) && f.intent.providerReference.Some?
    ensures Handle(cfg, f, e, row, now).Ok?
    ensures var h := Handle(cfg, f, e, row, now).value;
            h.rec.Some? ==>
              && h.rec.value == Reconcile(f.intent, row, h.rec.value.kind, e, now)
              && KindFits(cfg, h.file.intent, h.rec.value) && IsTerminal(h.file.intent.status)
              && h.file.intent.asset == f.intent.asset && h.file.intent.requestedAmount == f.intent.requestedAmount
              && h.file.intent.id == f.intent.id
  {
    hide FileOk, GoodRow, GoodAttestation, Discrepancy, ExactUnits, Parses, ClaimsOther, IsStale, HandleApplied,
      HandleDiscrepancy, KindFits, HandleLate;
    HandleIsGood(cfg, decisions, f, e, row, now);
    assert Funded(cfg, f.intent) by { FundedFile(cfg, decisions, f); }
    var h := Handle(cfg, f, e, row, now).value;
    var kind := Discrepancy(cfg, f.intent, e);
    DiscrepancyRecord(f, e, row, now, if kind.Some? then kind.value else WrongAsset);
    LateRecord(cfg, f, e, row, now);
    TerminalRecord(cfg, f, e, row, now);
    AppliedHasNoRecord(cfg, f, e, row, now);
    if kind.Some? {
      DiscrepancyIsTrue(cfg, f.intent, e, row, now);
      if h.rec.Some? && h.rec.value.kind == kind.value { KindFollows(cfg, f.intent, h.file.intent, h.rec.value); }
    }
  }

  lemma DiscrepancyRecord(f: File, e: ProviderEvent, row: Id, now: Time, kind: ReconciliationKind)
    ensures var r := HandleDiscrepancy(f, e, row, now, kind);
            r.Ok? ==> r.value.rec == Some(Reconcile(f.intent, row, kind, e, now))
  {
  }

  lemma LateRecord(cfg: Config, f: File, e: ProviderEvent, row: Id, now: Time)
    requires f.intent.providerReference.Some?
    ensures var r := HandleLate(f, e, row, now);
            r.Ok? && r.value.rec.Some? ==>
              && r.value.rec.value == Reconcile(f.intent, row, PaymentAfterExpiry, e, now)
              && (f.intent.status == Expired || f.intent.expiresAt <= now ==>
                    KindFits(cfg, r.value.file.intent, r.value.rec.value))
  {
  }

  lemma TerminalRecord(cfg: Config, f: File, e: ProviderEvent, row: Id, now: Time)
    ensures f.intent.status in {Failed, CreationFailed} ==>
              KindFits(cfg, f.intent, Reconcile(f.intent, row, PaymentOnTerminalIntent, e, now))
  {
  }

  lemma AppliedHasNoRecord(cfg: Config, f: File, e: ProviderEvent, row: Id, now: Time)
    ensures HandleApplied(cfg, f, e, row, now).Ok? ==> HandleApplied(cfg, f, e, row, now).value.rec.None?
  {
  }

  lemma FundedFile(cfg: Config, decisions: map<Id, Decision>, f: File)
    requires FileOk(cfg, decisions, f.intent.id, f)
    ensures Funded(cfg, f.intent)
  {
  }

  // ---- every step ----

  lemma CallbackRecords(cfg: Config, db: Db, e: ProviderEvent, now: Time)
    requires Inv(cfg, db) && Truthful(cfg, db)
    ensures Truthful(cfg, Callback(cfg, db, e, now).0)
  {
    hide Inv, Truthful, Handle, Locate, Commit, NamesIntent, NamesEvent, Extends, FindEvent, KindFits,
      InsertReconciliation;
    assert Filed(cfg, db) by { InvFiled(cfg, db); }
    CallbackExtends(cfg, db, e, now);
    var db' := Callback(cfg, db, e, now).0;
    if FindEvent(db.events, e).None? {
      if e.occurredAt > now + cfg.maxFutureSkew {
        AddTruth(cfg, db, db');
      } else {
        match Locate(db, e)
        case Broken(_) =>
        case Unknown => UnknownRecords(cfg, db, e, now);
        case Found(i, f) => FoundRecords(cfg, db, e, now);
      }
    }
  }

  lemma UnknownRecords(cfg: Config, db: Db, e: ProviderEvent, now: Time)
    requires Truthful(cfg, db)
    requires var db1 := RejectUnlinked(db, e, UnknownReference, now);
             Extends(db, InsertReconciliation(db1, UnknownRecord(e, |db.events|, now)))
    ensures var db1 := RejectUnlinked(db, e, UnknownReference, now);
            Truthful(cfg, InsertReconciliation(db1, UnknownRecord(e, |db.events|, now)))
  {
    hide Truthful, Extends;
    AddTruth(cfg, db,
             InsertReconciliation(RejectUnlinked(db, e, UnknownReference, now), UnknownRecord(e, |db.events|, now)));
  }

  lemma CommitRecords(db: Db, i: Id, h: Handled)
    ensures var db' := Commit(db, i, h);
            && db'.intents == db.intents[i := h.file.intent] && db'.events == db.events + [h.row]
            && (db'.reconciliations == db.reconciliations
                || (h.rec.Some? && db'.reconciliations == db.reconciliations + [h.rec.value]))
  {
  }

  lemma FoundRecords(cfg: Config, db: Db, e: ProviderEvent, now: Time)
    requires Inv(cfg, db) && Truthful(cfg, db) && Locate(db, e).Found?
    requires FindEvent(db.events, e).None? && e.occurredAt <= now + cfg.maxFutureSkew
    ensures Truthful(cfg, Callback(cfg, db, e, now).0)
  {
    hide Inv, Truthful, Handle, Locate, Commit, Extends, FindEvent, KindFits, FileOk, GoodAttestation, GoodRecord,
      Evolves, ReferenceFree;
    assert Filed(cfg, db) by { InvFiled(cfg, db); }
    CallbackExtends(cfg, db, e, now);
    LocateIsGood(cfg, db, e);
    var i, f := Locate(db, e).id, Locate(db, e).file;
    StoredId(cfg, db, i);
    FileId(cfg, db.decisions, i, f);
    HandleIsGood(cfg, db.decisions, f, e, |db.events|, now);
    HandledRecordIsTrue(cfg, db.decisions, f, e, |db.events|, now);
    var h := Handle(cfg, f, e, |db.events|, now).value;
    CommitRecords(db, i, h);
    AddTruth(cfg, db, Commit(db, i, h));
  }

  lemma ExpireRecords(cfg: Config, db: Db, i: Id, now: Time)
    requires Inv(cfg, db) && Truthful(cfg, db) && i in db.intents && Due(db.intents[i], now)
    ensures ExpireOne(db, i, now).Ok? && Truthful(cfg, ExpireOne(db, i, now).value)
  {
    hide Inv, Truthful, Extends, FileOk, ExactUnits, Parses;
    ExpireOneExtends(cfg, db, i, now);
    ExpireOneKeepsInv(cfg, db, i, now);
    assert Filed(cfg, db) by { InvFiled(cfg, db); }
    StoredId(cfg, db, i);
    AddTruth(cfg, db, ExpireOne(db, i, now).value);
  }

  lemma {:induction false} SweepRecords(cfg: Config, db: Db, ids: seq<Id>, now: Time)
    requires Inv(cfg, db) && Truthful(cfg, db) && DueBatch(db, now, |ids|, ids)
    ensures Sweep(db, ids, now).Ok? && Truthful(cfg, Sweep(db, ids, now).value)
    decreases |ids|
  {
    hide Inv, Truthful, ExpireOne;
    if ids != [] {
      ExpireRecords(cfg, db, ids[0], now);
      ExpireOneKeepsInv(cfg, db, ids[0], now);
      var db1 := ExpireOne(db, ids[0], now).value;
      forall k | 0 <= k < |ids| - 1 ensures ids[1..][k] in db1.intents && Due(db1.intents[ids[1..][k]], now) {
        assert ids[k + 1] != ids[0] && Due(db.intents[ids[k + 1]], now);
      }
      SweepRecords(cfg, db1, ids[1..], now);
    }
  }

  lemma NextRecords(cfg: Config, w: World, s: Step)
    requires Sound(cfg, w) && Truthful(cfg, w.db)
    ensures Truthful(cfg, Next(cfg, w, s).db)
  {
    hide Inv, CallsOk, Truthful, Callback, Sweep, Extends, Prepare, Activate, MarkCreationFailed, Evaluated,
      ValidAmount;
    NextKeeps(cfg, w, s);
    var w' := Next(cfg, w, s);
    match s
    case Deliver(e, now) => CallbackRecords(cfg, w.db, e, now);
    case Expire(ids, limit, now) => if DueBatch(w.db, now, limit, ids) { SweepRecords(cfg, w.db, ids, now); }
    case _ =>
      SameRecords(cfg, w, s);
      AddTruth(cfg, w.db, w'.db);
  }

  lemma SameRecords(cfg: Config, w: World, s: Step)
    requires !s.Deliver? && !s.Expire?
    ensures Next(cfg, w, s).db.reconciliations == w.db.reconciliations
  {
    hide Move, ReferenceFree, FindByKey, ValidAmount, Evaluated, FreshFile;
  }

  lemma {:induction false} RunRecords(cfg: Config, steps: seq<Step>)
    ensures Truthful(cfg, Run(cfg, START, steps).db)
  {
    hide Sound, Next, NamesIntent, NamesEvent;
    if steps != [] {
      var n := |steps| - 1;
      RunRecords(cfg, steps[..n]);
      ReachableSound(cfg, Run(cfg, START, steps[..n]));
      NextRecords(cfg, Run(cfg, START, steps[..n]), steps[n]);
    }
  }

  /** Records tell the truth: in every reachable state each reconciliation record expects what its intent asked
      for, reports what its event said, at the time it was received, and is of the kind that the two and the
      intent's terminal status justify - an underpayment is less, an overpayment more, in exact units. */
  lemma RecordsAreTruthful(cfg: Config, w: World, k: nat)
    requires Reachable(cfg, w) && k < |w.db.reconciliations|
    ensures NamesIntent(cfg, w.db.intents, w.db.reconciliations[k]) && NamesEvent(w.db.events, w.db.reconciliations[k])
  {
    hide Next, Run, NamesIntent, NamesEvent;
    var steps :| w == Run(cfg, START, steps);
    RunRecords(cfg, steps);
  }
}
