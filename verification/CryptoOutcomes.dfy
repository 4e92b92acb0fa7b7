/** What an event does, stated by outcome instead of by branch: exactly when an intent ends up in each status, what is
    written about it, what the reply says, and that every other intent is left alone. */
module CryptoOutcomes {
  import opened Wrappers
  import opened CryptoDomain
  import opened CryptoProtocol
  import opened CryptoInvariants
  import opened CryptoHandling
  import opened CryptoTransactions
  import opened CryptoRuns
  import opened CryptoTheorems
  import CryptoAmount

  // ---- what an event says of an intent ----

  /** The event's identity has not been delivered before, and it is not too far ahead of the clock. */
  ghost predicate IsAccepted(cfg: Config, db: Db, e: ProviderEvent, now: Time) {
    && (forall k :: 0 <= k < |db.events| ==> !Repeats(db.events[k].event, e))
    && e.occurredAt <= now + cfg.maxFutureSkew
  }

  predicate Repeats(first: ProviderEvent, again: ProviderEvent) {
    first.provider == again.provider && first.eventId == again.eventId
  }

  predicate Holds(it: Intent, e: ProviderEvent) {
    it.provider == e.provider && it.providerReference == Some(e.reference)
  }

  ghost predicate Unheld(db: Db, e: ProviderEvent) { forall i :: i in db.intents ==> !Holds(db.intents[i], e) }

  /** The event is about this intent: it bears the intent's reference, or nobody's and claims the intent, whose
      session is still being created. */
  ghost predicate Concerns(db: Db, e: ProviderEvent, i: Id) {
    && i in db.intents && db.intents[i].provider == e.provider
    && (|| db.intents[i].providerReference == Some(e.reference)
        || (&& Unheld(db, e)
            && e.claimedIntent.Uuid? && e.claimedIntent.id == i && db.intents[i].status == ProviderPending))
  }

  /** The event claims another intent, or this one by another spelling of its id, or another player. */
  predicate Disowns(it: Intent, e: ProviderEvent) {
    || e.claimedIntent !in {NoClaim, Uuid(it.id, true)}
    || e.claimedPlayer !in {None, Some(it.playerId)}
  }

  predicate ReportsPayment(e: ProviderEvent) { e.status in {PaymentDetected, PaymentConfirming, PaymentConfirmed} }

  /** The event reports the requested asset, and an amount of exactly the requested units. */
  ghost predicate PaysExactly(cfg: Config, it: Intent, e: ProviderEvent) {
    && e.asset == Some(it.asset) && e.amount.Some? && it.asset in cfg.policies
    && var decimals := cfg.policies[it.asset].decimals;
       var paid, asked := CryptoAmount.Parse(e.amount.value, decimals),
                          CryptoAmount.Parse(it.requestedAmount, decimals);
       paid.Some? && asked.Some? && paid.value.units == asked.value.units
  }

  predicate IsLater(it: Intent, e: ProviderEvent) {
    it.createdAt <= e.occurredAt && (it.lastEventAt.Some? ==> it.lastEventAt.value < e.occurredAt)
  }

  // ---- where an open intent goes ----

  predicate IsOpen(status: FundingStatus) { status in {ProviderPending, AwaitingPayment, Detected, Confirming} }

  ghost predicate MustConfirm(cfg: Config, it: Intent, e: ProviderEvent, now: Time) {
    now < it.expiresAt && e.status == PaymentConfirmed && PaysExactly(cfg, it, e) && IsLater(it, e)
  }

  ghost predicate MustReconcile(cfg: Config, it: Intent, e: ProviderEvent, now: Time) {
    now < it.expiresAt && ReportsPayment(e) && !PaysExactly(cfg, it, e)
  }

  predicate MustFail(it: Intent, e: ProviderEvent, now: Time) {
    now < it.expiresAt && e.status == PaymentFailed && IsLater(it, e)
  }

  predicate MustExpire(it: Intent, e: ProviderEvent, now: Time) {
    it.expiresAt <= now || (e.status == PaymentExpired && IsLater(it, e))
  }

  ghost predicate MustEnd(cfg: Config, it: Intent, e: ProviderEvent, now: Time) {
    MustConfirm(cfg, it, e, now) || MustReconcile(cfg, it, e, now) || MustFail(it, e, now) || MustExpire(it, e, now)
  }

  /** A payment that has been seen, or that is being confirmed, moves an intent that is not as far. */
  ghost predicate MustDetect(cfg: Config, it: Intent, e: ProviderEvent, now: Time) {
    && now < it.expiresAt && e.status == PaymentDetected && PaysExactly(cfg, it, e) && IsLater(it, e)
    && it.status in {ProviderPending, AwaitingPayment}
  }

  ghost predicate MustProceed(cfg: Config, it: Intent, e: ProviderEvent, now: Time) {
    && now < it.expiresAt && e.status == PaymentConfirming && PaysExactly(cfg, it, e) && IsLater(it, e)
    && it.status in {ProviderPending, AwaitingPayment, Detected}
  }

  /** The status an event leaves: each one under exactly one condition. */
  ghost predicate Outcomes(cfg: Config, it: Intent, e: ProviderEvent, now: Time, after: FundingStatus) {
    if !IsOpen(it.status) then after == it.status
    else if Disowns(it, e) then after == if it.status == ProviderPending then AwaitingPayment else it.status
    else
      var ends := MustEnd(cfg, it, e, now);
      var detected, confirming := MustDetect(cfg, it, e, now), MustProceed(cfg, it, e, now);
      && (after == Confirmed <==> MustConfirm(cfg, it, e, now))
      && (after == ReconciliationRequired <==> MustReconcile(cfg, it, e, now))
      && (after == Failed <==> MustFail(it, e, now))
      && (after == Expired <==> MustExpire(it, e, now))
      && (after == Confirming <==> confirming || (it.status == Confirming && !ends))
      && (after == Detected <==> detected || (it.status == Detected && !ends && !confirming))
      && (after == AwaitingPayment <==>
            it.status in {ProviderPending, AwaitingPayment} && !ends && !detected && !confirming)
  }

  // ---- what is written ----

  /** An intent still being created first gets the event's reference, and waits for its payment. */
  function Opened(f: File, e: ProviderEvent, row: Id): File {
    if f.intent.status != ProviderPending then f
    else
      File(f.intent.(status := AwaitingPayment, providerReference := Some(e.reference), paymentUrl := None,
                     version := f.intent.version + 1),
           f.session.(providerReference := Some(e.reference), status := Active),
           f.log + [Transition(ProviderPending, AwaitingPayment, f.intent.version + 1, f.intent.playerId,
                               ProviderEventBeforeSessionResponse, Some(row))])
  }

  /** A status that moved has the next version, the provider's time unless the intent had elapsed, its own time of
      confirmation or failure, and a log row that says why. */
  function Moved(f: File, after: FundingStatus, e: ProviderEvent, row: Id, now: Time): File {
    if after == f.intent.status then f
    else
      var elapsed := f.intent.expiresAt <= now;
      var trigger := if elapsed then ProviderEventExpiryGuard
                     else if after == ReconciliationRequired then ProviderDiscrepancy else ProviderEventTrigger;
      File(f.intent.(status := after, version := f.intent.version + 1,
                     lastEventAt := if elapsed then f.intent.lastEventAt else Some(e.occurredAt),
                     confirmedAt := if after == Confirmed then Some(now) else f.intent.confirmedAt,
                     failedAt := if after == Failed then Some(now) else f.intent.failedAt),
           f.session,
           f.log + [Transition(f.intent.status, after, f.intent.version + 1, f.intent.playerId, trigger,
                               if elapsed then None else Some(row))])
  }

  /** The outcome of the event, given the status the intent had and the one it has. */
  ghost function Told(cfg: Config, it: Intent, e: ProviderEvent, now: Time,
                      after: FundingStatus): (Processing, Reason)
  {
    if Disowns(it, e) then (Rejected, OwnershipMismatch)
    else if it.status == Expired || (it.expiresAt <= now && it.status != Confirmed) then (IgnoredExpired, IntentExpired)
    else if ReportsPayment(e) && it.status in {Failed, CreationFailed} then (Rejected, TerminalIntent)
    else if ReportsPayment(e) && !PaysExactly(cfg, it, e) then
      (Rejected, if e.asset == Some(it.asset) then AmountMismatch else AssetMismatch)
    else if after != it.status then (Processed, Applied(after))
    else (IgnoredStale, StaleEvent)
  }

  /** The stored event, with its outcome. */
  function Stored(e: ProviderEvent, intentId: Option<Id>, told: (Processing, Reason), now: Time): EventRow {
    EventRow(e, now, intentId, told.0, told.1, Some(now), if told.0 == Processed then Some(now) else None)
  }

  /** What handling the event of an intent with a reference makes of it. */
  ghost predicate HandledAs(cfg: Config, f: File, e: ProviderEvent, row: Id, now: Time, h: Handled) {
    var after := h.file.intent.status;
    && Outcomes(cfg, f.intent, e, now, after)
    && h.file == Moved(f, after, e, row, now)
    && h.row == Stored(e, Some(f.intent.id), Told(cfg, f.intent, e, now, after), now)
  }

  // ---- branch by branch ----

  lemma DiscrepancyIff(cfg: Config, it: Intent, e: ProviderEvent)
    requires Funded(cfg, it)
    ensures Discrepancy(cfg, it, e).None? <==> PaysExactly(cfg, it, e)
    ensures Discrepancy(cfg, it, e) == Some(WrongAsset) <==> e.asset != Some(it.asset)
  {
    if e.asset == Some(it.asset) && e.amount.Some? {
      var decimals := cfg.policies[it.asset].decimals;
      var paid, asked := CryptoAmount.Parse(e.amount.value, decimals), CryptoAmount.Parse(it.requestedAmount, decimals);
      if paid.Some? && asked.Some? { CryptoAmount.CompareSameScale(paid.value, asked.value); }
    }
  }

  lemma LateOutcomes(cfg: Config, f: File, e: ProviderEvent, row: Id, now: Time)
    requires HandleLate(f, e, row, now).Ok? && !Disowns(f.intent, e) && f.intent.status != ProviderPending
    requires f.intent.status == Expired || (f.intent.expiresAt <= now && f.intent.status != Confirmed)
    ensures HandledAs(cfg, f, e, row, now, HandleLate(f, e, row, now).value)
  {
    hide PaysExactly, Disowns, Reconcile;
  }

  lemma DiscrepancyOutcomes(cfg: Config, f: File, e: ProviderEvent, row: Id, now: Time, kind: ReconciliationKind)
    requires HandleDiscrepancy(f, e, row, now, kind).Ok? && !Disowns(f.intent, e)
    requires f.intent.status !in {ProviderPending, Expired, Failed, CreationFailed}
    requires now < f.intent.expiresAt || f.intent.status == Confirmed
    requires ReportsPayment(e) && !PaysExactly(cfg, f.intent, e)
    requires kind == WrongAsset <==> e.asset != Some(f.intent.asset)
    ensures HandledAs(cfg, f, e, row, now, HandleDiscrepancy(f, e, row, now, kind).value)
  {
    hide PaysExactly, Disowns, Reconcile;
  }

  lemma AppliedOutcomes(cfg: Config, f: File, e: ProviderEvent, row: Id, now: Time)
    requires HandleApplied(cfg, f, e, row, now).Ok? && !Disowns(f.intent, e)
    requires (now < f.intent.expiresAt || f.intent.status == Confirmed)
    requires ReportsPayment(e) ==> PaysExactly(cfg, f.intent, e)
    requires !IsStale(e.occurredAt, f.intent.createdAt, f.intent.lastEventAt, f.intent.status, TargetStatus(e.status))
    ensures HandledAs(cfg, f, e, row, now, HandleApplied(cfg, f, e, row, now).value)
  {
    hide PaysExactly, Disowns, Attest;
  }

  lemma StaleOutcomes(cfg: Config, f: File, e: ProviderEvent, row: Id, now: Time)
    requires !Disowns(f.intent, e) && (now < f.intent.expiresAt || f.intent.status == Confirmed)
    requires f.intent.status !in {ProviderPending, Expired}
    requires ReportsPayment(e) ==> PaysExactly(cfg, f.intent, e) && f.intent.status !in {Failed, CreationFailed}
    requires IsStale(e.occurredAt, f.intent.createdAt, f.intent.lastEventAt, f.intent.status, TargetStatus(e.status))
    ensures HandledAs(cfg, f, e, row, now,
                      Handled(f, Marked(e, Some(f.intent.id), IgnoredStale, StaleEvent, now), None, None))
  {
    hide PaysExactly, Disowns;
  }

  lemma RefusedOutcomes(cfg: Config, f: File, e: ProviderEvent, row: Id, now: Time, rec: Option<Reconciliation>)
    requires f.intent.status != ProviderPending
    requires || Disowns(f.intent, e)
             || (ReportsPayment(e) && f.intent.status in {Failed, CreationFailed} && now < f.intent.expiresAt)
    ensures HandledAs(cfg, f, e, row, now,
                      Handled(f, Marked(e, Some(f.intent.id), Rejected,
                                        if Disowns(f.intent, e) then OwnershipMismatch else TerminalIntent, now),
                              rec, None))
  {
    hide PaysExactly;
  }

  lemma ReadsEvent(it: Intent, e: ProviderEvent)
    ensures ClaimsOther(it, e) <==> Disowns(it, e)
    ensures ExternallyMoved(e.status) <==> ReportsPayment(e)
  {
  }

  lemma HandleOutcomes(cfg: Config, decisions: map<Id, Decision>, f: File, e: ProviderEvent, row: Id, now: Time)
    requires FileOk(cfg, decisions, f.intent.id, f) && f.intent.providerReference.Some?
    ensures Handle(cfg, f, e, row, now).Ok? && f.intent.status != ProviderPending
    ensures HandledAs(cfg, f, e, row, now, Handle(cfg, f, e, row, now).value)
  {
    hide Good, PaysExactly, Discrepancy, LogReplays, HandleLate, HandleDiscrepancy, HandleApplied, ClaimsOther, IsStale,
      Funded, HandledAs, Disowns, ReportsPayment, Reconcile;
    HandleIsGood(cfg, decisions, f, e, row, now);
    var it := f.intent;
    assert Funded(cfg, it);
    DiscrepancyIff(cfg, it, e);
    ReadsEvent(it, e);
    if ClaimsOther(it, e) {
      RefusedOutcomes(cfg, f, e, row, now, None);
    } else if it.status == Expired || (it.expiresAt <= now && it.status != Confirmed) {
      LateOutcomes(cfg, f, e, row, now);
    } else if ExternallyMoved(e.status) && it.status in {Failed, CreationFailed} {
      RefusedOutcomes(cfg, f, e, row, now, Some(Reconcile(it, row, PaymentOnTerminalIntent, e, now)));
    } else if ExternallyMoved(e.status) && Discrepancy(cfg, it, e).Some? {
      DiscrepancyOutcomes(cfg, f, e, row, now, Discrepancy(cfg, it, e).value);
    } else if IsStale(e.occurredAt, it.createdAt, it.lastEventAt, it.status, TargetStatus(e.status)) {
      StaleOutcomes(cfg, f, e, row, now);
    } else {
      AppliedOutcomes(cfg, f, e, row, now);
    }
  }

  // ---- which intent ----

  lemma UnheldIff(db: Db, e: ProviderEvent)
    ensures FindByReference(db, e.provider, e.reference).None? <==> Unheld(db, e)
    ensures FindByReference(db, e.provider, e.reference).Some? ==>
              var i := FindByReference(db, e.provider, e.reference).value; i in db.intents && Holds(db.intents[i], e)
  {
    if FindByReference(db, e.provider, e.reference).None? {
      forall i | i in db.intents ensures !Holds(db.intents[i], e) {
        assert !HoldsReference(db, i, e.provider, e.reference);
      }
    }
  }

  lemma LocatedIff(cfg: Config, db: Db, e: ProviderEvent, i: Id)
    requires Filed(cfg, db) && ReferencesUnique(db.intents) && Locate(db, e).Found?
    ensures Concerns(db, e, i) <==> Locate(db, e).id == i
  {
    hide FileOk, Recovered, ReferenceFree;
    UnheldIff(db, e);
  }

  lemma NotFoundConcernsNobody(cfg: Config, db: Db, e: ProviderEvent, i: Id)
    requires Filed(cfg, db) && !Locate(db, e).Found?
    ensures !Concerns(db, e, i)
  {
    hide FileOk, Recovered, ReferenceFree;
    LocateIsGood(cfg, db, e);
    UnheldIff(db, e);
  }

  /** The rows the callback works on: the stored ones, or those of an intent whose session the event activates. */
  lemma LocatedRows(cfg: Config, db: Db, e: ProviderEvent)
    requires Filed(cfg, db) && Locate(db, e).Found?
    ensures var i, f := Locate(db, e).id, Locate(db, e).file;
            && HasFile(db, i) && db.intents[i].id == i && FileOk(cfg, db.decisions, i, f)
            && f.intent.providerReference.Some? && f == Opened(FileOf(db, i), e, |db.events|)
  {
    hide LogReplays, Funded, Justified, ReferenceFree, Evolves;
    LocateIsGood(cfg, db, e);
    StoredId(cfg, db, Locate(db, e).id);
  }

  // ---- the theorems ----

  lemma AcceptedIff(cfg: Config, db: Db, e: ProviderEvent, now: Time)
    ensures IsAccepted(cfg, db, e, now) <==>
            FindEvent(db.events, e).None? && e.occurredAt <= now + cfg.maxFutureSkew
  {
    if FindEvent(db.events, e).None? {
      forall k | 0 <= k < |db.events| ensures !Repeats(db.events[k].event, e) {
        assert !SameIdentity(db.events[k].event, e);
      }
    }
  }

  /** One event, every intent, in every reachable state. The rows of an intent the accepted event does not concern are
      left as they were. The one it concerns gets the event's reference if it is still being created, and
      then the status there is exactly one condition for, with everything that goes with the move; the event
      is stored with its outcome, and the reply carries that outcome and the stored status. */
  lemma EventOutcome(cfg: Config, w: World, e: ProviderEvent, now: Time, i: Id)
    requires Reachable(cfg, w) && i in w.db.intents
    ensures var (db', r) := Callback(cfg, w.db, e, now);
            && HasFile(w.db, i) && HasFile(db', i)
            && var row, before, after := |w.db.events|, FileOf(w.db, i), FileOf(db', i);
               if !IsAccepted(cfg, w.db, e, now) || !Concerns(w.db, e, i) then after == before
               else
                 var start, status := Opened(before, e, row), after.intent.status;
                 var told := Told(cfg, start.intent, e, now, status);
                 && Outcomes(cfg, before.intent, e, now, status)
                 && after == Moved(start, status, e, row, now)
                 && db'.events == w.db.events + [Stored(e, Some(i), told, now)]
                 && r == Answer(row, told.0, Some(status), told.1)
  {
    hide FileOk, KeysUnique, EventsOk, Attested, Corresponds, RecordsTerminal, RecordsCounted, CallsOk, Reachable,
      Handle, Locate, Outcomes, ReferencesUnique, Concerns, Disowns, ReferenceFree, IsAccepted, Opened, Moved, Told;
    ReachableSound(cfg, w);
    var db := w.db;
    StoredId(cfg, db, i);
    AcceptedIff(cfg, db, e, now);
    if IsAccepted(cfg, db, e, now) {
      if Locate(db, e).Found? {
        LocatedIff(cfg, db, e, i);
        LocatedRows(cfg, db, e);
        var j, f := Locate(db, e).id, Locate(db, e).file;
        assert f.intent.id == j by { FileId(cfg, db.decisions, j, f); }
        HandleOutcomes(cfg, db.decisions, f, e, |db.events|, now);
        var h := Handle(cfg, f, e, |db.events|, now).value;
        CommitWrites(db, j, h);
        if j == i { OpenedOutcomes(cfg, FileOf(db, i), e, |db.events|, now, h.file.intent.status); }
      } else {
        NotFoundConcernsNobody(cfg, db, e, i);
        UnlocatedWrites(cfg, db, e, now);
      }
    }
  }

  /** Being opened first changes nothing about where the event takes the intent. */
  lemma OpenedOutcomes(cfg: Config, f: File, e: ProviderEvent, row: Id, now: Time, after: FundingStatus)
    requires Outcomes(cfg, Opened(f, e, row).intent, e, now, after)
    ensures Outcomes(cfg, f.intent, e, now, after)
  {
    hide PaysExactly;
    SamePayment(cfg, f.intent, Opened(f, e, row).intent, e);
  }

  lemma SamePayment(cfg: Config, a: Intent, b: Intent, e: ProviderEvent)
    requires b.asset == a.asset && b.requestedAmount == a.requestedAmount
    ensures PaysExactly(cfg, a, e) <==> PaysExactly(cfg, b, e)
  {
  }

  lemma CommitWrites(db: Db, i: Id, h: Handled)
    ensures var db' := Commit(db, i, h);
            && db'.intents == db.intents[i := h.file.intent] && db'.sessions == db.sessions[i := h.file.session]
            && db'.log == db.log[i := h.file.log] && db'.events == db.events + [h.row]
  {
  }

  lemma UnlocatedWrites(cfg: Config, db: Db, e: ProviderEvent, now: Time)
    requires !Locate(db, e).Found?
    ensures var db' := Callback(cfg, db, e, now).0;
            db'.intents == db.intents && db'.sessions == db.sessions && db'.log == db.log
  {
  }

  /** Every other delivery, in every reachable state. A repeated identity is answered as a duplicate exactly when
      payload hash, reference and event type are those of the stored event, and otherwise as a conflict, and
      changes nothing. A new event too far ahead of the clock is stored as rejected. A timely one that concerns
      nobody is stored as rejected with one reconciliation record, unless the intent id it claims is no UUID:
      that raises and changes nothing. */
  lemma UnlinkedReplies(cfg: Config, w: World, e: ProviderEvent, now: Time)
    requires Reachable(cfg, w)
    ensures var (db', r) := Callback(cfg, w.db, e, now);
            var row, future, unknown := |w.db.events|, (Rejected, FutureTimestamp), (Rejected, UnknownReference);
            && (forall k :: 0 <= k < |w.db.events| && Repeats(w.db.events[k].event, e) ==>
                  var first := w.db.events[k].event;
                  && db' == w.db
                  && r == if first.payloadHash == e.payloadHash && first.reference == e.reference
                             && first.eventType == e.eventType then Duplicate(k) else IdentityConflict(k))
            && ((forall k :: 0 <= k < |w.db.events| ==> !Repeats(w.db.events[k].event, e))
                && e.occurredAt > now + cfg.maxFutureSkew ==>
                  && db' == w.db.(events := w.db.events + [Stored(e, None, future, now)])
                  && r == Answer(row, Rejected, None, FutureTimestamp))
            && (IsAccepted(cfg, w.db, e, now) && (forall i :: !Concerns(w.db, e, i)) ==>
                  if e.claimedIntent.NotUuid? then db' == w.db && r == Raised(InvalidUuid)
                  else
                    && db' == w.db.(
                         events := w.db.events + [Stored(e, None, unknown, now)],
                         reconciliations := w.db.reconciliations
                           + [Reconciliation(None, Some(row), UnknownProviderReference, None, e.asset, None, e.amount,
                                             now)])
                    && r == Answer(row, Rejected, None, UnknownReference))
  {
    hide FileOk, KeysUnique, Attested, Corresponds, RecordsTerminal, CallsOk, Reachable, Handle, Locate,
      ReferencesUnique, Concerns, ReferenceFree, IsAccepted, RowOk;
    ReachableSound(cfg, w);
    AcceptedIff(cfg, w.db, e, now);
    forall k | 0 <= k < |w.db.events| && Repeats(w.db.events[k].event, e)
      ensures FindEvent(w.db.events, e) == Some(k)
    {
      RepeatIsFound(w.db.events, e, k);
    }
    if IsAccepted(cfg, w.db, e, now) && forall i :: !Concerns(w.db, e, i) {
      LocateIsGood(cfg, w.db, e);
      UnheldIff(w.db, e);
      if Locate(w.db, e).Found? { LocatedIff(cfg, w.db, e, Locate(w.db, e).id); }
      NobodyIsUnheld(w.db, e);
      forall k | 0 <= k < |w.db.reconciliations| ensures w.db.reconciliations[k].eventRow != Some(|w.db.events|) {}
    }
  }

  /** The one stored event of an identity is the one that is found. */
  lemma {:induction false} RepeatIsFound(events: seq<EventRow>, e: ProviderEvent, k: Id)
    requires k < |events| && Repeats(events[k].event, e)
    requires forall i, j :: 0 <= i < j < |events| ==> !SameIdentity(events[i].event, events[j].event)
    ensures FindEvent(events, e) == Some(k)
  {
    var n := |events| - 1;
    if k < n {
      assert !SameIdentity(events[k].event, events[n].event);
      RepeatIsFound(events[..n], e, k);
    }
  }

  lemma NobodyIsUnheld(db: Db, e: ProviderEvent)
    requires forall i :: !Concerns(db, e, i)
    ensures Unheld(db, e)
  {
    forall i | i in db.intents ensures !Holds(db.intents[i], e) { assert !Concerns(db, e, i); }
  }
}
