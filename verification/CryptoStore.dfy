/** The funding tables as the services change them, statement by statement. Every service method is
    proved to do to the tables exactly what the protocol functions say, and to keep the invariant. */
module CryptoStore {
  import opened Wrappers
  import opened CryptoDomain
  import opened CryptoProtocol
  import opened CryptoInvariants
  import opened CryptoTransactions
  import CryptoAmount

  /** The tables without the event row inserted last. */
  ghost function Uninserted(db: Db): Db
    requires db.events != []
  {
    db.(events := db.events[..|db.events| - 1])
  }

  lemma PutTwice(db: Db, i: Id, f: File, g: File)
    ensures Put(Put(db, i, f), i, g) == Put(db, i, g)
  {
  }

  lemma PutSame(db: Db, i: Id)
    requires HasFile(db, i)
    ensures Put(db, i, FileOf(db, i)) == db
  {
  }

  class Store {
    var intents: map<Id, Intent>
    var sessions: map<Id, ProviderSession>
    var log: map<Id, seq<Transition>>
    var events: seq<EventRow>
    var reconciliations: seq<Reconciliation>
    var attestations: seq<Attestation>
    var evidence: seq<Evidence>
    var decisions: map<Id, Decision>

    function Tables(): Db
      reads this
    {
      Db(intents, sessions, log, events, reconciliations, attestations, evidence, decisions)
    }

    constructor ()
      ensures Tables() == Db(map[], map[], map[], [], [], [], [], map[])
    {
      intents, sessions, log, events, reconciliations, attestations, evidence, decisions :=
        map[], map[], map[], [], [], [], [], map[];
    }

    /** ROLLBACK: back to what the tables were when the transaction began. */
    method Rollback(db: Db)
      modifies this
      ensures Tables() == db
    {
      intents, sessions, log, events := db.intents, db.sessions, db.log, db.events;
      reconciliations, attestations, evidence, decisions :=
        db.reconciliations, db.attestations, db.evidence, db.decisions;
    }

    // ---- queries ----

    method FindByReferenceForUpdate(provider: string, reference: string) returns (r: Option<Id>)
      requires ReferencesUnique(intents)
      ensures r == FindByReference(Tables(), provider, reference)
    {
      var todo := intents.Keys;
      while todo != {}
        invariant todo <= intents.Keys
        invariant forall i :: HoldsReference(Tables(), i, provider, reference) ==> i in todo
        decreases todo
      {
        var i :| i in todo;
        if intents[i].provider == provider && intents[i].providerReference == Some(reference) {
          assert HoldsReference(Tables(), i, provider, reference);
          return Some(i);
        }
        todo := todo - {i};
      }
      r := None;
    }

    method FindByIdempotencyKey(player: string, key: string) returns (r: Option<Id>)
      requires KeysUnique(intents)
      ensures r == FindByKey(Tables(), player, key)
    {
      var todo := intents.Keys;
      while todo != {}
        invariant todo <= intents.Keys
        invariant forall i :: HoldsKey(Tables(), i, player, key) ==> i in todo
        decreases todo
      {
        var i :| i in todo;
        if intents[i].playerId == player && intents[i].idempotencyKey == key {
          assert HoldsKey(Tables(), i, player, key);
          return Some(i);
        }
        todo := todo - {i};
      }
      r := None;
    }

    // ---- single statements ----

    /** False when the reference would violate a uniqueness constraint. */
    method ActivateProviderSession(i: Id, reference: string, url: Option<string>) returns (ok: bool)
      requires HasFile(Tables(), i)
      modifies this`sessions, this`intents
      ensures ok <==> ReferenceFree(old(Tables()), i, reference)
      ensures Tables() == if ok then Put(old(Tables()), i, Activated(FileOf(old(Tables()), i), reference, url))
                          else old(Tables())
    {
      ok := ReferenceFree(Tables(), i, reference);
      if ok {
        sessions := sessions[i := sessions[i].(providerReference := Some(reference), status := Active)];
        intents := intents[i := intents[i].(providerReference := Some(reference), paymentUrl := url)];
      }
    }

    method FailProviderSession(i: Id)
      requires HasFile(Tables(), i)
      modifies this`sessions
      ensures Tables() == Put(old(Tables()), i, SessionFailing(FileOf(old(Tables()), i)))
    {
      if sessions[i].status == Creating {
        sessions := sessions[i := sessions[i].(status := SessionFailed)];
      }
    }

    /** UPDATE ... WHERE id AND version: nothing happens when the version has moved on. */
    method UpdateStatus(i: Id, expectedVersion: nat, c: Change) returns (updated: Option<Intent>)
      modifies this`intents
      ensures updated.Some? <==> i in old(intents) && old(intents)[i].version == expectedVersion
      ensures updated.Some? ==>
                updated.value == Changed(old(intents)[i], c) && intents == old(intents)[i := updated.value]
      ensures updated.None? ==> intents == old(intents)
    {
      if i !in intents || intents[i].version != expectedVersion { return None; }
      var it := intents[i];
      intents := intents[i := it.(
        status := c.to,
        providerReference := if c.reference.Set? then c.reference.value else it.providerReference,
        paymentUrl := if c.url.Set? then c.url.value else it.paymentUrl,
        confirmedAt := if c.confirmedAt.Set? then c.confirmedAt.value else it.confirmedAt,
        failedAt := if c.failedAt.Set? then c.failedAt.value else it.failedAt,
        lastEventAt := if c.eventAt.Set? then c.eventAt.value else it.lastEventAt,
        version := it.version + 1)];
      updated := Some(intents[i]);
    }

    method AppendTransition(before: Intent, c: Change)
      requires before.id in log
      modifies this`log
      ensures log == old(log)[before.id := old(log)[before.id] + [LogRow(before, c)]]
    {
      var row := CryptoDomain.Transition(before.status, c.to, before.version + 1, before.playerId, c.trigger,
                                         c.eventRow);
      log := log[before.id := log[before.id] + [row]];
    }

    method InsertEvent(e: ProviderEvent, now: Time) returns (row: Id)
      modifies this`events
      ensures row == |old(events)| && events == old(events) + [EventRow(e, now, None, Received, NoReason, None, None)]
    {
      row := |events|;
      events := events + [EventRow(e, now, None, Received, NoReason, None, None)];
    }

    /** Outcomes are immutable: only a received row can be marked. */
    method MarkEvent(row: Id, intentId: Option<Id>, processing: Processing, reason: Reason, now: Time)
      requires row < |events| && events[row].processing == Received && events[row].receivedAt == now
      modifies this`events
      ensures events == old(events)[row := Marked(old(events)[row].event, intentId, processing, reason, now)]
    {
      events := events[row := events[row].(intentId := intentId, processing := processing, reason := reason,
                                           processedAt := Some(now),
                                           acceptedAt := if processing == Processed then Some(now) else None)];
    }

    method CreateReconciliation(r: Reconciliation)
      modifies this`reconciliations
      ensures Tables() == InsertReconciliation(old(Tables()), r)
    {
      if r.eventRow.Some? {
        for k := 0 to |reconciliations|
          invariant forall j :: 0 <= j < k ==>
                      !(reconciliations[j].eventRow == r.eventRow && reconciliations[j].kind == r.kind)
          invariant reconciliations == old(reconciliations)
        {
          if reconciliations[k].eventRow == r.eventRow && reconciliations[k].kind == r.kind { return; }
        }
      }
      reconciliations := reconciliations + [r];
    }

    method CreateFundingAttestation(a: Attestation)
      modifies this`attestations, this`evidence
      ensures Tables() == InsertAttestation(old(Tables()), a)
    {
      for k := 0 to |attestations|
        invariant forall j :: 0 <= j < k ==> attestations[j].intentId != a.intentId
        invariant attestations == old(attestations) && evidence == old(evidence)
      {
        if attestations[k].intentId == a.intentId { return; }
      }
      evidence := evidence + [ConfirmedEvidence(|attestations|, a)];
      attestations := attestations + [a];
    }

    /** The record of an event that disagrees with its intent. */
    method RecordEvent(it: Intent, row: Id, kind: ReconciliationKind, e: ProviderEvent, now: Time)
      modifies this`reconciliations
      ensures Tables() == InsertReconciliation(old(Tables()), Reconcile(it, row, kind, e, now))
    {
      CreateReconciliation(Reconciliation(
        intentId := Some(it.id), eventRow := Some(row), kind := kind, expectedAsset := Some(it.asset),
        actualAsset := e.asset,
        expectedAmount := Some(it.requestedAmount), actualAmount := e.amount, createdAt := now));
    }

    /** The attestation of a confirmed intent, or the evidence it lacks. */
    method BuildAttestation(cfg: Config, it: Intent, e: ProviderEvent, row: Id, now: Time)
      returns (r: Result<Attestation, Error>)
      ensures r == Attest(cfg, it, e, row, now)
    {
      if it.asset !in cfg.policies || it.providerReference.None? || it.eligibility.None? {
        return Err(MissingEvidence);
      }
      var decimals := cfg.policies[it.asset].decimals;
      var amount := CryptoAmount.Parse(it.requestedAmount, decimals);
      if amount.None? { return Err(InvalidAmount); }
      r := Ok(Attestation(
        intentId := it.id, playerId := it.playerId, asset := it.asset, externalAmount := it.requestedAmount,
        provider := it.provider,
        providerReference := it.providerReference.value, confirmedAt := now, confirmationEvent := row,
        providerEventId := e.eventId,
        atomicUnits := amount.value.units, scale := decimals, eligibility := it.eligibility.value, issuedAt := now,
        processingUntil := now + cfg.processingWindow));
    }

    // ---- the transition service ----

    /** The single status writer: allowed transitions only, under the version read before. */
    method Transition(before: Intent, c: Change) returns (r: Result<Intent, Error>)
      requires HasFile(Tables(), before.id) && intents[before.id] == before
      modifies this`intents, this`log
      ensures match Move(FileOf(old(Tables()), before.id), c)
              case Ok(g) => r == Ok(g.intent) && Tables() == Put(old(Tables()), before.id, g)
              case Err(x) => r == Err(x) && Tables() == old(Tables())
    {
      if !CanTransition(before.status, c.to) { return Err(StateConflict); }
      var updated := UpdateStatus(before.id, before.version, c);
      if updated.None? { return Err(VersionConflict); }
      AppendTransition(before, c);
      r := Ok(updated.value);
    }

    // ---- the callback ----

    /** The rows of a handled event, seen from tables that hold its received row already. */
    ghost predicate Handles(before: Db, after: Db, i: Id, h: Handled)
    {
      before.events != [] && after == Commit(Uninserted(before), i, h)
    }

    predicate Pending(e: ProviderEvent, row: Id, now: Time)
      reads this
    {
      row == |events| - 1 && row >= 0 && events[row] == EventRow(e, now, None, Received, NoReason, None, None)
    }

    method RecordLate(i: Id, e: ProviderEvent, row: Id, now: Time) returns (error: Option<Error>)
      requires HasFile(Tables(), i) && intents[i].id == i && Pending(e, row, now)
      modifies this
      ensures match HandleLate(FileOf(old(Tables()), i), e, row, now)
              case Ok(h) => error == None && Handles(old(Tables()), Tables(), i, h)
              case Err(x) => error == Some(x)
    {
      var it := intents[i];
      if it.status !in {Expired, Failed, CreationFailed, ReconciliationRequired} {
        var moved := Transition(it, PlainChange(Expired, ProviderEventExpiryGuard));
        if moved.Err? { return Some(moved.error); }
        it := moved.value;
      }
      if ExternallyMoved(e.status) { RecordEvent(it, row, PaymentAfterExpiry, e, now); }
      MarkEvent(row, Some(i), IgnoredExpired, IntentExpired, now);
      PutSame(old(Tables()), i);
      error := None;
    }

    method RecordDiscrepancy(i: Id, e: ProviderEvent, row: Id, now: Time, kind: ReconciliationKind)
      returns (error: Option<Error>)
      requires HasFile(Tables(), i) && intents[i].id == i && Pending(e, row, now)
      modifies this
      ensures match HandleDiscrepancy(FileOf(old(Tables()), i), e, row, now, kind)
              case Ok(h) => error == None && Handles(old(Tables()), Tables(), i, h)
              case Err(x) => error == Some(x)
    {
      var it := intents[i];
      RecordEvent(it, row, kind, e, now);
      if it.status !in {Confirmed, Failed, CreationFailed, ReconciliationRequired} {
        var moved := Transition(it, DiscrepancyChange(e, row));
        if moved.Err? { return Some(moved.error); }
      }
      MarkEvent(row, Some(i), Rejected, if kind == WrongAsset then AssetMismatch else AmountMismatch, now);
      PutSame(old(Tables()), i);
      error := None;
    }

    method RecordApplied(cfg: Config, i: Id, e: ProviderEvent, row: Id, now: Time) returns (error: Option<Error>)
      requires HasFile(Tables(), i) && intents[i].id == i && Pending(e, row, now)
      modifies this
      ensures match HandleApplied(cfg, FileOf(old(Tables()), i), e, row, now)
              case Ok(h) => error == None && Handles(old(Tables()), Tables(), i, h)
              case Err(x) => error == Some(x)
    {
      var target := TargetStatus(e.status);
      var moved := Transition(intents[i], AppliedChange(e, row, now));
      if moved.Err? { return Some(moved.error); }
      if target == Confirmed {
        var attestation := BuildAttestation(cfg, moved.value, e, row, now);
        if attestation.Err? { return Some(attestation.error); }
        CreateFundingAttestation(attestation.value);
      }
      MarkEvent(row, Some(i), Processed, Applied(target), now);
      error := None;
    }

    /** The part of the callback after its intent has been located and locked. */
    method HandleEvent(cfg: Config, i: Id, e: ProviderEvent, row: Id, now: Time) returns (error: Option<Error>)
      requires HasFile(Tables(), i) && intents[i].id == i && Pending(e, row, now)
      modifies this
      ensures match Handle(cfg, FileOf(old(Tables()), i), e, row, now)
              case Ok(h) => error == None && Handles(old(Tables()), Tables(), i, h)
              case Err(x) => error == Some(x)
    {
      var it := intents[i];
      if ClaimsOther(it, e) {
        MarkEvent(row, Some(i), Rejected, OwnershipMismatch, now);
        PutSame(old(Tables()), i);
        return None;
      }
      if it.status == Expired || (it.expiresAt <= now && it.status != Confirmed) {
        error := RecordLate(i, e, row, now);
        return;
      }
      if ExternallyMoved(e.status) && it.status in {Failed, CreationFailed} {
        RecordEvent(it, row, PaymentOnTerminalIntent, e, now);
        MarkEvent(row, Some(i), Rejected, TerminalIntent, now);
        PutSame(old(Tables()), i);
        return None;
      }
      var discrepancy := if ExternallyMoved(e.status) then Discrepancy(cfg, it, e) else None;
      if discrepancy.Some? {
        error := RecordDiscrepancy(i, e, row, now, discrepancy.value);
        return;
      }
      if IsStale(e.occurredAt, it.createdAt, it.lastEventAt, it.status, TargetStatus(e.status)) {
        MarkEvent(row, Some(i), IgnoredStale, StaleEvent, now);
        PutSame(old(Tables()), i);
        return None;
      }
      error := RecordApplied(cfg, i, e, row, now);
    }

    /** Find the event's intent, activating a session whose creation response is still outstanding. */
    method LocateIntent(e: ProviderEvent, ghost before: Db) returns (r: Result<Option<Id>, Error>)
      requires events != [] && before == Uninserted(Tables())
      requires ReferencesUnique(intents) && sessions.Keys == intents.Keys && log.Keys == intents.Keys
      requires forall i :: i in intents ==> intents[i].id == i
      modifies this`intents, this`sessions, this`log
      ensures match Locate(before, e)
              case Unknown => r == Ok(None) && Tables() == old(Tables())
              case Found(i, f) => r == Ok(Some(i)) && HasFile(before, i) && Tables() == Put(old(Tables()), i, f)
              case Broken(x) => r == Err(x)
    {
      hide ReferenceFree, Recovered, Put;
      var known := FindByReferenceForUpdate(e.provider, e.reference);
      assert known == FindByReference(before, e.provider, e.reference) by {
        ReferenceIgnoresEvents(Tables(), before, e.provider, e.reference);
      }
      if known.Some? {
        PutSame(Tables(), known.value);
        return Ok(known);
      }
      match e.claimedIntent {
        case NoClaim => return Ok(None);
        case NotUuid => return Err(InvalidUuid);
        case Uuid(i, _) =>
          if i !in intents || intents[i].provider != e.provider || intents[i].status != ProviderPending {
            return Ok(None);
          }
          r := RecoverIntent(i, e, before);
      }
    }

    /** Activate the session of a claimed intent whose creation response has not arrived yet. */
    method RecoverIntent(i: Id, e: ProviderEvent, ghost before: Db) returns (r: Result<Option<Id>, Error>)
      requires events != [] && before == Uninserted(Tables()) && HasFile(Tables(), i) && intents[i].id == i
      modifies this`intents, this`sessions, this`log
      ensures if !ReferenceFree(before, i, e.reference) then r == Err(UniqueViolation)
              else match Recovered(FileOf(before, i), e.reference, |before.events|)
                case Err(x) => r == Err(x)
                case Ok(f) => r == Ok(Some(i)) && Tables() == Put(old(Tables()), i, f)
    {
      hide ReferenceFree;
      assert ReferenceFree(Tables(), i, e.reference) == ReferenceFree(before, i, e.reference) by {
        FreeIgnoresEvents(Tables(), before, i, e.reference);
      }
      ghost var g := Activated(FileOf(before, i), e.reference, None);
      var activated := ActivateProviderSession(i, e.reference, None);
      if !activated { return Err(UniqueViolation); }
      assert FileOf(Tables(), i) == g;
      var c := Activation(ProviderEventBeforeSessionResponse, Some(|events| - 1), e.reference, None);
      var moved := Transition(intents[i], c);
      match moved {
        case Err(x) => r := Err(x);
        case Ok(_) =>
          PutTwice(old(Tables()), i, g, Move(g, c).value);
          r := Ok(Some(i));
      }
    }

    /** The provider callback: one transaction, rolled back as a whole when a step raises. */
    method ProcessEvent(cfg: Config, e: ProviderEvent, now: Time) returns (r: Response)
      requires Inv(cfg, Tables())
      modifies this
      ensures (Tables(), r) == Callback(cfg, old(Tables()), e, now)
      ensures Inv(cfg, Tables())
    {
      hide Inv, Handle, Locate, Commit, FindEvent, SameIdentity, Marked, InsertReconciliation, ReferencesUnique,
        Unstorable;
      var before := Tables();
      CallbackKeepsInv(cfg, before, e, now);
      var stored := FindEvent(events, e);
      if stored.Some? {
        var first := events[stored.value].event;
        if first.payloadHash != e.payloadHash || first.reference != e.reference || first.eventType != e.eventType {
          return IdentityConflict(stored.value);
        }
        return Duplicate(stored.value);
      }
      var row := InsertEvent(e, now);
      if e.occurredAt > now + cfg.maxFutureSkew {
        MarkEvent(row, None, Rejected, FutureTimestamp, now);
        assert events == before.events + [Marked(e, None, Rejected, FutureTimestamp, now)];
        return Answer(row, Rejected, None, FutureTimestamp);
      }
      assert before == Uninserted(Tables());
      Ids(cfg, before);
      var located := LocateIntent(e, before);
      match located {
        case Err(x) =>
          Rollback(before);
          r := Raised(x);
        case Ok(None) =>
          MarkEvent(row, None, Rejected, UnknownReference, now);
          assert Tables() == RejectUnlinked(before, e, UnknownReference, now);
          CreateReconciliation(Reconciliation(
            intentId := None, eventRow := Some(row), kind := UnknownProviderReference, expectedAsset := None,
            actualAsset := e.asset,
            expectedAmount := None, actualAmount := e.amount, createdAt := now));
          r := Answer(row, Rejected, None, UnknownReference);
        case Ok(Some(i)) =>
          LocatedId(cfg, before, e);
          r := ProcessLocated(cfg, i, e, row, now, before, Locate(before, e).file);
      }
    }

    /** The callback once its intent is found, its event row inserted and its recovery written. */
    method ProcessLocated(cfg: Config, i: Id, e: ProviderEvent, row: Id, now: Time, before: Db, ghost f: File)
      returns (r: Response)
      requires f.intent.id == i && Pending(e, row, now) && row == |before.events|
      requires Tables() == Put(before, i, f).(events := events) && events[..row] == before.events
      modifies this
      ensures match Handle(cfg, f, e, row, now)
              case Err(x) => Tables() == before && r == Raised(x)
              case Ok(h) => Tables() == Commit(before, i, h)
                            && r == Answer(row, h.row.processing, Some(h.file.intent.status), h.row.reason)
    {
      hide Handle, Commit;
      assert FileOf(Tables(), i) == f && Uninserted(Tables()) == Put(before, i, f);
      var error := HandleEvent(cfg, i, e, row, now);
      if error.Some? {
        Rollback(before);
        return Raised(error.value);
      }
      ghost var h := Handle(cfg, f, e, row, now).value;
      CommitOverPut(before, i, f, h);
      CommitShows(before, i, h);
      r := Answer(row, events[row].processing, Some(intents[i].status), events[row].reason);
    }

    // ---- create calls ----

    /** The rows of a new intent. */
    method CreateIntent(cfg: Config, id: Id, a: Accepted, d: Decision, now: Time)
      modifies this`intents, this`sessions, this`log
      ensures Tables() == Put(old(Tables()), id, FreshFile(cfg, id, a, d, now))
    {
      intents := intents[id := Intent(
        id := id, playerId := a.playerId, asset := a.asset, requestedAmount := a.canonical, status := ProviderPending,
        provider := cfg.provider, idempotencyKey := a.key, requestHash := RequestHash(a.asset, a.canonical),
        eligibility := Some(Eligibility(a.decisionId, d.policyVersion, d.evaluatedAt)), providerReference := None,
        paymentUrl := None,
        expiresAt := now + cfg.intentTtl, confirmedAt := None, failedAt := None, lastEventAt := None, version := 1,
        createdAt := now)];
      sessions := sessions[id := ProviderSession(cfg.provider, None, Creating)];
      log := log[id := []];
    }

    /** The intent stored under the call's key, or a new one with a session being created. */
    method PrepareIntent(cfg: Config, a: Accepted, id: Id, now: Time) returns (r: Result<Id, Error>)
      requires Inv(cfg, Tables()) && AcceptedOk(cfg, decisions, a)
      modifies this`intents, this`sessions, this`log
      ensures (Tables(), r) == Prepare(cfg, old(Tables()), a, old(decisions)[a.decisionId], id, now)
      ensures Inv(cfg, Tables())
    {
      hide Inv, FreshFile, KeysUnique, ReferencesUnique;
      ghost var before := Tables();
      Ids(cfg, before);
      PrepareKeepsInv(cfg, before, a, id, now);
      var existing := FindByIdempotencyKey(a.playerId, a.key);
      if existing.Some? { return Ok(existing.value); }
      if id in intents { return Err(UniqueViolation); }
      CreateIntent(cfg, id, a, decisions[a.decisionId], now);
      r := Ok(id);
    }

    method ActivateIntent(cfg: Config, i: Id, reference: string, url: Option<string>) returns (r: Result<Intent, Error>)
      requires Inv(cfg, Tables())
      modifies this
      ensures (Tables(), r) == Activate(old(Tables()), i, reference, url)
      ensures Inv(cfg, Tables())
    {
      hide Inv, ReferenceFree;
      ghost var before := Tables();
      Ids(cfg, before);
      ActivateKeepsInv(cfg, before, i, reference, url);
      if i !in intents { return Err(NotFound); }
      var locked := intents[i];
      if locked.providerReference.Some? && locked.providerReference.value != reference { return Err(StateConflict); }
      var activated := ActivateProviderSession(i, reference, url);
      if !activated { return Err(UniqueViolation); }
      if locked.status != ProviderPending { return Ok(intents[i]); }
      ghost var g := Activated(FileOf(before, i), reference, url);
      assert FileOf(Tables(), i) == g;
      r := Transition(intents[i], Activation(ProviderSessionCreated, None, reference, url));
      PutTwice(before, i, g, Move(g, Activation(ProviderSessionCreated, None, reference, url)).value);
    }

    method MarkFailed(cfg: Config, i: Id, now: Time) returns (r: Result<Intent, Error>)
      requires Inv(cfg, Tables())
      modifies this
      ensures (Tables(), r) == MarkCreationFailed(old(Tables()), i, now)
      ensures Inv(cfg, Tables())
    {
      hide Inv;
      ghost var before := Tables();
      Ids(cfg, before);
      MarkKeepsInv(cfg, before, i, now);
      if i !in intents { return Err(NotFound); }
      if intents[i].status != ProviderPending { return Ok(intents[i]); }
      FailProviderSession(i);
      r := Transition(intents[i], CreationFailure(now));
    }

    // ---- the expiry sweep ----

    /** The next due row in (expiry, id) order among those not taken yet. */
    method NextDue(taken: set<Id>, now: Time) returns (next: Option<Id>)
      ensures next.None? ==> forall i :: i in intents && Due(intents[i], now) ==> i in taken
      ensures next.Some? ==> next.value in intents && Due(intents[next.value], now) && next.value !in taken
      ensures next.Some? ==>
                forall i :: i in intents && Due(intents[i], now) && i !in taken ==> !Earlier(intents, i, next.value)
    {
      next := None;
      var todo := intents.Keys;
      while todo != {}
        invariant todo <= intents.Keys
        invariant next.Some? ==> next.value in intents && Due(intents[next.value], now) && next.value !in taken
        invariant forall i :: i in intents && Due(intents[i], now) && i !in taken && i !in todo
                              ==> next.Some? && !Earlier(intents, i, next.value)
        decreases todo
      {
        var i :| i in todo;
        if Due(intents[i], now) && i !in taken && (next.None? || Earlier(intents, i, next.value)) { next := Some(i); }
        todo := todo - {i};
      }
    }

    /** The due rows in (expiry, id) order, at most the limit of them, all of them when they fit. */
    method FindExpired(now: Time, limit: nat) returns (ids: seq<Id>)
      ensures DueBatch(Tables(), now, limit, ids)
      ensures |ids| < limit ==> forall i :: i in intents && Due(intents[i], now) ==> i in ids
      ensures forall k, i :: 0 <= k < |ids| && i in intents && Due(intents[i], now) && i !in ids[..k] ==>
                !Earlier(intents, i, ids[k])
    {
      ids := [];
      while |ids| < limit
        invariant DueBatch(Tables(), now, limit, ids)
        invariant forall k, i :: 0 <= k < |ids| && i in intents && Due(intents[i], now) && i !in ids[..k] ==>
                    !Earlier(intents, i, ids[k])
      {
        var next := NextDue((set i | i in ids), now);
        if next.None? { return; }
        ghost var was := ids;
        ids := ids + [next.value];
        assert forall k :: 0 <= k < |was| ==> ids[..k] == was[..k];
        assert ids[..|was|] == was;
      }
    }

    /** One sweep transaction. It never raises, so nothing is ever rolled back. */
    method ExpireIntents(cfg: Config, now: Time, limit: nat) returns (expired: seq<Id>, reconciled: nat)
      requires Inv(cfg, Tables())
      modifies this
      ensures DueBatch(old(Tables()), now, limit, expired)
      ensures |expired| < limit ==> forall i :: i in old(intents) && Due(old(intents)[i], now) ==> i in expired
      ensures Sweep(old(Tables()), expired, now) == Ok(Tables())
      ensures reconciled == |reconciliations| - |old(reconciliations)|
      ensures Inv(cfg, Tables())
    {
      hide Inv, ExpireOne, DueBatch, Sweep;
      ghost var before := Tables();
      expired := FindExpired(now, limit);
      reconciled := 0;
      assert expired[0..] == expired;
      for k := 0 to |expired|
        invariant Inv(cfg, Tables()) && DueBatch(Tables(), now, limit, expired[k..])
        invariant Sweep(before, expired, now) == Sweep(Tables(), expired[k..], now)
        invariant reconciled == |reconciliations| - |before.reconciliations|
      {
        ghost var db := Tables();
        ghost var rest := expired[k..];
        assert rest[1..] == expired[k + 1..] && rest[0] == expired[k];
        BatchHead(db, now, limit, rest);
        ExpireOneKeepsInv(cfg, db, expired[k], now);
        Ids(cfg, db);
        var n := ExpireIntent(expired[k], now);
        reconciled := reconciled + n;
        SweepHead(db, Tables(), now, limit, rest);
      }
      SweepNothing(Tables(), expired[|expired|..], now);
    }

    /** One row of the sweep: record a payment that was under way, then expire the intent. */
    method ExpireIntent(i: Id, now: Time) returns (recorded: nat)
      requires HasFile(Tables(), i) && intents[i].id == i && Due(intents[i], now)
      modifies this
      ensures ExpireOne(old(Tables()), i, now) == Ok(Tables())
      ensures recorded == |reconciliations| - |old(reconciliations)|
    {
      recorded := 0;
      var it := intents[i];
      if it.status == Detected || it.status == Confirming {
        CreateReconciliation(Reconciliation(
          intentId := Some(i), eventRow := None, kind := ExpiredAfterPaymentDetected, expectedAsset := Some(it.asset),
          actualAsset := Some(it.asset), expectedAmount := Some(it.requestedAmount), actualAmount := None,
          createdAt := now));
        recorded := 1;
      }
      var moved := Transition(it, PlainChange(Expired, ExpiryWorker));
    }
  }

  /** The order of the sweep: by expiry, then by id. */
  predicate Earlier(intents: map<Id, Intent>, i: Id, j: Id)
    requires i in intents && j in intents
  {
    intents[i].expiresAt < intents[j].expiresAt || (intents[i].expiresAt == intents[j].expiresAt && i < j)
  }

  lemma BatchHead(db: Db, now: Time, limit: nat, ids: seq<Id>)
    requires DueBatch(db, now, limit, ids) && ids != []
    ensures ids[0] in db.intents && Due(db.intents[ids[0]], now)
  {
  }

  lemma SweepHead(db: Db, next: Db, now: Time, limit: nat, ids: seq<Id>)
    requires DueBatch(db, now, limit, ids) && ids != [] && ids[0] in next.intents
    requires ExpireOne(db, ids[0], now) == Ok(next) && next.intents == db.intents[ids[0] := next.intents[ids[0]]]
    ensures DueBatch(next, now, limit, ids[1..])
    ensures Sweep(db, ids, now) == Sweep(next, ids[1..], now)
  {
    hide ExpireOne, Due;
    forall k | 0 <= k < |ids| - 1 ensures ids[1..][k] in next.intents && Due(next.intents[ids[1..][k]], now) {
      assert ids[k + 1] != ids[0] && Due(db.intents[ids[k + 1]], now);
    }
  }

  lemma SweepNothing(db: Db, ids: seq<Id>, now: Time)
    requires ids == []
    ensures Sweep(db, ids, now) == Ok(db)
  {
  }

  lemma ReferenceIgnoresEvents(a: Db, b: Db, provider: string, reference: string)
    requires a.intents == b.intents && ReferencesUnique(a.intents)
    ensures FindByReference(a, provider, reference) == FindByReference(b, provider, reference)
  {
    var r := FindByReference(a, provider, reference);
    if r.Some? { assert HoldsReference(b, r.value, provider, reference); }
    var q := FindByReference(b, provider, reference);
    if q.Some? { assert HoldsReference(a, q.value, provider, reference); }
  }

  lemma FreeIgnoresEvents(a: Db, b: Db, i: Id, reference: string)
    requires a.intents == b.intents && a.sessions == b.sessions
    ensures ReferenceFree(a, i, reference) == ReferenceFree(b, i, reference)
  {
  }

  lemma Ids(cfg: Config, db: Db)
    requires Inv(cfg, db)
    ensures ReferencesUnique(db.intents) && KeysUnique(db.intents)
    ensures db.sessions.Keys == db.intents.Keys && db.log.Keys == db.intents.Keys
    ensures forall i :: i in db.intents ==> db.intents[i].id == i
  {
    hide EventsOk, Attested, Corresponds, RecordsTerminal, RecordsCounted, ReferencesUnique, KeysUnique, LogReplays,
      Funded;
    forall i | i in db.intents ensures db.intents[i].id == i { StoredId(cfg, db, i); }
  }

  lemma LocatedId(cfg: Config, db: Db, e: ProviderEvent)
    requires Inv(cfg, db) && Locate(db, e).Found?
    ensures Locate(db, e).file.intent.id == Locate(db, e).id
  {
    hide Locate, ReferencesUnique, KeysUnique, EventsOk, Attested, Corresponds, RecordsTerminal, RecordsCounted,
      LogReplays, Funded;
    LocateIsGood(cfg, db, e);
  }

  lemma CommitOverPut(db: Db, i: Id, f: File, h: Handled)
    ensures Commit(Put(db, i, f), i, h) == Commit(db, i, h)
  {
    PutTwice(db, i, f, h.file);
    assert Put(Put(db, i, f), i, h.file).(events := db.events + [h.row]) ==
             Put(db, i, h.file).(events := db.events + [h.row]);
  }

  lemma CommitShows(db: Db, i: Id, h: Handled)
    ensures Commit(db, i, h).events == db.events + [h.row]
    ensures i in Commit(db, i, h).intents && Commit(db, i, h).intents[i] == h.file.intent
  {
  }
}
