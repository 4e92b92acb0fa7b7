/** The promises of crypto funding, for every run from the empty tables. */
module CryptoTheorems {
  import opened Wrappers
  import opened Batches
  import opened CryptoDomain
  import opened CryptoProtocol
  import opened CryptoInvariants
  import opened CryptoHandling
  import opened CryptoTables
  import opened CryptoTransactions
  import opened CryptoHistory
  import opened CryptoRuns
  import CryptoAmount
  import EligibilityPolicy

  ghost predicate Reachable(cfg: Config, w: World) {
    exists steps :: w == Run(cfg, START, steps)
  }

  lemma ReachableSound(cfg: Config, w: World)
    requires Reachable(cfg, w)
    ensures Sound(cfg, w)
  {
    hide Sound, Run;
    var steps :| w == Run(cfg, START, steps);
    StartIsSound(cfg);
    RunKeeps(cfg, START, steps);
  }

  // ---- exactly-once attestation ----

  ghost function AttestationsOf(rows: seq<Attestation>, i: Id): nat {
    if rows == [] then 0
    else AttestationsOf(rows[..|rows| - 1], i) + if rows[|rows| - 1].intentId == i then 1 else 0
  }

  ghost function EvidenceOf(rows: seq<Evidence>, i: Id): nat {
    if rows == [] then 0
    else EvidenceOf(rows[..|rows| - 1], i) + if rows[|rows| - 1].attestation.intentId == i then 1 else 0
  }

  lemma {:induction false} CountOnce(rows: seq<Attestation>, i: Id)
    requires forall j, k :: 0 <= j < k < |rows| ==> rows[j].intentId != rows[k].intentId
    ensures AttestationsOf(rows, i) == if HasAttestation(rows, i) then 1 else 0
  {
    if rows != [] {
      var n := |rows| - 1;
      CountOnce(rows[..n], i);
      if HasAttestation(rows[..n], i) {
        var k :| 0 <= k < n && rows[..n][k].intentId == i;
        assert rows[k].intentId == i;
      }
      if HasAttestation(rows, i) && rows[n].intentId != i {
        var k :| 0 <= k < |rows| && rows[k].intentId == i;
        assert rows[..n][k].intentId == i;
      }
    }
  }

  lemma {:induction false} EvidenceMirrors(evidence: seq<Evidence>, rows: seq<Attestation>, i: Id)
    requires |evidence| == |rows| && forall k :: 0 <= k < |rows| ==> evidence[k].attestation == rows[k]
    ensures EvidenceOf(evidence, i) == AttestationsOf(rows, i)
  {
    if rows != [] { EvidenceMirrors(evidence[..|rows| - 1], rows[..|rows| - 1], i); }
  }

  /** In every reachable state an intent is confirmed exactly when it has one attestation, and then
      it has exactly one evidence row too; the attestation matches the stored intent column by column. */
  lemma ExactlyOneAttestation(cfg: Config, w: World, i: Id)
    requires Reachable(cfg, w) && i in w.db.intents
    ensures AttestationsOf(w.db.attestations, i) == (if w.db.intents[i].status == Confirmed then 1 else 0)
    ensures EvidenceOf(w.db.evidence, i) == AttestationsOf(w.db.attestations, i)
    ensures forall k :: 0 <= k < |w.db.attestations| && w.db.attestations[k].intentId == i
                        ==> MatchesIntent(w.db.attestations[k], w.db.intents[i])
  {
    hide Filed, FileOk, ReferencesUnique, KeysUnique, EventsOk, RecordsTerminal, RecordsCounted, CallsOk, MatchesEvent,
      Reachable;
    ReachableSound(cfg, w);
    CountOnce(w.db.attestations, i);
    EvidenceMirrors(w.db.evidence, w.db.attestations, i);
  }

  // ---- conservation ----

  ghost function AttestedUnits(rows: seq<Attestation>, asset: string): nat {
    if rows == [] then 0
    else
      var last := rows[|rows| - 1];
      AttestedUnits(rows[..|rows| - 1], asset) + if last.asset == asset then last.atomicUnits else 0
  }

  /** The exact units that processed confirmations reported for an asset. */
  ghost function ReportedUnits(cfg: Config, events: seq<EventRow>, asset: string): nat {
    if events == [] then 0
    else
      var last := events[|events| - 1];
      ReportedUnits(cfg, events[..|events| - 1], asset)
      + if IsConfirmation(last) && last.event.asset == Some(asset) then ExactUnits(cfg, asset, last.event.amount) else 0
  }

  /** Attestation by attestation, the confirmation it came from. */
  ghost predicate Paired(cfg: Config, rows: seq<Attestation>, events: seq<EventRow>) {
    && |rows| == |Confirmations(events)|
    && forall k :: 0 <= k < |rows| ==> MatchesEvent(cfg, rows[k], events[Confirmations(events)[k]])
  }

  lemma {:induction false} PairedUnits(cfg: Config, rows: seq<Attestation>, events: seq<EventRow>, asset: string)
    requires Paired(cfg, rows, events)
    ensures AttestedUnits(rows, asset) == ReportedUnits(cfg, events, asset)
    decreases |events|
  {
    hide ExactUnits;
    if events != [] {
      var n := |events| - 1;
      var init := events[..n];
      assert events == init + [events[n]];
      ConfirmationsAppend(init, events[n]);
      if IsConfirmation(events[n]) {
        var m := |rows| - 1;
        assert Confirmations(events)[m] == n && MatchesEvent(cfg, rows[m], events[n]);
        PairedInit(cfg, rows, events);
        PairedUnits(cfg, rows[..m], init, asset);
      } else {
        assert forall k :: 0 <= k < |rows| ==> init[Confirmations(init)[k]] == events[Confirmations(events)[k]];
        PairedUnits(cfg, rows, init, asset);
      }
    }
  }

  lemma PairedInit(cfg: Config, rows: seq<Attestation>, events: seq<EventRow>)
    requires Paired(cfg, rows, events) && events != [] && IsConfirmation(events[|events| - 1])
    ensures rows != [] && Paired(cfg, rows[..|rows| - 1], events[..|events| - 1])
  {
    hide MatchesEvent, IsConfirmation, Confirmations;
    var n := |events| - 1;
    var init := events[..n];
    assert events == init + [events[n]];
    ConfirmationsAppend(init, events[n]);
    var earlier := Confirmations(init);
    assert Confirmations(events) == earlier + [n];
    forall k | 0 <= k < |earlier| ensures MatchesEvent(cfg, rows[..|rows| - 1][k], init[earlier[k]]) {
      assert Confirmations(events)[k] == earlier[k];
      assert MatchesEvent(cfg, rows[k], events[earlier[k]]);
    }
  }

  /** Conservation: per asset, the attested units are the units that processed confirmations
      reported, and attestations and confirmations correspond one to one in order. */
  lemma UnitsAreConserved(cfg: Config, w: World, asset: string)
    requires Reachable(cfg, w)
    ensures AttestedUnits(w.db.attestations, asset) == ReportedUnits(cfg, w.db.events, asset)
    ensures |w.db.attestations| == |Confirmations(w.db.events)|
    ensures forall k :: 0 <= k < |w.db.attestations| ==>
              w.db.attestations[k].confirmationEvent == Confirmations(w.db.events)[k]
              && MatchesEvent(cfg, w.db.attestations[k], w.db.events[w.db.attestations[k].confirmationEvent])
  {
    hide Filed, FileOk, ReferencesUnique, KeysUnique, EventsOk, Attested, RecordsTerminal, RecordsCounted, CallsOk,
      MatchesEvent, Reachable;
    ReachableSound(cfg, w);
    PairedUnits(cfg, w.db.attestations, w.db.events, asset);
  }

  /** The shape check of the instruction table never refuses an attestation: its units are positive, its
      scale is at most 30 and it may be processed for exactly the configured time after it is issued. */
  lemma AttestationsHaveShape(cfg: Config, w: World, k: nat)
    requires Reachable(cfg, w) && k < |w.db.attestations|
    ensures var a := w.db.attestations[k];
            && a.atomicUnits > 0 && a.scale <= 30
            && a.issuedAt < a.processingUntil == a.issuedAt + cfg.processingWindow
  {
    hide Reachable, AttestedUnits, ReportedUnits, Confirmations, ExactUnits;
    UnitsAreConserved(cfg, w, "");
    assert MatchesEvent(cfg, w.db.attestations[k], w.db.events[w.db.attestations[k].confirmationEvent]);
  }

  // ---- the callback is total ----

  /** In every reachable state no event whatever raises a state or version conflict, a uniqueness
      violation or the missing-evidence error. The one error left is a database error: a new, timely
      event whose reference nobody holds and whose claimed intent id is not a UUID. */
  lemma CallbackIsTotal(cfg: Config, w: World, e: ProviderEvent, now: Time)
    requires Reachable(cfg, w)
    ensures var r := Callback(cfg, w.db, e, now).1;
            && (r.Raised? ==> r.error == InvalidUuid)
            && (r.Raised? <==> && FindEvent(w.db.events, e).None? && e.occurredAt <= now + cfg.maxFutureSkew
                               && FindByReference(w.db, e.provider, e.reference).None? && e.claimedIntent.NotUuid?)
  {
    hide Inv, CallsOk, Callback, Reachable;
    ReachableSound(cfg, w);
    CallbackKeepsInv(cfg, w.db, e, now);
  }

  // ---- create convergence ----

  /** Calls with one idempotency key that succeed return one intent, with the asset and canonical
      amount each asked for; a reference they saw is the reference the intent keeps. */
  lemma CreatesConverge(cfg: Config, w: World, c: Id, d: Id)
    requires Reachable(cfg, w) && c in w.calls && d in w.calls && w.calls[c].Returned? && w.calls[d].Returned?
    requires w.calls[c].a.playerId == w.calls[d].a.playerId && w.calls[c].a.key == w.calls[d].a.key
    ensures var x, y := w.calls[c].result, w.calls[d].result;
            && x.id == y.id && x.id in w.db.intents
            && x.asset == w.calls[c].a.asset == w.calls[d].a.asset
            && x.requestedAmount == w.calls[c].a.canonical == w.calls[d].a.canonical
            && (x.providerReference.Some? ==> w.db.intents[x.id].providerReference == x.providerReference)
            && (x.providerReference.Some? && y.providerReference.Some? ==> x.providerReference == y.providerReference)
  {
    hide Filed, FileOk, ReferencesUnique, EventsOk, Attested, Corresponds, RecordsTerminal, RecordsCounted, Reachable;
    ReachableSound(cfg, w);
    assert CallOk(cfg, w.db, w.calls[c]) && CallOk(cfg, w.db, w.calls[d]);
  }

  /** A provider session is active exactly when its intent holds a reference, and it is the same one. */
  lemma SessionsAgree(cfg: Config, w: World, i: Id)
    requires Reachable(cfg, w) && i in w.db.intents
    ensures i in w.db.sessions
    ensures w.db.sessions[i].status == Active <==> w.db.intents[i].providerReference.Some?
    ensures w.db.sessions[i].providerReference == w.db.intents[i].providerReference
    ensures forall j :: j in w.db.intents && j != i && w.db.intents[i].providerReference.Some?
                        && w.db.intents[j].provider == w.db.intents[i].provider
                        ==> w.db.intents[j].providerReference != w.db.intents[i].providerReference
  {
    hide ShapeOk, LogReplays, Funded, KeysUnique, EventsOk, Attested, Corresponds, RecordsTerminal, RecordsCounted,
      CallsOk, Reachable;
    ReachableSound(cfg, w);
    StoredId(cfg, w.db, i);
  }

  // ---- history ----

  /** Along every run a set provider reference never changes and a terminal intent never moves:
      a confirmed one stays confirmed at the same time, and no other one is ever confirmed. */
  lemma WriteOnceAndAbsorbing(cfg: Config, w: World, steps: seq<Step>, i: Id)
    requires Reachable(cfg, w) && i in w.db.intents
    ensures var w' := Run(cfg, w, steps);
            && i in w'.db.intents
            && (w.db.intents[i].providerReference.Some? ==>
                  w'.db.intents[i].providerReference == w.db.intents[i].providerReference)
            && (IsTerminal(w.db.intents[i].status) ==>
                  && w'.db.intents[i].status == w.db.intents[i].status
                  && w'.db.intents[i].confirmedAt == w.db.intents[i].confirmedAt)
            && w.db.events <= w'.db.events && w.db.attestations <= w'.db.attestations
  {
    hide Sound, Run, Reachable;
    ReachableSound(cfg, w);
    RunKeeps(cfg, w, steps);
    assert Evolves(w.db.intents[i], Run(cfg, w, steps).db.intents[i]);
  }

  ghost predicate HasRecord(db: Db, i: Id) {
    exists k :: 0 <= k < |db.reconciliations| && db.reconciliations[k].intentId == Some(i)
  }

  /** A discrepancy is never followed by a confirmation: an intent with a reconciliation record is
      terminal, and unless it was confirmed already it is never confirmed or attested afterwards. */
  lemma RecordedNeverConfirmed(cfg: Config, w: World, steps: seq<Step>, i: Id)
    requires Reachable(cfg, w) && HasRecord(w.db, i)
    ensures i in w.db.intents && IsTerminal(w.db.intents[i].status)
    ensures w.db.intents[i].status != Confirmed ==>
              var w' := Run(cfg, w, steps);
              i in w'.db.intents && w'.db.intents[i].status != Confirmed && !HasAttestation(w'.db.attestations, i)
  {
    hide Filed, FileOk, ReferencesUnique, KeysUnique, EventsOk, Corresponds, RecordsCounted, CallsOk, Run, Reachable;
    ReachableSound(cfg, w);
    WriteOnceAndAbsorbing(cfg, w, steps, i);
    assert Sound(cfg, Run(cfg, w, steps)) by { RunKeeps(cfg, w, steps); }
    if w.db.intents[i].status != Confirmed { NotYetAttested(cfg, Run(cfg, w, steps).db, i); }
  }

  /** Reconciliation accounting: every stored event has its final outcome; it has exactly one
      reconciliation record or none, by outcome; and an event that reported moved value without
      leaving a record was processed, stale, too far in the future, or claimed another's intent. */
  lemma EveryEventAccounted(cfg: Config, w: World, row: Id)
    requires Reachable(cfg, w) && row < |w.db.events|
    ensures w.db.events[row].processing != Received
    ensures RecordsOf(w.db.reconciliations, row) == if NeedsRecord(w.db.events[row]) then 1 else 0
    ensures ExternallyMoved(w.db.events[row].event.status) && RecordsOf(w.db.reconciliations, row) == 0 ==>
              || w.db.events[row].processing in {Processed, IgnoredStale}
              || w.db.events[row].reason in {FutureTimestamp, OwnershipMismatch}
  {
    hide Filed, FileOk, ReferencesUnique, KeysUnique, Attested, Corresponds, RecordsTerminal, CallsOk, Reachable;
    ReachableSound(cfg, w);
    assert RowOk(w.db.intents, w.db.events[row]);
  }

  /** Processed events of one intent strictly advance in provider time and in payment stage. */
  lemma ProcessedEventsAdvance(cfg: Config, w: World, j: Id, k: Id)
    requires Reachable(cfg, w) && j < k < |w.db.events| && BothProcessed(w.db.events[j], w.db.events[k])
    ensures w.db.events[j].event.occurredAt < w.db.events[k].event.occurredAt
    ensures Rank(w.db.events[j].event.status) < Rank(w.db.events[k].event.status)
  {
    hide Filed, FileOk, ReferencesUnique, KeysUnique, Attested, Corresponds, RecordsTerminal, RecordsCounted, CallsOk,
      Reachable;
    ReachableSound(cfg, w);
    assert Before(w.db.events[j].event, w.db.events[k].event);
  }

  /** Provenance: behind every attestation stands a stored, allowed deposit decision for the same
      player whose snapshot permits a deposit, and the confirmation was received before expiry. */
  lemma AttestationsHaveProvenance(cfg: Config, w: World, k: Id)
    requires Reachable(cfg, w) && k < |w.db.attestations|
    ensures var a := w.db.attestations[k];
            && a.intentId in w.db.intents && a.confirmedAt < w.db.intents[a.intentId].expiresAt
            && a.eligibility.decisionId in w.db.decisions
            && var d := w.db.decisions[a.eligibility.decisionId];
               d.playerId == a.playerId && d.operation == EligibilityPolicy.Deposit && d.allowed
               && EligibilityPolicy.PermitsDeposit(d.snapshot)
  {
    hide LogReplays, SessionAgrees, Funded, ReferencesUnique, KeysUnique, EventsOk, Corresponds, RecordsTerminal,
      RecordsCounted, CallsOk, Reachable;
    ReachableSound(cfg, w);
    StoredId(cfg, w.db, w.db.attestations[k].intentId);
  }

  // ---- the log ----

  /** The status an intent had at a version, read off its log. */
  ghost function StatusAt(log: seq<Transition>, version: nat): FundingStatus
    requires 1 <= version <= |log| + 1
  {
    if version == 1 then ProviderPending else log[version - 2].to
  }

  /** Between two states an intent's log only gained rows, each the allowed transition of the next
      version from the status before it, and at both ends it replays to the stored status and version. */
  ghost predicate Guarded(before: File, after: File) {
    && before.log <= after.log
    && 1 <= before.intent.version <= after.intent.version == |after.log| + 1
    && StatusAt(after.log, before.intent.version) == before.intent.status
    && StatusAt(after.log, after.intent.version) == after.intent.status
    && forall k :: 0 <= k < |after.log| ==> LogStep(after.log, k, after.intent.playerId)
  }

  lemma GuardsFromLogs(f: File, g: File)
    requires LogReplays(f) && LogReplays(g) && f.log <= g.log
    ensures Guarded(f, g)
  {
    hide LogStep;
  }

  /** The deferred guards hold between any two states of a run: a status only ever changes with its
      transition rows, and a confirmed intent has its instruction. */
  lemma DeferredGuardsHold(cfg: Config, w: World, steps: seq<Step>, i: Id)
    requires Reachable(cfg, w) && i in w.db.intents
    ensures var a, b := w.db, Run(cfg, w, steps).db;
            && HasFile(a, i) && HasFile(b, i) && Guarded(FileOf(a, i), FileOf(b, i))
            && (b.intents[i].status == Confirmed ==> HasAttestation(b.attestations, i))
  {
    hide Sound, Run, Reachable, Guarded, LogReplays, Evolves, HasAttestation;
    ReachableSound(cfg, w);
    RunKeeps(cfg, w, steps);
    StoredLog(cfg, w, i);
    StoredLog(cfg, Run(cfg, w, steps), i);
    GuardsFromLogs(FileOf(w.db, i), FileOf(Run(cfg, w, steps).db, i));
  }

  lemma StoredLog(cfg: Config, w: World, i: Id)
    requires Sound(cfg, w) && i in w.db.intents
    ensures HasFile(w.db, i) && LogReplays(FileOf(w.db, i))
    ensures w.db.intents[i].status == Confirmed ==> HasAttestation(w.db.attestations, i)
  {
    hide ReferencesUnique, KeysUnique, EventsOk, Corresponds, RecordsTerminal, RecordsCounted, CallsOk, LogReplays,
      Funded, ShapeOk, HasAttestation;
    StoredId(cfg, w.db, i);
  }

  // ---- replays ----

  ghost predicate IsStored(db: Db, e: ProviderEvent) { FindEvent(db.events, e).Some? }

  lemma StoredStays(a: seq<EventRow>, b: seq<EventRow>, e: ProviderEvent)
    requires a <= b && FindEvent(a, e).Some?
    ensures FindEvent(b, e).Some?
  {
    assert b[FindEvent(a, e).value] == a[FindEvent(a, e).value];
  }

  lemma {:induction false} RunConcat(cfg: Config, w: World, a: seq<Step>, b: seq<Step>)
    ensures Run(cfg, w, a + b) == Run(cfg, Run(cfg, w, a), b)
    decreases |b|
  {
    hide Next;
    if b == [] {
      assert a + b == a;
    } else {
      var n := |b| - 1;
      assert (a + b)[..|a + b| - 1] == a + b[..n];
      RunConcat(cfg, w, a, b[..n]);
    }
  }

  lemma RunOne(cfg: Config, w: World, s: Step)
    ensures Run(cfg, w, [s]) == Next(cfg, w, s)
  {
    hide Next;
    assert [s][..0] == [];
    assert Run(cfg, w, []) == w;
  }

  lemma CommitAppends(db: Db, i: Id, h: Handled)
    ensures Commit(db, i, h).events == db.events + [h.row]
  {
  }

  lemma LastIsFound(events: seq<EventRow>, e: ProviderEvent)
    requires events != [] && events[|events| - 1].event == e
    ensures FindEvent(events, e).Some?
  {
  }

  /** A new delivery is stored unless it raised the one possible error. */
  lemma DeliveryStores(cfg: Config, db: Db, e: ProviderEvent, now: Time)
    requires Inv(cfg, db) && !Callback(cfg, db, e, now).1.Raised?
    ensures IsStored(Callback(cfg, db, e, now).0, e)
  {
    hide Inv, Handle, Locate, Commit, FindEvent, SameIdentity, InsertReconciliation;
    if FindEvent(db.events, e).None? {
      var db' := Callback(cfg, db, e, now).0;
      if e.occurredAt <= now + cfg.maxFutureSkew && Locate(db, e).Found? {
        RowKeepsEvent(cfg, db, e, now);
        CommitAppends(db, Locate(db, e).id, Handle(cfg, Locate(db, e).file, e, |db.events|, now).value);
      } else if e.occurredAt <= now + cfg.maxFutureSkew {
        RecordKeepsEvents(RejectUnlinked(db, e, UnknownReference, now), UnknownRecord(e, |db.events|, now));
      }
      LastIsFound(db'.events, e);
    }
  }

  lemma RecordKeepsEvents(db: Db, r: Reconciliation)
    ensures InsertReconciliation(db, r).events == db.events
  {
  }

  lemma RowKeepsEvent(cfg: Config, db: Db, e: ProviderEvent, now: Time)
    requires Inv(cfg, db) && Locate(db, e).Found?
    ensures var r := Handle(cfg, Locate(db, e).file, e, |db.events|, now); r.Ok? && r.value.row.event == e
  {
    hide FileOk, ReferencesUnique, KeysUnique, EventsOk, Attested, Corresponds, RecordsTerminal, RecordsCounted,
      Locate, Handle, Evolves, GoodAttestation, GoodRecord, GoodLocation;
    LocateIsGood(cfg, db, e);
    var i, f := Locate(db, e).id, Locate(db, e).file;
    assert HasFile(db, i);
    StoredId(cfg, db, i);
    HandleLocated(cfg, db, e, i, f, now);
  }

  /** Replay: once a delivery of an event identity has been stored, delivering that identity again
      - at any later point, any time, with the same or other content - leaves the final state as if
      it had not been delivered again. */
  lemma RepeatsChangeNothing(cfg: Config, w: World, e: ProviderEvent, t: Time, mid: seq<Step>, again: ProviderEvent,
                             u: Time, post: seq<Step>)
    requires Reachable(cfg, w) && SameIdentity(e, again)
    requires !Callback(cfg, w.db, e, t).1.Raised?
    ensures Run(cfg, w, [Deliver(e, t)] + mid + [Deliver(again, u)] + post) == Run(cfg, w, [Deliver(e, t)] + mid + post)
  {
    hide Sound, Extends, Callback, Reachable;
    ReachableSound(cfg, w);
    var first := [Deliver(e, t)];
    var w1, w2 := Run(cfg, w, first), Run(cfg, w, first + mid);
    RunOne(cfg, w, Deliver(e, t));
    assert Sound(cfg, w1) && IsStored(w1.db, e) by { FirstDelivery(cfg, w, e, t); }
    RunConcat(cfg, w, first, mid);
    StoredThroughout(cfg, w1, mid, e);
    var w3 := Run(cfg, w2, [Deliver(again, u)]);
    RunOne(cfg, w2, Deliver(again, u));
    assert w3 == w2 by { DuplicateIsNoOp(cfg, w2, e, again, u); }
    RunConcat(cfg, w, first + mid, [Deliver(again, u)]);
    RunConcat(cfg, w, first + mid + [Deliver(again, u)], post);
    RunConcat(cfg, w, first + mid, post);
  }

  /** The run without the deliveries whose identity is stored when they arrive. */
  ghost function WithoutRepeats(cfg: Config, w: World, steps: seq<Step>): seq<Step> {
    if steps == [] then []
    else
      var n := |steps| - 1;
      if steps[n].Deliver? && IsStored(Run(cfg, w, steps[..n]).db, steps[n].event) then
        WithoutRepeats(cfg, w, steps[..n])
      else WithoutRepeats(cfg, w, steps[..n]) + [steps[n]]
  }

  /** Replay, for all repeats at once: every run ends as it would without them. */
  lemma {:induction false} AllRepeatsChangeNothing(cfg: Config, w: World, steps: seq<Step>)
    ensures Run(cfg, w, WithoutRepeats(cfg, w, steps)) == Run(cfg, w, steps)
  {
    hide Next, IsStored;
    if steps != [] {
      var n := |steps| - 1;
      AllRepeatsChangeNothing(cfg, w, steps[..n]);
      var before, kept := Run(cfg, w, steps[..n]), WithoutRepeats(cfg, w, steps[..n]);
      if steps[n].Deliver? && IsStored(before.db, steps[n].event) {
        assert SameIdentity(steps[n].event, steps[n].event);
        DuplicateIsNoOp(cfg, before, steps[n].event, steps[n].event, steps[n].now);
      } else {
        assert (kept + [steps[n]])[..|kept|] == kept;
      }
    }
  }

  lemma FirstDelivery(cfg: Config, w: World, e: ProviderEvent, t: Time)
    requires Sound(cfg, w) && !Callback(cfg, w.db, e, t).1.Raised?
    ensures Sound(cfg, Next(cfg, w, Deliver(e, t))) && IsStored(Next(cfg, w, Deliver(e, t)).db, e)
  {
    hide Inv, CallsOk, Callback, IsStored;
    NextKeeps(cfg, w, Deliver(e, t));
    DeliveryStores(cfg, w.db, e, t);
  }

  lemma StoredThroughout(cfg: Config, w: World, steps: seq<Step>, e: ProviderEvent)
    requires Sound(cfg, w) && IsStored(w.db, e)
    ensures IsStored(Run(cfg, w, steps).db, e)
  {
    hide Sound, Run;
    RunKeeps(cfg, w, steps);
    StoredStays(w.db.events, Run(cfg, w, steps).db.events, e);
  }

  lemma DuplicateIsNoOp(cfg: Config, w: World, e: ProviderEvent, again: ProviderEvent, u: Time)
    requires IsStored(w.db, e) && SameIdentity(e, again)
    ensures Next(cfg, w, Deliver(again, u)) == w
  {
    assert SameIdentity(w.db.events[FindEvent(w.db.events, e).value].event, again);
  }

  // ---- sweeps are complete ----

  ghost function DueSet(db: Db, now: Time): set<Id> {
    set i | i in db.intents && Due(db.intents[i], now)
  }

  /** A batch that takes as many due rows as its limit allows. */
  ghost predicate FullBatch(db: Db, now: Time, limit: nat, ids: seq<Id>) {
    DueBatch(db, now, limit, ids) && |ids| == Taken(|DueSet(db, now)|, limit)
  }

  /** Full sweeps one after another at a fixed time. */
  ghost predicate FullSweeps(cfg: Config, w: World, now: Time, limit: nat, steps: seq<Step>) {
    steps != [] ==>
      var n := |steps| - 1;
      && FullSweeps(cfg, w, now, limit, steps[..n])
      && steps[n].Expire? && steps[n].now == now && steps[n].limit == limit
      && FullBatch(Run(cfg, w, steps[..n]).db, now, limit, steps[n].ids)
  }

  lemma SweepShrinksDue(cfg: Config, db: Db, now: Time, ids: seq<Id>)
    requires Inv(cfg, db) && DueBatch(db, now, |ids|, ids)
    ensures Sweep(db, ids, now).Ok?
    ensures |DueSet(Sweep(db, ids, now).value, now)| == |DueSet(db, now)| - |ids|
  {
    hide Inv, Sweep;
    SweepKeepsInv(cfg, db, ids, now);
    DistinctSize(ids);
    assert Elements(ids) <= DueSet(db, now);
    RemoveTaken(DueSet(db, now), Elements(ids));
    assert DueSet(Sweep(db, ids, now).value, now) == DueSet(db, now) - Elements(ids);
  }

  /** What full sweeps have made of the intents due at the start. */
  ghost predicate SweptOnce(before: map<Id, Intent>, after: map<Id, Intent>, now: Time) {
    && after.Keys == before.Keys
    && forall i :: i in before ==>
         after[i] == before[i] ||
         (Due(before[i], now) && after[i] == before[i].(status := Expired, version := before[i].version + 1))
  }

  lemma SweptTrans(a: map<Id, Intent>, b: map<Id, Intent>, c: map<Id, Intent>, now: Time)
    requires SweptOnce(a, b, now) && SweptOnce(b, c, now)
    ensures SweptOnce(a, c, now)
  {
  }

  lemma OneFullSweep(cfg: Config, w: World, now: Time, s: Step)
    requires Sound(cfg, w) && s.Expire? && s.now == now && FullBatch(w.db, now, s.limit, s.ids)
    ensures var w1 := Next(cfg, w, s);
            && Sound(cfg, w1)
            && SweptOnce(w.db.intents, w1.db.intents, now)
            && |DueSet(w1.db, now)| == |DueSet(w.db, now)| - Taken(|DueSet(w.db, now)|, s.limit)
  {
    hide Inv, CallsOk, Sweep, DueSet;
    NextKeeps(cfg, w, s);
    SweepShrinksDue(cfg, w.db, now, s.ids);
    SweepKeepsInv(cfg, w.db, s.ids, now);
  }

  lemma {:induction false} FullSweepsLeave(cfg: Config, w: World, now: Time, limit: nat, steps: seq<Step>)
    requires Sound(cfg, w) && FullSweeps(cfg, w, now, limit, steps)
    ensures Sound(cfg, Run(cfg, w, steps))
    ensures |DueSet(Run(cfg, w, steps).db, now)| == Left(|DueSet(w.db, now)|, |steps|, limit)
    ensures SweptOnce(w.db.intents, Run(cfg, w, steps).db.intents, now)
  {
    hide Sound, DueSet, SweptOnce, Next, FullBatch;
    if steps == [] {
      SweptReflexive(w.db.intents, now);
    } else {
      var n := |steps| - 1;
      var before := Run(cfg, w, steps[..n]);
      FullSweepsLeave(cfg, w, now, limit, steps[..n]);
      OneFullSweep(cfg, before, now, steps[n]);
      LeftNext(|DueSet(w.db, now)|, n, limit);
      SweptTrans(w.db.intents, before.db.intents, Run(cfg, w, steps).db.intents, now);
    }
  }

  lemma SweptReflexive(a: map<Id, Intent>, now: Time)
    ensures SweptOnce(a, a, now)
  {
  }

  lemma NothingLeft(a: Db, b: Db, now: Time)
    requires SweptOnce(a.intents, b.intents, now) && |DueSet(b, now)| == 0
    ensures forall i :: i in DueSet(a, now) ==> ExpiredOnce(a, b, i)
  {
    forall i | i in DueSet(a, now) ensures ExpiredOnce(a, b, i) {
      assert i !in DueSet(b, now);
    }
  }

  /** The intent moved to expired in a single step. */
  ghost predicate ExpiredOnce(a: Db, b: Db, i: Id) {
    && i in a.intents && i in b.intents
    && b.intents[i] == a.intents[i].(status := Expired, version := a.intents[i].version + 1)
  }

  /** Sweeps are complete: full sweeps at one time leave max(0, n - k*limit) of n due rows due, so once
      k*limit >= n every row due at the start has expired, each in exactly one step; no other row changed. */
  lemma FullSweepsFinish(cfg: Config, w: World, now: Time, limit: nat, steps: seq<Step>)
    requires Reachable(cfg, w) && FullSweeps(cfg, w, now, limit, steps)
    ensures var w', n := Run(cfg, w, steps), |DueSet(w.db, now)|;
            && |DueSet(w'.db, now)| == (if n <= |steps| * limit then 0 else n - |steps| * limit)
            && SweptOnce(w.db.intents, w'.db.intents, now)
            && (n <= |steps| * limit ==> forall i :: i in DueSet(w.db, now) ==> ExpiredOnce(w.db, w'.db, i))
  {
    hide Sound, DueSet, SweptOnce, Run, FullSweeps, Reachable, ExpiredOnce;
    ReachableSound(cfg, w);
    FullSweepsLeave(cfg, w, now, limit, steps);
    if |DueSet(w.db, now)| <= |steps| * limit { NothingLeft(w.db, Run(cfg, w, steps).db, now); }
  }
}
