/** One event, one intent: handling never raises an error and keeps everything the invariant says
    about the intent's rows. */
module CryptoHandling {
  import opened Wrappers
  import opened CryptoDomain
  import opened CryptoProtocol
  import opened CryptoInvariants
  import CryptoAmount
  import EligibilityPolicy

  // ---- the single status writer ----

  lemma MoveKeepsLog(f: File, c: Change)
    requires LogReplays(f) && CanTransition(f.intent.status, c.to)
    ensures Move(f, c).Ok? && LogReplays(Move(f, c).value)
  {
    var g := Move(f, c).value;
    forall k | 0 <= k < |g.log| ensures LogStep(g.log, k, g.intent.playerId) {
      if k < |f.log| { assert LogStep(f.log, k, f.intent.playerId); }
    }
  }

  /** A change is fit for an intent when it sets the times its target needs and no other reference. */
  ghost predicate Fit(it: Intent, c: Change) {
    && CanTransition(it.status, c.to)
    && (c.reference.Set? ==> c.reference.value == it.providerReference)
    && (c.to == Confirmed <==> c.confirmedAt.Set?)
    && (c.confirmedAt.Set? ==> c.confirmedAt.value.Some? && c.confirmedAt.value.value < it.expiresAt)
    && (c.to in {Failed, CreationFailed} ==> c.failedAt.Set?)
    && (c.failedAt.Set? ==> c.failedAt.value.Some?)
    && (c.eventAt.Set? ==> c.eventAt.value.Some?)
    && (!IsTerminal(c.to) && c.eventAt.Set? && it.lastEventAt.Some? ==> it.lastEventAt.value <= c.eventAt.value.value)
  }

  lemma MoveKeepsFile(cfg: Config, decisions: map<Id, Decision>, f: File, c: Change)
    requires ReferenceAgrees(f) && ShapeOk(f.intent) && LogReplays(f) && Funded(cfg, f.intent)
    requires Justified(decisions, f.intent.playerId, f.intent.eligibility)
    requires Fit(f.intent, c) && (NeedsReference(c.to) ==> f.intent.providerReference.Some?)
    ensures Move(f, c).Ok?
    ensures FileOk(cfg, decisions, f.intent.id, Move(f, c).value)
    ensures Evolves(f.intent, Move(f, c).value.intent)
  {
    MoveKeepsLog(f, c);
  }

  /** The log of an intent replays as long as its version, status and player are what they were. */
  lemma SameLogReplays(f: File, g: File)
    requires LogReplays(f) && g.log == f.log && g.intent.version == f.intent.version
    requires g.intent.status == f.intent.status && g.intent.playerId == f.intent.playerId
    ensures LogReplays(g)
  {
    forall k | 0 <= k < |g.log| ensures LogStep(g.log, k, g.intent.playerId) {
      assert LogStep(f.log, k, f.intent.playerId);
    }
  }

  lemma ActivateKeepsFile(cfg: Config, decisions: map<Id, Decision>, f: File, reference: string, url: Option<string>,
                          c: Change)
    requires FileOk(cfg, decisions, f.intent.id, f)
    requires f.intent.providerReference.Some? ==> f.intent.providerReference.value == reference
    requires c == Activation(c.trigger, c.eventRow, reference, url)
    ensures var g := Activated(f, reference, url);
            && Evolves(f.intent, g.intent)
            && (f.intent.status != ProviderPending ==> FileOk(cfg, decisions, f.intent.id, g))
            && (f.intent.status == ProviderPending ==>
                  && Move(g, c).Ok? && FileOk(cfg, decisions, f.intent.id, Move(g, c).value)
                  && Evolves(f.intent, Move(g, c).value.intent))
  {
    var g := Activated(f, reference, url);
    SameLogReplays(f, g);
    if f.intent.status == ProviderPending { MoveKeepsFile(cfg, decisions, g, c); }
  }

  // ---- amounts ----

  /** No discrepancy means the event reports exactly the requested units of the requested asset. */
  lemma NoDiscrepancyIsExact(cfg: Config, it: Intent, e: ProviderEvent)
    requires Funded(cfg, it) && Discrepancy(cfg, it, e).None?
    ensures e.asset == Some(it.asset) && e.amount.Some?
    ensures ExactUnits(cfg, it.asset, e.amount) == ExactUnits(cfg, it.asset, Some(it.requestedAmount)) > 0
  {
    var decimals := cfg.policies[it.asset].decimals;
    var actual := CryptoAmount.Parse(e.amount.value, decimals).value;
    var expected := CryptoAmount.Parse(it.requestedAmount, decimals).value;
    CryptoAmount.CompareSameScale(actual, expected);
  }

  // ---- the branches of Handle ----

  lemma LateIsGood(cfg: Config, decisions: map<Id, Decision>, f: File, e: ProviderEvent, eventRow: Id, now: Time)
    requires FileOk(cfg, decisions, f.intent.id, f)
    requires f.intent.status == Expired || (f.intent.expiresAt <= now && f.intent.status != Confirmed)
    ensures HandleLate(f, e, eventRow, now).Ok?
    ensures Good(cfg, decisions, f.intent, HandleLate(f, e, eventRow, now).value, e, eventRow, now)
  {
    if f.intent.status !in {Expired, Failed, CreationFailed, ReconciliationRequired} {
      MoveKeepsFile(cfg, decisions, f, PlainChange(Expired, ProviderEventExpiryGuard));
    }
  }

  lemma DiscrepancyIsGood(cfg: Config, decisions: map<Id, Decision>, f: File, e: ProviderEvent, eventRow: Id, now: Time,
                          kind: ReconciliationKind)
    requires FileOk(cfg, decisions, f.intent.id, f)
    requires f.intent.providerReference.Some? && f.intent.status !in {ProviderPending, Expired}
    requires ExternallyMoved(e.status)
    ensures HandleDiscrepancy(f, e, eventRow, now, kind).Ok?
    ensures Good(cfg, decisions, f.intent, HandleDiscrepancy(f, e, eventRow, now, kind).value, e, eventRow, now)
  {
    if f.intent.status !in {Confirmed, Failed, CreationFailed, ReconciliationRequired} {
      MoveKeepsFile(cfg, decisions, f, DiscrepancyChange(e, eventRow));
    }
  }

  lemma AppliedIsGood(cfg: Config, decisions: map<Id, Decision>, f: File, e: ProviderEvent, eventRow: Id, now: Time)
    requires FileOk(cfg, decisions, f.intent.id, f)
    requires f.intent.providerReference.Some? && f.intent.status != ProviderPending && now < f.intent.expiresAt
    requires !IsStale(e.occurredAt, f.intent.createdAt, f.intent.lastEventAt, f.intent.status, TargetStatus(e.status))
    requires ExternallyMoved(e.status) ==> Discrepancy(cfg, f.intent, e).None?
    ensures HandleApplied(cfg, f, e, eventRow, now).Ok?
    ensures Good(cfg, decisions, f.intent, HandleApplied(cfg, f, e, eventRow, now).value, e, eventRow, now)
  {
    MoveKeepsFile(cfg, decisions, f, AppliedChange(e, eventRow, now));
    if TargetStatus(e.status) == Confirmed { NoDiscrepancyIsExact(cfg, f.intent, e); }
  }

  /** Handling an event of an intent that has a reference raises no error, whatever the event says. */
  lemma HandleIsGood(cfg: Config, decisions: map<Id, Decision>, f: File, e: ProviderEvent, eventRow: Id, now: Time)
    requires FileOk(cfg, decisions, f.intent.id, f) && f.intent.providerReference.Some?
    ensures Handle(cfg, f, e, eventRow, now).Ok?
    ensures Good(cfg, decisions, f.intent, Handle(cfg, f, e, eventRow, now).value, e, eventRow, now)
  {
    hide LogReplays, Funded, Justified, Discrepancy, HandleLate, HandleDiscrepancy, HandleApplied;
    var it := f.intent;
    if ClaimsOther(it, e) {
    } else if it.status == Expired || (it.expiresAt <= now && it.status != Confirmed) {
      LateIsGood(cfg, decisions, f, e, eventRow, now);
    } else if ExternallyMoved(e.status) && it.status in {Failed, CreationFailed} {
    } else if ExternallyMoved(e.status) && Discrepancy(cfg, it, e).Some? {
      DiscrepancyIsGood(cfg, decisions, f, e, eventRow, now, Discrepancy(cfg, it, e).value);
    } else if !IsStale(e.occurredAt, it.createdAt, it.lastEventAt, it.status, TargetStatus(e.status)) {
      AppliedIsGood(cfg, decisions, f, e, eventRow, now);
    }
  }

  /** The same, seen from the rows before the event itself activated the session. */
  lemma GoodThroughRecovery(cfg: Config, decisions: map<Id, Decision>, a: Intent, f: File, h: Handled, e: ProviderEvent,
                            eventRow: Id, now: Time)
    requires Good(cfg, decisions, f.intent, h, e, eventRow, now)
    requires Evolves(a, f.intent) && a.status == ProviderPending && f.intent.status == AwaitingPayment
    requires a.lastEventAt == f.intent.lastEventAt
    ensures Good(cfg, decisions, a, h, e, eventRow, now)
  {
    EvolvesTransitive(a, f.intent, h.file.intent);
  }
}
