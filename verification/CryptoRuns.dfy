/** Runs: any interleaving of create calls, provider callbacks and expiry sweeps, and the theorems
    that hold of every one of them. */
module CryptoRuns {
  import opened Wrappers
  import opened CryptoDomain
  import opened CryptoProtocol
  import opened CryptoInvariants
  import opened CryptoHandling
  import opened CryptoTables
  import opened CryptoTransactions
  import opened CryptoHistory
  import CryptoAmount
  import EligibilityPolicy

  // ---- create calls in flight ----

  /** Where a create call is: validated, waiting for the provider with the intent it read, or done. */
  datatype Call =
    | Prepared(a: Accepted)
    | Waiting(a: Accepted, intentId: Id)
    | Returned(a: Accepted, result: Intent)
    | Refused

  datatype ProviderOutcome = SessionCreated(reference: string, url: Option<string>) | Unavailable | Permanent

  datatype World = World(db: Db, calls: map<Id, Call>)

  datatype Step =
    | Decide(call: Id, decisionId: Id, request: Request, snapshot: EligibilityPolicy.Snapshot, now: Time)
    | Begin(call: Id, intentId: Id, now: Time)
    | Respond(call: Id, outcome: ProviderOutcome, now: Time)
    | Deliver(event: ProviderEvent, now: Time)
    | Expire(ids: seq<Id>, limit: nat, now: Time)

  /** Evaluate eligibility and validate the request; the decision is stored either way. */
  function DecideCall(cfg: Config, w: World, s: Step): World
    requires s.Decide?
  {
    if s.call in w.calls || s.decisionId in w.db.decisions then w
    else
      var d := Evaluated(s.request, s.snapshot, s.now);
      var amount := ValidAmount(cfg, s.request.asset, s.request.amount);
      var call := if d.allowed && amount.Some?
                  then Prepared(Accepted(s.request.playerId, s.request.key, s.request.asset, amount.value,
                                         s.decisionId))
                  else Refused;
      World(w.db.(decisions := w.db.decisions[s.decisionId := d]), w.calls[s.call := call])
  }

  /** What a call does with the intent it found or created. */
  function AfterPrepare(a: Accepted, it: Intent): Call {
    if it.requestHash != RequestHash(a.asset, a.canonical) then Refused
    else if it.status == CreationFailed then Refused
    else if it.status != ProviderPending then Returned(a, it)
    else Waiting(a, it.id)
  }

  ghost function BeginCall(cfg: Config, w: World, s: Step): World
    requires s.Begin?
  {
    if s.call !in w.calls || !w.calls[s.call].Prepared? || w.calls[s.call].a.decisionId !in w.db.decisions then w
    else
      var a := w.calls[s.call].a;
      var (db, r) := Prepare(cfg, w.db, a, w.db.decisions[a.decisionId], s.intentId, s.now);
      World(db,
            w.calls[s.call := if r.Ok? && r.value in db.intents then AfterPrepare(a, db.intents[r.value]) else Refused])
  }

  ghost function RespondCall(w: World, s: Step): World
    requires s.Respond?
  {
    if s.call !in w.calls || !w.calls[s.call].Waiting? then w
    else
      var a, i := w.calls[s.call].a, w.calls[s.call].intentId;
      match s.outcome
      case Unavailable => w.(calls := w.calls[s.call := Refused])
      case SessionCreated(reference, url) =>
        var (db, r) := Activate(w.db, i, reference, url);
        World(db, w.calls[s.call := if r.Ok? then Returned(a, r.value) else Refused])
      case Permanent =>
        var (db, r) := MarkCreationFailed(w.db, i, s.now);
        World(db,
              w.calls[s.call := if r.Ok? && r.value.status != CreationFailed then Returned(a, r.value) else Refused])
  }

  ghost function Next(cfg: Config, w: World, s: Step): World {
    match s
    case Decide(_, _, _, _, _) => DecideCall(cfg, w, s)
    case Begin(_, _, _) => BeginCall(cfg, w, s)
    case Respond(_, _, _) => RespondCall(w, s)
    case Deliver(e, now) => w.(db := Callback(cfg, w.db, e, now).0)
    case Expire(ids, limit, now) =>
      if DueBatch(w.db, now, limit, ids) && Sweep(w.db, ids, now).Ok? then w.(db := Sweep(w.db, ids, now).value) else w
  }

  ghost function Run(cfg: Config, w: World, steps: seq<Step>): World {
    if steps == [] then w else Next(cfg, Run(cfg, w, steps[..|steps| - 1]), steps[|steps| - 1])
  }

  const START := World(Db(map[], map[], map[], [], [], [], [], map[]), map[])

  // ---- the invariant of a world ----

  /** The stored intent a call refers to carries what the call asked for. */
  ghost predicate Carries(db: Db, i: Id, a: Accepted) {
    && HoldsKey(db, i, a.playerId, a.key)
    && db.intents[i].asset == a.asset && db.intents[i].requestedAmount == a.canonical
  }

  ghost predicate CallOk(cfg: Config, db: Db, c: Call) {
    match c
    case Prepared(a) => AcceptedOk(cfg, db.decisions, a)
    case Waiting(a, i) => Carries(db, i, a)
    case Returned(a, it) => Carries(db, it.id, a) && Evolves(it, db.intents[it.id])
    case Refused => true
  }

  ghost predicate CallsOk(cfg: Config, w: World) {
    forall c :: c in w.calls ==> CallOk(cfg, w.db, w.calls[c])
  }

  ghost predicate Sound(cfg: Config, w: World) { Inv(cfg, w.db) && CallsOk(cfg, w) }

  lemma CallFollows(cfg: Config, a: Db, b: Db, c: Call)
    requires Extends(a, b) && CallOk(cfg, a, c)
    ensures CallOk(cfg, b, c)
  {
    if c.Returned? { EvolvesTransitive(c.result, a.intents[c.result.id], b.intents[c.result.id]); }
    if c.Waiting? { assert Evolves(a.intents[c.intentId], b.intents[c.intentId]); }
  }

  lemma CallsFollow(cfg: Config, w: World, w': World, call: Id)
    requires CallsOk(cfg, w) && Extends(w.db, w'.db)
    requires forall c :: c in w'.calls && c != call ==> c in w.calls && w'.calls[c] == w.calls[c]
    requires call in w'.calls ==> CallOk(cfg, w'.db, w'.calls[call])
    ensures CallsOk(cfg, w')
  {
    hide CallOk, Extends;
    forall c | c in w'.calls ensures CallOk(cfg, w'.db, w'.calls[c]) {
      if c != call { CallFollows(cfg, w.db, w'.db, w.calls[c]); }
    }
  }

  // ---- each step ----

  lemma DecisionKeepsInv(cfg: Config, db: Db, id: Id, d: Decision)
    requires Inv(cfg, db) && id !in db.decisions
    ensures Inv(cfg, db.(decisions := db.decisions[id := d])) && Extends(db, db.(decisions := db.decisions[id := d]))
  {
    hide SessionAgrees, ShapeOk, LogReplays, Funded, ReferencesUnique, KeysUnique, Attested, Corresponds,
      RecordsTerminal, RecordsCounted, RowOk;
    var db' := db.(decisions := db.decisions[id := d]);
    forall i | i in db'.intents ensures FileOk(cfg, db'.decisions, i, FileOf(db', i)) {
      assert FileOk(cfg, db.decisions, i, FileOf(db, i)) && FileOf(db', i) == FileOf(db, i);
    }
    EventsFollow(db, db');
    AttestedFollows(cfg, db, db');
    CorrespondsFollows(cfg, db, db');
    RecordsFollow(db, db');
    CountedFollows(db, db');
  }

  lemma DecideKeeps(cfg: Config, w: World, s: Step)
    requires Sound(cfg, w) && s.Decide?
    ensures Sound(cfg, Next(cfg, w, s)) && Extends(w.db, Next(cfg, w, s).db)
  {
    hide Inv, Extends, CallsOk;
    ExtendsReflexive(w.db);
    if s.call !in w.calls && s.decisionId !in w.db.decisions {
      var w' := Next(cfg, w, s);
      DecisionKeepsInv(cfg, w.db, s.decisionId, Evaluated(s.request, s.snapshot, s.now));
      EligibilityPolicy.DepositAllowedIff(s.snapshot);
      AcceptedIsOk(cfg, w.db.decisions, s);
      CallsFollow(cfg, w, w', s.call);
    }
  }

  lemma AcceptedIsOk(cfg: Config, decisions: map<Id, Decision>, s: Step)
    requires s.Decide?
    ensures var d := Evaluated(s.request, s.snapshot, s.now);
            var amount := ValidAmount(cfg, s.request.asset, s.request.amount);
            d.allowed && amount.Some? ==>
              AcceptedOk(cfg, decisions[s.decisionId := d],
                         Accepted(s.request.playerId, s.request.key, s.request.asset, amount.value, s.decisionId))
  {
    hide WithinBounds;
    EligibilityPolicy.DepositAllowedIff(s.snapshot);
    ValidAmountIff(cfg, s.request.asset, s.request.amount);
  }

  /** An amount is valid exactly when it lies within the bounds, and its canonical text then does too. */
  lemma ValidAmountIff(cfg: Config, asset: string, amount: string)
    ensures ValidAmount(cfg, asset, amount).Some? <==> WithinBounds(cfg, asset, amount)
    ensures ValidAmount(cfg, asset, amount).Some? ==>
              var canonical := ValidAmount(cfg, asset, amount).value;
              var p := CryptoAmount.Parse(amount, cfg.policies[asset].decimals);
              && WithinBounds(cfg, asset, canonical) && canonical == p.value.canonical
              && CryptoAmount.Parse(canonical, cfg.policies[asset].decimals) == p
  {
    hide CryptoAmount.Parse, CryptoAmount.Compare, CryptoAmount.Rational;
    if asset in cfg.policies {
      var policy := cfg.policies[asset];
      var p := CryptoAmount.Parse(amount, policy.decimals);
      var low, high := CryptoAmount.Parse(policy.minimum, policy.decimals),
                       CryptoAmount.Parse(policy.maximum, policy.decimals);
      if p.Some? {
        CryptoAmount.ReparseIsStable(amount, policy.decimals);
        if low.Some? && high.Some? {
          CryptoAmount.CompareIsRationalOrder(p.value, low.value);
          CryptoAmount.CompareIsRationalOrder(p.value, high.value);
        }
      }
    }
  }

  lemma PreparedCarries(cfg: Config, db: Db, a: Accepted, id: Id, now: Time)
    requires Inv(cfg, db) && AcceptedOk(cfg, db.decisions, a)
    ensures var (db', r) := Prepare(cfg, db, a, db.decisions[a.decisionId], id, now);
            r.Ok? ==>
              r.value in db'.intents && db'.intents[r.value].id == r.value && HoldsKey(db', r.value, a.playerId, a.key)
                      && (db'.intents[r.value].requestHash == RequestHash(a.asset, a.canonical) ==>
                            Carries(db', r.value, a))
  {
    hide SessionAgrees, ShapeOk, LogReplays, WithinBounds, Justified, ReferencesUnique, KeysUnique, EventsOk, Attested,
      Corresponds, RecordsTerminal, RecordsCounted;
    var existing := FindByKey(db, a.playerId, a.key);
    if existing.Some? { StoredId(cfg, db, existing.value); }
  }

  lemma BeginKeeps(cfg: Config, w: World, s: Step)
    requires Sound(cfg, w) && s.Begin?
    ensures Sound(cfg, Next(cfg, w, s)) && Extends(w.db, Next(cfg, w, s).db)
  {
    hide Extends, CallsOk, Filed, FileOk, ReferencesUnique, KeysUnique, EventsOk, Attested, Corresponds,
      RecordsTerminal, RecordsCounted, Prepare, AcceptedOk, Evolves;
    ExtendsReflexive(w.db);
    if s.call in w.calls && w.calls[s.call].Prepared? && w.calls[s.call].a.decisionId in w.db.decisions {
      var a := w.calls[s.call].a;
      assert AcceptedOk(cfg, w.db.decisions, a) by { PreparedIsOk(cfg, w, s.call); }
      PrepareKeepsInv(cfg, w.db, a, s.intentId, s.now);
      PrepareExtends(cfg, w.db, a, w.db.decisions[a.decisionId], s.intentId, s.now);
      PreparedCarries(cfg, w.db, a, s.intentId, s.now);
      var w' := Next(cfg, w, s);
      if w'.calls[s.call].Returned? { ReflexiveEvolves(w'.calls[s.call].result); }
      CallsFollow(cfg, w, w', s.call);
    }
  }

  lemma PreparedIsOk(cfg: Config, w: World, call: Id)
    requires CallsOk(cfg, w) && call in w.calls
    ensures CallOk(cfg, w.db, w.calls[call])
  {
  }

  lemma RespondKeeps(cfg: Config, w: World, s: Step)
    requires Sound(cfg, w) && s.Respond?
    ensures Sound(cfg, Next(cfg, w, s)) && Extends(w.db, Next(cfg, w, s).db)
  {
    hide Extends, CallsOk, Inv, Activate, MarkCreationFailed, Evolves;
    ExtendsReflexive(w.db);
    if s.call in w.calls && w.calls[s.call].Waiting? {
      var a, i := w.calls[s.call].a, w.calls[s.call].intentId;
      PreparedIsOk(cfg, w, s.call);
      var w' := Next(cfg, w, s);
      match s.outcome {
        case Unavailable =>
        case SessionCreated(reference, url) =>
          ActivateKeepsInv(cfg, w.db, i, reference, url);
          ActivateExtends(cfg, w.db, i, reference, url);
          ActivateReturns(cfg, w.db, i, reference, url, a);
        case Permanent =>
          MarkKeepsInv(cfg, w.db, i, s.now);
          MarkExtends(cfg, w.db, i, s.now);
          MarkReturns(cfg, w.db, i, s.now, a);
      }
      CallsFollow(cfg, w, w', s.call);
    }
  }

  lemma ActivateReturns(cfg: Config, db: Db, i: Id, reference: string, url: Option<string>, a: Accepted)
    requires Inv(cfg, db) && Carries(db, i, a)
    ensures var (db', r) := Activate(db, i, reference, url);
            r.Ok? ==> CallOk(cfg, db', Returned(a, r.value))
  {
    hide Filed, FileOk, ReferencesUnique, KeysUnique, EventsOk, Attested, Corresponds, RecordsTerminal, RecordsCounted,
      ReferenceFree;
    StoredId(cfg, db, i);
    var (db', r) := Activate(db, i, reference, url);
    if r.Ok? { assert db'.intents[i] == r.value && r.value.id == i; }
  }

  lemma MarkReturns(cfg: Config, db: Db, i: Id, now: Time, a: Accepted)
    requires Inv(cfg, db) && Carries(db, i, a)
    ensures var (db', r) := MarkCreationFailed(db, i, now);
            r.Ok? ==> CallOk(cfg, db', Returned(a, r.value))
  {
    hide Filed, FileOk, ReferencesUnique, KeysUnique, EventsOk, Attested, Corresponds, RecordsTerminal, RecordsCounted;
    StoredId(cfg, db, i);
    var (db', r) := MarkCreationFailed(db, i, now);
    if r.Ok? { assert db'.intents[i] == r.value && r.value.id == i; }
  }

  lemma DeliverKeeps(cfg: Config, w: World, e: ProviderEvent, now: Time)
    requires Sound(cfg, w)
    ensures var db' := Callback(cfg, w.db, e, now).0;
            Sound(cfg, w.(db := db')) && Extends(w.db, db')
  {
    hide Inv, Extends, CallsOk, Callback;
    var db' := Callback(cfg, w.db, e, now).0;
    CallbackKeepsInv(cfg, w.db, e, now);
    assert Filed(cfg, w.db) by { InvFiled(cfg, w.db); }
    CallbackExtends(cfg, w.db, e, now);
    AllFollow(cfg, w, db');
  }

  lemma InvFiled(cfg: Config, db: Db)
    requires Inv(cfg, db)
    ensures Filed(cfg, db)
  {
  }

  lemma AllFollow(cfg: Config, w: World, db': Db)
    requires CallsOk(cfg, w) && Extends(w.db, db')
    ensures CallsOk(cfg, w.(db := db'))
  {
    hide CallOk, Extends;
    forall c | c in w.calls ensures CallOk(cfg, db', w.calls[c]) { CallFollows(cfg, w.db, db', w.calls[c]); }
  }

  lemma ExpireKeeps(cfg: Config, w: World, ids: seq<Id>, limit: nat, now: Time)
    requires Sound(cfg, w)
    ensures Sound(cfg, Next(cfg, w, Expire(ids, limit, now))) && Extends(w.db, Next(cfg, w, Expire(ids, limit, now)).db)
    ensures DueBatch(w.db, now, limit, ids) ==> Sweep(w.db, ids, now).Ok?
  {
    hide Inv, Extends, CallsOk, Sweep;
    ExtendsReflexive(w.db);
    if DueBatch(w.db, now, limit, ids) {
      SweepKeepsInv(cfg, w.db, ids, now);
      SweepExtends(cfg, w.db, ids, now);
      AllFollow(cfg, w, Sweep(w.db, ids, now).value);
    }
  }

  lemma NextKeeps(cfg: Config, w: World, s: Step)
    requires Sound(cfg, w)
    ensures Sound(cfg, Next(cfg, w, s)) && Extends(w.db, Next(cfg, w, s).db)
  {
    hide Sound, Extends, DecideCall, BeginCall, RespondCall, Callback, Sweep, DueBatch;
    match s
    case Decide(_, _, _, _, _) => DecideKeeps(cfg, w, s);
    case Begin(_, _, _) => BeginKeeps(cfg, w, s);
    case Respond(_, _, _) => RespondKeeps(cfg, w, s);
    case Deliver(e, now) => DeliverKeeps(cfg, w, e, now);
    case Expire(ids, limit, now) => ExpireKeeps(cfg, w, ids, limit, now);
  }

  // ---- whole runs ----

  /** Every run keeps the invariant, and nothing it has stored is ever taken back. */
  lemma {:induction false} RunKeeps(cfg: Config, w: World, steps: seq<Step>)
    requires Sound(cfg, w)
    ensures Sound(cfg, Run(cfg, w, steps)) && Extends(w.db, Run(cfg, w, steps).db)
  {
    hide Sound, Extends, Next;
    if steps == [] {
      ExtendsReflexive(w.db);
    } else {
      var before := Run(cfg, w, steps[..|steps| - 1]);
      RunKeeps(cfg, w, steps[..|steps| - 1]);
      NextKeeps(cfg, before, steps[|steps| - 1]);
      ExtendsTransitive(w.db, before.db, Run(cfg, w, steps).db);
    }
  }

  lemma StartIsSound(cfg: Config)
    ensures Sound(cfg, START)
  {
  }
}
