/** Every write of a funding transaction keeps the invariant of the tables. */
module CryptoTables {
  import opened Wrappers
  import opened CryptoDomain
  import opened CryptoProtocol
  import opened CryptoInvariants

  // ---- tables that did not change follow an evolving intent ----

  /** The intents after a write: the old ones evolved, and one of them replaced. */
  ghost predicate Advances(before: map<Id, Intent>, after: map<Id, Intent>) {
    forall i :: i in before ==> i in after && Evolves(before[i], after[i])
  }

  ghost predicate NoNewConfirmed(before: map<Id, Intent>, after: map<Id, Intent>) {
    forall i :: i in after && after[i].status == Confirmed ==> i in before && before[i].status == Confirmed
  }

  lemma PutAdvances(db: Db, i: Id, f: File)
    requires i in db.intents ==> Evolves(db.intents[i], f.intent)
    ensures Advances(db.intents, Put(db, i, f).intents)
  {
    forall j | j in db.intents ensures j in Put(db, i, f).intents && Evolves(db.intents[j], Put(db, i, f).intents[j]) {
      if j != i { assert Put(db, i, f).intents[j] == db.intents[j]; }
    }
  }

  lemma RowFollows(before: map<Id, Intent>, after: map<Id, Intent>, row: EventRow)
    requires Advances(before, after) && RowOk(before, row)
    ensures RowOk(after, row)
  {
    if row.intentId.Some? { assert Evolves(before[row.intentId.value], after[row.intentId.value]); }
  }

  lemma EventsFollow(db: Db, db': Db)
    requires EventsOk(db) && db'.events == db.events && Advances(db.intents, db'.intents)
    ensures EventsOk(db')
  {
    forall k | 0 <= k < |db'.events| ensures RowOk(db'.intents, db'.events[k]) {
      RowFollows(db.intents, db'.intents, db.events[k]);
    }
  }

  lemma AttestationFollows(a: Attestation, before: Intent, after: Intent)
    requires MatchesIntent(a, before) && Evolves(before, after)
    ensures MatchesIntent(a, after)
  {
  }

  lemma CorrespondsFollows(cfg: Config, db: Db, db': Db)
    requires Corresponds(cfg, db)
    requires db'.events == db.events && db'.attestations == db.attestations && db'.evidence == db.evidence
    ensures Corresponds(cfg, db')
  {
  }

  lemma CountedFollows(db: Db, db': Db)
    requires RecordsCounted(db) && db'.events == db.events && db'.reconciliations == db.reconciliations
    ensures RecordsCounted(db')
  {
  }

  lemma AttestedFollows(cfg: Config, db: Db, db': Db)
    requires Attested(cfg, db) && db'.attestations == db.attestations
    requires Advances(db.intents, db'.intents) && NoNewConfirmed(db.intents, db'.intents)
    ensures Attested(cfg, db')
  {
    forall k | 0 <= k < |db'.attestations|
      ensures db'.attestations[k].intentId in db'.intents
      ensures MatchesIntent(db'.attestations[k], db'.intents[db'.attestations[k].intentId])
    {
      var i := db.attestations[k].intentId;
      AttestationFollows(db.attestations[k], db.intents[i], db'.intents[i]);
    }
  }

  lemma RecordsFollow(db: Db, db': Db)
    requires RecordsTerminal(db) && db'.reconciliations == db.reconciliations && Advances(db.intents, db'.intents)
    ensures RecordsTerminal(db')
  {
    forall k | 0 <= k < |db'.reconciliations| && db'.reconciliations[k].intentId.Some?
      ensures db'.reconciliations[k].intentId.value in db'.intents
      ensures IsTerminal(db'.intents[db'.reconciliations[k].intentId.value].status)
    {
      var i := db.reconciliations[k].intentId.value;
      assert Evolves(db.intents[i], db'.intents[i]);
    }
  }

  // ---- writing one intent's rows ----

  lemma FileAfterPut(db: Db, i: Id, f: File, j: Id)
    requires HasFile(db, j) || j == i
    ensures HasFile(Put(db, i, f), j) && FileOf(Put(db, i, f), j) == if j == i then f else FileOf(db, j)
  {
  }

  lemma PutKeepsFiled(cfg: Config, db: Db, i: Id, f: File)
    requires Filed(cfg, db) && FileOk(cfg, db.decisions, i, f)
    ensures Filed(cfg, Put(db, i, f))
  {
    hide FileOk;
    forall j | j in Put(db, i, f).intents ensures FileOk(cfg, db.decisions, j, FileOf(Put(db, i, f), j)) {
      FileAfterPut(db, i, f, j);
    }
  }

  lemma PutKeepsReferences(db: Db, i: Id, it: Intent)
    requires ReferencesUnique(db.intents)
    requires it.providerReference.Some? ==>
               forall j :: j in db.intents && j != i && db.intents[j].provider == it.provider
                           ==> db.intents[j].providerReference != it.providerReference
    ensures ReferencesUnique(db.intents[i := it])
  {
  }

  lemma PutKeepsKeys(db: Db, i: Id, it: Intent)
    requires KeysUnique(db.intents)
    requires forall j :: j in db.intents && j != i && db.intents[j].playerId == it.playerId
                         ==> db.intents[j].idempotencyKey != it.idempotencyKey
    ensures KeysUnique(db.intents[i := it])
  {
  }

  /** References and keys survive when the intent already held them. */
  lemma PutKeepsUnique(db: Db, i: Id, it: Intent)
    requires ReferencesUnique(db.intents) && KeysUnique(db.intents)
    requires i in db.intents && Evolves(db.intents[i], it)
    requires it.providerReference.Some? ==>
               || it.providerReference == db.intents[i].providerReference
               || ReferenceFree(db, i, it.providerReference.value)
    ensures ReferencesUnique(db.intents[i := it]) && KeysUnique(db.intents[i := it])
  {
    PutKeepsReferences(db, i, it);
    PutKeepsKeys(db, i, it);
  }

  /** A write to one intent's rows that adds nothing to the shared tables. */
  lemma PutKeepsInv(cfg: Config, db: Db, i: Id, f: File)
    requires Inv(cfg, db) && i in db.intents
    requires FileOk(cfg, db.decisions, i, f) && Evolves(db.intents[i], f.intent)
    requires f.intent.status == Confirmed ==> db.intents[i].status == Confirmed
    requires f.intent.providerReference.Some? ==>
               || f.intent.providerReference == db.intents[i].providerReference
               || ReferenceFree(db, i, f.intent.providerReference.value)
    ensures Inv(cfg, Put(db, i, f))
  {
    hide FileOk, RowOk, ReferencesUnique, KeysUnique, EventsOk, Attested, Corresponds, RecordsTerminal, RecordsCounted,
      Evolves;
    PutKeepsFiled(cfg, db, i, f);
    PutKeepsUnique(db, i, f.intent);
    PutAdvances(db, i, f);
    EventsFollow(db, Put(db, i, f));
    AttestedFollows(cfg, db, Put(db, i, f));
    CorrespondsFollows(cfg, db, Put(db, i, f));
    RecordsFollow(db, Put(db, i, f));
    CountedFollows(db, Put(db, i, f));
  }

  // ---- counting records ----

  lemma {:induction false} NoRecordsBeyond(recs: seq<Reconciliation>, row: Id)
    requires forall k :: 0 <= k < |recs| ==> recs[k].eventRow != Some(row)
    ensures RecordsOf(recs, row) == 0
  {
    if recs != [] { NoRecordsBeyond(recs[..|recs| - 1], row); }
  }

  lemma RecordsAppend(recs: seq<Reconciliation>, r: Reconciliation, row: Id)
    ensures RecordsOf(recs + [r], row) == RecordsOf(recs, row) + if r.eventRow == Some(row) then 1 else 0
  {
    assert (recs + [r])[..|recs|] == recs;
  }

  lemma CountedAppend(db: Db, db': Db, row: EventRow, rec: Option<Reconciliation>)
    requires RecordsCounted(db)
    requires db'.events == db.events + [row]
    requires db'.reconciliations == db.reconciliations + if rec.Some? then [rec.value] else []
    requires rec.Some? <==> NeedsRecord(row)
    requires rec.Some? ==> rec.value.eventRow == Some(|db.events|)
    ensures RecordsCounted(db')
  {
    var n := |db.events|;
    forall k: nat | k < |db'.events|
      ensures RecordsOf(db'.reconciliations, k) == if NeedsRecord(db'.events[k]) then 1 else 0
    {
      if rec.Some? {
        RecordsAppend(db.reconciliations, rec.value, k);
      } else {
        assert db'.reconciliations == db.reconciliations;
      }
      if k == n { NoRecordsBeyond(db.reconciliations, n); }
    }
  }

  lemma CountedWithoutEvent(db: Db, db': Db, r: Reconciliation)
    requires RecordsCounted(db) && r.eventRow.None?
    requires db'.events == db.events && db'.reconciliations == db.reconciliations + [r]
    ensures RecordsCounted(db')
  {
    forall k: nat | k < |db'.events|
      ensures RecordsOf(db'.reconciliations, k) == if NeedsRecord(db'.events[k]) then 1 else 0
    {
      RecordsAppend(db.reconciliations, r, k);
    }
  }

  // ---- storing an event ----

  lemma ConfirmationsAppend(events: seq<EventRow>, row: EventRow)
    ensures Confirmations(events + [row]) == Confirmations(events) + if IsConfirmation(row) then [|events|] else []
  {
    assert (events + [row])[..|events|] == events;
  }

  lemma CorrespondsAppend(cfg: Config, db: Db, db': Db, row: EventRow, att: Option<Attestation>)
    requires Corresponds(cfg, db)
    requires db'.events == db.events + [row]
    requires db'.attestations == db.attestations + if att.Some? then [att.value] else []
    requires db'.evidence == db.evidence + if att.Some? then [ConfirmedEvidence(|db.attestations|, att.value)] else []
    requires att.Some? <==> IsConfirmation(row)
    requires att.Some? ==> MatchesEvent(cfg, att.value, row) && att.value.confirmationEvent == |db.events|
    ensures Corresponds(cfg, db')
  {
    ConfirmationsAppend(db.events, row);
    forall k | 0 <= k < |db'.attestations|
      ensures db'.evidence[k] == ConfirmedEvidence(k, db'.attestations[k])
      ensures db'.attestations[k].confirmationEvent == Confirmations(db'.events)[k]
      ensures MatchesEvent(cfg, db'.attestations[k], db'.events[Confirmations(db'.events)[k]])
    {
      if k < |db.attestations| {
        assert Confirmations(db'.events)[k] == Confirmations(db.events)[k];
        assert db'.events[Confirmations(db.events)[k]] == db.events[Confirmations(db.events)[k]];
      }
    }
  }

  /** A new event row: of a new identity, and if processed, newer than the intent it belongs to. */
  lemma EventsAppend(db: Db, db': Db, row: EventRow)
    requires EventsOk(db) && Advances(db.intents, db'.intents) && db'.events == db.events + [row]
    requires FindEvent(db.events, row.event).None?
    requires RowOk(db'.intents, row)
    requires row.processing == Processed ==>
               row.intentId.value in db.intents && Newer(db.intents[row.intentId.value], row.event)
    ensures EventsOk(db')
  {
    forall k | 0 <= k < |db'.events| ensures RowOk(db'.intents, db'.events[k]) {
      if k < |db.events| { RowFollows(db.intents, db'.intents, db.events[k]); }
    }
    forall j, k | 0 <= j < k < |db'.events| && BothProcessed(db'.events[j], db'.events[k])
      ensures Before(db'.events[j].event, db'.events[k].event)
    {
      if k < |db.events| { assert Before(db.events[j].event, db.events[k].event); }
      else { assert RowOk(db.intents, db.events[j]); }
    }
  }

  lemma AttestedAppend(cfg: Config, db: Db, db': Db, i: Id, a: Attestation)
    requires Attested(cfg, db) && i in db.intents && db.intents[i].status != Confirmed
    requires Advances(db.intents, db'.intents) && i in db'.intents
    requires NoNewConfirmed(db.intents, db'.intents - {i})
    requires db'.attestations == db.attestations + [a] && a.intentId == i && MatchesIntent(a, db'.intents[i])
    ensures Attested(cfg, db')
  {
    forall k | 0 <= k < |db'.attestations|
      ensures db'.attestations[k].intentId in db'.intents
      ensures MatchesIntent(db'.attestations[k], db'.intents[db'.attestations[k].intentId])
    {
      if k < |db.attestations| {
        var j := db.attestations[k].intentId;
        AttestationFollows(db.attestations[k], db.intents[j], db'.intents[j]);
      }
    }
    forall j | j in db'.intents && db'.intents[j].status == Confirmed ensures HasAttestation(db'.attestations, j) {
      if j == i {
        assert db'.attestations[|db.attestations|].intentId == i;
      } else {
        assert j in db'.intents - {i} && (db'.intents - {i})[j] == db'.intents[j];
        var k :| 0 <= k < |db.attestations| && db.attestations[k].intentId == j;
        assert db'.attestations[k].intentId == j;
      }
    }
  }

  // ---- committing a handled event ----

  /** An intent that is not confirmed has no attestation yet. */
  lemma NotYetAttested(cfg: Config, db: Db, i: Id)
    requires Attested(cfg, db) && i in db.intents && db.intents[i].status != Confirmed
    ensures forall k :: 0 <= k < |db.attestations| ==> db.attestations[k].intentId != i
  {
    forall k | 0 <= k < |db.attestations| ensures db.attestations[k].intentId != i {
      assert MatchesIntent(db.attestations[k], db.intents[db.attestations[k].intentId]);
    }
  }

  /** The tables with everything a handled event writes simply appended. */
  function Appended(db: Db, i: Id, h: Handled): Db {
    Put(db, i, h.file).(
      events := db.events + [h.row],
      reconciliations := db.reconciliations + (if h.rec.Some? then [h.rec.value] else []),
      attestations := db.attestations + (if h.att.Some? then [h.att.value] else []),
      evidence := db.evidence + (if h.att.Some? then [ConfirmedEvidence(|db.attestations|, h.att.value)] else []))
  }

  lemma GoodIds(cfg: Config, db: Db, i: Id, h: Handled, e: ProviderEvent, now: Time)
    requires Filed(cfg, db) && i in db.intents && Good(cfg, db.decisions, db.intents[i], h, e, |db.events|, now)
    ensures db.intents[i].id == i && h.file.intent.id == i && FileOk(cfg, db.decisions, i, h.file)
    ensures h.att.Some? ==> h.att.value.intentId == i
  {
    assert FileOk(cfg, db.decisions, i, FileOf(db, i));
  }

  /** Under the invariant neither conflict-ignore branch is taken: every insert happens. */
  lemma CommitInserts(cfg: Config, db: Db, i: Id, h: Handled, e: ProviderEvent, now: Time)
    requires Inv(cfg, db) && i in db.intents && Good(cfg, db.decisions, db.intents[i], h, e, |db.events|, now)
    ensures Commit(db, i, h) == Appended(db, i, h)
  {
    hide FileOk, RowOk, ReferencesUnique, KeysUnique, EventsOk, Attested, Corresponds, RecordsTerminal, Evolves,
      GoodRow, MatchesIntent, MatchesEvent;
    GoodIds(cfg, db, i, h, e, now);
    if h.att.Some? { NotYetAttested(cfg, db, i); }
    assert h.rec.Some? ==>
             forall k :: 0 <= k < |db.reconciliations| ==> db.reconciliations[k].eventRow != h.rec.value.eventRow;
  }

  lemma FiledIgnoresShared(cfg: Config, db: Db, db': Db)
    requires Filed(cfg, db)
    requires db'.intents == db.intents && db'.sessions == db.sessions && db'.log == db.log
    requires db'.decisions == db.decisions
    ensures Filed(cfg, db')
  {
    hide FileOk;
    forall i | i in db'.intents ensures FileOk(cfg, db'.decisions, i, FileOf(db', i)) {
      assert FileOf(db', i) == FileOf(db, i);
    }
  }

  lemma AppendedKeepsFiled(cfg: Config, db: Db, i: Id, h: Handled)
    requires Filed(cfg, db) && FileOk(cfg, db.decisions, i, h.file)
    ensures Filed(cfg, Appended(db, i, h))
  {
    hide Filed, FileOk;
    PutKeepsFiled(cfg, db, i, h.file);
    FiledIgnoresShared(cfg, Put(db, i, h.file), Appended(db, i, h));
  }

  lemma AppendedKeepsEvents(cfg: Config, db: Db, i: Id, h: Handled, e: ProviderEvent, now: Time)
    requires EventsOk(db) && i in db.intents && Good(cfg, db.decisions, db.intents[i], h, e, |db.events|, now)
    requires db.intents[i].id == i && FindEvent(db.events, e).None?
    ensures EventsOk(Appended(db, i, h))
  {
    hide EventsOk, Evolves, FileOk, GoodAttestation, GoodRecord;
    PutAdvances(db, i, h.file);
    EventsAppend(db, Appended(db, i, h), h.row);
  }

  lemma AppendedKeepsAttested(cfg: Config, db: Db, i: Id, h: Handled, e: ProviderEvent, now: Time)
    requires Attested(cfg, db) && i in db.intents && Good(cfg, db.decisions, db.intents[i], h, e, |db.events|, now)
    requires h.att.Some? ==> h.att.value.intentId == i
    ensures Attested(cfg, Appended(db, i, h))
  {
    hide Attested, FileOk, GoodRow, GoodRecord, MatchesEvent, MatchesIntent;
    PutAdvances(db, i, h.file);
    var db' := Appended(db, i, h);
    if h.att.Some? {
      assert NoNewConfirmed(db.intents, db'.intents - {i});
      AttestedAppend(cfg, db, db', i, h.att.value);
    } else {
      assert db'.attestations == db.attestations;
      AttestedFollows(cfg, db, db');
    }
  }

  lemma AppendedKeepsRecords(cfg: Config, db: Db, i: Id, h: Handled, e: ProviderEvent, now: Time)
    requires RecordsTerminal(db) && RecordsCounted(db) && Corresponds(cfg, db)
    requires i in db.intents && h.file.intent.id == i && Good(cfg, db.decisions, db.intents[i], h, e, |db.events|, now)
    ensures RecordsTerminal(Appended(db, i, h)) && RecordsCounted(Appended(db, i, h))
    ensures Corresponds(cfg, Appended(db, i, h))
  {
    hide RecordsTerminal, RecordsCounted, Corresponds, FileOk, Evolves, MatchesEvent, MatchesIntent;
    PutAdvances(db, i, h.file);
    CountedAppend(db, Appended(db, i, h), h.row, h.rec);
    RecordsTerminalAppend(db, Appended(db, i, h), h.rec);
    CorrespondsAppend(cfg, db, Appended(db, i, h), h.row, h.att);
  }

  lemma CommitKeepsInv(cfg: Config, db: Db, i: Id, h: Handled, e: ProviderEvent, now: Time)
    requires Inv(cfg, db) && i in db.intents && Good(cfg, db.decisions, db.intents[i], h, e, |db.events|, now)
    requires FindEvent(db.events, e).None?
    requires h.file.intent.providerReference.Some? ==>
               || h.file.intent.providerReference == db.intents[i].providerReference
               || ReferenceFree(db, i, h.file.intent.providerReference.value)
    ensures Inv(cfg, Commit(db, i, h))
  {
    hide Filed, FileOk, ReferencesUnique, KeysUnique, EventsOk, Attested, Corresponds, RecordsTerminal, RecordsCounted,
      GoodRow, GoodRecord, GoodAttestation, Evolves;
    CommitInserts(cfg, db, i, h, e, now);
    GoodIds(cfg, db, i, h, e, now);
    AppendedKeepsFiled(cfg, db, i, h);
    PutKeepsUnique(db, i, h.file.intent);
    AppendedKeepsEvents(cfg, db, i, h, e, now);
    AppendedKeepsAttested(cfg, db, i, h, e, now);
    AppendedKeepsRecords(cfg, db, i, h, e, now);
  }

  lemma RecordsTerminalAppend(db: Db, db': Db, rec: Option<Reconciliation>)
    requires RecordsTerminal(db) && Advances(db.intents, db'.intents)
    requires db'.reconciliations == db.reconciliations + if rec.Some? then [rec.value] else []
    requires rec.Some? && rec.value.intentId.Some? ==>
               rec.value.intentId.value in db'.intents && IsTerminal(db'.intents[rec.value.intentId.value].status)
    ensures RecordsTerminal(db')
  {
    forall k | 0 <= k < |db'.reconciliations| && db'.reconciliations[k].intentId.Some?
      ensures db'.reconciliations[k].intentId.value in db'.intents
      ensures IsTerminal(db'.intents[db'.reconciliations[k].intentId.value].status)
    {
      if k < |db.reconciliations| {
        var i := db.reconciliations[k].intentId.value;
        assert Evolves(db.intents[i], db'.intents[i]);
      }
    }
  }

  /** Storing an event that belongs to no intent. */
  lemma UnlinkedKeepsInv(cfg: Config, db: Db, db': Db, e: ProviderEvent, reason: Reason, now: Time,
                         rec: Option<Reconciliation>)
    requires Inv(cfg, db) && FindEvent(db.events, e).None?
    requires reason in {FutureTimestamp, UnknownReference} && (rec.Some? <==> reason == UnknownReference)
    requires rec.Some? ==> rec.value == UnknownRecord(e, |db.events|, now)
    requires db' == RejectUnlinked(db, e, reason, now).(
                      reconciliations := db.reconciliations + if rec.Some? then [rec.value] else [])
    ensures Inv(cfg, db')
  {
    hide Filed, FileOk, ReferencesUnique, KeysUnique, EventsOk, Attested, Corresponds, RecordsTerminal, RecordsCounted;
    var row := Marked(e, None, Rejected, reason, now);
    FiledIgnoresShared(cfg, db, db');
    EventsAppend(db, db', row);
    AttestedFollows(cfg, db, db');
    assert db'.attestations == db.attestations + [] && db'.evidence == db.evidence + [];
    CorrespondsAppend(cfg, db, db', row, None);
    CountedAppend(db, db', row, rec);
    RecordsTerminalAppend(db, db', rec);
  }
}
