# Funding, KYC and delivery: a verified model

This project models the transactional core of the funding and identity service and proves what its transactions,
unique indexes and constraint triggers together promise. It has four machines and two pure kernels:

- **Crypto funding.** Intents, provider sessions, events, transitions, reconciliations, attestations and eligibility
  decisions are tables, changed by any interleaving of create calls (two transactions around an unlocked provider
  call), provider callbacks and expiry sweeps. Files `Crypto*.dfy`; the fake provider is `FakeFundingProvider.dfy`.
- **KYC.** Profiles, sessions, manual reviews, events and the transition log, changed by status reads, start calls,
  provider replies and callbacks, review actions and two sweeps. A review decision is two steps, because it reads its
  review before it locks anything. Files `Kyc*.dfy`.
- **Leased delivery.** Both outbox workers, any number of them, slow, crashed or repeating themselves
  (`FundingDelivery.dfy`, `EvidenceDelivery.dfy`), refine one abstract machine (`Leases.dfy`).
- **Eligibility.** The policy, its evaluation from stored state, and its independence from sweep scheduling
  (`EligibilityPolicy.dfy`, `EligibilityService.dfy`).
- **Kernels.** Decimal amounts (`CryptoAmount.dfy`) and canonical JSON (`CanonicalJson.dfy`), which is proved against
  a reader of JSON text (`JsonReader.dfy`).

## How the model is built

Each machine has a protocol module: the effect of every transaction as a function from tables to tables. The `*Store`
classes hold the same tables as fields and change them statement by statement, as the repositories and services do;
every service method is proved to reach exactly the tables and the answer the protocol function gives, to roll back
where the service does, and to keep the invariant. Runs are sequences of steps in any order, and the theorems are
about every state a run reaches. A KYC run is "timely" for a player when every decision on that player's reviews that
commits found its review still open, and no start call of that player saw its clock go back over the end of the
verification. It is "in order" for a player when no reading lies behind the starts, requests and verifications
recorded for that player, as when readings never decrease. Theorems that need either say so, for the one player they
speak of, and the others hold of every run.

What an operation does is stated a second time, by outcome. The theorems of `CryptoOutcomes.dfy`, `CryptoCreates.dfy`,
`KycOutcomes.dfy`, `KycDecisions.dfy`, `KycStarts.dfy` and `KycSweeps.dfy`, and those named `...Outcome` or `...Iff`
of the delivery machines, give what is written, column by column, and every answer as conditions on the stored rows
and the input, without the functions of the protocol that compute them.

What an operation does is stated a second time, by outcome: the theorems in `CryptoOutcomes.dfy`, `CryptoCreates.dfy`,
`KycOutcomes.dfy`, `KycDecisions.dfy`, `KycStarts.dfy` and `KycSweeps.dfy`, and those named `...Outcome` elsewhere,
give every column written and every answer as conditions on the stored rows and the input, without the functions of
the protocol that compute them.

A transaction is atomic, as `src/shared/db/transaction.ts` and the row locks intend. Times are integers in
milliseconds and are not assumed to grow, from step to step or within a call; each transaction reads its clock once.
Table checks that order two times of a row are statements that can fail: an expiry against a verification (lines 38-39
of `db/migrations/003_phase_3_kyc.sql`), a completion or provider event against a session's start (lines 77-80), an
opening or completion against a review's request (lines 96-99 of
`db/migrations/004_phase_3_5_kyc_lifecycle_hardening.sql`), the end of a delivery attempt against its start (line 100
of `db/migrations/006_confirmed_funding_attestations.sql`). The write is then refused and its transaction rolls back.
The other checks on modelled columns never fail: they are part of the invariants. Configured periods are positive and
configured decimals at most 30, which reading the configuration enforces (`src/config/env.ts`). Hashes are injective,
and UUIDs are fresh: a row is named by its position, or, for intents and decisions, by an id whose collision is an
explicit error. Rows of a log are kept under the row they belong to.

## Where the code does not do what one might expect

- A review decision can arrive late. `decide` reads its review without a lock; if the review is completed before the
  session is locked, the decision can still commit on a verified session, overwrite the profile that now waits on a
  newer session, or reopen a closed one. `KycTheorems.LateDecisionCommitsIff` says exactly when, `KycLateDecision`
  exhibits a run, and `KycTheorems.DecisionIsSafeIffReviewOpen` is the exact condition under which a decision is safe.
- So "one decision per review" fails: `KycLateDecision.TwoDecisionsCommit` is a run in which two decisions on one
  review commit. What holds of every run is that at most one commits while the review is open
  (`KycTheorems.AtMostOneDecision`); a further one commits exactly when it is late in the sense above
  (`KycTheorems.FurtherDecisionCommitsIff`), and none does in a timely run (`KycTheorems.OneDecisionWhenTimely`).
- Approving a session that has expired and then resuming it late leaves a pending session whose expiry precedes its
  player's verification. No one can expire it, because the profile's new expiry would precede the verification: new
  events for it make the callback raise, and since the session sweep takes the oldest due sessions first and rolls
  back as a whole, it expires no session of any player once this one fits its batch (`KycLateDecision.NeverExpires`,
  `KycSweeps.BlockedSweepsStarve`). The clock need not go back. The exact conditions are
  `KycTheorems.CallbackRaisesIff`, `KycClock.CallbackRaisesIffVerifiedLater` and `KycSweeps.SessionSweepRaisesIff`;
  timely runs in order are free of it (`KycClock.NothingRaisesInOrder`).
- A late decision can also set a player's current session back to an older attempt (`KycTheorems.SetBackIff`).
- A start call reads its clock before its transaction and again inside it. When the second reading is earlier and the
  verification ends in between, the call starts a session beside a verified profile
  (`KycTheorems.StartIsCoherentIff`).
- The funding callback has one error left: a new, timely event with an unknown reference whose claimed intent id is
  not a UUID makes the database refuse the lookup. A UUID spelt differently from the stored text recovers the session
  first and is then rejected as a foreign claim.
- An `accepted` reply without a ledger transaction violates the acknowledgement check: the report rolls back and the
  row stays leased until its lease lapses (`FundingDelivery.SuccessRecordedIff`).
- A start call fails while an elapsed session is unswept (`KycTheorems.StartRefusedIff`).

## Model

| member | source | states |
|---|---|---|
| CryptoTheorems.ExactlyOneAttestation | src/crypto/application/ProcessCryptoProviderEventService.ts:166-226 | In every reachable state an intent has exactly one attestation and one confirmed-evidence row if it is confirmed, and none otherwise; the attestation matches the intent column by column. |
| CryptoTheorems.UnitsAreConserved | src/crypto/application/ProcessCryptoProviderEventService.ts:146-226 | Per asset, the sum of attested atomic units is the sum of the exact units reported by processed confirmations, and the two correspond one to one, in order. |
| CryptoTheorems.CallbackIsTotal | src/crypto/application/ProcessCryptoProviderEventService.ts:71-227 | No event in any reachable state raises a state or version conflict, a uniqueness violation or the missing-evidence error; it raises exactly when a new, timely event has an unknown reference and claims an intent id that is no UUID. |
| CryptoOutcomes.EventOutcome | src/crypto/application/ProcessCryptoProviderEventService.ts:71-227 | For every event and every intent, in every run: the rows of an intent the event does not concern are untouched; the one it concerns ends in each open and each final status exactly under one condition on its row and the event, with the versions, times, session and log rows that go with the move; the event is stored with its outcome, and the reply carries that outcome and the stored status. |
| CryptoOutcomes.UnlinkedReplies | src/crypto/application/ProcessCryptoProviderEventService.ts:73-125 | What every other delivery writes and answers, in every run: a repeated identity is a duplicate exactly when payload hash, reference and event type are the stored ones, and otherwise a conflict; events from the future and for nobody are stored as rejected, the latter with one record. |
| CryptoTheorems.CreatesConverge | src/crypto/application/CreateCryptoFundingIntentService.ts:65-171 | Create calls of a player with one key that succeed return one intent, with the asset and canonical amount each asked for, and a reference any of them saw is the one the intent keeps. |
| CryptoCreates.DecideOutcome | src/crypto/application/CreateCryptoFundingIntentService.ts:69-89 | In every run a new create call goes on if and only if its snapshot permits a deposit and its amount parses and its rational value lies between those of the two bounds of its asset's policy; otherwise it is refused; the decision is stored either way. |
| CryptoCreates.AmountsWithinBounds | src/crypto/application/CreateCryptoFundingIntentService.ts:86-89 | In every reachable state every stored amount is canonical and lies between the two bounds of its asset's policy. |
| CryptoCreates.BeginOutcome | src/crypto/application/CreateCryptoFundingIntentService.ts:90-94 | In every run a prepared call with an intent under its key stores nothing, and is refused, waits or returns it by exact conditions on that row; with none it stores a fresh one, every column given, which expires exactly the configured time later. |
| CryptoCreates.RespondOutcome | src/crypto/application/CreateCryptoFundingIntentService.ts:96-141 | In every run, what each provider outcome writes about the intent, its session and its log, and what the call returns, with the exact refusals of a session. |
| CryptoTheorems.SessionsAgree | src/crypto/infrastructure/PostgresCryptoFundingRepository.ts:218-235 | A provider session is active exactly when its intent holds a reference; both hold the same one, and no other intent of that provider does. |
| CryptoTheorems.WriteOnceAndAbsorbing | src/crypto/application/CreateCryptoFundingIntentService.ts:115-141 | Along every run a set provider reference never changes, a terminal intent never moves, and stored events and attestations are never taken back. |
| CryptoTheorems.RecordedNeverConfirmed | src/crypto/application/ProcessCryptoProviderEventService.ts:142-156 | An intent with a reconciliation record is terminal, and unless it was confirmed before it is never confirmed or attested afterwards. |
| CryptoTheorems.EveryEventAccounted | src/crypto/application/ProcessCryptoProviderEventService.ts:89-165 | No committed event stays received; each has exactly one reconciliation record or none according to its outcome, and moved value without a record was processed, stale, too early or disowned. |
| CryptoTheorems.ProcessedEventsAdvance | src/crypto/domain/CryptoProviderEvent.ts:63-82 | The processed events of one intent strictly increase in provider time and in payment stage. |
| CryptoTheorems.AttestationsHaveProvenance | src/crypto/application/CreateCryptoFundingIntentService.ts:69-77 | Behind every attestation stands a stored, allowed deposit decision for the same player whose snapshot permits a deposit, and the confirmation was received strictly before expiry. |
| CryptoTheorems.AttestationsHaveShape | db/migrations/006_confirmed_funding_attestations.sql:48-58 | The shape check of the instruction table never refuses an attestation: units are positive, the scale is at most 30, and processing ends exactly the configured time after the issue. |
| CryptoTheorems.DeferredGuardsHold | db/migrations/005_phase_4_crypto_funding.sql:281-338 | Between any two states of a run the log of an intent only gains rows, each an allowed step of the next version, and it replays to the stored status at both ends; a confirmed intent has its instruction. |
| CryptoTheorems.RepeatsChangeNothing | src/crypto/application/ProcessCryptoProviderEventService.ts:73-87 | Once a delivery of an event identity has been stored, delivering that identity again, whenever and with whatever content, leaves every later state as if it had not been. |
| CryptoTheorems.AllRepeatsChangeNothing | src/crypto/application/ProcessCryptoProviderEventService.ts:73-87 | Every run ends as it would without the deliveries whose identity was already stored when they arrived. |
| CryptoRecords.RecordsAreTruthful | src/crypto/application/ProcessCryptoProviderEventService.ts:232-256 | In every reachable state a reconciliation record expects what its intent asked for, reports what its event said and when it was received, and its kind is the true relation of the two in exact units. |
| CryptoTheorems.FullSweepsFinish | src/crypto/application/ExpireCryptoFundingIntentsService.ts:16-38 | Of n due intents, k full sweeps with limit b leave max(0, n - k*b); every intent they took expired in exactly one step and no other intent changed. |
| CryptoCreates.SweepOutcome | src/crypto/application/ExpireCryptoFundingIntentsService.ts:16-38 | In every run a sweep over a batch of due intents expires exactly those, with one log row each, leaves one record for each whose payment had been detected or was being confirmed and no other, and changes nothing else; over anything else it does nothing. |
| CryptoRuns.RunKeeps | src/crypto/application/ProcessCryptoProviderEventService.ts:71-227 | Every interleaving of create calls, callbacks and sweeps keeps the invariant of the tables, of the calls in flight, and everything stored before. |
| CryptoTransactions.CallbackKeepsInv | src/crypto/application/ProcessCryptoProviderEventService.ts:71-227 | One callback on any tables that satisfy the invariant keeps it, and raises exactly when the event is unstorable. |
| CryptoTransactions.PrepareKeepsInv | src/crypto/application/CreateCryptoFundingIntentService.ts:144-171 | The first transaction of a create call keeps the invariant. |
| CryptoTransactions.ActivateKeepsInv | src/crypto/application/CreateCryptoFundingIntentService.ts:115-141 | The second transaction after a provider success keeps the invariant and only lets the intent evolve. |
| CryptoTransactions.MarkKeepsInv | src/crypto/application/CreateCryptoFundingIntentService.ts:173-182 | The second transaction after a permanent refusal keeps the invariant and never raises for a stored intent. |
| CryptoTransactions.SweepKeepsInv | src/crypto/application/ExpireCryptoFundingIntentsService.ts:16-38 | A sweep over any due batch never raises, keeps the invariant, and expires exactly the intents of its batch. |
| CryptoHandling.HandleIsGood | src/crypto/application/ProcessCryptoProviderEventService.ts:125-226 | Handling any event of an intent with a reference never raises, and what it writes about the intent meets every part of the invariant. |
| CryptoProtocol.FindEvent | src/crypto/infrastructure/PostgresCryptoFundingRepository.ts:260-286 | Finds a stored event with the same provider and event id exactly when there is one. |
| CryptoStore.Store.ProcessEvent | src/crypto/application/ProcessCryptoProviderEventService.ts:71-227 | The callback, statement by statement: its answer and the tables after it are those of the protocol, a step that raises rolls everything back, and the invariant is kept. |
| CryptoStore.Store.LocateIntent | src/crypto/application/ProcessCryptoProviderEventService.ts:92-116 | Finds the intent of a reference, or activates the session of the claimed intent that is still being created. |
| CryptoStore.Store.RecoverIntent | src/crypto/application/ProcessCryptoProviderEventService.ts:96-114 | Activates the claimed session with the event's reference and moves its intent to awaiting payment, or raises. |
| CryptoStore.Store.BuildAttestation | src/crypto/application/ProcessCryptoProviderEventService.ts:172-210 | The attestation of a confirmed intent with every column it must carry, or the evidence it lacks. |
| CryptoStore.Store.RecordEvent | src/crypto/application/ProcessCryptoProviderEventService.ts:245-256 | The reconciliation record of an event: expected values from the intent, actual ones from the event. |
| CryptoStore.Store.CreateIntent | src/crypto/infrastructure/PostgresCryptoFundingRepository.ts:134-157 | Inserts the intent, its session and an empty log. |
| CryptoStore.Store.HandleEvent | src/crypto/application/ProcessCryptoProviderEventService.ts:125-226 | The branches after the intent is locked write exactly the intent, log, event, reconciliation, attestation and evidence rows the protocol says. |
| CryptoStore.Store.RecordLate | src/crypto/application/ProcessCryptoProviderEventService.ts:130-141 | The expiry guard: expires an open intent, records moved value, marks the event. |
| CryptoStore.Store.RecordDiscrepancy | src/crypto/application/ProcessCryptoProviderEventService.ts:146-156 | Records a discrepancy and moves an open intent to reconciliation with the provider time. |
| CryptoStore.Store.RecordApplied | src/crypto/application/ProcessCryptoProviderEventService.ts:166-226 | Applies an event, and on confirmation inserts the attestation and its evidence. |
| CryptoStore.Store.Transition | src/crypto/application/TransitionCryptoFundingService.ts:33-93 | The only status writer: allowed steps only, under the version read before, with its log row. |
| CryptoStore.Store.UpdateStatus | src/crypto/infrastructure/PostgresCryptoFundingRepository.ts:197-216 | Updates the row only when the version is the expected one: the status, each column the change sets, the reference and payment url among them, and the version. |
| CryptoStore.Store.ActivateProviderSession | src/crypto/infrastructure/PostgresCryptoFundingRepository.ts:218-228 | Sets reference, url and active status on both rows, unless another row of the provider holds the reference. |
| CryptoStore.Store.FailProviderSession | src/crypto/infrastructure/PostgresCryptoFundingRepository.ts:230-235 | Fails a session only while it is being created. |
| CryptoStore.Store.CreateReconciliation | src/crypto/infrastructure/PostgresCryptoFundingRepository.ts:300-312 | Inserts a record unless one of the same event and kind exists. |
| CryptoStore.Store.CreateFundingAttestation | src/crypto/infrastructure/PostgresCryptoFundingRepository.ts:314-363 | Inserts an attestation with its evidence unless the intent has one. |
| CryptoStore.Store.FindByReferenceForUpdate | src/crypto/infrastructure/PostgresCryptoFundingRepository.ts:181-187 | The intent holding a reference, when there is one. |
| CryptoStore.Store.FindByIdempotencyKey | src/crypto/infrastructure/PostgresCryptoFundingRepository.ts:173-179 | The intent of a player under a key, when there is one. |
| CryptoStore.Store.MarkEvent | src/crypto/infrastructure/PostgresCryptoFundingRepository.ts:288-298 | Gives a received event its outcome, with the accepted time only when it was processed. |
| CryptoStore.Store.PrepareIntent | src/crypto/application/CreateCryptoFundingIntentService.ts:144-171 | Returns the intent stored under the key or inserts a fresh one; tables and answer are those of the protocol and the invariant is kept. |
| CryptoStore.Store.ActivateIntent | src/crypto/application/CreateCryptoFundingIntentService.ts:115-141 | Activates the session and moves a pending intent to awaiting payment, or refuses a second reference. |
| CryptoStore.Store.MarkFailed | src/crypto/application/CreateCryptoFundingIntentService.ts:173-182 | Marks a pending intent as failed to be created and leaves any other as it is. |
| CryptoStore.Store.FindExpired | src/crypto/infrastructure/PostgresCryptoFundingRepository.ts:237-245 | Due intents in (expiry, id) order, at most the limit, and all of them when they fit. |
| CryptoStore.Store.ExpireIntents | src/crypto/application/ExpireCryptoFundingIntentsService.ts:16-38 | One sweep: expires exactly the batch it found, counts the records it wrote, and never raises. |
| CryptoAmount.ParseReads | src/crypto/domain/CryptoAmount.ts:1-24 | A text is accepted exactly when it has at most 96 characters, its fraction fits the scale and some digit is not zero; its units are then the number whose decimal numeral, up to leading zeros, is the integral part with the fraction filled up to the scale; and its canonical text is the same without the zeros the fraction ends with. |
| CryptoAmount.ParsedIsWritten | src/crypto/domain/CryptoAmount.ts:1 | Everything accepted is, in exactly one way, an integral part without a redundant leading zero and, behind a point, a fraction if there is one. |
| CryptoAmount.DecimalParses | src/crypto/domain/CryptoAmount.ts:9-24 | The numeral of a positive number is read as that number. |
| CryptoAmount.CanonicalIffUnits | src/crypto/domain/CryptoAmount.ts:9-24 | At one scale two accepted strings have the same canonical text exactly when they are the same number of units. |
| CryptoAmount.ReparseIsStable | src/crypto/domain/CryptoAmount.ts:9-24 | Parsing canonical text gives the same result again. |
| CryptoAmount.UnitsScale | src/crypto/domain/CryptoAmount.ts:9-24 | An amount accepted at a scale is accepted at every larger one, with the same text and units larger by the exact power of ten. |
| CryptoAmount.TwoStageParse | src/crypto/providers/FakeCryptoFundingProvider.ts:167-174 | Parsing at a wide scale and again at the asset scale accepts exactly when the trimmed fraction fits, and agrees with direct parsing wherever that accepts. |
| CryptoAmount.CompareIsRationalOrder | src/crypto/domain/CryptoAmount.ts:26-31 | Comparison across mixed scales is the order of the rational values. |
| CryptoAmount.CompareSameScale | src/crypto/domain/CryptoAmount.ts:26-31 | At one scale comparison is the order of the units. |
| KycTheorems.ProfilesAndSessionsAgree | src/kyc/application/TransitionKycStatusService.ts:77-187 | In every run that is timely for a player, that player's waiting session is the current one and has the profile's status; the profile has a current session of its own status, an expired one an expired or verified session. Other players' runs play no part. |
| KycTheorems.OneReviewInReview | src/kyc/application/TransitionKycStatusService.ts:148-187 | In every run a profile is in manual review exactly when it has one open review, which is for its current session; otherwise it has none. |
| KycTheorems.DecisionIsSafeIffReviewOpen | src/kyc/application/KycManualReviewService.ts:128-183 | The exact conditions for a decision that commits on coherent rows: it keeps them coherent if and only if its review is still open or it resumes the current session; it leaves closed sessions alone if and only if its review is still open or it approves again at the time already recorded; and both if and only if its review is still open. |
| KycTheorems.LateDecisionCommitsIff | src/kyc/application/KycManualReviewService.ts:128-183 | In every run, a decision whose review was completed since it was read commits exactly when its session is in review or verified and, unless it resumes it, has started by the clock, its profile is not in review but may take the outcome, and, to resume, no other session of the player is effective. |
| KycLateDecision.LateDecisionBreaksCoherence | src/kyc/application/KycManualReviewService.ts:129-133 | A concrete run from the empty tables, timely but for its last step, in which a committed late approval leaves a pending session that is nobody's current one. |
| KycLateDecision.NeverExpires | db/migrations/003_phase_3_kyc.sql:38-39 | A concrete run whose clock readings never decrease and that leaves a session which can never be expired: from its expiry on every new event for it makes the callback raise, and every sweep whose batch holds it is rolled back. |
| KycTheorems.AtMostOneDecision | src/kyc/application/KycManualReviewService.ts:122-184 | In every run, of all decisions on one review at most one commits while the review is open, and it completes the review. |
| KycTheorems.OneDecisionWhenTimely | src/kyc/application/KycManualReviewService.ts:122-184 | In every run that is timely for the player a review concerns, at most one decision on it commits. |
| KycTheorems.FurtherDecisionCommitsIff | src/kyc/application/KycManualReviewService.ts:128-183 | After a decision on a review has committed while it was open, a further one commits exactly under the condition for late decisions. |
| KycDecisions.DecisionOutcome | src/kyc/application/KycManualReviewService.ts:128-183 | In every run, late decisions included: when a decision commits, by an exact condition on its review, its session and the profile, and then every column it writes of session and profile, the log row, and the outcome with which it closes the open review; otherwise it changes nothing. |
| KycDecisions.ReviewActions | src/kyc/infrastructure/PostgresKycManualReviewRepository.ts:148-221 | In every run, when a review can be read for a decision, opened and assigned, and exactly what that writes. |
| KycWrites.MoveWrites | src/kyc/application/TransitionKycStatusService.ts:71-187 | A committed transition writes the profile, one log row that says why, and the review it requests or completes with its outcome, and nothing else. |
| KycLateDecision.TwoDecisionsCommit | src/kyc/application/KycManualReviewService.ts:129-133 | A concrete run from the empty tables in which two decisions on one review commit: an approval of a session that has expired, then, once the verification has expired too, a resumption with the same unlocked read. It ends with a pending session that expired before its player was verified. |
| KycTheorems.ClosedSessionsAbsorb | src/kyc/infrastructure/PostgresKycSessionRepository.ts:217-232 | Along every run, late decisions included, the row of a closed session stays exactly as it is unless a committing decision names that very session. |
| KycRuns.ClosedUnlessNamed | src/kyc/infrastructure/PostgresKycSessionRepository.ts:217-232 | No step but a committing decision that names it changes a closed session. |
| KycTheorems.SetBackIff | src/kyc/application/KycManualReviewService.ts:128-183 | In every run, one step moves a player's current session to an older attempt if and only if it is a committing decision whose ticket names an older session; every other step, and every decision that finds its review open, keeps it or moves it to a strictly larger attempt. |
| KycTheorems.AttemptsMoveForward | src/kyc/infrastructure/PostgresKycSessionRepository.ts:111-144 | Along every run a player's current session moves only to strictly larger attempts, unless such a decision commits somewhere on it. |
| KycTheorems.TimelyNeverSetsBack | src/kyc/application/KycManualReviewService.ts:128-183 | None does in a run that is timely for the player. |
| KycRuns.ForwardUnlessSetBack | src/kyc/application/KycManualReviewService.ts:128-183 | In any world that satisfies the invariant, a step keeps or advances every current session if and only if it is not such a decision. |
| KycTheorems.CallbackRaisesIff | src/kyc/application/ProcessKycProviderEventService.ts:94-377 | In every run the callback raises if and only if the order of two times in a profile, session or review row refuses what it writes, a condition on the event and the stored rows, and then it changes nothing; status reads and verification sweeps never raise. |
| KycClock.CallbackRaisesIffVerifiedLater | db/migrations/003_phase_3_kyc.sql:38-39 | In any world that satisfies the invariant, late decisions and all, when the times recorded for the player are not ahead of the clock: the callback raises if and only if the event is accepted for a session that has expired or is due, is the current one of a waiting profile, and expires before that profile's last verification. |
| KycClock.NothingRaisesInOrder | src/kyc/application/ProcessKycProviderEventService.ts:203-247 | In a run that is timely for a player and whose readings do not lie behind what is recorded for that player, no event of that player makes the callback raise and none of that player's sessions is one the sweep cannot expire. |
| KycClock.NonDecreasingIsInOrder | db/migrations/003_phase_3_kyc.sql:77-80 | Readings that never decrease satisfy that hypothesis, for every player. |
| KycOutcomes.EventOutcomeInEveryRun | src/kyc/application/ProcessKycProviderEventService.ts:201-376 | In every run, for an accepted event and the session it names: every column written of that session and its player's profile, the log row and the review, as the two rows and the event determine; the stored event; the reply, with the outcome and the status then stored; and that it raises exactly when the order of two times in a row refuses the write, and then changes nothing. |
| KycOutcomes.OtherReplies | src/kyc/application/ProcessKycProviderEventService.ts:97-200 | What every other delivery writes and answers, in every run: duplicate against conflict, and the three rejections in their order. |
| KycOutcomes.EventOutcome | src/kyc/application/ProcessKycProviderEventService.ts:201-376 | In a run that is timely for the session's player the session's own row decides: one that is not waiting is untouched, a waiting one gets the status its row and the event determine, and so does the profile. |
| KycTheorems.ReplyOutcomes | src/kyc/application/StartKycVerificationService.ts:102-161 | What every provider reply is told, in every run, by exact conditions on the rows of its session and player; the profile refuses an acceptable reply only when it is pending or verified already, or in a review requested later than now. |
| KycTheorems.TimelyReplies | src/kyc/application/StartKycVerificationService.ts:102-161 | In a run that is timely for the session's player an acceptable reply is refused only when its reference is taken. |
| KycStarts.FinishOutcome | src/kyc/application/StartKycVerificationService.ts:81-161 | In every run, every column a provider reply writes: the activated session and its pending profile with its log row, the session that could not be created, or nothing. |
| KycTheorems.StartRefusedIff | src/kyc/application/StartKycVerificationService.ts:164-251 | In every run a start call is refused exactly when the player is still verified, or when an elapsed session no sweep has expired hides behind the one-effective-session index; a known key decides otherwise. |
| KycStarts.StartOutcome | src/kyc/application/StartKycVerificationService.ts:164-251 | In every run, the session a start call is given: the one known under its key, the one that can be used, or a new one with the next attempt number and every column given; and what it writes about the profile. |
| KycStarts.ReadOutcome | src/kyc/infrastructure/PostgresKycStatusReader.ts:20-50 | In every run, what a status read answers and writes: a missing profile, a verification that is over, and nothing else. |
| KycTheorems.StartIsCoherentIff | src/kyc/application/StartKycVerificationService.ts:164-251 | A start call leaves coherent rows coherent if and only if its clock does not go back over the end of the verification between its two readings. |
| KycTheorems.OneSessionPerKey | db/migrations/003_phase_3_kyc.sql:94-100 | A session under a key stays the only one, and every later start call with that key that succeeds is given it. |
| KycTheorems.VerifiedIsJustified | src/kyc/application/ProcessKycProviderEventService.ts:309-361 | In every run, late decisions included, a verified profile was last moved, for its current session, by an admin decision or by a processed verified event that bears that session's reference and was received strictly before its expiry; the verification dates from that receipt and runs for exactly the configured time. |
| KycTheorems.VerifiedSession | src/kyc/application/ProcessKycProviderEventService.ts:309-361 | In a run that is timely for the player, the current session of a verified profile is verified too. |
| KycTheorems.WriteOnce | src/kyc/infrastructure/PostgresKycSessionRepository.ts:146-167 | Along every run a session's reference and expiry are written once, its identity never changes, its provider time only grows, and logs and events are only appended. |
| KycTheorems.DeferredGuardHolds | db/migrations/004_phase_3_5_kyc_lifecycle_hardening.sql:230-253 | Between any two states of any run the log of a profile only gains rows, each an allowed step of the next version, and replays to the stored status at both ends. |
| KycTheorems.ProcessedEventsAdvance | src/kyc/domain/KycProviderEvent.ts:82-103 | No stored event is left received, and the processed events of one session strictly advance in provider time. |
| KycTheorems.RepeatsChangeNothing | src/kyc/application/ProcessKycProviderEventService.ts:98-155 | Any run ends in the same state as the run without the deliveries whose identity was already stored when they arrived. |
| KycTheorems.DeliveredForGood | src/kyc/application/ProcessKycProviderEventService.ts:98-155 | After a delivery that did not raise, however the run goes on, every later delivery of its identity is such a repeat. |
| KycSweeps.SessionSweepRaisesIff | src/kyc/application/ExpireKycSessionsService.ts:48-113 | In every run a session sweep raises, and changes nothing, if and only if its batch holds a session that cannot be expired: the current one of a waiting profile that was verified after the session's expiry, or that is in a review requested later than now. Any other sweep expires exactly its batch, with the waiting profiles, their log rows and their reviews. |
| KycSweeps.SessionSweepsFinish | src/kyc/application/ExpireKycSessionsService.ts:48-113 | When no due session is of that kind: of n due sessions, k full sweeps with limit b leave max(0, n - k*b); the others expired in one step each, with the profiles that waited on them, and nothing else changed. |
| KycSweeps.BlockedSweepsStarve | src/kyc/infrastructure/PostgresKycSessionRepository.ts:234-251 | While such a session is among the oldest due ones that fit the limit, sweeps achieve nothing at all, for any player, whenever they come and however many they are. |
| KycSweeps.ProfileSweepsFinish | src/kyc/application/ExpireKycSessionsService.ts:115-168 | Of n due verifications, k full sweeps with limit b never raise and leave max(0, n - k*b); the others expired in one step each and no other profile changed. |
| KycSweeps.ProfileSweepOutcome | src/kyc/application/ExpireKycSessionsService.ts:115-168 | In every run a profile sweep over a batch of due verifications expires exactly those, with one log row each, and changes nothing else. |
| KycRuns.RunKeeps | src/kyc/application/KycManualReviewService.ts:128-183 | Every run keeps the invariant of the tables and everything stored; a run that is timely for a player keeps that player's rows coherent. |
| KycTransactions.CallbackKeeps | src/kyc/application/ProcessKycProviderEventService.ts:94-377 | The callback keeps the invariant, every closed session and every player's coherence, and no profile's current session is set back; it raises exactly when a row order refuses it, and then changes nothing. |
| KycTransactions.PrepareKeeps | src/kyc/application/StartKycVerificationService.ts:164-251 | Preparing a start call keeps the invariant, every closed session and the coherence of every player, except its own player when it races the end of the verification. |
| KycTransactions.FinishKeeps | src/kyc/application/StartKycVerificationService.ts:81-161 | Activating a session, or marking its creation failed, keeps the invariant, every closed session and every player's coherence. |
| KycTransactions.TimelyDecisionKeeps | src/kyc/application/KycManualReviewService.ts:128-183 | A decision that finds its review open, on a session in manual review, commits exactly when the clock is behind neither the request nor, unless it resumes it, the session's start, and keeps every closed session and every player's coherence. |
| KycTransactions.DecideKeepsInv | src/kyc/application/KycManualReviewService.ts:128-183 | A decision keeps the invariant, late or not. |
| KycTransactions.ExpireSessionKeeps | src/kyc/application/ProcessKycProviderEventService.ts:203-247 | Expiring a session and the profile that waits on it raises exactly when the profile was verified after the session's expiry or is in a review requested later than now; otherwise it keeps the invariant and coherence. |
| KycTransactions.ReadStatusKeeps | src/kyc/infrastructure/PostgresKycStatusReader.ts:20-50 | Reading a status never raises and keeps the invariant and coherence. |
| KycTables.MoveKeepsInv | src/kyc/application/TransitionKycStatusService.ts:71-187 | The transition service keeps the invariant, including its coupling with the reviews, for every change that fits the session it names. |
| KycTransactions.MoveIsOk | src/kyc/application/TransitionKycStatusService.ts:71-187 | An allowed transition of stored rows commits exactly when the new expiry does not precede the verification and the review it completes was not requested later than now. |
| KycProtocol.FindEffective | src/kyc/infrastructure/PostgresKycSessionRepository.ts:54-70 | The latest effective session of a player that has not elapsed, when there is one. |
| KycProtocol.MaxAttempt | src/kyc/infrastructure/PostgresKycSessionRepository.ts:111-122 | The largest attempt number of the player, 0 when there is none: no attempt exceeds it and, unless 0, some attempt has it. |
| KycStore.Store.Transition | src/kyc/application/TransitionKycStatusService.ts:71-187 | The only writer of profile statuses: allowed steps under the version read before, with the log row and the review opened or completed. |
| KycStore.Store.UpdateReviews | src/kyc/application/TransitionKycStatusService.ts:148-187 | Requests a review on entering manual review, completes the active one on leaving it, and refuses when it is missing, another, or was requested later than now. |
| KycStore.Store.ExpireVerificationIfDue | src/kyc/application/TransitionKycStatusService.ts:217-246 | Expires a verified profile exactly when its verification is over. |
| KycStore.Store.GetStatusForPlayer | src/kyc/infrastructure/PostgresKycStatusReader.ts:20-50 | Creates a missing profile, expires a due verification, and answers the status. |
| KycStore.Store.PrepareIntent | src/kyc/application/StartKycVerificationService.ts:164-251 | The first transaction of a start call; an error rolls back the profile it created and the verification it expired. |
| KycStore.Store.ChooseSession | src/kyc/application/StartKycVerificationService.ts:180-249 | Which session a start call is given, in the order the service looks: failed under its key, known under its key, effective, new, or conflict. |
| KycStore.Store.ActivateSession | src/kyc/application/StartKycVerificationService.ts:102-161 | Activates a session and moves its profile to pending in one transaction. |
| KycStore.Store.MarkFailed | src/kyc/application/StartKycVerificationService.ts:253-280 | Marks a session whose creation failed, unless it has moved on or starts later than the clock. |
| KycStore.Store.ProcessEvent | src/kyc/application/ProcessKycProviderEventService.ts:94-377 | The callback, statement by statement: answer and tables are those of the protocol, with rollback on error. |
| KycStore.Store.Handle | src/kyc/application/ProcessKycProviderEventService.ts:201-376 | The branches after session and profile are locked. |
| KycStore.Store.Apply | src/kyc/application/ProcessKycProviderEventService.ts:272-376 | Applies an event to its session and profile and marks its row. |
| KycStore.Store.ElapseSession | src/kyc/application/ProcessKycProviderEventService.ts:208-237 | Expires a due session row and the profile that waits on it, or raises. |
| KycStore.Store.UpdateSession | src/kyc/infrastructure/PostgresKycSessionRepository.ts:217-232 | The unguarded session update, refused by the one-effective-session index, or when a completion or event would precede the start; provider time never goes back. |
| KycStore.Store.ExpireSessionIfDue | src/kyc/infrastructure/PostgresKycSessionRepository.ts:184-200 | Expires a waiting session exactly when it is due. |
| KycStore.Store.CreateIntent | src/kyc/infrastructure/PostgresKycSessionRepository.ts:124-144 | Inserts a session unless it conflicts with the key or the effective session of the player. |
| KycStore.Store.NextAttemptNumber | src/kyc/infrastructure/PostgresKycSessionRepository.ts:111-122 | One more than the largest attempt number of the player. |
| KycStore.Store.GetCurrentEffective | src/kyc/infrastructure/PostgresKycSessionRepository.ts:54-70 | The latest effective session that has not elapsed. |
| KycStore.Store.FindByProviderReferenceForUpdate | src/kyc/infrastructure/PostgresKycSessionRepository.ts:202-215 | The session of a provider reference, when there is one. |
| KycStore.Store.UpdateProfile | src/kyc/infrastructure/PostgresKycProfileRepository.ts:92-120 | Updates the profile only when the version is the expected one, and raises when the new expiry would precede the verification. |
| KycStore.Store.FindActiveForProfile | src/kyc/infrastructure/PostgresKycManualReviewRepository.ts:105-117 | The uncompleted review of a profile, when there is one. |
| KycStore.Store.MarkProcessed | src/kyc/infrastructure/PostgresKycProviderEventRepository.ts:117-137 | Gives an event its outcome, with the accepted time only when it was processed. |
| KycStore.Store.FindReview | src/kyc/application/KycManualReviewService.ts:129-132 | The unlocked read of a decision: refused for a missing, completed or sessionless review. |
| KycStore.Store.DecideReview | src/kyc/application/KycManualReviewService.ts:133-183 | The rest of a decision under its locks, with the review as it was read. |
| KycStore.Store.OpenReviewRow | src/kyc/infrastructure/PostgresKycManualReviewRepository.ts:148-183 | Opens an uncompleted review, keeping its first opening time and its assignee, unless the opening would precede the request. |
| KycStore.Store.AssignReviewRow | src/kyc/infrastructure/PostgresKycManualReviewRepository.ts:185-221 | Assigns an uncompleted review, unless the opening would precede the request. |
| KycStore.Store.FindExpiredPending | src/kyc/infrastructure/PostgresKycSessionRepository.ts:234-251 | Due sessions in order of expiry, at most the limit, and all of them when they fit. |
| KycStore.Store.ExpireSessions | src/kyc/application/ExpireKycSessionsService.ts:48-113 | One session sweep: takes the due sessions that expired first and expires exactly those, or raises and rolls all of them back. |
| KycStore.Store.FindExpiredVerified | src/kyc/infrastructure/PostgresKycProfileRepository.ts:122-140 | Due profiles in order of expiry, at most the limit, and all of them when they fit. |
| KycStore.Store.ExpireProfiles | src/kyc/application/ExpireKycSessionsService.ts:115-168 | One profile sweep: expires exactly the batch it found, in order of expiry, and never raises. |
| FundingDelivery.OnlyLatestClaimWrites | src/crypto/application/FundingAttestationDeliveryWorker.ts:119-168 | A report, however late, changes at most its own row and only while it holds the token of that row's latest claim. |
| FundingDelivery.FinalStatusesStay | src/crypto/application/FundingAttestationDeliveryWorker.ts:58-76 | Acknowledged, review-required and dead-lettered rows never change and recorded attempts are never lost, in every continuation of every run. |
| FundingDelivery.DeliveryIsBounded | src/crypto/application/FundingAttestationDeliveryWorker.ts:139-168 | At most 12 attempts are ever recorded for an attestation, with increasing numbers, at most 11 of them retryable, imposing at most 4094 seconds of waiting; the hour cap never binds. |
| FundingDelivery.DeadLetterIffEvidence | src/crypto/application/FundingAttestationDeliveryWorker.ts:139-168 | A row is dead-lettered exactly when it has one failure-evidence row, carrying its last error; every other row has none. |
| FundingDelivery.IssueOutcome | src/crypto/infrastructure/PostgresCryptoFundingRepository.ts:317-341 | A new attestation row is pending, unclaimed and due from the time it was issued. |
| FundingDelivery.ClaimOutcome | src/crypto/application/FundingAttestationDeliveryWorker.ts:58-76 | In any state a row can be claimed exactly when it is pending or waits and its time has come, or its lease has lapsed; the claim leases it for 60 seconds and counts it. |
| FundingDelivery.SuccessRecordedIff | src/crypto/application/FundingAttestationDeliveryWorker.ts:119-137 | A settling reply from the holder is recorded, column by column, if and only if it does not accept the delivery without a ledger transaction and the attempt does not end before it began; otherwise the row stays leased as it was. It needs a review exactly when the reply asks for one or reports a duplicate without a ledger transaction. |
| FundingDelivery.FailureRecordedIff | src/crypto/application/FundingAttestationDeliveryWorker.ts:86-168 | Any other reply from the holder sends the row back if and only if fewer than 12 claims have been counted and there was no answer or a status of 408, 429 or at least 500; otherwise the row is dead-lettered with its evidence. The error is named after the reply, and the delay is given number by number. |
| FundingDelivery.RunRefines | src/crypto/application/FundingAttestationDeliveryWorker.ts:58-179 | Every run is, row by row, a behaviour of the abstract leased machine. |
| EvidenceDelivery.RunRefines | src/shared/outbox/SecurityEvidenceDeliveryWorker.ts:26-55 | Every run is, row by row, a behaviour of the same abstract machine. |
| EvidenceDelivery.OnlyLatestClaimWrites | src/shared/outbox/SecurityEvidenceDeliveryWorker.ts:39-55 | A report changes a row only while it holds the token of the row's latest claim. |
| EvidenceDelivery.IssueOutcome | src/crypto/infrastructure/PostgresCryptoFundingRepository.ts:353-362 | A new evidence row is pending, unclaimed and due from the time it was created. |
| EvidenceDelivery.ClaimOutcome | src/shared/outbox/SecurityEvidenceDeliveryWorker.ts:27-33 | In every run an evidence row can be claimed exactly when it is open and its time has come, and is due again 60 seconds later. |
| EvidenceDelivery.ReplyOutcome | src/shared/outbox/SecurityEvidenceDeliveryWorker.ts:36-55 | In every run a reply to the holder delivers the row exactly for 200 and 201, sends it back exactly when fewer than 12 claims have been counted and the reply is no status from 400 to 499 other than 408 and 429, and otherwise dead-letters it. |
| EvidenceDelivery.DeliveryIsBounded | src/shared/outbox/SecurityEvidenceDeliveryWorker.ts:48-55 | At most 11 reports send an evidence row back, at increasing claim counts and for at most 4094 seconds, and a delivered or dead row stays so. |
| Leases.RetriesAreBounded | src/crypto/application/FundingAttestationDeliveryWorker.ts:139-149 | In every behaviour of the abstract machine at most 11 retries, at increasing claim counts, impose at most 4094 seconds. |
| Leases.FinalIsFinal | src/shared/outbox/SecurityEvidenceDeliveryWorker.ts:39-55 | Done and dead are final in every behaviour. |
| Leases.CapNeverBinds | src/crypto/application/FundingAttestationDeliveryWorker.ts:147-149 | Below the attempt limit the backoff is the power of two itself. |
| Leases.BackoffIsDelay | src/crypto/application/FundingAttestationDeliveryWorker.ts:147-149 | The backoff, number by number: 1, 2, 4, ... 2048 seconds, and 2048 from then on. |
| DeliveryStore.FundingOutbox.ClaimOldest | src/crypto/application/FundingAttestationDeliveryWorker.ts:58-76 | Leases the oldest row that is ready or whose lease has lapsed, and no other. |
| DeliveryStore.FundingOutbox.RecordSuccess | src/crypto/application/FundingAttestationDeliveryWorker.ts:119-137 | Settles the row of the token's holder and records the attempt, or rolls back on the acknowledgement check or the order of the attempt's times. |
| DeliveryStore.FundingOutbox.RecordFailure | src/crypto/application/FundingAttestationDeliveryWorker.ts:139-168 | Sends the row of the token's holder back or dead-letters it with its evidence, and records the attempt, or rolls back on the order of the attempt's times. |
| DeliveryStore.FundingOutbox.Deliver | src/crypto/application/FundingAttestationDeliveryWorker.ts:86-109 | Classifies a reply as settling, retryable or permanent and reports it. |
| DeliveryStore.EvidenceOutbox.ClaimOldest | src/shared/outbox/SecurityEvidenceDeliveryWorker.ts:27-35 | Claims the oldest evidence row that is due. |
| DeliveryStore.EvidenceOutbox.Deliver | src/shared/outbox/SecurityEvidenceDeliveryWorker.ts:37-47 | Classifies a reply and reports it. |
| DeliveryStore.EvidenceOutbox.Retry | src/shared/outbox/SecurityEvidenceDeliveryWorker.ts:48-55 | Sends the row of the token's holder back or dead-letters it. |
| CanonicalJson.PrintReads | src/shared/contracts/canonicalJson.ts:7-17 | A reader of JSON text after the grammar of RFC 8259, defined apart from the printer, reads printed text back, whatever follows: a value of the same meaning, with the members of every object in ascending code-unit order, and the rest of the text. |
| CanonicalJson.NormalForm | src/shared/contracts/canonicalJson.ts:7-17 | Values without undefined parts print the same text if and only if they mean the same with objects as unordered maps; any other value raises. |
| CanonicalJson.Readable | src/shared/contracts/canonicalJson.ts:7-17 | Unique readability: when a printed value is followed by nothing, a comma or a closing bracket, its meaning and the rest of the text are determined. |
| CanonicalJson.OrderDoesNotMatter | src/shared/contracts/canonicalJson.ts:12-16 | Values that mean the same print the same, in whatever order their objects list their properties. |
| CanonicalJson.PrintIsWellFormed | src/shared/contracts/canonicalJson.ts:19-21 | Printed text contains no lone surrogate, so hashing its UTF-8 encoding loses nothing. |
| CanonicalJson.QuoteReads | src/shared/contracts/canonicalJson.ts:9 | A quoted string is read back unit by unit, escapes and lone surrogates included (section 7 of RFC 8259). |
| CanonicalJson.EscapesAreMinimal | src/shared/contracts/canonicalJson.ts:9 | Only quotes, backslashes, control characters and lone surrogates are escaped, each in one way. |
| CanonicalJson.DigitsRead | src/shared/contracts/canonicalJson.ts:9 | The digits of a number are decimal digits without a leading zero whose positional value is the number. |
| FakeFundingProvider.OneSessionPerIntent | src/crypto/providers/FakeCryptoFundingProvider.ts:87-123 | However awaits interleave, calls with one key that succeed had the same parameters and get the same session, the one named after their intent, and different keys get different references. |
| FakeFundingProvider.CallOutcome | src/crypto/providers/FakeCryptoFundingProvider.ts:87-123 | What each part of a call answers and stores in every run: refused for a key that is not its intent or was used with other parameters, given the stored session, suspended, or given a new one named after the intent. |
| FakeFundingProvider.Provider.Enter | src/crypto/providers/FakeCryptoFundingProvider.ts:90-105 | The call up to its await: refused for a foreign key or changed parameters, answered from the stored session, or suspended. |
| FakeFundingProvider.Provider.Resume | src/crypto/providers/FakeCryptoFundingProvider.ts:107-123 | The call after its await: the session stored meanwhile, or a new one. |
| EligibilityPolicy.VerdictIsPolicy | src/eligibility/domain/evaluateEligibilityPolicy.ts:11-99 | A verdict lists exactly the denial reasons that apply, each by its own condition on operation, account, KYC status and restrictions, each once and in their order, and allows exactly when none does; unknown policy data leaves incomplete data as the only reason. |
| EligibilityPolicy.DepositAllowedIff | src/eligibility/domain/evaluateEligibilityPolicy.ts:22-32 | A deposit is allowed exactly for an active, verified account without a deposit, jurisdiction or KYC-required block and without an unknown restriction type. |
| EligibilityPolicy.EvaluatePolicy | src/eligibility/domain/evaluateEligibilityPolicy.ts:54-99 | The policy as the code runs it, with its early returns and its loop, computes that verdict. |
| EligibilityService.SweepsAreUnobservable | src/eligibility/application/PlayerRestrictionService.ts:114-141 | At one time, running restriction, session and verification sweeps before evaluating never changes what a player may do; nor the reasons, unless a pending session elapsed. |
| EligibilityService.StatusAfterSweeps | src/kyc/infrastructure/PostgresKycStatusReader.ts:25-49 | The status read after the KYC sweeps is the status read before, except that a waiting profile may have become expired. |
| EligibilityService.SnapshotReads | src/eligibility/application/EvaluateEligibilityService.ts:64-89 | What an evaluation is based on, read off the rows: the types of the player's restrictions in force that have begun and not ended, and the status of the profile, with a missing one not started and a verification that is over expired. |
| EligibilityService.Service.ExecuteMany | src/eligibility/application/EvaluateEligibilityService.ts:60-151 | Stores one decision per distinct operation, in order, all on one snapshot of restrictions and KYC status. |
| EligibilityService.Service.ListActiveAt | src/eligibility/infrastructure/PostgresRestrictionRepository.ts:100-116 | The types of the restrictions in force at a time. |
| EligibilityService.Service.ChangeStatus | src/eligibility/infrastructure/PostgresRestrictionRepository.ts:118-132 | Changes a status only from the expected one. |
| EligibilityService.Service.ExpireDueRestrictions | src/eligibility/application/PlayerRestrictionService.ts:114-141 | Expires exactly the player's restrictions whose end has passed. |

## Left out

- Audit rows, metadata, correlation ids, actor checks and log creation times: written and not read back by these
  services.
- HTTP, authentication, signatures, configuration parsing, worker timers and polling.
- The normalization of assets (trim, upper case) and the safety check on provider results: requests and replies arrive
  normalized.
- Minimum and maximum amounts that do not parse: a create call is refused, where the service fails with another error.
- Second readings of the clock inside one transaction, as of the transition service: they equal the first.
- Update times, written from the database's clock: their checks against the creation times, written from the service's
  clock, could refuse an update while the database's clock lags behind.
- CryptoTheorems.CallbackIsTotal: does not model the check on update times, so it speaks of databases whose clock does
  not lag.
- KycTheorems.CallbackRaisesIff: does not model the check on update times either.
- The blank assignee of a review and the blank idempotency key: the service refuses the one before its transaction,
  and the session table the other; an assignee is any text, and a key is present or absent.
- Reports of a failed sweep batch: a sweep that raises is its error and its rollback.
- Legacy delivery rows without a schema version, and the quarantine that takes them out of delivery.
- KycStore.Store.FindExpiredVerified: orders due verifications by expiry; ties between equal times, which the query
  breaks by profile id, are left open.
- CanonicalJson.NormalForm: numbers are integers kept exactly, and the reader reads no others; of the others, printing
  identifies non-finite ones with null and -0 with 0.
- Adding and removing restrictions, account-status changes, player provisioning and the hosted verification page.
- Raw event verification and parsing by the providers, beyond the two-stage amount parse.
