/** Delivery of funding attestations by any number of workers, slow, crashed or repeated: each claims a
    row under a fresh lease token, calls the financial service without a lock, and reports what it saw. */
module FundingDelivery {
  import opened Wrappers
  import L = Leases

  type Id = nat
  type Token = L.Token
  type Time = int

  datatype Status = Pending | Leased | RetryWait | Acknowledged | ReviewRequired | DeadLetter

  datatype ErrorCode = NetworkError | RetryableResponse | PermanentResponse

  datatype Row = Row(
    status: Status, attemptCount: nat, token: Option<Token>, leaseUntil: Option<Time>, nextAttemptAt: Option<Time>,
    deliveredAt: Option<Time>, consumptionId: Option<string>, ledgerId: Option<string>, lastError: Option<ErrorCode>)

  datatype Outcome = AcknowledgedAttempt | ReviewAttempt | RetryableFailure | PermanentFailure

  datatype Attempt = Attempt(number: nat, outcome: Outcome, responseStatus: Option<int>, error: Option<ErrorCode>)

  /** The delivery row of an attestation, its recorded attempts and its failure-evidence rows. */
  datatype File = File(row: Row, attempts: seq<Attempt>, failures: seq<ErrorCode>)

  /** A new row is due from the time its attestation was issued. */
  function NewRow(issuedAt: Time): Row { Row(Pending, 0, None, None, Some(issuedAt), None, None, None, None) }

  // ---- one worker ----

  datatype Claim = Claim(row: Id, token: Token, number: nat)

  predicate Claimable(r: Row, now: Time) {
    || (r.status in {Pending, RetryWait} && (r.nextAttemptAt.None? || r.nextAttemptAt.value <= now))
    || (r.status == Leased && r.leaseUntil.Some? && r.leaseUntil.value <= now)
  }

  function Claimed(r: Row, token: Token, now: Time): Row {
    r.(status := Leased, attemptCount := r.attemptCount + 1, leaseUntil := Some(now + L.LEASE_MS), token := Some(token))
  }

  datatype Verdict = Accepted | DuplicateDelivery | NeedsReview

  datatype Body = Unreadable | Financial(attestationId: Id, verdict: Verdict, consumptionId: string,
                                         ledgerId: Option<string>)

  datatype Reply = NoAnswer | Answer(status: int, body: Body)

  /** A reply that settles the delivery: 200 or 201 with a body about this attestation. */
  predicate Settles(c: Claim, reply: Reply) {
    reply.Answer? && reply.status in {200, 201} && reply.body.Financial? && reply.body.attestationId == c.row
  }

  function FailureCode(reply: Reply): ErrorCode {
    if reply.NoAnswer? then NetworkError
    else if reply.status == 408 || reply.status == 429 || reply.status >= 500 then RetryableResponse
    else PermanentResponse
  }

  predicate Holds(r: Row, c: Claim) { r.token == Some(c.token) && r.status == Leased }

  predicate ReviewNeeded(body: Body)
    requires body.Financial?
  {
    body.verdict == NeedsReview || (body.verdict == DuplicateDelivery && body.ledgerId.None?)
  }

  function Delivered(r: Row, body: Body, now: Time): Row
    requires body.Financial?
  {
    r.(status := if ReviewNeeded(body) then ReviewRequired else Acknowledged,
       deliveredAt := Some(now), leaseUntil := None, token := None,
       consumptionId := Some(body.consumptionId), ledgerId := body.ledgerId, lastError := None)
  }

  /** The CHECK on acknowledged rows. */
  predicate AckShape(r: Row) {
    r.status == Acknowledged ==> r.deliveredAt.Some? && r.consumptionId.Some? && r.ledgerId.Some?
  }

  /** None when the row refuses the update and the transaction rolls back with an error. */
  function RecordSuccess(f: File, c: Claim, status: int, body: Body, started: Time, now: Time): Option<File>
    requires body.Financial?
  {
    if !Holds(f.row, c) then Some(f)
    else if !AckShape(Delivered(f.row, body, now)) || now < started then None
    else
      Some(File(Delivered(f.row, body, now),
                f.attempts + [Attempt(c.number, if ReviewNeeded(body) then ReviewAttempt else AcknowledgedAttempt,
                                      Some(status), None)],
                f.failures))
  }

  predicate IsPermanent(c: Claim, code: ErrorCode) { code == PermanentResponse || c.number >= L.MAX_ATTEMPTS }

  /** None when the attempt ends before it starts, which its row refuses too. */
  function RecordFailure(f: File, c: Claim, status: Option<int>, code: ErrorCode, started: Time,
                         now: Time): Option<File>
  {
    if !Holds(f.row, c) then Some(f)
    else if now < started then None
    else Some(Failed(f, c, status, code, now))
  }

  function Failed(f: File, c: Claim, status: Option<int>, code: ErrorCode, now: Time): File {
    File(f.row.(status := if IsPermanent(c, code) then DeadLetter else RetryWait, leaseUntil := None, token := None,
                nextAttemptAt := Some(now + L.Backoff(c.number) * 1000), lastError := Some(code)),
         f.attempts + [Attempt(c.number, if IsPermanent(c, code) then PermanentFailure else RetryableFailure, status,
                               Some(code))],
         if IsPermanent(c, code) then f.failures + [code] else f.failures)
  }

  /** A worker that started its attempt at one time reports what it saw at another. */
  function Report(f: File, c: Claim, reply: Reply, started: Time, now: Time): Option<File> {
    if Settles(c, reply) then RecordSuccess(f, c, reply.status, reply.body, started, now)
    else RecordFailure(f, c, if reply.Answer? then Some(reply.status) else None, FailureCode(reply), started, now)
  }

  // ---- all workers ----

  /** The rows, and every claim ever handed out; a worker may report on any of them at any time. */
  datatype World = World(files: seq<File>, claims: set<Claim>)

  datatype Step =
    | Issue(at: Time)
    | Take(row: Id, token: Token, now: Time)
    | Tell(claim: Claim, reply: Reply, started: Time, now: Time)

  predicate FreshToken(w: World, token: Token) { forall c :: c in w.claims ==> c.token != token }

  predicate Possible(w: World, s: Step) {
    match s
    case Issue(_) => true
    case Take(i, token, now) => i < |w.files| && Claimable(w.files[i].row, now) && FreshToken(w, token)
    case Tell(c, _, _, _) => c in w.claims && c.row < |w.files|
  }

  function Next(w: World, s: Step): World {
    if !Possible(w, s) then w
    else match s
      case Issue(at) => w.(files := w.files + [File(NewRow(at), [], [])])
      case Take(i, token, now) =>
        var f := w.files[i].(row := Claimed(w.files[i].row, token, now));
        World(w.files[i := f], w.claims + {Claim(i, token, f.row.attemptCount)})
      case Tell(c, reply, started, now) =>
        var f := Report(w.files[c.row], c, reply, started, now);
        if f.Some? then w.(files := w.files[c.row := f.value]) else w
  }

  function Run(w: World, steps: seq<Step>): World {
    if steps == [] then w else Next(Run(w, steps[..|steps| - 1]), steps[|steps| - 1])
  }

  const START := World([], {})

  // ---- the invariant ----

  predicate IsFinal(status: Status) { status in {Acknowledged, ReviewRequired, DeadLetter} }

  ghost predicate LastOutcome(f: File) {
    f.attempts != [] &&
    var outcome := f.attempts[|f.attempts| - 1].outcome;
    match f.row.status
    case Acknowledged => outcome == AcknowledgedAttempt
    case ReviewRequired => outcome == ReviewAttempt
    case DeadLetter => outcome == PermanentFailure
    case _ => outcome == RetryableFailure
  }

  ghost predicate AttemptsOk(f: File) {
    && (forall j, k :: 0 <= j < k < |f.attempts| ==> f.attempts[j].number < f.attempts[k].number)
    && (forall k :: 0 <= k < |f.attempts| ==> 1 <= f.attempts[k].number <= f.row.attemptCount)
    && (forall k :: 0 <= k < |f.attempts| - 1 ==> f.attempts[k].outcome == RetryableFailure)
    && (forall k :: 0 <= k < |f.attempts| && f.attempts[k].outcome == RetryableFailure ==>
          f.attempts[k].number < L.MAX_ATTEMPTS)
    && (IsFinal(f.row.status) || f.attempts != [] ==> LastOutcome(f))
    && (f.row.status == Leased && f.attempts != [] ==> f.attempts[|f.attempts| - 1].number < f.row.attemptCount)
  }

  ghost predicate FileOk(f: File) {
    && (f.row.status == Leased <==> f.row.token.Some?) && (f.row.token.Some? <==> f.row.leaseUntil.Some?)
    && (f.row.status == Leased ==> f.row.attemptCount > 0)
    && AckShape(f.row)
    && AttemptsOk(f)
    && (if f.row.status == DeadLetter then f.row.lastError.Some? && f.failures == [f.row.lastError.value]
        else f.failures == [])
  }

  /** Tokens are never reused, and a row counts its claims: the token it holds is that of its latest claim. */
  ghost predicate ClaimsOk(w: World) {
    && (forall c, d :: c in w.claims && d in w.claims && c.token == d.token ==> c == d)
    && (forall c, d :: c in w.claims && d in w.claims && c.row == d.row && c.number == d.number ==> c == d)
    && (forall c :: c in w.claims ==> c.row < |w.files| && 1 <= c.number <= w.files[c.row].row.attemptCount)
    && (forall i :: 0 <= i < |w.files| && w.files[i].row.token.Some?
                    ==> Claim(i, w.files[i].row.token.value, w.files[i].row.attemptCount) in w.claims)
  }

  ghost predicate Sound(w: World) { ClaimsOk(w) && forall i :: 0 <= i < |w.files| ==> FileOk(w.files[i]) }

  lemma ClaimKeepsFile(f: File, token: Token, now: Time)
    requires FileOk(f) && Claimable(f.row, now)
    ensures FileOk(f.(row := Claimed(f.row, token, now)))
  {
  }

  function OutcomeStatus(outcome: Outcome): Status {
    match outcome
    case AcknowledgedAttempt => Acknowledged
    case ReviewAttempt => ReviewRequired
    case RetryableFailure => RetryWait
    case PermanentFailure => DeadLetter
  }

  /** Recording the attempt of the current claim. */
  lemma RecordKeepsAttempts(f: File, g: File, a: Attempt)
    requires AttemptsOk(f) && f.row.status == Leased && f.row.attemptCount > 0
    requires g.row.attemptCount == f.row.attemptCount
    requires g.attempts == f.attempts + [a] && a.number == f.row.attemptCount
    requires g.row.status == OutcomeStatus(a.outcome) && (a.outcome == RetryableFailure ==> a.number < L.MAX_ATTEMPTS)
    ensures AttemptsOk(g)
  {
  }

  lemma ReportKeepsFile(f: File, c: Claim, reply: Reply, started: Time, now: Time)
    requires FileOk(f) && (Holds(f.row, c) ==> c.number == f.row.attemptCount)
    requires Report(f, c, reply, started, now).Some?
    ensures var g := Report(f, c, reply, started, now).value;
            && FileOk(g) && g.row.attemptCount == f.row.attemptCount && f.attempts <= g.attempts
            && (g.row.token.Some? ==> g.row.token == f.row.token)
            && (IsFinal(f.row.status) ==> g == f)
  {
    hide L.Backoff, AttemptsOk, Settles, FailureCode;
    if Holds(f.row, c) {
      var g := Report(f, c, reply, started, now).value;
      RecordKeepsAttempts(f, g, g.attempts[|f.attempts|]);
    }
  }

  /** Whoever holds a row's token holds its latest claim. */
  lemma HolderIsLatest(w: World, c: Claim)
    requires ClaimsOk(w) && c in w.claims && Holds(w.files[c.row].row, c)
    ensures c.number == w.files[c.row].row.attemptCount
    ensures forall d :: d in w.claims && d.row == c.row && d != c ==> d.number < c.number
  {
  }

  lemma NextKeeps(w: World, s: Step)
    requires Sound(w)
    ensures Sound(Next(w, s)) && |w.files| <= |Next(w, s).files|
    ensures forall i :: 0 <= i < |w.files| ==> w.files[i].attempts <= Next(w, s).files[i].attempts
    ensures forall i :: 0 <= i < |w.files| && IsFinal(w.files[i].row.status) ==> Next(w, s).files[i] == w.files[i]
  {
    hide FileOk, Report, Claimable;
    if Possible(w, s) {
      match s {
        case Issue(at) => assert FileOk(File(NewRow(at), [], [])) by { NewIsOk(at); }
        case Take(i, token, now) =>
          ClaimKeepsFile(w.files[i], token, now);
          TakeKeepsClaims(w, s);
          ClaimableIsOpen(w.files[i].row, now);
        case Tell(_, _, _, _) => TellKeeps(w, s);
      }
    }
  }

  lemma TellKeeps(w: World, s: Step)
    requires Sound(w) && s.Tell? && Possible(w, s)
    ensures Sound(Next(w, s)) && |w.files| <= |Next(w, s).files|
    ensures forall i :: 0 <= i < |w.files| ==> w.files[i].attempts <= Next(w, s).files[i].attempts
    ensures forall i :: 0 <= i < |w.files| && IsFinal(w.files[i].row.status) ==> Next(w, s).files[i] == w.files[i]
  {
    hide FileOk, Report, Claimable;
    var c := s.claim;
    if Holds(w.files[c.row].row, c) { HolderIsLatest(w, c); }
    if Report(w.files[c.row], c, s.reply, s.started, s.now).Some? {
      ReportKeepsFile(w.files[c.row], c, s.reply, s.started, s.now);
    }
  }

  lemma NewIsOk(at: Time)
    ensures FileOk(File(NewRow(at), [], []))
  {
  }

  lemma ClaimableIsOpen(r: Row, now: Time)
    requires Claimable(r, now)
    ensures !IsFinal(r.status)
  {
  }

  lemma TakeKeepsClaims(w: World, s: Step)
    requires Sound(w) && s.Take? && Possible(w, s)
    ensures ClaimsOk(Next(w, s))
  {
    hide FileOk, Claimable;
  }

  lemma {:induction false} RunKeeps(w: World, steps: seq<Step>)
    requires Sound(w)
    ensures Sound(Run(w, steps)) && |w.files| <= |Run(w, steps).files|
    ensures forall i :: 0 <= i < |w.files| ==> w.files[i].attempts <= Run(w, steps).files[i].attempts
    ensures forall i :: 0 <= i < |w.files| && IsFinal(w.files[i].row.status) ==> Run(w, steps).files[i] == w.files[i]
  {
    hide Sound, Next;
    if steps != [] {
      RunKeeps(w, steps[..|steps| - 1]);
      NextKeeps(Run(w, steps[..|steps| - 1]), steps[|steps| - 1]);
    }
  }

  ghost predicate Reachable(w: World) { exists steps :: w == Run(START, steps) }

  lemma ReachableSound(w: World)
    requires Reachable(w)
    ensures Sound(w)
  {
    hide Run, FileOk;
    var steps :| w == Run(START, steps);
    RunKeeps(START, steps);
  }

  // ---- the promises ----

  /** Fencing: whatever a worker reports and however late, it changes at most its own row, and only while it
      holds that row's token, which is then the token of the row's latest claim. */
  lemma OnlyLatestClaimWrites(w: World, c: Claim, reply: Reply, started: Time, now: Time)
    requires Reachable(w) && c in w.claims && Next(w, Tell(c, reply, started, now)) != w
    ensures c.row < |w.files| && w.files[c.row].row.status == Leased && w.files[c.row].row.token == Some(c.token)
    ensures c.number == w.files[c.row].row.attemptCount
    ensures forall d :: d in w.claims && d.row == c.row && d != c ==> d.number < c.number
    ensures var w' := Next(w, Tell(c, reply, started, now));
            w'.claims == w.claims && |w'.files| == |w.files| && w'.files == w.files[c.row := w'.files[c.row]]
  {
    hide Run, FileOk, Reachable;
    ReachableSound(w);
    assert w.files[c.row := w.files[c.row]] == w.files;
    assert Holds(w.files[c.row].row, c);
    HolderIsLatest(w, c);
  }

  /** Final rows never change again and recorded attempts are never lost, in every continuation of every run. */
  lemma {:induction false} FinalStatusesStay(w: World, steps: seq<Step>, i: Id)
    requires Reachable(w) && i < |w.files|
    ensures i < |Run(w, steps).files| && w.files[i].attempts <= Run(w, steps).files[i].attempts
    ensures IsFinal(w.files[i].row.status) ==> Run(w, steps).files[i] == w.files[i]
  {
    hide Run, FileOk, Reachable;
    ReachableSound(w);
    RunKeeps(w, steps);
  }

  /** The claim counts at which recorded failures sent the row back. */
  function RetryNumbers(attempts: seq<Attempt>): (r: seq<nat>)
    ensures |r| <= |attempts|
  {
    if attempts == [] then []
    else
      var last := attempts[|attempts| - 1];
      RetryNumbers(attempts[..|attempts| - 1]) + if last.outcome == RetryableFailure then [last.number] else []
  }

  lemma {:induction false} AllRetries(attempts: seq<Attempt>)
    requires forall k :: 0 <= k < |attempts| ==> attempts[k].outcome == RetryableFailure
    ensures |RetryNumbers(attempts)| == |attempts|
    ensures forall k :: 0 <= k < |attempts| ==> RetryNumbers(attempts)[k] == attempts[k].number
  {
    if attempts != [] {
      var n := |attempts| - 1;
      AllRetries(attempts[..n]);
      assert RetryNumbers(attempts) == RetryNumbers(attempts[..n]) + [attempts[n].number];
    }
  }

  /** The retry numbers are those of all attempts, but for a last one that settled the row. */
  lemma RetriesOf(f: File)
    requires AttemptsOk(f)
    ensures L.Increasing(RetryNumbers(f.attempts))
    ensures forall k :: 0 <= k < |RetryNumbers(f.attempts)| ==> 1 <= RetryNumbers(f.attempts)[k] < L.MAX_ATTEMPTS
    ensures |RetryNumbers(f.attempts)| == |f.attempts| - if IsFinal(f.row.status) then 1 else 0
  {
    hide RetryNumbers;
    if IsFinal(f.row.status) {
      var n := |f.attempts| - 1;
      AllRetries(f.attempts[..n]);
      assert f.attempts == f.attempts[..n] + [f.attempts[n]];
      RetryAppended(f.attempts[..n], f.attempts[n]);
    } else {
      AllRetries(f.attempts);
    }
  }

  /** Delivery bounds, at every point of every run: at most 12 attempts are ever recorded for an attestation, with
      strictly increasing numbers; at most 11 of them are retryable, and the waiting they impose never
      exceeds 4094 seconds, the cap of an hour never being reached. */
  lemma DeliveryIsBounded(w: World, i: Id)
    requires Reachable(w) && i < |w.files|
    ensures |w.files[i].attempts| <= 12
    ensures forall j, k :: 0 <= j < k < |w.files[i].attempts| ==>
              w.files[i].attempts[j].number < w.files[i].attempts[k].number
    ensures var retries := RetryNumbers(w.files[i].attempts);
            && |retries| <= 11 && L.TotalBackoff(retries) <= 4094
            && forall k :: 0 <= k < |retries| ==> L.Backoff(retries[k]) == L.Power(retries[k]) < 3600
  {
    hide Run, Reachable, L.Backoff, L.TotalBackoff, RetryNumbers, L.Power;
    ReachableSound(w);
    var f := w.files[i];
    assert FileOk(f);
    RetriesOf(f);
    var retries := RetryNumbers(f.attempts);
    L.BackoffBound(retries, 11);
    assert L.Power(12) == 4096 by { PowerTwelve(); }
    forall k | 0 <= k < |retries|
      ensures L.Backoff(retries[k]) == L.Power(retries[k]) < 3600
    {
      L.CapNeverBinds(retries[k]);
    }
  }

  lemma PowerTwelve()
    ensures L.Power(12) == 4096
  {
  }

  /** A row is dead-lettered exactly when it has one failure-evidence row, which carries its last error; every
      other row has none. */
  lemma DeadLetterIffEvidence(w: World, i: Id)
    requires Reachable(w) && i < |w.files|
    ensures w.files[i].row.status == DeadLetter <==> |w.files[i].failures| == 1
    ensures |w.files[i].failures| <= 1
    ensures w.files[i].row.status == DeadLetter ==> w.files[i].row.lastError == Some(w.files[i].failures[0])
  {
    hide Run, Reachable, ClaimsOk, AttemptsOk;
    ReachableSound(w);
    assert FileOk(w.files[i]);
  }

  // ---- what each step writes ----

  /** The worker's lease is the one the row is under. */
  predicate IsHolder(w: World, c: Claim) {
    && c in w.claims && c.row < |w.files|
    && w.files[c.row].row.status == Leased && w.files[c.row].row.token == Some(c.token)
  }

  /** The reply says about this attestation what became of it. */
  predicate Concerns(c: Claim, reply: Reply) {
    match reply
    case NoAnswer => false
    case Answer(status, body) =>
      (status == 200 || status == 201) && body.Financial? && body.attestationId == c.row
  }

  /** No answer, or one that asks for patience or admits a fault of the other side. */
  predicate IsTransient(reply: Reply) {
    match reply
    case NoAnswer => true
    case Answer(status, _) => status == 408 || status == 429 || status >= 500
  }

  /** A new attestation is pending, unclaimed and due from the time it was issued. */
  lemma IssueOutcome(w: World, at: Time)
    ensures Next(w, Issue(at)) ==
            w.(files := w.files + [File(Row(Pending, 0, None, None, Some(at), None, None, None, None), [], [])])
  {
  }

  /** In any state a row can be claimed exactly when it is pending or waits and its time has come, or its lease has
      lapsed; the claim leases it for 60 seconds under the fresh token and counts it. */
  lemma ClaimOutcome(w: World, i: Id, token: Token, now: Time)
    requires i < |w.files| && (forall c :: c in w.claims ==> c.token != token)
    ensures var f, w' := w.files[i], Next(w, Take(i, token, now));
            var ready := f.row.status in {Pending, RetryWait}
                         && (f.row.nextAttemptAt.None? || f.row.nextAttemptAt.value <= now);
            var lapsed := f.row.status == Leased && f.row.leaseUntil.Some? && f.row.leaseUntil.value <= now;
            if !ready && !lapsed then w' == w
            else
              var n := f.row.attemptCount + 1;
              var row := f.row.(status := Leased, attemptCount := n, token := Some(token),
                                leaseUntil := Some(now + 60000));
              w' == World(w.files[i := f.(row := row)], w.claims + {Claim(i, token, n)})
  {
  }

  /** In any state a settling reply from the holder is refused if and only if it accepts the delivery without a ledger
      transaction, or the clock reads less than when the attempt started; the row then stays leased exactly as it was,
      until its lease lapses. Otherwise the row is settled with what the reply says: it needs a review when
      the reply asks for one, or reports a duplicate without a ledger transaction. */
  lemma SuccessRecordedIff(w: World, c: Claim, reply: Reply, started: Time, now: Time)
    requires IsHolder(w, c) && Concerns(c, reply)
    ensures var f, body, w' := w.files[c.row], reply.body, Next(w, Tell(c, reply, started, now));
            var refused := (body.verdict == Accepted && body.ledgerId.None?) || now < started;
            var review := body.verdict == NeedsReview || (body.verdict == DuplicateDelivery && body.ledgerId.None?);
            if refused then w' == w
            else
              w' == w.(files := w.files[c.row := File(
                f.row.(status := if review then ReviewRequired else Acknowledged, deliveredAt := Some(now),
                       leaseUntil := None, token := None, consumptionId := Some(body.consumptionId),
                       ledgerId := body.ledgerId, lastError := None),
                f.attempts + [Attempt(c.number, if review then ReviewAttempt else AcknowledgedAttempt,
                                      Some(reply.status), None)],
                f.failures)])
  {
  }

  /** In any state every other reply from the holder, unless it ends before it began, sends the row back if and only if
      fewer than 12 claims have been counted and the reply is transient; it then waits twice as long as after
      the claim before. Otherwise the row is dead-lettered with one failure-evidence row. The error is named after
      the reply either way. */
  lemma FailureRecordedIff(w: World, c: Claim, reply: Reply, started: Time, now: Time)
    requires IsHolder(w, c) && !Concerns(c, reply)
    ensures var f, w' := w.files[c.row], Next(w, Tell(c, reply, started, now));
            var back := c.number < 12 && IsTransient(reply);
            var code := if reply.NoAnswer? then NetworkError
                        else if IsTransient(reply) then RetryableResponse else PermanentResponse;
            if now < started then w' == w
            else
              w' == w.(files := w.files[c.row := File(
                f.row.(status := if back then RetryWait else DeadLetter, leaseUntil := None, token := None,
                       nextAttemptAt := Some(now + 1000 * L.DelayAfter(c.number)), lastError := Some(code)),
                f.attempts + [Attempt(c.number, if back then RetryableFailure else PermanentFailure,
                                      if reply.Answer? then Some(reply.status) else None, Some(code))],
                if back then f.failures else f.failures + [code])])
  {
    hide L.Backoff;
    L.BackoffIsDelay(c.number);
  }

  // ---- refinement ----

  function Phase(r: Row): L.Phase {
    match r.status
    case Leased => if r.token.Some? && r.leaseUntil.Some? then L.InFlight(r.token.value, r.leaseUntil.value) else L.Dead
    case DeadLetter => L.Dead
    case Acknowledged | ReviewRequired => L.Done
    case _ => L.Ready(r.nextAttemptAt)
  }

  /** A row not issued yet is fresh. */
  function Abstract(w: World, i: Id): L.State {
    if i < |w.files| then L.State(w.files[i].row.attemptCount, Phase(w.files[i].row), RetryNumbers(w.files[i].attempts))
    else L.FRESH
  }

  /** What a step is for one row. */
  function ActionOf(w: World, s: Step, i: Id): L.Action {
    if !Possible(w, s) then L.Skip
    else match s
      case Issue(at) => if i == |w.files| then L.Issue(at) else L.Skip
      case Take(j, token, now) => if j == i then L.Claim(token, now) else L.Skip
      case Tell(c, reply, started, now) =>
        if c.row != i || !Holds(w.files[i].row, c) || Report(w.files[i], c, reply, started, now).None? then L.Skip
        else if Settles(c, reply) then L.Finish(c.token)
        else if IsPermanent(c, FailureCode(reply)) then L.Kill(c.token)
        else L.Retry(c.token, now)
  }

  lemma RetryAppended(attempts: seq<Attempt>, a: Attempt)
    ensures RetryNumbers(attempts + [a]) ==
              RetryNumbers(attempts) + if a.outcome == RetryableFailure then [a.number] else []
  {
    assert (attempts + [a])[..|attempts|] == attempts;
  }

  /** Every step is, for every row, an allowed step of the abstract machine. */
  lemma StepRefines(w: World, s: Step, i: Id)
    requires Sound(w)
    ensures L.Allowed(Abstract(w, i), ActionOf(w, s, i), Abstract(Next(w, s), i))
  {
    hide AttemptsOk, RetryNumbers, L.Backoff, ClaimsOk;
    if Possible(w, s) && i < |w.files| {
      assert FileOk(w.files[i]);
      if s.Tell? && s.claim.row == i && Holds(w.files[i].row, s.claim) {
        HolderIsLatest(w, s.claim);
        var f := Report(w.files[i], s.claim, s.reply, s.started, s.now);
        if f.Some? { RetryAppended(w.files[i].attempts, f.value.attempts[|w.files[i].attempts|]); }
      }
    }
    assert RetryNumbers([]) == [] by { NoRetries(); }
  }

  lemma NoRetries()
    ensures RetryNumbers([]) == []
  {
  }

  /** One row after each prefix of a run, and what each step is for it. */
  function States(steps: seq<Step>, i: Id): seq<L.State> {
    seq(|steps| + 1, k requires 0 <= k <= |steps| => Abstract(Run(START, steps[..k]), i))
  }

  function Actions(steps: seq<Step>, i: Id): seq<L.Action> {
    seq(|steps|, k requires 0 <= k < |steps| => ActionOf(Run(START, steps[..k]), steps[k], i))
  }

  /** Every run is, row by row, a behaviour of the abstract leased machine. */
  lemma RunRefines(steps: seq<Step>, i: Id)
    ensures L.Behaves(States(steps, i), Actions(steps, i))
    ensures forall k :: 0 <= k <= |steps| ==> States(steps, i)[k] == Abstract(Run(START, steps[..k]), i)
  {
    hide Sound, Next, Abstract, ActionOf, L.Allowed;
    StartIsFresh(i);
    StartIsSound();
    forall k | 0 <= k < |steps| ensures L.Allowed(States(steps, i)[k], Actions(steps, i)[k], States(steps, i)[k + 1]) {
      assert steps[..k + 1][..k] == steps[..k];
      RunKeeps(START, steps[..k]);
      StepRefines(Run(START, steps[..k]), steps[k], i);
    }
  }

  lemma StartIsFresh(i: Id)
    ensures Abstract(START, i) == L.FRESH
  {
  }

  lemma StartIsSound()
    ensures Sound(START)
  {
  }
}
