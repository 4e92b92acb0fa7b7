/** The delivery tables as the two workers change them, in place and statement by statement. */
module DeliveryStore {
  import opened Wrappers
  import L = Leases
  import F = FundingDelivery
  import E = EvidenceDelivery

  class FundingOutbox {
    var rows: seq<F.Row>
    var attempts: seq<seq<F.Attempt>>
    var failures: seq<seq<F.ErrorCode>>

    ghost predicate Valid()
      reads this
    {
      |attempts| == |rows| && |failures| == |rows|
    }

    ghost function Files(): (r: seq<F.File>)
      reads this
      requires Valid()
      ensures |r| == |rows| && forall i :: 0 <= i < |r| ==> r[i] == F.File(rows[i], attempts[i], failures[i])
    {
      seq(|rows|, i requires 0 <= i < |rows| reads this requires Valid() => F.File(rows[i], attempts[i], failures[i]))
    }

    constructor ()
      ensures Valid() && Files() == []
    {
      rows, attempts, failures := [], [], [];
    }

    method Issue(at: F.Time)
      requires Valid()
      modifies this
      ensures Valid() && Files() == old(Files()) + [F.File(F.NewRow(at), [], [])]
    {
      rows, attempts, failures := rows + [F.NewRow(at)], attempts + [[]], failures + [[]];
    }

    /** Lease the oldest row that is ready or whose lease has lapsed. */
    method ClaimOldest(token: F.Token, now: F.Time) returns (claim: Option<F.Claim>)
      requires Valid()
      modifies this`rows
      ensures Valid() && attempts == old(attempts) && failures == old(failures)
      ensures claim.None? ==> rows == old(rows) && forall i :: 0 <= i < |rows| ==> !F.Claimable(rows[i], now)
      ensures claim.Some? ==>
                var i := claim.value.row;
                && i < |old(rows)| && F.Claimable(old(rows)[i], now)
                && (forall j :: 0 <= j < i ==> !F.Claimable(old(rows)[j], now))
                && rows == old(rows)[i := F.Claimed(old(rows)[i], token, now)]
                && claim.value == F.Claim(i, token, old(rows)[i].attemptCount + 1)
      ensures claim.Some? ==>
                Files() == old(Files())[claim.value.row := old(Files())[claim.value.row].(row := rows[claim.value.row])]
    {
      for i := 0 to |rows|
        invariant rows == old(rows) && forall j :: 0 <= j < i ==> !F.Claimable(rows[j], now)
      {
        if F.Claimable(rows[i], now) {
          rows := rows[i := rows[i].(status := F.Leased, attemptCount := rows[i].attemptCount + 1,
                                     leaseUntil := Some(now + L.LEASE_MS), token := Some(token))];
          return Some(F.Claim(i, token, rows[i].attemptCount));
        }
      }
      claim := None;
    }

    method InsertAttempt(i: F.Id, a: F.Attempt)
      requires i < |attempts|
      modifies this`attempts
      ensures attempts == old(attempts)[i := old(attempts)[i] + [a]]
    {
      attempts := attempts[i := attempts[i] + [a]];
    }

    /** False when the acknowledgement, or an attempt that ends before it starts, violates its CHECK: the transaction
        rolls back and the lease stays. */
    method RecordSuccess(c: F.Claim, status: int, body: F.Body, started: F.Time, now: F.Time) returns (ok: bool)
      requires Valid() && c.row < |rows| && body.Financial?
      modifies this
      ensures Valid()
      ensures match F.RecordSuccess(old(Files())[c.row], c, status, body, started, now)
              case None => !ok && Files() == old(Files())
              case Some(f) => ok && Files() == old(Files())[c.row := f]
    {
      var i := c.row;
      if rows[i].token != Some(c.token) || rows[i].status != F.Leased {
        assert Files()[i := Files()[i]] == Files();
        return true;
      }
      var review := body.verdict == F.NeedsReview || (body.verdict == F.DuplicateDelivery && body.ledgerId.None?);
      var updated := rows[i].(
        status := if review then F.ReviewRequired else F.Acknowledged, deliveredAt := Some(now), leaseUntil := None,
        token := None, consumptionId := Some(body.consumptionId), ledgerId := body.ledgerId, lastError := None);
      if !F.AckShape(updated) || now < started { return false; }
      rows := rows[i := updated];
      var outcome := if review then F.ReviewAttempt else F.AcknowledgedAttempt;
      InsertAttempt(i, F.Attempt(c.number, outcome, Some(status), None));
      ok := true;
    }

    method RecordFailure(c: F.Claim, status: Option<int>, code: F.ErrorCode, started: F.Time, now: F.Time)
      returns (ok: bool)
      requires Valid() && c.row < |rows|
      modifies this
      ensures Valid()
      ensures match F.RecordFailure(old(Files())[c.row], c, status, code, started, now)
              case None => !ok && Files() == old(Files())
              case Some(f) => ok && Files() == old(Files())[c.row := f]
    {
      hide L.Backoff;
      var i := c.row;
      var permanent := code == F.PermanentResponse || c.number >= L.MAX_ATTEMPTS;
      if rows[i].token != Some(c.token) || rows[i].status != F.Leased {
        assert Files()[i := Files()[i]] == Files();
        return true;
      }
      if now < started { return false; }
      rows := rows[i := rows[i].(
        status := if permanent then F.DeadLetter else F.RetryWait, leaseUntil := None, token := None,
        nextAttemptAt := Some(now + L.Backoff(c.number) * 1000), lastError := Some(code))];
      var outcome := if permanent then F.PermanentFailure else F.RetryableFailure;
      InsertAttempt(i, F.Attempt(c.number, outcome, status, Some(code)));
      if permanent { failures := failures[i := failures[i] + [code]]; }
      ok := true;
    }

    /** What a worker does with the reply to its claim. */
    method Deliver(c: F.Claim, reply: F.Reply, started: F.Time, now: F.Time) returns (ok: bool)
      requires Valid() && c.row < |rows|
      modifies this
      ensures Valid()
      ensures match F.Report(old(Files())[c.row], c, reply, started, now)
              case None => !ok && Files() == old(Files())
              case Some(f) => ok && Files() == old(Files())[c.row := f]
    {
      hide F.RecordSuccess, F.RecordFailure;
      match reply {
        case NoAnswer => ok := RecordFailure(c, None, F.NetworkError, started, now);
        case Answer(status, body) =>
          if (status == 200 || status == 201) && body.Financial? && body.attestationId == c.row {
            ok := RecordSuccess(c, status, body, started, now);
          } else {
            var retryable := status == 408 || status == 429 || status >= 500;
            var code := if retryable then F.RetryableResponse else F.PermanentResponse;
            ok := RecordFailure(c, Some(status), code, started, now);
          }
      }
    }
  }

  class EvidenceOutbox {
    var rows: seq<E.Row>

    constructor ()
      ensures rows == []
    {
      rows := [];
    }

    method ClaimOldest(token: E.Token, now: E.Time) returns (claim: Option<E.Claim>)
      modifies this
      ensures claim.None? ==> rows == old(rows) && forall i :: 0 <= i < |rows| ==> !E.Claimable(rows[i], now)
      ensures claim.Some? ==>
                var i := claim.value.row;
                && i < |old(rows)| && E.Claimable(old(rows)[i], now)
                && (forall j :: 0 <= j < i ==> !E.Claimable(old(rows)[j], now))
                && rows == old(rows)[i := E.Claimed(old(rows)[i], token, now)]
                && claim.value == E.Claim(i, token, old(rows)[i].attemptCount + 1)
    {
      for i := 0 to |rows|
        invariant rows == old(rows) && forall j :: 0 <= j < i ==> !E.Claimable(rows[j], now)
      {
        if E.Claimable(rows[i], now) {
          rows := rows[i := rows[i].(attemptCount := rows[i].attemptCount + 1, nextAttemptAt := Some(now + L.LEASE_MS),
                                     token := Some(token))];
          return Some(E.Claim(i, token, rows[i].attemptCount));
        }
      }
      claim := None;
    }

    method Retry(c: E.Claim, permanent: bool, now: E.Time)
      requires c.row < |rows|
      modifies this
      ensures rows == if !E.Holds(old(rows)[c.row], c) then old(rows)
                      else old(rows)[c.row := old(rows)[c.row].(
                             status := if permanent || c.number >= L.MAX_ATTEMPTS then E.DeadLetter else E.RetryWait,
                             nextAttemptAt := Some(now + L.Backoff(c.number) * 1000), token := None)]
    {
      hide L.Backoff;
      var r := rows[c.row];
      if r.token != Some(c.token) || r.status !in {E.Pending, E.RetryWait} { return; }
      var dead := permanent || c.number >= L.MAX_ATTEMPTS;
      rows := rows[c.row := r.(status := if dead then E.DeadLetter else E.RetryWait,
                               nextAttemptAt := Some(now + L.Backoff(c.number) * 1000), token := None)];
    }

    method Deliver(c: E.Claim, reply: E.Reply, now: E.Time)
      requires c.row < |rows|
      modifies this
      ensures rows == old(rows)[c.row := E.Report(old(rows)[c.row], c, reply, now)]
    {
      hide L.Backoff;
      match reply {
        case NoAnswer => Retry(c, false, now);
        case Answer(status) =>
          if status == 200 || status == 201 {
            if E.Holds(rows[c.row], c) {
              rows := rows[c.row := rows[c.row].(status := E.Delivered, deliveredAt := Some(now), token := None)];
            }
          } else {
            Retry(c, status >= 400 && status < 500 && status != 408 && status != 429, now);
          }
      }
    }
  }
}
