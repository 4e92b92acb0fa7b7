/** Delivery of security evidence: the same leases without a status of their own. A claim only pushes the
    next attempt away and stores its token; the row stays pending or waiting while a worker has it. */
module EvidenceDelivery {
  import opened Wrappers
  import L = Leases

  type Id = nat
  type Token = L.Token
  type Time = int

  datatype Status = Pending | RetryWait | Delivered | DeadLetter

  datatype Row = Row(status: Status, attemptCount: nat, token: Option<Token>, nextAttemptAt: Option<Time>,
                     deliveredAt: Option<Time>)

  /** A new row is due from the time it was created. */
  function NewRow(createdAt: Time): Row { Row(Pending, 0, None, Some(createdAt), None) }

  datatype Claim = Claim(row: Id, token: Token, number: nat)

  predicate Open(r: Row) { r.status in {Pending, RetryWait} }

  predicate Claimable(r: Row, now: Time) { Open(r) && (r.nextAttemptAt.None? || r.nextAttemptAt.value <= now) }

  function Claimed(r: Row, token: Token, now: Time): Row {
    r.(attemptCount := r.attemptCount + 1, nextAttemptAt := Some(now + L.LEASE_MS), token := Some(token))
  }

  datatype Reply = NoAnswer | Answer(status: int)

  predicate Holds(r: Row, c: Claim) { r.token == Some(c.token) && Open(r) }

  predicate Settles(reply: Reply) { reply.Answer? && reply.status in {200, 201} }

  predicate Refuses(reply: Reply) {
    reply.Answer? && 400 <= reply.status < 500 && reply.status != 408 && reply.status != 429
  }

  function Report(r: Row, c: Claim, reply: Reply, now: Time): Row {
    if !Holds(r, c) then r
    else if Settles(reply) then r.(status := Delivered, deliveredAt := Some(now), token := None)
    else
      r.(status := if Refuses(reply) || c.number >= L.MAX_ATTEMPTS then DeadLetter else RetryWait,
         nextAttemptAt := Some(now + L.Backoff(c.number) * 1000), token := None)
  }

  // ---- all workers ----

  /** The rows with the claim counts at which a report sent each back, and every claim ever handed out. */
  datatype World = World(rows: seq<Row>, retries: seq<seq<nat>>, claims: set<Claim>)

  datatype Step = Issue(at: Time) | Take(row: Id, token: Token, now: Time) | Tell(claim: Claim, reply: Reply, now: Time)

  predicate FreshToken(w: World, token: Token) { forall c :: c in w.claims ==> c.token != token }

  predicate Possible(w: World, s: Step) {
    |w.retries| == |w.rows| &&
    match s
    case Issue(_) => true
    case Take(i, token, now) => i < |w.rows| && Claimable(w.rows[i], now) && FreshToken(w, token)
    case Tell(c, _, _) => c in w.claims && c.row < |w.rows|
  }

  predicate SendsBack(r: Row, c: Claim, reply: Reply) {
    Holds(r, c) && !Settles(reply) && !Refuses(reply) && c.number < L.MAX_ATTEMPTS
  }

  function Next(w: World, s: Step): World {
    if !Possible(w, s) then w
    else match s
      case Issue(at) => w.(rows := w.rows + [NewRow(at)], retries := w.retries + [[]])
      case Take(i, token, now) =>
        w.(rows := w.rows[i := Claimed(w.rows[i], token, now)],
           claims := w.claims + {Claim(i, token, w.rows[i].attemptCount + 1)})
      case Tell(c, reply, now) =>
        var r := w.rows[c.row];
        w.(rows := w.rows[c.row := Report(r, c, reply, now)],
           retries := if SendsBack(r, c, reply) then w.retries[c.row := w.retries[c.row] + [c.number]] else w.retries)
  }

  function Run(w: World, steps: seq<Step>): World {
    if steps == [] then w else Next(Run(w, steps[..|steps| - 1]), steps[|steps| - 1])
  }

  const START := World([], [], {})

  ghost predicate RowOk(r: Row) {
    && (r.token.Some? ==> Open(r) && r.nextAttemptAt.Some?)
    && (r.status == Delivered ==> r.deliveredAt.Some?)
  }

  ghost predicate Sound(w: World) {
    && |w.retries| == |w.rows|
    && (forall i :: 0 <= i < |w.rows| ==> RowOk(w.rows[i]))
    && (forall c, d :: c in w.claims && d in w.claims && c.token == d.token ==> c == d)
    && (forall c, d :: c in w.claims && d in w.claims && c.row == d.row && c.number == d.number ==> c == d)
    && (forall c :: c in w.claims ==> c.row < |w.rows| && 1 <= c.number <= w.rows[c.row].attemptCount)
    && (forall i :: 0 <= i < |w.rows| && w.rows[i].token.Some? ==>
          Claim(i, w.rows[i].token.value, w.rows[i].attemptCount) in w.claims)
  }

  lemma HolderIsLatest(w: World, c: Claim)
    requires Sound(w) && c in w.claims && Holds(w.rows[c.row], c)
    ensures c.number == w.rows[c.row].attemptCount
    ensures forall d :: d in w.claims && d.row == c.row && d != c ==> d.number < c.number
  {
  }

  lemma NextKeeps(w: World, s: Step)
    requires Sound(w)
    ensures Sound(Next(w, s))
  {
    hide L.Backoff;
  }

  lemma {:induction false} RunKeeps(w: World, steps: seq<Step>)
    requires Sound(w)
    ensures Sound(Run(w, steps))
  {
    hide Sound, Next;
    if steps != [] {
      RunKeeps(w, steps[..|steps| - 1]);
      NextKeeps(Run(w, steps[..|steps| - 1]), steps[|steps| - 1]);
    }
  }

  // ---- refinement ----

  function Phase(r: Row): L.Phase {
    match r.status
    case Delivered => L.Done
    case DeadLetter => L.Dead
    case _ => if r.token.Some? && r.nextAttemptAt.Some? then L.InFlight(r.token.value, r.nextAttemptAt.value)
              else L.Ready(r.nextAttemptAt)
  }

  function Abstract(w: World, i: Id): L.State {
    if i < |w.rows| && i < |w.retries| then L.State(w.rows[i].attemptCount, Phase(w.rows[i]), w.retries[i]) else L.FRESH
  }

  function ActionOf(w: World, s: Step, i: Id): L.Action {
    if !Possible(w, s) then L.Skip
    else match s
      case Issue(at) => if i == |w.rows| then L.Issue(at) else L.Skip
      case Take(j, token, now) => if j == i then L.Claim(token, now) else L.Skip
      case Tell(c, reply, now) =>
        if c.row != i || !Holds(w.rows[i], c) then L.Skip
        else if Settles(reply) then L.Finish(c.token)
        else if SendsBack(w.rows[i], c, reply) then L.Retry(c.token, now)
        else L.Kill(c.token)
  }

  /** Every step is, for every row, an allowed step of the abstract machine. */
  lemma StepRefines(w: World, s: Step, i: Id)
    requires Sound(w)
    ensures L.Allowed(Abstract(w, i), ActionOf(w, s, i), Abstract(Next(w, s), i))
  {
    hide L.Backoff;
    if Possible(w, s) && s.Tell? && s.claim.row == i && Holds(w.rows[i], s.claim) { HolderIsLatest(w, s.claim); }
  }

  /** One row after each prefix of a run, and what each step is for it. */
  function States(steps: seq<Step>, i: Id): seq<L.State> {
    seq(|steps| + 1, k requires 0 <= k <= |steps| => Abstract(Run(START, steps[..k]), i))
  }

  function Actions(steps: seq<Step>, i: Id): seq<L.Action> {
    seq(|steps|, k requires 0 <= k < |steps| => ActionOf(Run(START, steps[..k]), steps[k], i))
  }

  /** Every run is, row by row, a behaviour of the same abstract machine as funding delivery. */
  lemma RunRefines(steps: seq<Step>, i: Id)
    ensures L.Behaves(States(steps, i), Actions(steps, i))
    ensures forall k :: 0 <= k <= |steps| ==> States(steps, i)[k] == Abstract(Run(START, steps[..k]), i)
  {
    hide Sound, Next, Abstract, ActionOf, L.Allowed;
    StartIsFresh(i);
    StartIsSound();
    forall k | 0 <= k < |steps| ensures L.Allowed(States(steps, i)[k], Actions(steps, i)[k], States(steps, i)[k + 1]) {
      assert steps[..k + 1][..k] == steps[..k];
      RunKeeps(START, steps[..k]);
      StepRefines(Run(START, steps[..k]), steps[k], i);
    }
  }

  lemma StartIsFresh(i: Id)
    ensures Abstract(START, i) == L.FRESH
  {
  }

  lemma StartIsSound()
    ensures Sound(START)
  {
  }

  // ---- the promises ----

  /** Fencing: a report changes at most its own row, and only while it holds the token of that row's latest claim. */
  lemma OnlyLatestClaimWrites(steps: seq<Step>, c: Claim, reply: Reply, now: Time)
    requires var w := Run(START, steps); c in w.claims && Next(w, Tell(c, reply, now)) != w
    ensures var w := Run(START, steps);
            && c.row < |w.rows| && w.rows[c.row].token == Some(c.token) && Open(w.rows[c.row])
            && c.number == w.rows[c.row].attemptCount
            && forall d :: d in w.claims && d.row == c.row && d != c ==> d.number < c.number
  {
    hide Run;
    var w := Run(START, steps);
    assert Sound(w) by { assert Sound(START) by { StartIsSound(); } RunKeeps(START, steps); }
    assert w.rows[c.row := w.rows[c.row]] == w.rows;
    assert Holds(w.rows[c.row], c);
    HolderIsLatest(w, c);
  }

  /** A new row is pending, unclaimed and due from the time it was created. */
  lemma IssueOutcome(steps: seq<Step>, at: Time)
    ensures var w := Run(START, steps);
            Next(w, Issue(at)) ==
            w.(rows := w.rows + [Row(Pending, 0, None, Some(at), None)], retries := w.retries + [[]])
  {
    hide Run;
    assert Sound(Run(START, steps)) by { RunSound(steps); }
  }

  /** In every run a row can be claimed exactly when it is open and its time has come; it keeps its status, and becomes
      due again 60 seconds later. */
  lemma ClaimOutcome(steps: seq<Step>, i: Id, token: Token, now: Time)
    requires var w := Run(START, steps); i < |w.rows| && forall c :: c in w.claims ==> c.token != token
    ensures var w := Run(START, steps);
            var r, w' := w.rows[i], Next(w, Take(i, token, now));
            if r.status in {Delivered, DeadLetter} || (r.nextAttemptAt.Some? && r.nextAttemptAt.value > now) then
              w' == w
            else
              var n := r.attemptCount + 1;
              var row := r.(attemptCount := n, nextAttemptAt := Some(now + 60000), token := Some(token));
              w' == w.(rows := w.rows[i := row], claims := w.claims + {Claim(i, token, n)})
  {
    hide Run;
    assert Sound(Run(START, steps)) by { RunSound(steps); }
  }

  lemma RunSound(steps: seq<Step>)
    ensures Sound(Run(START, steps))
  {
    StartIsSound();
    RunKeeps(START, steps);
  }

  /** In every run a reply to the holder of an open row delivers it exactly when it is 200 or 201, sends it back exactly
      when fewer than 12 claims have been counted and the reply is no refusal - a status from 400 to 499 other
      than 408 and 429 - and otherwise dead-letters it; what is sent back waits twice as long as before. */
  lemma ReplyOutcome(steps: seq<Step>, c: Claim, reply: Reply, now: Time)
    requires var w := Run(START, steps);
             c in w.claims && c.row < |w.rows| && w.rows[c.row].status !in {Delivered, DeadLetter}
             && w.rows[c.row].token == Some(c.token)
    ensures var w := Run(START, steps);
            var r, w' := w.rows[c.row], Next(w, Tell(c, reply, now));
            var delivered := reply.Answer? && (reply.status == 200 || reply.status == 201);
            var refused := reply.Answer? && 400 <= reply.status <= 499 && reply.status != 408 && reply.status != 429;
            && w'.claims == w.claims
            && w'.rows == w.rows[c.row :=
                 if delivered then r.(status := Delivered, deliveredAt := Some(now), token := None)
                 else r.(status := if c.number < 12 && !refused then RetryWait else DeadLetter,
                         nextAttemptAt := Some(now + 1000 * L.DelayAfter(c.number)), token := None)]
  {
    hide Run, L.Backoff;
    assert Sound(Run(START, steps)) by { RunSound(steps); }
    L.BackoffIsDelay(c.number);
  }

  /** At every point of every run at most 11 reports have sent a row back, at increasing claim counts, for at most 4094
      seconds in all, and a delivered or dead row is what it was at every later point. */
  lemma DeliveryIsBounded(steps: seq<Step>, more: seq<Step>, i: Id)
    requires i < |Run(START, steps).rows| && i < |Run(START, steps).retries|
    ensures var retries := Run(START, steps).retries[i];
            |retries| <= 11 && L.Increasing(retries) && L.TotalBackoff(retries) <= 4094
    ensures Abstract(Run(START, steps), i).phase in {L.Done, L.Dead} ==>
              Abstract(Run(START, steps + more), i) == Abstract(Run(START, steps), i)
  {
    hide Next, Abstract, ActionOf, L.Allowed, L.Behaves, L.TotalBackoff;
    RunRefines(steps, i);
    L.RetriesAreBounded(States(steps, i), Actions(steps, i), |steps|);
    assert Abstract(Run(START, steps), i).retries == Run(START, steps).retries[i] by {
      AbstractRetries(Run(START, steps), i);
    }
    assert steps[..|steps|] == steps;
    RunRefines(steps + more, i);
    assert (steps + more)[..|steps|] == steps && (steps + more)[..|steps + more|] == steps + more;
    if Abstract(Run(START, steps), i).phase in {L.Done, L.Dead} {
      L.FinalIsFinal(States(steps + more, i), Actions(steps + more, i), |steps|, |steps + more|);
    }
  }

  lemma AbstractRetries(w: World, i: Id)
    requires i < |w.rows| && i < |w.retries|
    ensures Abstract(w, i).retries == w.retries[i]
  {
  }
}
