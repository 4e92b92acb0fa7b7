/** The fake crypto provider: a call checks its sessions, awaits, and checks again before it stores one. Any
    number of calls may be suspended at the await. Fingerprints stand for injective hashes. */
module FakeFundingProvider {
  import opened Wrappers

  type Id = nat

  datatype Input = Input(key: string, intentId: string, playerId: string, asset: string, amount: string)

  datatype Fingerprint = Fingerprint(intentId: string, playerId: string, asset: string, amount: string)

  function FingerprintOf(i: Input): Fingerprint { Fingerprint(i.intentId, i.playerId, i.asset, i.amount) }

  datatype Session = Session(reference: string, paymentUrl: Option<string>)

  datatype Stored = Stored(fingerprint: Fingerprint, session: Session)

  datatype Error = KeyIsNotIntent | KeyReused

  function NewSession(baseUrl: Option<string>, i: Input): Session {
    Session("fake-funding-" + i.intentId,
            if baseUrl.Some? && baseUrl.value != "" then Some(baseUrl.value + "/dev/crypto/funding/" + i.intentId)
            else None)
  }

  /** What the stored session answers. */
  function Lookup(sessions: map<string, Stored>, i: Input): Option<Result<Session, Error>> {
    if i.key !in sessions then None
    else if sessions[i.key].fingerprint != FingerprintOf(i) then Some(Err(KeyReused))
    else Some(Ok(sessions[i.key].session))
  }

  class Provider {
    const baseUrl: Option<string>
    var sessions: map<string, Stored>

    constructor (baseUrl: Option<string>)
      ensures this.baseUrl == baseUrl && sessions == map[]
    {
      this.baseUrl, sessions := baseUrl, map[];
    }

    /** The call up to its await: None when it goes on to await. */
    method Enter(i: Input) returns (answer: Option<Result<Session, Error>>)
      ensures answer == if i.key != i.intentId then Some(Err(KeyIsNotIntent)) else Lookup(sessions, i)
    {
      if i.key != i.intentId { return Some(Err(KeyIsNotIntent)); }
      if i.key in sessions {
        if sessions[i.key].fingerprint != FingerprintOf(i) { return Some(Err(KeyReused)); }
        return Some(Ok(sessions[i.key].session));
      }
      answer := None;
    }

    /** The call after its await. */
    method Resume(i: Input) returns (answer: Result<Session, Error>)
      modifies this
      ensures Lookup(old(sessions), i).Some? ==> answer == Lookup(old(sessions), i).value && sessions == old(sessions)
      ensures Lookup(old(sessions), i).None? ==>
                answer == Ok(NewSession(baseUrl, i))
                && sessions == old(sessions)[i.key := Stored(FingerprintOf(i), NewSession(baseUrl, i))]
    {
      if i.key in sessions {
        if sessions[i.key].fingerprint != FingerprintOf(i) { return Err(KeyReused); }
        return Ok(sessions[i.key].session);
      }
      var session := NewSession(baseUrl, i);
      sessions := sessions[i.key := Stored(FingerprintOf(i), session)];
      answer := Ok(session);
    }
  }

  // ---- interleaved calls ----

  datatype Call = Awaiting(input: Input) | Answered(input: Input, answer: Result<Session, Error>)

  datatype World = World(sessions: map<string, Stored>, calls: map<Id, Call>)

  datatype Step = Begin(call: Id, input: Input) | Continue(call: Id)

  function Next(baseUrl: Option<string>, w: World, s: Step): World {
    match s
    case Begin(c, i) =>
      if c in w.calls then w
      else if i.key != i.intentId then w.(calls := w.calls[c := Answered(i, Err(KeyIsNotIntent))])
      else if Lookup(w.sessions, i).Some? then w.(calls := w.calls[c := Answered(i, Lookup(w.sessions, i).value)])
      else w.(calls := w.calls[c := Awaiting(i)])
    case Continue(c) =>
      if c !in w.calls || !w.calls[c].Awaiting? then w
      else
        var i := w.calls[c].input;
        if Lookup(w.sessions, i).Some? then w.(calls := w.calls[c := Answered(i, Lookup(w.sessions, i).value)])
        else
          World(w.sessions[i.key := Stored(FingerprintOf(i), NewSession(baseUrl, i))],
                w.calls[c := Answered(i, Ok(NewSession(baseUrl, i)))])
  }

  function Run(baseUrl: Option<string>, steps: seq<Step>): World {
    if steps == [] then World(map[], map[]) else Next(baseUrl, Run(baseUrl, steps[..|steps| - 1]), steps[|steps| - 1])
  }

  /** The session of an intent: its reference and its page are named after the intent. */
  function SessionFor(baseUrl: Option<string>, intent: string): Session {
    var page := if baseUrl in {None, Some("")} then None else Some(baseUrl.value + "/dev/crypto/funding/" + intent);
    Session("fake-funding-" + intent, page)
  }

  /** Every session was made for its key, and every answered call agrees with the session stored under its key. */
  ghost predicate Sound(baseUrl: Option<string>, w: World) {
    && (forall k :: k in w.sessions ==> w.sessions[k].fingerprint.intentId == k
                                        && w.sessions[k].session == SessionFor(baseUrl, k))
    && (forall c :: c in w.calls && w.calls[c].Awaiting? ==> w.calls[c].input.key == w.calls[c].input.intentId)
    && (forall c :: c in w.calls && w.calls[c].Answered? && w.calls[c].answer.Ok? ==>
          var i := w.calls[c].input;
          i.key == i.intentId && Lookup(w.sessions, i) == Some(w.calls[c].answer))
  }

  lemma NextKeeps(baseUrl: Option<string>, w: World, s: Step)
    requires Sound(baseUrl, w)
    ensures Sound(baseUrl, Next(baseUrl, w, s))
  {
  }

  lemma {:induction false} RunKeeps(baseUrl: Option<string>, steps: seq<Step>)
    ensures Sound(baseUrl, Run(baseUrl, steps))
  {
    if steps != [] {
      RunKeeps(baseUrl, steps[..|steps| - 1]);
      NextKeeps(baseUrl, Run(baseUrl, steps[..|steps| - 1]), steps[|steps| - 1]);
    }
  }

  /** The parameters of a call are those the stored session was made with. */
  predicate SameParameters(a: Fingerprint, i: Input) {
    a.intentId == i.intentId && a.playerId == i.playerId && a.asset == i.asset && a.amount == i.amount
  }

  /** What a call that has reached its answer is told: its key must be its intent's, and a session stored under the key
      answers it exactly when it was made with the same parameters; otherwise it waits, or stores a new session
      once it has waited. */
  lemma CallOutcome(baseUrl: Option<string>, steps: seq<Step>, c: Id, i: Input)
    ensures var w := Run(baseUrl, steps);
            var begun, stored := Next(baseUrl, w, Begin(c, i)), i.key in w.sessions;
            var same := stored && SameParameters(w.sessions[i.key].fingerprint, i);
            c !in w.calls ==>
              begun == w.(calls := w.calls[c :=
                if i.key != i.intentId then Answered(i, Err(KeyIsNotIntent))
                else if !stored then Awaiting(i)
                else if same then Answered(i, Ok(SessionFor(baseUrl, i.intentId))) else Answered(i, Err(KeyReused))])
    ensures var w := Run(baseUrl, steps);
            var after, stored := Next(baseUrl, w, Continue(c)), i.key in w.sessions;
            var same := stored && SameParameters(w.sessions[i.key].fingerprint, i);
            c in w.calls && w.calls[c] == Awaiting(i) ==>
              if stored then
                after == w.(calls := w.calls[c :=
                  Answered(i, if same then Ok(SessionFor(baseUrl, i.intentId)) else Err(KeyReused))])
              else
                after == World(
                  w.sessions[i.key := Stored(Fingerprint(i.intentId, i.playerId, i.asset, i.amount),
                                             SessionFor(baseUrl, i.intentId))],
                  w.calls[c := Answered(i, Ok(SessionFor(baseUrl, i.intentId)))])
  {
    hide Run;
    RunKeeps(baseUrl, steps);
  }

  /** One session per intent, however the awaits interleave: two calls with the same key that both succeed were
      made with the same parameters and are given the same session, the one named after the intent; with different keys
      they are given different references. */
  lemma OneSessionPerIntent(baseUrl: Option<string>, steps: seq<Step>, c: Id, d: Id)
    requires var w := Run(baseUrl, steps);
             && c in w.calls && w.calls[c].Answered? && w.calls[c].answer.Ok?
             && d in w.calls && w.calls[d].Answered? && w.calls[d].answer.Ok?
    ensures var a, b := Run(baseUrl, steps).calls[c], Run(baseUrl, steps).calls[d];
            && a.answer == Ok(SessionFor(baseUrl, a.input.intentId))
            && (if a.input.key == b.input.key then a.answer == b.answer && a.input == b.input
                else a.answer.value.reference != b.answer.value.reference)
  {
    RunKeeps(baseUrl, steps);
    var a, b := Run(baseUrl, steps).calls[c], Run(baseUrl, steps).calls[d];
    assert ("fake-funding-" + a.input.key)[13..] == a.input.key && ("fake-funding-" + b.input.key)[13..] == b.input.key;
  }
}
