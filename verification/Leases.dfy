/** Leased delivery in the abstract: a row is ready, in flight under a token, done or dead. Both delivery
    workers are shown to refine this machine, so its bounds hold of both. */
module Leases {
  import opened Wrappers

  type Token = nat
  type Time = int

  const LEASE_MS := 60_000
  const MAX_ATTEMPTS := 12

  datatype Phase = Ready(from: Option<Time>) | InFlight(token: Token, until: Time) | Done | Dead

  /** The claims counted so far, and the counts at which a failure sent the row back. */
  datatype State = State(count: nat, phase: Phase, retries: seq<nat>)

  datatype Action =
    | Issue(from: Time) | Claim(token: Token, now: Time) | Retry(token: Token, now: Time)
    | Finish(token: Token) | Kill(token: Token) | Skip

  function Power(n: nat): nat { if n == 0 then 1 else Power(n - 1) + Power(n - 1) }

  function Min(a: int, b: int): int { if a < b then a else b }

  /** Seconds to wait after the given number of claims. */
  function Backoff(count: nat): nat { Min(3600, Power(Min(count, 11))) }

  predicate Claimable(phase: Phase, now: Time) {
    || (phase.Ready? && (phase.from.None? || phase.from.value <= now))
    || (phase.InFlight? && phase.until <= now)
  }

  predicate Holds(phase: Phase, token: Token) { phase.InFlight? && phase.token == token }

  /** A fresh row is issued with the time it is due from; a claim needs a ready row or a lapsed lease; everything else
      needs the token of the row. */
  predicate Allowed(a: State, x: Action, b: State) {
    match x
    case Issue(from) => a == FRESH && b == a.(phase := Ready(Some(from)))
    case Claim(token, now) =>
      Claimable(a.phase, now) && b == State(a.count + 1, InFlight(token, now + LEASE_MS), a.retries)
    case Retry(token, now) =>
      Holds(a.phase, token) && a.count < MAX_ATTEMPTS
      && b == State(a.count, Ready(Some(now + Backoff(a.count) * 1000)), a.retries + [a.count])
    case Finish(token) => Holds(a.phase, token) && b == a.(phase := Done)
    case Kill(token) => Holds(a.phase, token) && b == a.(phase := Dead)
    case Skip => b == a
  }

  const FRESH := State(0, Ready(None), [])

  predicate Behaves(states: seq<State>, actions: seq<Action>) {
    && |states| == |actions| + 1 && states[0] == FRESH
    && forall k :: 0 <= k < |actions| ==> Allowed(states[k], actions[k], states[k + 1])
  }

  // ---- what every behaviour keeps ----

  ghost predicate Increasing(s: seq<nat>) { forall j, k :: 0 <= j < k < |s| ==> s[j] < s[k] }

  ghost predicate Inv(s: State) {
    && Increasing(s.retries)
    && (forall k :: 0 <= k < |s.retries| ==> 1 <= s.retries[k] < MAX_ATTEMPTS && s.retries[k] <= s.count)
    && (s.phase.InFlight? ==> s.count > 0 && forall k :: 0 <= k < |s.retries| ==> s.retries[k] < s.count)
  }

  lemma StepKeepsInv(a: State, x: Action, b: State)
    requires Inv(a) && Allowed(a, x, b)
    ensures Inv(b) && a.count <= b.count && a.retries <= b.retries
    ensures a.phase in {Done, Dead} ==> b == a
  {
    hide Backoff;
  }

  lemma {:induction false} BehaviourKeepsInv(states: seq<State>, actions: seq<Action>, k: nat)
    requires Behaves(states, actions) && k < |states|
    ensures Inv(states[k])
  {
    if k > 0 {
      BehaviourKeepsInv(states, actions, k - 1);
      StepKeepsInv(states[k - 1], actions[k - 1], states[k]);
    }
  }

  function TotalBackoff(retries: seq<nat>): nat {
    if retries == [] then 0 else TotalBackoff(retries[..|retries| - 1]) + Backoff(retries[|retries| - 1])
  }

  lemma {:induction false} PowerPositive(n: nat)
    ensures Power(n) >= 1
  {
    if n > 0 { PowerPositive(n - 1); }
  }

  lemma {:induction false} PowerGrows(a: nat, b: nat)
    requires a <= b
    ensures Power(a) <= Power(b)
  {
    if a < b { PowerGrows(a, b - 1); PowerPositive(b - 1); }
  }

  /** Below the attempt limit the cap never binds. */
  lemma CapNeverBinds(count: nat)
    requires count < MAX_ATTEMPTS
    ensures Backoff(count) == Power(count) <= 2048
  {
    PowerGrows(count, 11);
    assert Power(11) == 2048;
  }

  /** Seconds to wait after 0, 1, ... claims; from the eleventh on the last of these. */
  const DELAYS: seq<nat> := [1, 2, 4, 8, 16, 32, 64, 128, 256, 512, 1024, 2048]

  function DelayAfter(count: nat): nat { if count < 12 then DELAYS[count] else 2048 }

  /** The backoff, number by number. */
  lemma BackoffIsDelay(count: nat)
    ensures Backoff(count) == DelayAfter(count)
  {
    assert Power(0) == 1 && Power(1) == 2 && Power(2) == 4 && Power(3) == 8 && Power(4) == 16 && Power(5) == 32;
    assert Power(6) == 64 && Power(7) == 128 && Power(8) == 256 && Power(9) == 512 && Power(10) == 1024;
    assert Power(11) == 2048;
  }

  /** Increasing retry counts up to n wait at most 2 + 4 + ... + 2^n seconds. */
  lemma {:induction false} BackoffBound(retries: seq<nat>, n: nat)
    requires Increasing(retries) && n < MAX_ATTEMPTS
    requires forall k :: 0 <= k < |retries| ==> 1 <= retries[k] <= n
    ensures |retries| <= n && TotalBackoff(retries) + 2 <= Power(n + 1)
    decreases n
  {
    PowerPositive(n);
    if retries == [] {
      PowerGrows(0, n);
      assert Power(0) == 1;
    } else {
      var last := retries[|retries| - 1];
      CapNeverBinds(last);
      BackoffBound(retries[..|retries| - 1], last - 1);
      PowerGrows(last + 1, n + 1);
    }
  }

  /** At every point of every behaviour: at most 11 retries, at strictly increasing claim counts, imposing at
      most 4094 seconds of waiting in all. */
  lemma RetriesAreBounded(states: seq<State>, actions: seq<Action>, k: nat)
    requires Behaves(states, actions) && k < |states|
    ensures |states[k].retries| <= 11 && Increasing(states[k].retries) && TotalBackoff(states[k].retries) <= 4094
  {
    BehaviourKeepsInv(states, actions, k);
    BackoffBound(states[k].retries, 11);
    assert Power(12) == 4096;
  }

  /** Done and dead are final. */
  lemma {:induction false} FinalIsFinal(states: seq<State>, actions: seq<Action>, j: nat, k: nat)
    requires Behaves(states, actions) && j <= k < |states| && states[j].phase in {Done, Dead}
    ensures states[k] == states[j]
    decreases k
  {
    if j < k {
      FinalIsFinal(states, actions, j, k - 1);
      BehaviourKeepsInv(states, actions, k - 1);
      StepKeepsInv(states[k - 1], actions[k - 1], states[k]);
    }
  }
}
