/** How the KYC tables may change over time. */
module KycHistory {
  import opened Wrappers
  import opened KycDomain
  import opened KycProtocol
  import opened KycInvariants

  ghost predicate LogsGrow(a: map<string, seq<Transition>>, b: map<string, seq<Transition>>) {
    forall p :: p in a ==> p in b && a[p] <= b[p]
  }

  ghost predicate SessionsGrow(a: seq<Session>, b: seq<Session>) {
    |a| <= |b| && forall s :: 0 <= s < |a| ==> SessionEvolves(a[s], b[s])
  }

  ghost predicate ReviewsGrow(a: seq<Review>, b: seq<Review>) {
    |a| <= |b| && forall r :: 0 <= r < |a| ==> ReviewEvolves(a[r], b[r])
  }

  /** Nothing stored is taken back: logs, events and review actions only grow, and identity
      columns stay as they were written. */
  ghost predicate Extends(a: Db, b: Db) {
    && a.profiles.Keys <= b.profiles.Keys
    && LogsGrow(a.log, b.log)
    && SessionsGrow(a.sessions, b.sessions)
    && ReviewsGrow(a.reviews, b.reviews)
    && a.events <= b.events
  }

  /** Closed sessions stay as they are. */
  ghost predicate ClosedStay(a: seq<Session>, b: seq<Session>) {
    |a| <= |b| && forall s :: 0 <= s < |a| ==> Absorbing(a[s], b[s])
  }

  /** A profile only ever moves to later sessions. */
  ghost predicate Forward(a: map<string, Profile>, b: map<string, Profile>, player: string) {
    player in a ==>
      && player in b
      && (a[player].current.Some? ==> b[player].current.Some? && a[player].current.value <= b[player].current.value)
  }

  ghost predicate AllForward(a: map<string, Profile>, b: map<string, Profile>) {
    forall player :: player in a ==> Forward(a, b, player)
  }

  lemma SameCurrent(a: map<string, Profile>, b: map<string, Profile>)
    requires forall p :: p in a ==> p in b && b[p].current == a[p].current
    ensures AllForward(a, b)
  {
  }

  lemma AllForwardTransitive(a: map<string, Profile>, b: map<string, Profile>, c: map<string, Profile>)
    requires AllForward(a, b) && AllForward(b, c)
    ensures AllForward(a, c)
  {
    forall p | p in a ensures Forward(a, c, p) { assert Forward(a, b, p) && Forward(b, c, p); }
  }

  /** Every player but those excepted whose rows agreed has rows that agree. */
  ghost predicate KeepsCoherence(a: Db, b: Db, except: set<string>) {
    forall player :: player !in except && CoherentFor(a.profiles, a.sessions, player) ==>
      CoherentFor(b.profiles, b.sessions, player)
  }

  /** Nothing about the player changed. */
  ghost predicate SameFor(a: Db, b: Db, player: string) {
    && (player in a.profiles <==> player in b.profiles)
    && (player in a.profiles ==> b.profiles[player] == a.profiles[player])
    && |a.sessions| <= |b.sessions|
    && (forall s :: 0 <= s < |a.sessions| && a.sessions[s].playerId == player ==> b.sessions[s] == a.sessions[s])
    && (forall s :: 0 <= s < |b.sessions| && b.sessions[s].playerId == player ==>
          s < |a.sessions| && b.sessions[s] == a.sessions[s])
  }

  lemma SameIsCoherent(a: Db, b: Db, player: string)
    requires CurrentOk(a.profiles, a.sessions) && SameFor(a, b, player) && CoherentFor(a.profiles, a.sessions, player)
    ensures CoherentFor(b.profiles, b.sessions, player)
  {
    forall s | 0 <= s < |b.sessions| && b.sessions[s].playerId == player
      ensures SessionFits(b.profiles, s, b.sessions[s])
    {
      assert SessionFits(a.profiles, s, a.sessions[s]);
    }
  }

  /** When one player's rows are all that changed, only that player's coherence needs an argument. */
  lemma OnePlayer(a: Db, b: Db, player: string, except: set<string>)
    requires CurrentOk(a.profiles, a.sessions) && (forall p :: p != player ==> SameFor(a, b, p))
    requires player !in except && CoherentFor(a.profiles, a.sessions, player) ==>
               CoherentFor(b.profiles, b.sessions, player)
    ensures KeepsCoherence(a, b, except)
  {
    hide CurrentOk, SameFor, CoherentFor;
    forall p | p !in except && CoherentFor(a.profiles, a.sessions, p) ensures CoherentFor(b.profiles, b.sessions, p) {
      if p != player { SameIsCoherent(a, b, p); }
    }
  }

  /** Nothing about any player changed. */
  lemma NoPlayer(a: Db, b: Db)
    requires b.profiles == a.profiles && b.sessions == a.sessions
    ensures KeepsCoherence(a, b, {}) && ClosedStay(a.sessions, b.sessions) && AllForward(a.profiles, b.profiles)
  {
    hide CoherentFor;
  }

  lemma KeepsCoherenceTransitive(a: Db, b: Db, c: Db, except: set<string>)
    requires KeepsCoherence(a, b, {}) && KeepsCoherence(b, c, except)
    ensures KeepsCoherence(a, c, except)
  {
    hide CoherentFor;
  }

  lemma ClosedStayTransitive(a: seq<Session>, b: seq<Session>, c: seq<Session>)
    requires ClosedStay(a, b) && ClosedStay(b, c)
    ensures ClosedStay(a, c)
  {
    forall s | 0 <= s < |a| ensures Absorbing(a[s], c[s]) {
      assert Absorbing(a[s], b[s]) && Absorbing(b[s], c[s]);
    }
  }

  lemma ExtendsReflexive(a: Db)
    ensures Extends(a, a)
  {
  }

  lemma ExtendsTransitive(a: Db, b: Db, c: Db)
    requires Extends(a, b) && Extends(b, c)
    ensures Extends(a, c)
  {
    assert LogsGrow(a.log, c.log);
    assert SessionsGrow(a.sessions, c.sessions) by {
      forall s | 0 <= s < |a.sessions| ensures SessionEvolves(a.sessions[s], c.sessions[s]) {
        assert SessionEvolves(a.sessions[s], b.sessions[s]) && SessionEvolves(b.sessions[s], c.sessions[s]);
      }
    }
    assert ReviewsGrow(a.reviews, c.reviews) by {
      forall r | 0 <= r < |a.reviews| ensures ReviewEvolves(a.reviews[r], c.reviews[r]) {
        assert ReviewEvolves(a.reviews[r], b.reviews[r]) && ReviewEvolves(b.reviews[r], c.reviews[r]);
      }
    }
  }

  // ---- single writes ----

  lemma PutExtends(db: Db, s: Id, x: Session)
    requires s < |db.sessions| && SessionEvolves(db.sessions[s], x)
    ensures Extends(db, PutSession(db, s, x))
  {
  }

  lemma InsertExtends(db: Db, row: EventRow)
    ensures Extends(db, Insert(db, row))
  {
  }

  lemma CreateExtends(db: Db, player: string)
    requires db.log.Keys == db.profiles.Keys
    ensures Extends(db, GetOrCreate(db, player))
  {
  }

  lemma AppendExtends(db: Db, x: Session)
    ensures Extends(db, db.(sessions := db.sessions + [x]))
  {
  }

  lemma TouchExtends(db: Db, r: Id, x: Review)
    requires r < |db.reviews| && ReviewEvolves(db.reviews[r], x)
    ensures Extends(db, db.(reviews := db.reviews[r := x]))
  {
  }

  lemma MoveShows(db: Db, player: string, c: Change, at: Time)
    requires Move(db, player, c, at).Ok?
    ensures player in db.profiles && CanTransition(db.profiles[player].status, c.to)
    ensures var next := Move(db, player, c, at).value;
            next.profiles == db.profiles[player := Changed(db.profiles[player], c)]
            && next.sessions == db.sessions && next.events == db.events
  {
  }

  lemma MoveExtends(db: Db, player: string, c: Change, at: Time)
    requires Move(db, player, c, at).Ok? && (forall r :: 0 <= r < |db.reviews| ==> ReviewShape(db.reviews[r]))
    ensures Extends(db, Move(db, player, c, at).value)
  {
    hide ReviewShape, ActiveReview;
    var next := Move(db, player, c, at).value;
    forall r | 0 <= r < |db.reviews| ensures ReviewEvolves(db.reviews[r], next.reviews[r]) {
      if next.reviews[r] != db.reviews[r] {
        assert next.reviews[r] == Close(db.reviews[r], c.to, at);
      }
    }
  }
}
