/** What each statement of a sign-in request asks of the rows, and what it does to them,
    in the columns; and from that, exactly when each way of signing in succeeds. */
module SignInRows {
  import opened Outcomes
  import opened Domain
  import opened SignIn
  import opened SignInTheorems

  // ---------------------------------------------------------------------------
  // One statement at a time
  // ---------------------------------------------------------------------------

  /** A new request, in this state. */
  predicate Starts(w: World, v: World, state: Handler) {
    v.inflight == w.inflight[w.requests := state] && v.requests == w.requests + 1
  }

  /** Request q stands in this state now, and nothing else about requests has changed. */
  predicate MovesTo(w: World, v: World, q: nat, state: Handler) {
    v.inflight == w.inflight[q := state] && v.requests == w.requests
  }

  predicate EndsOnly(w: World, v: World, q: nat) {
    v.inflight == w.inflight - {q} && v.requests == w.requests
  }

  lemma PasswordIsAcceptedExactlyWhen(w: World, u: Uuid, password: string, kind: SessionKind)
    ensures var v := Next(w, VerifyPassword(u, password, kind));
      var accepted := u in w.db.users && w.db.users[u].password == password && kind in {Browser, Cli} &&
        (w.db.users[u].disabledAt.None? || w.now < w.db.users[u].disabledAt.value);
      && v == w.(inflight := v.inflight, requests := v.requests)
      && (accepted ==> Starts(w, v, PasswordOk(u, kind, password, w.db.users[u].due)))
      && (!accepted ==> v == w)
  {
  }

  /** The password alone moves the request on to a session exactly when no passkey row has
      that user, or passkeys are off. */
  lemma PasswordIsEnoughExactlyWhen(w: World, q: nat)
    requires q in w.inflight && w.inflight[q].PasswordOk?
    ensures var v, x := Next(w, CountPasskeys(q)), w.inflight[q];
      var enough := !w.passkeysEnabled || forall p | p in w.db.passkeys :: w.db.passkeys[p].userId != x.userId;
      && v == w.(inflight := v.inflight)
      && MovesTo(w, v, q, if enough then Proven(x.userId, x.kind, PasswordAlone) else NeedsFactor(x.userId, x.kind))
  {
    NoFactorToAsk(w, w.inflight[q].userId);
    hide PasswordSuffices;
  }

  lemma HashIsUpgradedExactlyWhen(w: World, q: nat)
    requires q in w.inflight && w.inflight[q].PasswordOk? && w.inflight[q].userId in w.db.users
    ensures var v, x := Next(w, UpgradeHash(q)), w.inflight[q];
      && v == w.(inflight := v.inflight, db := w.db.(users := v.db.users))
      && (x.due ==> v.db.users == w.db.users[x.userId := Account(x.password, false, w.db.users[x.userId].disabledAt)])
      && (x.due ==> MovesTo(w, v, q, PasswordOk(x.userId, x.kind, x.password, false)))
      && (!x.due ==> v == w)
  {
  }

  lemma PendingIsCreated(w: World, q: nat, p: Uuid, expiresAt: Instant)
    requires q in w.inflight && w.inflight[q].NeedsFactor? && p !in w.db.pending
    ensures var v, x := Next(w, CreatePending(q, p, expiresAt)), w.inflight[q];
      && v == w.(inflight := v.inflight, db := w.db.(pending := w.db.pending[p := Pending(x.userId, x.kind, expiresAt, q)]))
      && EndsOnly(w, v, q)
  {
  }

  lemma PendingIsHeldExactlyWhen(w: World, p: Uuid)
    ensures var v := Next(w, ResolvePending(p));
      && v == w.(inflight := v.inflight, requests := v.requests)
      && (p in w.db.pending && w.now < w.db.pending[p].expiresAt ==>
            Starts(w, v, HasPending(w.db.pending[p].userId, w.db.pending[p].kind, p, w.db.pending[p].attempt)))
      && (!(p in w.db.pending && w.now < w.db.pending[p].expiresAt) ==> v == w)
  {
  }

  /** This row is an unexpired challenge of the user, for this purpose. */
  predicate Takeable(w: World, u: Uuid, purpose: Purpose, c: Uuid) {
    && c in w.db.challenges && w.db.challenges[c].userId == u && w.db.challenges[c].purpose == purpose
    && w.now < w.db.challenges[c].expiresAt
  }

  /** All of the user's unexpired challenges for the purpose go at once, and no others. */
  ghost predicate TakesAll(w: World, v: World, u: Uuid, purpose: Purpose, q: nat) {
    && v == w.(inflight := v.inflight, requests := v.requests, db := w.db.(challenges := v.db.challenges), consumed := v.consumed)
    && (forall c :: c in v.db.challenges <==> c in w.db.challenges && !Takeable(w, u, purpose, c))
    && (forall c | c in v.db.challenges :: v.db.challenges[c] == w.db.challenges[c])
    && (forall c | Takeable(w, u, purpose, c) :: Bound(c) in v.consumed && v.consumed[Bound(c)] == q)
    && (forall r | r in v.consumed && !(r.Bound? && Takeable(w, u, purpose, r.id)) :: r in w.consumed && v.consumed[r] == w.consumed[r])
  }

  lemma AllAreTaken(w: World, v: World, u: Uuid, purpose: Purpose, q: nat)
    requires var rows := Consumable(w.db.challenges, u, purpose, w.now);
      v == w.(inflight := v.inflight, requests := v.requests,
              db := w.db.(challenges := w.db.challenges - rows), consumed := w.consumed + ConsumedBy(Refs(rows), q))
    ensures TakesAll(w, v, u, purpose, q)
  {
    assert forall c :: c in Consumable(w.db.challenges, u, purpose, w.now) <==> Takeable(w, u, purpose, c);
    assert forall c :: Bound(c) in Refs(Consumable(w.db.challenges, u, purpose, w.now)) <==> Takeable(w, u, purpose, c);
    hide Consumable, Takeable;
  }

  lemma ChallengeIsTakenExactlyWhen(w: World, q: nat, c: Uuid)
    requires q in w.inflight && w.inflight[q].HasPending?
    ensures var v, x := Next(w, ConsumeLoginChallenge(q, c)), w.inflight[q];
      && (w.passkeysEnabled && Takeable(w, x.userId, ForLogin, c) ==>
            TakesAll(w, v, x.userId, ForLogin, q) && MovesTo(w, v, q, Challenged(x.userId, x.kind, x.pendingId, x.attempt)))
      && (w.passkeysEnabled && (forall d :: !Takeable(w, x.userId, ForLogin, d)) ==>
            v == w.(inflight := v.inflight) && EndsOnly(w, v, q))
      && (!(w.passkeysEnabled && Takeable(w, x.userId, ForLogin, c)) ==> v == w || (v == w.(inflight := v.inflight) && EndsOnly(w, v, q)))
      && (!w.passkeysEnabled ==> v == w)
  {
    var v, x := Next(w, ConsumeLoginChallenge(q, c)), w.inflight[q];
    var rows := Consumable(w.db.challenges, x.userId, ForLogin, w.now);
    assert forall d :: d in rows <==> Takeable(w, x.userId, ForLogin, d);
    hide Consumable, Takeable, TakesAll;
    if w.passkeysEnabled && c in rows {
      AllAreTaken(w, v, x.userId, ForLogin, q);
    }
  }

  /** The counter is ahead of the stored one, or neither counts. */
  predicate Counts(passkeys: map<Uuid, Passkey>, p: Uuid, count: nat)
    requires p in passkeys
  {
    passkeys[p].signCount < count || passkeys[p].signCount == count == 0
  }

  lemma AssertionIsValidExactlyWhen(w: World, q: nat, p: Uuid, count: nat)
    requires q in w.inflight && w.inflight[q].Challenged?
    ensures var v, x := Next(w, ValidateAssertion(q, p, count)), w.inflight[q];
      var valid := p in w.db.passkeys && w.db.passkeys[p].userId == x.userId && Counts(w.db.passkeys, p, count);
      && v == w.(inflight := v.inflight)
      && (valid ==> MovesTo(w, v, q, Asserted(x.userId, x.kind, x.pendingId, x.attempt, w.db.passkeys[p].credentialId, count)))
      && (!valid ==> EndsOnly(w, v, q))
  {
  }

  /** Every row of the credential, and no other, counts at least this far now. */
  ghost predicate CountsOn(a: map<Uuid, Passkey>, b: map<Uuid, Passkey>, credentialId: string, count: nat) {
    && b.Keys == a.Keys
    && forall p | p in a :: b[p] == if a[p].credentialId == credentialId && a[p].signCount < count then a[p].(signCount := count) else a[p]
  }

  lemma CounterIsStored(w: World, q: nat, stored: bool)
    requires q in w.inflight && (w.inflight[q].Asserted? || w.inflight[q].OpenAsserted?)
    ensures var v, x := Next(w, Touch(q, stored)), w.inflight[q];
      && v == w.(inflight := v.inflight, db := w.db.(passkeys := v.db.passkeys))
      && CountsOn(w.db.passkeys, v.db.passkeys, x.credentialId, if stored then x.count else 0)
      && MovesTo(w, v, q, if x.Asserted? then Satisfied(x.userId, x.kind, SecondPasskey(x.pendingId, x.attempt))
                          else Proven(x.userId, x.kind, PasskeyAlone(x.twoPasskeys)))
  {
    var x := w.inflight[q];
    TouchedRows(w.db.passkeys, x.credentialId, x.count);
    hide Touched;
  }

  lemma TouchedRows(passkeys: map<Uuid, Passkey>, credentialId: string, count: nat)
    ensures CountsOn(passkeys, Touched(passkeys, credentialId, count), credentialId, count)
  {
  }

  /** This row is an unused code of the user that the presented one matches. */
  predicate Redeemable(codes: map<Uuid, Code>, u: Uuid, hash: string, c: Uuid) {
    c in codes && codes[c].userId == u && codes[c].hash == hash && codes[c].usedAt.None?
  }

  /** Those rows are stamped, and belong to the request; no other row has changed. */
  ghost predicate SpendsAll(w: World, v: World, u: Uuid, hash: string, q: nat) {
    && v == w.(inflight := v.inflight, requests := v.requests, db := w.db.(codes := v.db.codes), spent := v.spent)
    && v.db.codes.Keys == w.db.codes.Keys
    && (forall c | c in w.db.codes :: v.db.codes[c] ==
          if Redeemable(w.db.codes, u, hash, c) then w.db.codes[c].(usedAt := Some(w.now)) else w.db.codes[c])
    && (forall c | Redeemable(w.db.codes, u, hash, c) :: c in v.spent && v.spent[c] == q)
    && (forall c | c in v.spent && !Redeemable(w.db.codes, u, hash, c) :: c in w.spent && v.spent[c] == w.spent[c])
  }

  lemma AllAreSpent(w: World, u: Uuid, hash: string, q: nat)
    ensures SpendsAll(w, Spending(w, u, hash, q), u, hash, q)
  {
    assert forall c :: c in Spendable(w.db.codes, u, hash) <==> Redeemable(w.db.codes, u, hash, c);
    hide Spendable, Redeemable;
  }

  /** One row, and no second. */
  ghost predicate ExactlyOne(codes: map<Uuid, Code>, u: Uuid, hash: string) {
    exists c :: Redeemable(codes, u, hash, c) && forall d | Redeemable(codes, u, hash, d) :: d == c
  }

  lemma OneRow(codes: map<Uuid, Code>, u: Uuid, hash: string)
    ensures |Spendable(codes, u, hash)| == 1 <==> ExactlyOne(codes, u, hash)
  {
    var rows := Spendable(codes, u, hash);
    assert forall c :: c in rows <==> Redeemable(codes, u, hash, c);
    if |rows| == 1 {
      var c :| c in rows;
      assert |rows - {c}| == 0;
      assert forall d :: d in rows ==> d == c || d in rows - {c};
    }
    if c: Uuid :| Redeemable(codes, u, hash, c) && forall d | Redeemable(codes, u, hash, d) :: d == c {
      assert rows == {c};
    }
  }

  lemma CodeIsTakenExactlyWhen(w: World, q: nat, hash: string)
    requires q in w.inflight && w.inflight[q].HasPending?
    ensures var v, x := Next(w, SpendCode(q, hash)), w.inflight[q];
      && SpendsAll(w, v, x.userId, hash, q)
      && (ExactlyOne(w.db.codes, x.userId, hash) ==> MovesTo(w, v, q, Satisfied(x.userId, x.kind, SecondCode(x.pendingId, x.attempt))))
      && (!ExactlyOne(w.db.codes, x.userId, hash) ==> EndsOnly(w, v, q))
  {
    var x := w.inflight[q];
    hide Spendable, ExactlyOne, Spending, SpendsAll, Next;
    OneRow(w.db.codes, x.userId, hash);
    AllAreSpent(w, x.userId, hash, q);
    SpendingMovesNothing(w, x.userId, hash, q);
    CodeIsSpent(w, q, hash);
    RequestsApart(w, Spending(w, x.userId, hash, q), Next(w, SpendCode(q, hash)), x.userId, hash, q);
  }

  lemma CodeIsSpent(w: World, q: nat, hash: string)
    requires q in w.inflight && w.inflight[q].HasPending?
    ensures var x := w.inflight[q];
      var v := Spending(w, x.userId, hash, q);
      Next(w, SpendCode(q, hash)) == if |Spendable(w.db.codes, x.userId, hash)| == 1
        then Move(v, q, Satisfied(x.userId, x.kind, SecondCode(x.pendingId, x.attempt))) else Done(v, q)
  {
    hide Spendable, Spending, Move, Done;
  }

  lemma RequestsApart(w: World, x: World, v: World, u: Uuid, hash: string, q: nat)
    requires SpendsAll(w, x, u, hash, q) && v == x.(inflight := v.inflight, requests := v.requests)
    ensures SpendsAll(w, v, u, hash, q)
  {
    hide Redeemable;
  }

  lemma SpendingMovesNothing(w: World, u: Uuid, hash: string, q: nat)
    ensures Spending(w, u, hash, q).inflight == w.inflight && Spending(w, u, hash, q).requests == w.requests
  {
  }

  lemma PendingIsDropped(w: World, q: nat, dropped: bool)
    requires q in w.inflight && w.inflight[q].Satisfied? && (w.inflight[q].origin.SecondPasskey? || w.inflight[q].origin.SecondCode?)
    ensures var v, x := Next(w, DropPending(q, dropped)), w.inflight[q];
      && v == w.(inflight := v.inflight, db := w.db.(pending := v.db.pending))
      && v.db.pending == (if dropped then w.db.pending - {x.origin.pendingId} else w.db.pending)
      && MovesTo(w, v, q, Proven(x.userId, x.kind, x.origin))
  {
  }

  lemma OpenChallengeIsSaved(w: World, h: Uuid, expiresAt: Instant)
    requires h !in w.db.openChallenges && Open(h) !in w.consumed
    ensures var v := Next(w, SaveOpenChallenge(h, expiresAt));
      && v == w.(db := w.db.(openChallenges := v.db.openChallenges))
      && (forall x :: x in v.db.openChallenges <==> x == h || (x in w.db.openChallenges && w.db.openChallenges[x] >= w.now))
      && (forall x | x in v.db.openChallenges :: v.db.openChallenges[x] == if x == h then expiresAt else w.db.openChallenges[x])
  {
  }

  lemma OpenChallengeIsTakenExactlyWhen(w: World, h: Uuid, kind: SessionKind)
    ensures var v := Next(w, ConsumeOpenChallenge(h, kind));
      var taken := h in w.db.openChallenges && w.now < w.db.openChallenges[h] && w.passkeysEnabled && kind in {Browser, Cli};
      && (taken ==> v == w.(inflight := v.inflight, requests := v.requests, db := w.db.(openChallenges := w.db.openChallenges - {h}),
                            consumed := w.consumed[Open(h) := w.requests]))
      && (taken ==> Starts(w, v, OpenChallenged(kind)))
      && (!taken ==> v == w)
  {
  }

  /** With nobody named, the passkey says who it is; a second passkey makes it enough. */
  lemma OpenAssertionIsValidExactlyWhen(w: World, q: nat, p: Uuid, count: nat)
    requires q in w.inflight && w.inflight[q].OpenChallenged?
    ensures var v, kind := Next(w, ValidateOpenAssertion(q, p, count)), w.inflight[q].kind;
      && v == w.(inflight := v.inflight)
      && (!(p in w.db.passkeys && Counts(w.db.passkeys, p, count)) ==> EndsOnly(w, v, q))
      && (p in w.db.passkeys && Counts(w.db.passkeys, p, count) ==>
            var row := w.db.passkeys[p];
            MovesTo(w, v, q,
              if exists other :: other in w.db.passkeys && other != p && w.db.passkeys[other].userId == row.userId
              then OpenAsserted(row.userId, kind, row.credentialId, count, true)
              else OneKeyOnly(row.userId, kind, row.credentialId, count)))
  {
    if p in w.db.passkeys {
      SecondPasskeyOf(w.db.passkeys, p);
    }
    hide PasskeysOf;
  }

  lemma CodeIsLeftExactlyWhen(w: World, q: nat)
    requires q in w.inflight && w.inflight[q].OneKeyOnly?
    ensures var v, x := Next(w, CountCodes(q)), w.inflight[q];
      var left := exists c :: c in w.db.codes && w.db.codes[c].userId == x.userId && w.db.codes[c].usedAt.None?;
      && v == w.(inflight := v.inflight)
      && (left ==> MovesTo(w, v, q, OpenAsserted(x.userId, x.kind, x.credentialId, x.count, false)))
      && (!left ==> EndsOnly(w, v, q))
  {
    UnusedRow(w.db.codes, w.inflight[q].userId);
    hide UnusedCodes;
  }

  lemma SessionIsInserted(w: World, q: nat, s: Uuid, expiresAt: Instant)
    requires q in w.inflight && w.inflight[q].Proven? && s !in w.made && s !in w.db.sessions
    ensures var v, x := Next(w, InsertSession(q, s, expiresAt)), w.inflight[q];
      && v == w.(inflight := v.inflight, db := w.db.(sessions := w.db.sessions[s := Session(x.userId, x.kind, expiresAt, None)]),
                 made := w.made[s := Made(q, x.origin)])
      && EndsOnly(w, v, q)
  {
  }

  lemma ReissueBeginsExactlyWhen(w: World, s: Uuid)
    ensures var v := Next(w, AuthenticateForReissue(s));
      var live := s in w.db.sessions && w.now < w.db.sessions[s].expiresAt &&
        (w.db.sessions[s].revokedAt.None? || w.now < w.db.sessions[s].revokedAt.value);
      && v == w.(inflight := v.inflight, requests := v.requests)
      && (live ==> Starts(w, v, Reissuing(w.db.sessions[s].userId, w.db.sessions[s].kind, s)))
      && (!live ==> v == w)
  {
  }

  lemma SessionIsReissued(w: World, q: nat, s: Uuid, expiresAt: Instant)
    requires q in w.inflight && w.inflight[q].Reissuing? && s !in w.made && s !in w.db.sessions
    ensures var v, x := Next(w, InsertSession(q, s, expiresAt)), w.inflight[q];
      && v == w.(inflight := v.inflight, db := w.db.(sessions := w.db.sessions[s := Session(x.userId, x.kind, expiresAt, None)]),
                 made := w.made[s := Made(q, Reissue(x.from))])
      && MovesTo(w, v, q, Retiring(x.from))
  {
  }

  /** Of the sessions, exactly the ones named are stamped that were not before. */
  ghost predicate StampsSessions(a: map<Uuid, Session>, b: map<Uuid, Session>, which: set<Uuid>, now: Instant) {
    b.Keys == a.Keys &&
    forall s | s in a :: b[s] == if s in which && a[s].revokedAt.None? then a[s].(revokedAt := Some(now)) else a[s]
  }

  lemma SessionIsRetired(w: World, q: nat, revoked: bool)
    requires q in w.inflight && w.inflight[q].Retiring?
    ensures var v := Next(w, RetireSession(q, revoked));
      && v == w.(inflight := v.inflight, db := w.db.(sessions := v.db.sessions))
      && StampsSessions(w.db.sessions, v.db.sessions, if revoked then {w.inflight[q].from} else {}, w.now)
      && EndsOnly(w, v, q)
  {
    if w.inflight[q].from in w.db.sessions {
      OneIsStamped(w.db.sessions, w.inflight[q].from, w.now);
    }
    hide Revoked;
  }

  function SessionsOf(sessions: map<Uuid, Session>, u: Uuid): set<Uuid> {
    set s | s in sessions && sessions[s].userId == u
  }

  lemma SessionIsRevoked(w: World, s: Uuid)
    ensures var v := Next(w, RevokeSession(s));
      v == w.(db := w.db.(sessions := v.db.sessions)) && StampsSessions(w.db.sessions, v.db.sessions, {s}, w.now)
  {
    if s in w.db.sessions {
      OneIsStamped(w.db.sessions, s, w.now);
    }
    hide Revoked;
  }

  lemma OneIsStamped(sessions: map<Uuid, Session>, s: Uuid, now: Instant)
    requires s in sessions
    ensures StampsSessions(sessions, Revoked(sessions, s, now), {s}, now)
  {
  }

  lemma EverySessionIsRevoked(w: World, u: Uuid)
    ensures var v := Next(w, RevokeSessionsOf(u));
      v == w.(db := w.db.(sessions := v.db.sessions)) && StampsSessions(w.db.sessions, v.db.sessions, SessionsOf(w.db.sessions, u), w.now)
  {
  }

  lemma ResetBeginsExactlyWhen(w: World, u: Uuid, hash: string, password: string)
    ensures var v := Next(w, SpendCodeForReset(u, hash, password));
      && SpendsAll(w, v, u, hash, w.requests)
      && (ExactlyOne(w.db.codes, u, hash) ==> Starts(w, v, Resetting(u, password)))
      && (!ExactlyOne(w.db.codes, u, hash) ==> v.inflight == w.inflight && v.requests == w.requests + 1)
  {
    hide Spendable, ExactlyOne, Spending, SpendsAll, Next;
    OneRow(w.db.codes, u, hash);
    AllAreSpent(w, u, hash, w.requests);
    SpendingMovesNothing(w, u, hash, w.requests);
    ResetCodeIsSpent(w, u, hash, password);
    RequestsApart(w, Spending(w, u, hash, w.requests), Next(w, SpendCodeForReset(u, hash, password)), u, hash, w.requests);
  }

  lemma ResetCodeIsSpent(w: World, u: Uuid, hash: string, password: string)
    ensures var v := Spending(w, u, hash, w.requests);
      Next(w, SpendCodeForReset(u, hash, password)) ==
        if |Spendable(w.db.codes, u, hash)| == 1 then Begin(v, Resetting(u, password)) else v.(requests := v.requests + 1)
  {
    hide Spendable, Spending, Begin;
  }

  /** A redeemed link takes the user's passkeys and pending sign-ins, and nothing else. */
  lemma LinkTakesTheFactors(w: World, u: Uuid, password: string)
    ensures var v := Next(w, RedeemLink(u, password));
      && v == w.(inflight := v.inflight, requests := v.requests, retired := v.retired,
                 db := w.db.(passkeys := v.db.passkeys, pending := v.db.pending))
      && (forall p :: p in v.db.passkeys <==> p in w.db.passkeys && w.db.passkeys[p].userId != u)
      && (forall p | p in v.db.passkeys :: v.db.passkeys[p] == w.db.passkeys[p])
      && (forall p :: p in v.db.pending <==> p in w.db.pending && w.db.pending[p].userId != u)
      && (forall p | p in v.db.pending :: v.db.pending[p] == w.db.pending[p])
      && (forall r :: r in v.retired <==> r in w.retired || (r.PasskeyRow? && r.id in w.db.passkeys && w.db.passkeys[r.id].userId == u))
      && Starts(w, v, Resetting(u, password))
  {
  }

  /** The new password is stored, and every session of the account ends. */
  lemma PasswordIsSet(w: World, q: nat)
    requires q in w.inflight && w.inflight[q].Resetting? && w.inflight[q].userId in w.db.users
    ensures var v, x := Next(w, SetPassword(q)), w.inflight[q];
      && v == w.(inflight := v.inflight, db := w.db.(users := v.db.users, sessions := v.db.sessions))
      && v.db.users == w.db.users[x.userId := Account(x.password, false, w.db.users[x.userId].disabledAt)]
      && StampsSessions(w.db.sessions, v.db.sessions, SessionsOf(w.db.sessions, x.userId), w.now)
      && EndsOnly(w, v, q)
  {
  }

  lemma ChallengesAreCleared(w: World, u: Uuid, purpose: Purpose)
    ensures var v := Next(w, ClearChallenges(u, purpose));
      && v == w.(inflight := v.inflight, requests := v.requests, retired := v.retired, db := w.db.(challenges := v.db.challenges))
      && (forall c :: c in v.db.challenges <==>
            c in w.db.challenges && !(w.db.challenges[c].userId == u && w.db.challenges[c].purpose == purpose))
      && (forall c | c in v.db.challenges :: v.db.challenges[c] == w.db.challenges[c])
      && (forall r :: r in v.retired <==> r in w.retired || (r.ChallengeRow? && r.id in w.db.challenges && r.id !in v.db.challenges))
      && Starts(w, v, Saving(u, purpose))
  {
  }

  lemma ChallengeIsInserted(w: World, q: nat, c: Uuid, expiresAt: Instant)
    requires q in w.inflight && w.inflight[q].Saving?
    requires c !in w.db.challenges && c !in w.saved && Bound(c) !in w.consumed && ChallengeRow(c) !in w.retired
    ensures var v, x := Next(w, InsertChallenge(q, c, expiresAt)), w.inflight[q];
      && v == w.(inflight := v.inflight, saved := w.saved[c := Saved(q, x.userId, x.purpose)],
                 db := w.db.(challenges := w.db.challenges[c := Challenge(x.userId, x.purpose, expiresAt)]))
      && EndsOnly(w, v, q)
  {
  }

  lemma RegistrationBeginsExactlyWhen(w: World, u: Uuid, c: Uuid)
    ensures var v := Next(w, ConsumeRegistrationChallenge(u, c));
      && (w.passkeysEnabled && Takeable(w, u, ForRegistration, c) ==>
            TakesAll(w, v, u, ForRegistration, w.requests) && Starts(w, v, Registering(u)))
      && (!(w.passkeysEnabled && Takeable(w, u, ForRegistration, c)) ==> v == w)
  {
    var v := Next(w, ConsumeRegistrationChallenge(u, c));
    var rows := Consumable(w.db.challenges, u, ForRegistration, w.now);
    assert forall d :: d in rows <==> Takeable(w, u, ForRegistration, d);
    hide Consumable, Takeable, TakesAll;
    if w.passkeysEnabled && c in rows {
      AllAreTaken(w, v, u, ForRegistration, w.requests);
    }
  }

  lemma PasskeyIsRegisteredExactlyWhen(w: World, q: nat, p: Uuid, credentialId: string, count: nat)
    requires q in w.inflight && w.inflight[q].Registering? && p !in w.db.passkeys && PasskeyRow(p) !in w.retired
    ensures var v, x := Next(w, RegisterPasskey(q, p, credentialId, count)), w.inflight[q];
      var unknown := forall other | other in w.db.passkeys :: w.db.passkeys[other].credentialId != credentialId;
      && (unknown ==> v == w.(inflight := v.inflight,
                              db := w.db.(passkeys := w.db.passkeys[p := Passkey(x.userId, credentialId, count)])))
      && (unknown ==> EndsOnly(w, v, q))
      && (!unknown ==> v == w)
  {
  }

  lemma PasskeyIsDeletedExactlyWhen(w: World, p: Uuid, u: Uuid)
    ensures var v := Next(w, DeletePasskey(p, u));
      v == if p in w.db.passkeys && w.db.passkeys[p].userId == u
        then w.(db := w.db.(passkeys := w.db.passkeys - {p}), retired := w.retired + {PasskeyRow(p)}) else w
  {
  }

  /** The account's codes are these now, all unused, and no other row has changed. */
  ghost predicate Holding(a: map<Uuid, Code>, b: map<Uuid, Code>, u: Uuid, hashes: map<Uuid, string>) {
    && (forall c :: c in b <==> c in hashes || (c in a && a[c].userId != u))
    && (forall c | c in b :: b[c] == if c in hashes then Code(u, hashes[c], None) else a[c])
  }

  lemma CodesAreReplacedExactlyWhen(w: World, u: Uuid, hashes: map<Uuid, string>)
    ensures var v := Next(w, ReplaceCodes(u, hashes));
      && v == w.(db := w.db.(codes := v.db.codes), retired := v.retired)
      && (Storable(w, hashes) ==> Holding(w.db.codes, v.db.codes, u, hashes))
      && (Storable(w, hashes) ==> forall r :: r in v.retired <==>
            r in w.retired || (r.CodeRow? && r.id in w.db.codes && w.db.codes[r.id].userId == u))
      && (!Storable(w, hashes) ==> v == w)
  {
    CodesAreHeld(w, u, hashes);
    CodesAreStorable(w, hashes);
    hide Storable, NewCodes, Replaced, CodesOf, CodeRows;
  }

  /** No two of the codes are alike, and their rows are new. */
  ghost predicate Storable(w: World, hashes: map<Uuid, string>) {
    && (forall a, b | a in hashes && b in hashes && a != b :: hashes[a] != hashes[b])
    && (forall c | c in hashes :: c !in w.db.codes && c !in w.spent && CodeRow(c) !in w.retired)
  }

  lemma CodesAreStorable(w: World, hashes: map<Uuid, string>)
    ensures NewCodes(w, hashes) <==> Storable(w, hashes)
  {
  }

  lemma CodesAreHeld(w: World, u: Uuid, hashes: map<Uuid, string>)
    ensures Holding(w.db.codes, Replaced(w.db.codes, u, hashes), u, hashes)
    ensures forall r :: r in CodeRows(CodesOf(w.db.codes, u)) <==> r.CodeRow? && r.id in w.db.codes && w.db.codes[r.id].userId == u
  {
  }

  /** Signing up makes an account with its codes, enabled, and the request that did it goes
      on to a session of it. */
  lemma SignUpSucceedsExactlyWhen(w: World, u: Uuid, password: string, hashes: map<Uuid, string>)
    ensures var v := Next(w, SignUp(u, password, hashes));
      && (u !in w.db.users && Storable(w, hashes) ==>
            && v == w.(inflight := v.inflight, requests := v.requests, retired := v.retired,
                       db := w.db.(codes := v.db.codes, users := w.db.users[u := Account(password, false, None)]))
            && Holding(w.db.codes, v.db.codes, u, hashes)
            && Starts(w, v, Proven(u, Browser, Signup)))
      && (!(u !in w.db.users && Storable(w, hashes)) ==> v == w)
  {
    CodesAreHeld(w, u, hashes);
    CodesAreStorable(w, hashes);
    hide Storable, NewCodes, Replaced, CodesOf, CodeRows, Holding;
  }
}
