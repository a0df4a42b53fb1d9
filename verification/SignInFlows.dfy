/** Exactly when each way of signing in succeeds, and what it leaves behind: whole
    requests, run without another in between. */
module SignInFlows {
  import opened Outcomes
  import opened Domain
  import opened SignIn
  import opened SignInRows

  /** A statement whose request has not got there, or is over, does nothing. */
  lemma PasswordOutOfTurn(w: World, q: nat)
    requires !(q in w.inflight && w.inflight[q].PasswordOk?)
    ensures Next(w, UpgradeHash(q)) == w && Next(w, CountPasskeys(q)) == w
  {
  }

  lemma PendingOutOfTurn(w: World, q: nat, p: Uuid, expiresAt: Instant)
    requires !(q in w.inflight && w.inflight[q].NeedsFactor?)
    ensures Next(w, CreatePending(q, p, expiresAt)) == w
  {
  }

  lemma FactorOutOfTurn(w: World, q: nat, c: Uuid, hash: string)
    requires !(q in w.inflight && w.inflight[q].HasPending?)
    ensures Next(w, ConsumeLoginChallenge(q, c)) == w && Next(w, SpendCode(q, hash)) == w
  {
  }

  lemma AssertionOutOfTurn(w: World, q: nat, p: Uuid, count: nat)
    ensures !(q in w.inflight && w.inflight[q].Challenged?) ==> Next(w, ValidateAssertion(q, p, count)) == w
    ensures !(q in w.inflight && w.inflight[q].OpenChallenged?) ==> Next(w, ValidateOpenAssertion(q, p, count)) == w
  {
  }

  lemma CountOutOfTurn(w: World, q: nat, stored: bool)
    ensures !(q in w.inflight && w.inflight[q].OneKeyOnly?) ==> Next(w, CountCodes(q)) == w
    ensures !(q in w.inflight && (w.inflight[q].Asserted? || w.inflight[q].OpenAsserted?)) ==> Next(w, Touch(q, stored)) == w
  {
  }

  lemma EndOutOfTurn(w: World, q: nat, done: bool, s: Uuid, expiresAt: Instant)
    ensures !(q in w.inflight && w.inflight[q].Satisfied?) ==> Next(w, DropPending(q, done)) == w
    ensures !(q in w.inflight && (w.inflight[q].Proven? || w.inflight[q].Reissuing?)) ==> Next(w, InsertSession(q, s, expiresAt)) == w
    ensures !(q in w.inflight && w.inflight[q].Retiring?) ==> Next(w, RetireSession(q, done)) == w
  {
  }

  // ---------------------------------------------------------------------------
  // By password
  // ---------------------------------------------------------------------------

  /** The account exists, is not disabled, and this is its password. */
  predicate Knows(w: World, u: Uuid, password: string) {
    && u in w.db.users && w.db.users[u].password == password
    && (w.db.users[u].disabledAt.None? || w.now < w.db.users[u].disabledAt.value)
  }

  /** There is a passkey to ask for. */
  ghost predicate HasFactor(w: World, u: Uuid) {
    w.passkeysEnabled && HasPasskey(w.db.passkeys, u)
  }

  ghost predicate HasPasskey(passkeys: map<Uuid, Passkey>, u: Uuid) {
    exists p :: p in passkeys && passkeys[p].userId == u
  }

  lemma CountDecides(w: World, q: nat)
    requires q in w.inflight && w.inflight[q].PasswordOk?
    ensures var v, x := Next(w, CountPasskeys(q)), w.inflight[q];
      && v == w.(inflight := v.inflight)
      && MovesTo(w, v, q, if HasFactor(w, x.userId) then NeedsFactor(x.userId, x.kind) else Proven(x.userId, x.kind, PasswordAlone))
  {
    hide Next;
    PasswordIsEnoughExactlyWhen(w, q);
  }

  /** A request that checks a password, upgrades the hash and counts the passkeys. */
  function PasswordChecked(w: World, u: Uuid, password: string, kind: SessionKind): World {
    Next(Next(Next(w, VerifyPassword(u, password, kind)), UpgradeHash(w.requests)), CountPasskeys(w.requests))
  }

  lemma PasswordDecides(w: World, u: Uuid, password: string, kind: SessionKind)
    requires w.requests !in w.inflight
    ensures var v, q := PasswordChecked(w, u, password, kind), w.requests;
      && v == w.(inflight := v.inflight, requests := v.requests, db := w.db.(users := v.db.users))
      && (Knows(w, u, password) && kind in {Browser, Cli} ==>
            && v.db.users == w.db.users[u := w.db.users[u].(due := false)]
            && Starts(w, v, if HasFactor(w, u) then NeedsFactor(u, kind) else Proven(u, kind, PasswordAlone)))
      && (!(Knows(w, u, password) && kind in {Browser, Cli}) ==> v == w)
  {
    hide Next, HasPasskey;
    var q := w.requests;
    var a := Next(w, VerifyPassword(u, password, kind));
    PasswordIsAcceptedExactlyWhen(w, u, password, kind);
    if Knows(w, u, password) && kind in {Browser, Cli} {
      HashIsUpgradedExactlyWhen(a, q);
      CountDecides(Next(a, UpgradeHash(q)), q);
    } else {
      PasswordOutOfTurn(w, q);
    }
  }

  /** Signing in by password makes a session exactly when the password is the account's,
      the account is not disabled, and there is no passkey to ask for. Nothing else is left
      behind but a hash that is no longer due. */
  lemma PasswordAloneSignsInExactlyWhen(w: World, u: Uuid, password: string, kind: SessionKind, s: Uuid, expiresAt: Instant)
    requires w.requests !in w.inflight && s !in w.made && s !in w.db.sessions
    ensures var v := Next(PasswordChecked(w, u, password, kind), InsertSession(w.requests, s, expiresAt));
      && (s in v.db.sessions <==> Knows(w, u, password) && kind in {Browser, Cli} && !HasFactor(w, u))
      && (s in v.db.sessions ==> v == w.(requests := w.requests + 1, inflight := w.inflight, made := w.made[s := Made(w.requests, PasswordAlone)],
            db := w.db.(users := w.db.users[u := w.db.users[u].(due := false)],
                        sessions := w.db.sessions[s := Session(u, kind, expiresAt, None)])))
      && (s !in v.db.sessions ==> v.db.sessions == w.db.sessions)
  {
    hide Next, PasswordChecked, HasFactor, Knows;
    PasswordDecides(w, u, password, kind);
    var a, q := PasswordChecked(w, u, password, kind), w.requests;
    if Knows(w, u, password) && kind in {Browser, Cli} && !HasFactor(w, u) {
      SessionIsInserted(a, q, s, expiresAt);
      assert w.inflight[q := a.inflight[q]] - {q} == w.inflight;
    } else {
      EndOutOfTurn(a, q, false, s, expiresAt);
    }
  }

  /** Where there is one to ask for, the password buys a pending token of the account and
      nothing else, and it buys one only there. */
  lemma FactorIsAskedForExactlyWhen(w: World, u: Uuid, password: string, kind: SessionKind, p: Uuid, expiresAt: Instant)
    requires w.requests !in w.inflight && p !in w.db.pending
    ensures var v := Next(PasswordChecked(w, u, password, kind), CreatePending(w.requests, p, expiresAt));
      && (p in v.db.pending <==> Knows(w, u, password) && kind in {Browser, Cli} && HasFactor(w, u))
      && (p in v.db.pending ==> v == w.(requests := w.requests + 1,
            db := w.db.(users := w.db.users[u := w.db.users[u].(due := false)],
                        pending := w.db.pending[p := Pending(u, kind, expiresAt, w.requests)])))
      && (p !in v.db.pending ==> v.db.pending == w.db.pending)
  {
    hide Next, PasswordChecked, HasFactor, Knows;
    PasswordDecides(w, u, password, kind);
    var a, q := PasswordChecked(w, u, password, kind), w.requests;
    if Knows(w, u, password) && kind in {Browser, Cli} && HasFactor(w, u) {
      PendingIsCreated(a, q, p, expiresAt);
      assert w.inflight[q := a.inflight[q]] - {q} == w.inflight;
    } else {
      PendingOutOfTurn(a, q, p, expiresAt);
    }
  }

  // ---------------------------------------------------------------------------
  // By a second factor
  // ---------------------------------------------------------------------------

  /** The request that answers with a passkey, up to its session. */
  function PasskeyAnswered(w: World, p: Uuid, c: Uuid, passkeyId: Uuid, count: nat, stored: bool): World {
    var q := w.requests;
    Next(Next(Next(Next(w, ResolvePending(p)), ConsumeLoginChallenge(q, c)), ValidateAssertion(q, passkeyId, count)), Touch(q, stored))
  }

  predicate PendingLasts(w: World, p: Uuid) {
    p in w.db.pending && w.now < w.db.pending[p].expiresAt
  }

  /** An unexpired challenge of this user, and an assertion by one of the user's passkeys
      whose counter has moved on. */
  predicate PasskeyAnswers(w: World, u: Uuid, c: Uuid, passkeyId: Uuid, count: nat) {
    && w.passkeysEnabled && Takeable(w, u, ForLogin, c)
    && passkeyId in w.db.passkeys && w.db.passkeys[passkeyId].userId == u && Counts(w.db.passkeys, passkeyId, count)
  }

  lemma AnswerBegins(w: World, p: Uuid, c: Uuid)
    requires w.requests !in w.inflight
    ensures var v, q := Next(Next(w, ResolvePending(p)), ConsumeLoginChallenge(w.requests, c)), w.requests;
      var taken := PendingLasts(w, p) && w.passkeysEnabled && Takeable(w, w.db.pending[p].userId, ForLogin, c);
      && (taken ==> TakesAll(w, v, w.db.pending[p].userId, ForLogin, q))
      && (taken ==> Starts(w, v, Challenged(w.db.pending[p].userId, w.db.pending[p].kind, p, w.db.pending[p].attempt)))
      && (!taken ==> v == w.(inflight := v.inflight, requests := v.requests) && (q !in v.inflight || v.inflight[q].HasPending?))
  {
    hide Next, TakesAll;
    var q := w.requests;
    var a := Next(w, ResolvePending(p));
    PendingIsHeldExactlyWhen(w, p);
    if PendingLasts(w, p) {
      var u := w.db.pending[p].userId;
      ChallengeIsTakenExactlyWhen(a, q, c);
      assert Takeable(a, u, ForLogin, c) <==> Takeable(w, u, ForLogin, c);
      if w.passkeysEnabled && Takeable(w, u, ForLogin, c) {
        TakenFromTheStart(w, a, Next(a, ConsumeLoginChallenge(q, c)), u, q);
      }
    } else {
      FactorOutOfTurn(a, q, c, "");
    }
  }

  lemma TakenFromTheStart(w: World, a: World, v: World, u: Uuid, q: nat)
    requires a == w.(inflight := a.inflight, requests := a.requests) && TakesAll(a, v, u, ForLogin, q)
    ensures TakesAll(w, v, u, ForLogin, q)
  {
    assert forall c :: Takeable(a, u, ForLogin, c) <==> Takeable(w, u, ForLogin, c);
    hide Takeable;
  }

  lemma TakingTouchesOnly(w: World, v: World, u: Uuid, q: nat)
    requires TakesAll(w, v, u, ForLogin, q)
    ensures v == w.(inflight := v.inflight, requests := v.requests, db := w.db.(challenges := v.db.challenges), consumed := v.consumed)
    ensures TakesAll(w, w.(db := w.db.(challenges := v.db.challenges), consumed := v.consumed), u, ForLogin, q)
  {
    hide Takeable;
  }

  lemma AnswerEnds(w: World, q: nat, passkeyId: Uuid, count: nat, stored: bool)
    requires q in w.inflight && w.inflight[q].Challenged?
    ensures var v, x := Next(Next(w, ValidateAssertion(q, passkeyId, count)), Touch(q, stored)), w.inflight[q];
      var valid := passkeyId in w.db.passkeys && w.db.passkeys[passkeyId].userId == x.userId && Counts(w.db.passkeys, passkeyId, count);
      && v == w.(inflight := v.inflight, db := w.db.(passkeys := v.db.passkeys))
      && (valid ==> CountsOn(w.db.passkeys, v.db.passkeys, w.db.passkeys[passkeyId].credentialId, if stored then count else 0))
      && (valid ==> MovesTo(w, v, q, Satisfied(x.userId, x.kind, SecondPasskey(x.pendingId, x.attempt))))
      && (!valid ==> v.db == w.db && EndsOnly(w, v, q))
  {
    hide Next, Counts, CountsOn;
    var a := Next(w, ValidateAssertion(q, passkeyId, count));
    AssertionIsValidExactlyWhen(w, q, passkeyId, count);
    if q in a.inflight {
      CounterIsStored(a, q, stored);
    } else {
      CountOutOfTurn(a, q, stored);
    }
  }

  /** What a sign-in with an assertion by this passkey leaves behind. */
  ghost predicate SignedInByPasskey(w: World, v: World, p: Uuid, passkeyId: Uuid, count: nat, s: Uuid, expiresAt: Instant)
    requires p in w.db.pending && passkeyId in w.db.passkeys
  {
    var u, q := w.db.pending[p].userId, w.requests;
    && v.inflight == w.inflight && v.requests == q + 1
    && TakesAll(w, w.(db := w.db.(challenges := v.db.challenges), consumed := v.consumed), u, ForLogin, q)
    && CountsOn(w.db.passkeys, v.db.passkeys, w.db.passkeys[passkeyId].credentialId, count)
    && v.db.sessions == w.db.sessions[s := Session(u, w.db.pending[p].kind, expiresAt, None)]
    && v.made == w.made[s := Made(q, SecondPasskey(p, w.db.pending[p].attempt))]
    && v.db.pending == w.db.pending - {p} && v.db.codes == w.db.codes && v.db.users == w.db.users && v.db.openChallenges == w.db.openChallenges
  }

  /** Answering with a passkey makes a session of the pending token's own account exactly
      when that token and a challenge of that account last, passkeys are on, and the
      assertion is by a passkey of that account whose counter has moved on. */
  lemma SecondPasskeySignsInExactlyWhen(w: World, p: Uuid, c: Uuid, passkeyId: Uuid, count: nat, s: Uuid, expiresAt: Instant)
    requires w.requests !in w.inflight && s !in w.made && s !in w.db.sessions
    ensures var q := w.requests;
      var v := Next(Next(PasskeyAnswered(w, p, c, passkeyId, count, true), DropPending(q, true)), InsertSession(q, s, expiresAt));
      && (s in v.db.sessions <==> PendingLasts(w, p) && PasskeyAnswers(w, w.db.pending[p].userId, c, passkeyId, count))
      && (s in v.db.sessions ==> SignedInByPasskey(w, v, p, passkeyId, count, s, expiresAt))
      && (s !in v.db.sessions ==> v.db.sessions == w.db.sessions)
  {
    hide Next, Takeable, TakesAll, Counts, CountsOn, PasskeyAnswered, PasskeyAnswers;
    var q := w.requests;
    var d := PasskeyAnswered(w, p, c, passkeyId, count, true);
    var e := Next(d, DropPending(q, true));
    PasskeyDecides(w, p, c, passkeyId, count, true);
    if q in d.inflight && d.inflight[q].Satisfied? {
      PendingIsDropped(d, q, true);
      SessionIsInserted(e, q, s, expiresAt);
      assert w.inflight[q := e.inflight[q]] - {q} == w.inflight;
    } else {
      EndOutOfTurn(d, q, true, s, expiresAt);
    }
  }

  lemma PasskeyDecides(w: World, p: Uuid, c: Uuid, passkeyId: Uuid, count: nat, stored: bool)
    requires w.requests !in w.inflight
    ensures var v, q := PasskeyAnswered(w, p, c, passkeyId, count, stored), w.requests;
      var answered := PendingLasts(w, p) && PasskeyAnswers(w, w.db.pending[p].userId, c, passkeyId, count);
      && v == w.(inflight := v.inflight, requests := v.requests, consumed := v.consumed,
                 db := w.db.(challenges := v.db.challenges, passkeys := v.db.passkeys))
      && (answered ==> TakesAll(w, w.(db := w.db.(challenges := v.db.challenges), consumed := v.consumed), w.db.pending[p].userId, ForLogin, q))
      && (answered ==> CountsOn(w.db.passkeys, v.db.passkeys, w.db.passkeys[passkeyId].credentialId, if stored then count else 0))
      && (answered ==> Starts(w, v, Satisfied(w.db.pending[p].userId, w.db.pending[p].kind, SecondPasskey(p, w.db.pending[p].attempt))))
      && (!answered ==> q !in v.inflight || v.inflight[q].HasPending?)
  {
    hide Next, Takeable, TakesAll, Counts, CountsOn;
    var q := w.requests;
    var b := Next(Next(w, ResolvePending(p)), ConsumeLoginChallenge(q, c));
    var v := PasskeyAnswered(w, p, c, passkeyId, count, stored);
    if PendingLasts(w, p) && w.passkeysEnabled && Takeable(w, w.db.pending[p].userId, ForLogin, c) {
      var u := w.db.pending[p].userId;
      AnswerBegins(w, p, c);
      TakingTouchesOnly(w, b, u, q);
      AnswerEnds(b, q, passkeyId, count, stored);
      hide PasskeyAnswered, PendingLasts;
      assert v == b.(inflight := v.inflight, db := b.db.(passkeys := v.db.passkeys));
      assert v == w.(inflight := v.inflight, requests := v.requests, consumed := v.consumed,
                     db := w.db.(challenges := v.db.challenges, passkeys := v.db.passkeys));
      assert v.db.challenges == b.db.challenges && v.consumed == b.consumed;
    } else {
      NothingToAnswer(w, p, c, passkeyId, count, stored);
    }
  }

  lemma NothingToAnswer(w: World, p: Uuid, c: Uuid, passkeyId: Uuid, count: nat, stored: bool)
    requires w.requests !in w.inflight
    requires !(PendingLasts(w, p) && w.passkeysEnabled && Takeable(w, w.db.pending[p].userId, ForLogin, c))
    ensures var v, q := PasskeyAnswered(w, p, c, passkeyId, count, stored), w.requests;
      v == w.(inflight := v.inflight, requests := v.requests) && (q !in v.inflight || v.inflight[q].HasPending?)
  {
    hide Next, Takeable, TakesAll;
    var q := w.requests;
    var b := Next(Next(w, ResolvePending(p)), ConsumeLoginChallenge(q, c));
    AnswerBegins(w, p, c);
    AssertionOutOfTurn(b, q, passkeyId, count);
    CountOutOfTurn(b, q, stored);
  }

  /** Answering with a recovery code makes a session of the pending token's own account
      exactly when that token lasts and one unused code of that account is the one given.
      That code is then used, and the token gone. */
  lemma RecoveryCodeSignsInExactlyWhen(w: World, p: Uuid, hash: string, s: Uuid, expiresAt: Instant)
    requires w.requests !in w.inflight && s !in w.made && s !in w.db.sessions
    ensures var q := w.requests;
      var v := Next(Next(Next(Next(w, ResolvePending(p)), SpendCode(q, hash)), DropPending(q, true)), InsertSession(q, s, expiresAt));
      && (s in v.db.sessions <==> PendingLasts(w, p) && ExactlyOne(w.db.codes, w.db.pending[p].userId, hash))
      && (s in v.db.sessions ==>
            var row := w.db.pending[p];
            && v == w.(requests := q + 1, spent := v.spent, made := w.made[s := Made(q, SecondCode(p, row.attempt))],
                       db := w.db.(codes := v.db.codes, pending := w.db.pending - {p},
                                   sessions := w.db.sessions[s := Session(row.userId, row.kind, expiresAt, None)]))
            && SpendsAll(w, w.(db := w.db.(codes := v.db.codes), spent := v.spent), row.userId, hash, q))
      && (s !in v.db.sessions ==> v.db.sessions == w.db.sessions)
  {
    hide Next, SpendsAll, ExactlyOne;
    var q := w.requests;
    var a := Next(w, ResolvePending(p));
    var b := Next(a, SpendCode(q, hash));
    var d := Next(b, DropPending(q, true));
    PendingIsHeldExactlyWhen(w, p);
    if PendingLasts(w, p) {
      CodeIsTakenExactlyWhen(a, q, hash);
      SpendingTouchesOnly(w, a, b, w.db.pending[p].userId, hash, q);
    } else {
      FactorOutOfTurn(a, q, NIL, hash);
    }
    if q in b.inflight && b.inflight[q].Satisfied? {
      PendingIsDropped(b, q, true);
      SessionIsInserted(d, q, s, expiresAt);
      assert w.inflight[q := d.inflight[q]] - {q} == w.inflight;
    } else {
      EndOutOfTurn(b, q, true, s, expiresAt);
    }
  }

  lemma SpendingTouchesOnly(w: World, a: World, v: World, u: Uuid, hash: string, q: nat)
    requires a == w.(inflight := a.inflight, requests := a.requests) && SpendsAll(a, v, u, hash, q)
    ensures v == a.(inflight := v.inflight, requests := v.requests, db := a.db.(codes := v.db.codes), spent := v.spent)
    ensures SpendsAll(w, w.(db := w.db.(codes := v.db.codes), spent := v.spent), u, hash, q)
  {
    hide Redeemable;
  }

  // ---------------------------------------------------------------------------
  // By a passkey alone
  // ---------------------------------------------------------------------------

  predicate OpenLasts(w: World, h: Uuid) {
    w.passkeysEnabled && h in w.db.openChallenges && w.now < w.db.openChallenges[h]
  }

  ghost predicate HasAnother(passkeys: map<Uuid, Passkey>, p: Uuid)
    requires p in passkeys
  {
    exists other :: other in passkeys && other != p && passkeys[other].userId == passkeys[p].userId
  }

  ghost predicate HasCode(codes: map<Uuid, Code>, u: Uuid) {
    exists c :: c in codes && codes[c].userId == u && codes[c].usedAt.None?
  }

  /** The counter has moved on, and the account could be recovered without this passkey. */
  ghost predicate StandsAlone(w: World, p: Uuid, count: nat) {
    && p in w.db.passkeys && Counts(w.db.passkeys, p, count)
    && (HasAnother(w.db.passkeys, p) || HasCode(w.db.codes, w.db.passkeys[p].userId))
  }

  /** The request that names nobody, up to its session. */
  function OpenAnswered(w: World, h: Uuid, kind: SessionKind, p: Uuid, count: nat): World {
    var q := w.requests;
    Next(Next(Next(w, ConsumeOpenChallenge(h, kind)), ValidateOpenAssertion(q, p, count)), CountCodes(q))
  }

  lemma OpenDecides(w: World, h: Uuid, kind: SessionKind, p: Uuid, count: nat)
    requires w.requests !in w.inflight
    ensures var v, q := OpenAnswered(w, h, kind, p, count), w.requests;
      var taken := OpenLasts(w, h) && kind in {Browser, Cli};
      && (!taken ==> v == w)
      && (taken ==> v == w.(inflight := v.inflight, requests := q + 1, db := w.db.(openChallenges := w.db.openChallenges - {h}),
                            consumed := w.consumed[Open(h) := q]))
      && (taken && !StandsAlone(w, p, count) ==> q !in v.inflight)
      && (taken && StandsAlone(w, p, count) ==>
            Starts(w, v, OpenAsserted(w.db.passkeys[p].userId, kind, w.db.passkeys[p].credentialId, count, HasAnother(w.db.passkeys, p))))
  {
    hide Next, Counts, HasAnother, HasCode;
    var q := w.requests;
    var a := Next(w, ConsumeOpenChallenge(h, kind));
    var b := Next(a, ValidateOpenAssertion(q, p, count));
    OpenChallengeIsTakenExactlyWhen(w, h, kind);
    if OpenLasts(w, h) && kind in {Browser, Cli} {
      OpenAssertionDecides(a, q, p, count);
    } else {
      AssertionOutOfTurn(a, q, p, count);
    }
    if q in b.inflight && b.inflight[q].OneKeyOnly? {
      CodesDecide(b, q);
    } else {
      CountOutOfTurn(b, q, true);
    }
  }

  lemma OpenAssertionDecides(w: World, q: nat, p: Uuid, count: nat)
    requires q in w.inflight && w.inflight[q].OpenChallenged?
    ensures var v, kind := Next(w, ValidateOpenAssertion(q, p, count)), w.inflight[q].kind;
      && v == w.(inflight := v.inflight)
      && (!(p in w.db.passkeys && Counts(w.db.passkeys, p, count)) ==> EndsOnly(w, v, q))
      && (p in w.db.passkeys && Counts(w.db.passkeys, p, count) ==>
            var row := w.db.passkeys[p];
            MovesTo(w, v, q, if HasAnother(w.db.passkeys, p) then OpenAsserted(row.userId, kind, row.credentialId, count, true)
                             else OneKeyOnly(row.userId, kind, row.credentialId, count)))
  {
    hide Next, Counts;
    OpenAssertionIsValidExactlyWhen(w, q, p, count);
  }

  lemma CodesDecide(w: World, q: nat)
    requires q in w.inflight && w.inflight[q].OneKeyOnly?
    ensures var v, x := Next(w, CountCodes(q)), w.inflight[q];
      && v == w.(inflight := v.inflight)
      && (HasCode(w.db.codes, x.userId) ==> MovesTo(w, v, q, OpenAsserted(x.userId, x.kind, x.credentialId, x.count, false)))
      && (!HasCode(w.db.codes, x.userId) ==> EndsOnly(w, v, q))
  {
    hide Next;
    CodeIsLeftExactlyWhen(w, q);
  }

  /** A passkey alone signs its own account in exactly when the challenge lasts, passkeys
      are on, its counter has moved on, and the account has a second passkey or an unused
      recovery code. The challenge is then gone, and the counter stored. */
  lemma PasskeyAloneSignsInExactlyWhen(w: World, h: Uuid, kind: SessionKind, p: Uuid, count: nat, s: Uuid, expiresAt: Instant)
    requires w.requests !in w.inflight && s !in w.made && s !in w.db.sessions
    ensures var q := w.requests;
      var v := Next(Next(OpenAnswered(w, h, kind, p, count), Touch(q, true)), InsertSession(q, s, expiresAt));
      && (s in v.db.sessions <==> OpenLasts(w, h) && kind in {Browser, Cli} && StandsAlone(w, p, count))
      && (s in v.db.sessions ==>
            && v == w.(requests := q + 1, consumed := w.consumed[Open(h) := q],
                       made := w.made[s := Made(q, PasskeyAlone(HasAnother(w.db.passkeys, p)))],
                       db := w.db.(openChallenges := w.db.openChallenges - {h}, passkeys := v.db.passkeys,
                                   sessions := w.db.sessions[s := Session(w.db.passkeys[p].userId, kind, expiresAt, None)]))
            && CountsOn(w.db.passkeys, v.db.passkeys, w.db.passkeys[p].credentialId, count))
      && (s !in v.db.sessions ==> v.db.sessions == w.db.sessions)
  {
    hide Next, OpenAnswered, CountsOn, StandsAlone, HasAnother;
    var q := w.requests;
    var a := OpenAnswered(w, h, kind, p, count);
    OpenDecides(w, h, kind, p, count);
    if OpenLasts(w, h) && kind in {Browser, Cli} && StandsAlone(w, p, count) {
      var b := Next(a, Touch(q, true));
      assert p in w.db.passkeys by { OnlyAPasskeyStandsAlone(w, p, count); }
      CounterIsStored(a, q, true);
      SessionIsInserted(b, q, s, expiresAt);
      assert w.inflight[q := b.inflight[q]] - {q} == w.inflight;
    } else {
      CountOutOfTurn(a, q, true);
      EndOutOfTurn(a, q, true, s, expiresAt);
    }
  }

  lemma OnlyAPasskeyStandsAlone(w: World, p: Uuid, count: nat)
    requires StandsAlone(w, p, count)
    ensures p in w.db.passkeys
  {
  }

  // ---------------------------------------------------------------------------
  // By a session, a code or a link
  // ---------------------------------------------------------------------------

  /** The session is neither revoked nor expired. */
  predicate SessionLasts(w: World, s: Uuid) {
    && s in w.db.sessions && w.now < w.db.sessions[s].expiresAt
    && (w.db.sessions[s].revokedAt.None? || w.now < w.db.sessions[s].revokedAt.value)
  }

  /** A session is exchanged for another of the same account and kind exactly while it
      lasts, and is revoked then, if its revocation goes through. */
  lemma SessionIsReissuedExactlyWhen(w: World, from: Uuid, s: Uuid, expiresAt: Instant, revoked: bool)
    requires w.requests !in w.inflight && s !in w.made && s !in w.db.sessions
    ensures var q := w.requests;
      var v := Next(Next(Next(w, AuthenticateForReissue(from)), InsertSession(q, s, expiresAt)), RetireSession(q, revoked));
      && (s in v.db.sessions <==> SessionLasts(w, from))
      && (s in v.db.sessions ==>
            var was := w.db.sessions[from];
            && v == w.(requests := q + 1, made := w.made[s := Made(q, Reissue(from))], db := w.db.(sessions := v.db.sessions))
            && StampsSessions(w.db.sessions[s := Session(was.userId, was.kind, expiresAt, None)], v.db.sessions,
                              if revoked then {from} else {}, w.now))
      && (s !in v.db.sessions ==> v == w)
  {
    hide Next, StampsSessions;
    var q := w.requests;
    var a := Next(w, AuthenticateForReissue(from));
    var b := Next(a, InsertSession(q, s, expiresAt));
    var v := Next(b, RetireSession(q, revoked));
    ReissueBeginsExactlyWhen(w, from);
    if SessionLasts(w, from) {
      SessionIsReissued(a, q, s, expiresAt);
      SessionIsRetired(b, q, revoked);
      StampingKeepsRows(b.db.sessions, v.db.sessions, if revoked then {from} else {}, w.now);
      assert b.inflight - {q} == w.inflight;
    } else {
      EndOutOfTurn(w, q, revoked, s, expiresAt);
    }
  }

  lemma StampingKeepsRows(a: map<Uuid, Session>, b: map<Uuid, Session>, which: set<Uuid>, now: Instant)
    requires StampsSessions(a, b, which, now)
    ensures b.Keys == a.Keys
  {
  }

  /** What a reset leaves behind: the new password, and every session of the account ended. */
  ghost predicate Reset(w: World, v: World, u: Uuid, password: string)
    requires u in w.db.users
  {
    && v.db.users == w.db.users[u := Account(password, false, w.db.users[u].disabledAt)]
    && StampsSessions(w.db.sessions, v.db.sessions, SessionsOf(w.db.sessions, u), w.now)
  }

  /** A recovery code resets its account's password exactly when it is the one unused code
      that matches; it is used then, and the passkeys stay. */
  lemma CodeResetsExactlyWhen(w: World, u: Uuid, hash: string, password: string)
    requires w.requests !in w.inflight && u in w.db.users
    ensures var v := Next(Next(w, SpendCodeForReset(u, hash, password)), SetPassword(w.requests));
      && SpendsAll(w, w.(db := w.db.(codes := v.db.codes), spent := v.spent), u, hash, w.requests)
      && v == w.(requests := w.requests + 1, spent := v.spent, db := w.db.(codes := v.db.codes, users := v.db.users, sessions := v.db.sessions))
      && (ExactlyOne(w.db.codes, u, hash) ==> Reset(w, v, u, password))
      && (!ExactlyOne(w.db.codes, u, hash) ==> v.db.users == w.db.users && v.db.sessions == w.db.sessions)
  {
    hide Next, SpendsAll, ExactlyOne, StampsSessions;
    var q := w.requests;
    var a := Next(w, SpendCodeForReset(u, hash, password));
    ResetBeginsExactlyWhen(w, u, hash, password);
    SpendingTouchesOnly(w, w, a, u, hash, q);
    if ExactlyOne(w.db.codes, u, hash) {
      PasswordIsSet(a, q);
      assert a.inflight - {q} == w.inflight;
    } else {
      SetOutOfTurn(a, q);
    }
  }

  lemma SetOutOfTurn(w: World, q: nat)
    requires !(q in w.inflight && w.inflight[q].Resetting?)
    ensures Next(w, SetPassword(q)) == w
  {
  }

  /** A redeemed link resets the password, and takes the account's passkeys and pending
      sign-ins with it. The recovery codes stay. */
  lemma LinkResets(w: World, u: Uuid, password: string)
    requires w.requests !in w.inflight && u in w.db.users
    ensures var v := Next(Next(w, RedeemLink(u, password)), SetPassword(w.requests));
      && v == w.(requests := w.requests + 1, retired := v.retired,
                 db := w.db.(passkeys := v.db.passkeys, pending := v.db.pending, users := v.db.users, sessions := v.db.sessions))
      && Reset(w, v, u, password)
      && v.db.passkeys == (map p | p in w.db.passkeys && w.db.passkeys[p].userId != u :: w.db.passkeys[p])
      && v.db.pending == (map p | p in w.db.pending && w.db.pending[p].userId != u :: w.db.pending[p])
  {
    hide Next, StampsSessions;
    var a := Next(w, RedeemLink(u, password));
    LinkTakesTheFactors(w, u, password);
    PasswordIsSet(a, w.requests);
    assert a.inflight - {w.requests} == w.inflight;
  }

  // ---------------------------------------------------------------------------
  // Registering a passkey
  // ---------------------------------------------------------------------------

  /** A passkey is registered to the account the challenge was made for exactly when that
      challenge lasts, passkeys are on, and no passkey is known by that credential. */
  lemma PasskeyIsAddedExactlyWhen(w: World, u: Uuid, c: Uuid, p: Uuid, credentialId: string, count: nat)
    requires w.requests !in w.inflight && p !in w.db.passkeys && PasskeyRow(p) !in w.retired
    ensures var v := Next(Next(w, ConsumeRegistrationChallenge(u, c)), RegisterPasskey(w.requests, p, credentialId, count));
      && (p in v.db.passkeys <==>
            && w.passkeysEnabled && Takeable(w, u, ForRegistration, c)
            && forall other | other in w.db.passkeys :: w.db.passkeys[other].credentialId != credentialId)
      && v.db.passkeys == (if p in v.db.passkeys then w.db.passkeys[p := Passkey(u, credentialId, count)] else w.db.passkeys)
      && (w.passkeysEnabled && Takeable(w, u, ForRegistration, c) ==>
            TakesAll(w, v.(db := w.db.(challenges := v.db.challenges)), u, ForRegistration, w.requests))
      && (!(w.passkeysEnabled && Takeable(w, u, ForRegistration, c)) ==> v == w)
  {
    hide Next, Takeable, TakesAll;
    var a := Next(w, ConsumeRegistrationChallenge(u, c));
    RegistrationBeginsExactlyWhen(w, u, c);
    if w.passkeysEnabled && Takeable(w, u, ForRegistration, c) {
      var v := Next(a, RegisterPasskey(w.requests, p, credentialId, count));
      TakingForRegistration(w, a, v, u);
      PasskeyIsRegisteredExactlyWhen(a, w.requests, p, credentialId, count);
    } else {
      RegisterOutOfTurn(w, w.requests, p, credentialId, count);
    }
  }

  lemma TakingForRegistration(w: World, a: World, v: World, u: Uuid)
    requires TakesAll(w, a, u, ForRegistration, w.requests)
    ensures a.db.passkeys == w.db.passkeys && a.retired == w.retired
    ensures v == a.(inflight := v.inflight, requests := v.requests, db := a.db.(passkeys := v.db.passkeys)) ==>
      TakesAll(w, v.(db := w.db.(challenges := v.db.challenges)), u, ForRegistration, w.requests)
  {
    hide Takeable;
  }

  lemma RegisterOutOfTurn(w: World, q: nat, p: Uuid, credentialId: string, count: nat)
    requires !(q in w.inflight && w.inflight[q].Registering?)
    ensures Next(w, RegisterPasskey(q, p, credentialId, count)) == w
  {
  }
}
