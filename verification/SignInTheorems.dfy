/** Where every session comes from, over all interleavings of requests. */
module SignInTheorems {
  import opened Outcomes
  import opened Domain
  import opened SignIn
  import opened SignInFrames

  // ---------------------------------------------------------------------------
  // Provenance
  // ---------------------------------------------------------------------------

  // A check that one request, or one account, passed at some point of a run.
  datatype Evidence =
    | SignedUp(request: nat, userId: Uuid)
    | PasswordAccepted(request: nat, userId: Uuid, kind: SessionKind)
    | PasswordWasEnough(request: nat, userId: Uuid)
    | FactorWasAsked(request: nat, userId: Uuid)
    | PendingHeld(request: nat, pendingId: Uuid, userId: Uuid, kind: SessionKind, attempt: nat)
    | ChallengeTaken(request: nat, userId: Uuid)
    | AssertionValid(request: nat, userId: Uuid)
    | CodeTaken(request: nat, userId: Uuid)
    | OpenChallengeTaken(request: nat)
    | OpenAssertionValid(request: nat, userId: Uuid, twoPasskeys: bool)
    | CodeLeft(request: nat, userId: Uuid)
    | SessionLive(request: nat, session: Uuid, userId: Uuid, kind: SessionKind)
    | PredatesTheRun(session: Uuid)

  /** The step taken in w is what the evidence is about, and the rows of w are as it says. */
  ghost predicate Witnesses(e: Evidence, w: World, step: Step) {
    match e
    case SignedUp(q, u) => step.SignUp? && q == w.requests && step.userId == u && u !in w.db.users
    case PasswordAccepted(q, u, kind) =>
      && step.VerifyPassword? && q == w.requests && step.userId == u && step.kind == kind
      && u in w.db.users && w.db.users[u].password == step.password
      && (w.db.users[u].disabledAt.None? || w.db.users[u].disabledAt.value > w.now)
    case PasswordWasEnough(q, u) =>
      step == CountPasskeys(q) && (!w.passkeysEnabled || forall p | p in w.db.passkeys :: w.db.passkeys[p].userId != u)
    case FactorWasAsked(q, u) =>
      step == CountPasskeys(q) && w.passkeysEnabled && exists p :: p in w.db.passkeys && w.db.passkeys[p].userId == u
    case PendingHeld(q, p, u, kind, attempt) =>
      && step == ResolvePending(p) && q == w.requests && p in w.db.pending && w.db.pending[p].expiresAt > w.now
      && w.db.pending[p].userId == u && w.db.pending[p].kind == kind && w.db.pending[p].attempt == attempt
    case ChallengeTaken(q, u) =>
      && step.ConsumeLoginChallenge? && step.request == q && w.passkeysEnabled && step.id in w.db.challenges
      && w.db.challenges[step.id].userId == u && w.db.challenges[step.id].purpose == ForLogin
      && w.db.challenges[step.id].expiresAt > w.now
    case AssertionValid(q, u) =>
      && step.ValidateAssertion? && step.request == q
      && step.passkeyId in w.db.passkeys && w.db.passkeys[step.passkeyId].userId == u
      && (step.count > w.db.passkeys[step.passkeyId].signCount || step.count == w.db.passkeys[step.passkeyId].signCount == 0)
    case CodeTaken(q, u) =>
      && step.SpendCode? && step.request == q
      && exists c :: c in w.db.codes && w.db.codes[c].userId == u && w.db.codes[c].hash == step.hash && w.db.codes[c].usedAt.None?
    case OpenChallengeTaken(q) =>
      && step.ConsumeOpenChallenge? && q == w.requests && w.passkeysEnabled
      && step.handle in w.db.openChallenges && w.db.openChallenges[step.handle] > w.now
    case OpenAssertionValid(q, u, two) =>
      && step.ValidateOpenAssertion? && step.request == q
      && step.passkeyId in w.db.passkeys && w.db.passkeys[step.passkeyId].userId == u
      && (step.count > w.db.passkeys[step.passkeyId].signCount || step.count == w.db.passkeys[step.passkeyId].signCount == 0)
      && (two <==> exists p :: p in w.db.passkeys && p != step.passkeyId && w.db.passkeys[p].userId == u)
    case CodeLeft(q, u) =>
      step == CountCodes(q) && exists c :: c in w.db.codes && w.db.codes[c].userId == u && w.db.codes[c].usedAt.None?
    case SessionLive(q, s, u, kind) =>
      && step == AuthenticateForReissue(s) && q == w.requests && s in w.db.sessions
      && (w.db.sessions[s].revokedAt.None? || w.db.sessions[s].revokedAt.value > w.now) && w.db.sessions[s].expiresAt > w.now
      && w.db.sessions[s].userId == u && w.db.sessions[s].kind == kind
    case PredatesTheRun(_) => false
  }

  // The guards of the handlers, read off the rows.

  lemma NoFactorToAsk(w: World, u: Uuid)
    ensures PasswordSuffices(w, u) <==> !w.passkeysEnabled || forall p | p in w.db.passkeys :: w.db.passkeys[p].userId != u
  {
    assert forall p | p in w.db.passkeys && w.db.passkeys[p].userId == u :: p in PasskeysOf(w.db.passkeys, u);
  }

  lemma SecondPasskeyOf(passkeys: map<Uuid, Passkey>, id: Uuid)
    requires id in passkeys
    ensures |PasskeysOf(passkeys, passkeys[id].userId)| >= 2 <==>
      exists p :: p in passkeys && p != id && passkeys[p].userId == passkeys[id].userId
  {
    var mine := PasskeysOf(passkeys, passkeys[id].userId);
    var others := mine - {id};
    assert mine == others + {id};
    assert others != {} <==> |others| >= 1;
    assert forall p :: p in others <==> p in passkeys && p != id && passkeys[p].userId == passkeys[id].userId;
  }

  lemma SpendableRow(codes: map<Uuid, Code>, u: Uuid, hash: string)
    requires |Spendable(codes, u, hash)| == 1
    ensures exists c :: c in codes && codes[c].userId == u && codes[c].hash == hash && codes[c].usedAt.None?
  {
    var c :| c in Spendable(codes, u, hash);
  }

  lemma UnusedRow(codes: map<Uuid, Code>, u: Uuid)
    ensures UnusedCodes(codes, u) != {} <==> exists c :: c in codes && codes[c].userId == u && codes[c].usedAt.None?
  {
    assert forall c :: c in UnusedCodes(codes, u) <==> c in codes && codes[c].userId == u && codes[c].usedAt.None?;
  }

  /** The checks that stand behind a session of user u and this kind, by its origin. */
  ghost predicate Grounds(q: nat, u: Uuid, kind: SessionKind, origin: Origin, known: iset<Evidence>) {
    match origin
    case Signup => SignedUp(q, u) in known
    case PasswordAlone => PasswordAccepted(q, u, kind) in known && PasswordWasEnough(q, u) in known
    case SecondPasskey(p, a) => TwoFactors(q, u, kind, p, a, known) && ChallengeTaken(q, u) in known && AssertionValid(q, u) in known
    case SecondCode(p, a) => TwoFactors(q, u, kind, p, a, known) && CodeTaken(q, u) in known
    case PasskeyAlone(two) =>
      OpenChallengeTaken(q) in known && OpenAssertionValid(q, u, two) in known && (two || CodeLeft(q, u) in known)
    case Reissue(from) => SessionLive(q, from, u, kind) in known
  }

  /** A password was accepted, a second factor asked for, and its token is held. */
  ghost predicate TwoFactors(q: nat, u: Uuid, kind: SessionKind, p: Uuid, a: nat, known: iset<Evidence>) {
    PasswordAccepted(a, u, kind) in known && FactorWasAsked(a, u) in known && PendingHeld(q, p, u, kind, a) in known
  }

  /** The checks a request has already passed. */
  ghost predicate Passed(q: nat, x: Handler, known: iset<Evidence>) {
    match x
    case PasswordOk(u, kind, _, _) => PasswordAccepted(q, u, kind) in known
    case NeedsFactor(u, kind) => PasswordAccepted(q, u, kind) in known && FactorWasAsked(q, u) in known
    case HasPending(u, kind, p, a) => TwoFactors(q, u, kind, p, a, known)
    case Challenged(u, kind, p, a) => TwoFactors(q, u, kind, p, a, known) && ChallengeTaken(q, u) in known
    case Asserted(u, kind, p, a, _, _) => Grounds(q, u, kind, SecondPasskey(p, a), known)
    case Satisfied(u, kind, origin) => Grounds(q, u, kind, origin, known)
    case OpenChallenged(_) => OpenChallengeTaken(q) in known
    case OneKeyOnly(u, _, _, _) => OpenChallengeTaken(q) in known && OpenAssertionValid(q, u, false) in known
    case OpenAsserted(u, kind, _, _, two) => Grounds(q, u, kind, PasskeyAlone(two), known)
    case Proven(u, kind, origin) => Grounds(q, u, kind, origin, known)
    case Reissuing(u, kind, from) => Grounds(q, u, kind, Reissue(from), known)
    case Retiring(_) => true
    case Resetting(_, _) => true
    case Saving(_, _) => true
    case Registering(_) => true
  }

  ghost predicate HandlersGrounded(w: World, known: iset<Evidence>) {
    forall q | q in w.inflight :: Passed(q, w.inflight[q], known)
  }

  ghost predicate PendingGrounded(w: World, known: iset<Evidence>) {
    forall p | p in w.db.pending ::
      PasswordAccepted(w.db.pending[p].attempt, w.db.pending[p].userId, w.db.pending[p].kind) in known &&
      FactorWasAsked(w.db.pending[p].attempt, w.db.pending[p].userId) in known
  }

  ghost predicate SessionsGrounded(w: World, known: iset<Evidence>) {
    forall s | s in w.db.sessions :: PredatesTheRun(s) in known || (s in w.made &&
      Grounds(w.made[s].request, w.db.sessions[s].userId, w.db.sessions[s].kind, w.made[s].origin, known))
  }

  /** Everything that has got anywhere got there by checks that are known. */
  ghost predicate Grounded(w: World, known: iset<Evidence>) {
    HandlersGrounded(w, known) && PendingGrounded(w, known) && SessionsGrounded(w, known)
  }

  ghost predicate Learns(w: World, step: Step, known: iset<Evidence>, more: iset<Evidence>) {
    known <= more && forall e | Witnesses(e, w, step) :: e in more
  }

  lemma GroundedStays(w: World, known: iset<Evidence>, more: iset<Evidence>)
    requires Grounded(w, known) && known <= more
    ensures Grounded(w, more)
  {
  }

  ghost predicate NewHandlersGrounded(w: World, v: World, known: iset<Evidence>) {
    forall q | q in v.inflight :: (q in w.inflight && v.inflight[q] == w.inflight[q]) || Passed(q, v.inflight[q], known)
  }

  ghost predicate SamePending(w: World, v: World) {
    forall p | p in v.db.pending :: p in w.db.pending && v.db.pending[p] == w.db.pending[p]
  }

  /** A session keeps its owner and kind whatever is stamped on it. */
  ghost predicate SameOwners(w: World, v: World) {
    OwnersKept(w.db.sessions, v.db.sessions)
  }

  /** Most steps move at most one request on. */
  lemma Carries(w: World, v: World, known: iset<Evidence>)
    requires Grounded(w, known) && NewHandlersGrounded(w, v, known)
    requires SamePending(w, v) && SameOwners(w, v) && v.made == w.made
    ensures Grounded(v, known)
  {
    hide Passed, Grounds;
  }

  lemma HandlerPassed(w: World, q: nat, known: iset<Evidence>)
    requires Grounded(w, known) && q in w.inflight
    ensures Passed(q, w.inflight[q], known)
  {
  }

  /** Nothing but requests and counters changed, and requests only as described. */
  ghost predicate SameRows(w: World, v: World) {
    v.db.pending == w.db.pending && v.db.sessions == w.db.sessions && v.made == w.made
  }

  lemma Moves(w: World, v: World, q: nat, x: Handler, known: iset<Evidence>)
    requires Grounded(w, known) && SameRows(w, v) && v.inflight == w.inflight[q := x] && Passed(q, x, known)
    ensures Grounded(v, known)
  {
    hide Grounded, Passed;
    Carries(w, v, known);
  }

  lemma Stays(w: World, v: World, known: iset<Evidence>)
    requires Grounded(w, known) && SameRows(w, v) && v.inflight == w.inflight
    ensures Grounded(v, known)
  {
    hide Grounded, Passed;
    Carries(w, v, known);
  }

  lemma Ends(w: World, v: World, q: nat, known: iset<Evidence>)
    requires Grounded(w, known) && SameRows(w, v) && v.inflight == w.inflight - {q}
    ensures Grounded(v, known)
  {
    hide Grounded, Passed;
    Carries(w, v, known);
  }

  lemma VerifyGrounds(w: World, u: Uuid, password: string, kind: SessionKind, known: iset<Evidence>)
    requires Grounded(w, known) && Learns(w, VerifyPassword(u, password, kind), known, known)
    ensures Grounded(Next(w, VerifyPassword(u, password, kind)), known)
  {
    hide Grounded;
    if Accepts(w.db, u, password, w.now) && kind in {Browser, Cli} {
      assert Witnesses(PasswordAccepted(w.requests, u, kind), w, VerifyPassword(u, password, kind));
      var x := PasswordOk(u, kind, password, w.db.users[u].due);
      Moves(w, Begin(w, x), w.requests, x, known);
    }
  }

  lemma UpgradeGrounds(w: World, q: nat, known: iset<Evidence>)
    requires Grounded(w, known)
    ensures Grounded(Next(w, UpgradeHash(q)), known)
  {
    hide Grounded;
    if q in w.inflight && w.inflight[q].PasswordOk? && w.inflight[q].due && w.inflight[q].userId in w.db.users {
      HandlerPassed(w, q, known);
      Moves(w, HashUpgraded(w, q), q, w.inflight[q].(due := false), known);
    }
  }

  lemma CountGrounds(w: World, q: nat, known: iset<Evidence>)
    requires Grounded(w, known) && Learns(w, CountPasskeys(q), known, known)
    ensures Grounded(Next(w, CountPasskeys(q)), known)
  {
    hide Grounded, PasskeysOf;
    if q in w.inflight && w.inflight[q].PasswordOk? {
      var u := w.inflight[q].userId;
      HandlerPassed(w, q, known);
      NoFactorToAsk(w, u);
      assert PasswordSuffices(w, u) ==> Witnesses(PasswordWasEnough(q, u), w, CountPasskeys(q));
      assert !PasswordSuffices(w, u) ==> Witnesses(FactorWasAsked(q, u), w, CountPasskeys(q));
      Moves(w, PasskeysCounted(w, q), q, PasskeysCounted(w, q).inflight[q], known);
    }
  }

  lemma CreatePendingGrounds(w: World, q: nat, id: Uuid, expiresAt: Instant, known: iset<Evidence>)
    requires Grounded(w, known)
    ensures Grounded(Next(w, CreatePending(q, id, expiresAt)), known)
  {
    hide Grounds, SessionsGrounded;
    var v := PendingCreated(w, q, id, expiresAt);
    if v != w {
      HandlerPassed(w, q, known);
      hide Passed;
      SessionsStay(w, v, known);
    }
  }

  lemma SessionsStay(w: World, v: World, known: iset<Evidence>)
    requires SessionsGrounded(w, known) && v.made == w.made && v.db.sessions == w.db.sessions
    ensures SessionsGrounded(v, known)
  {
  }

  lemma PendingPassed(w: World, id: Uuid, known: iset<Evidence>)
    requires Grounded(w, known) && id in w.db.pending
    ensures PasswordAccepted(w.db.pending[id].attempt, w.db.pending[id].userId, w.db.pending[id].kind) in known
    ensures FactorWasAsked(w.db.pending[id].attempt, w.db.pending[id].userId) in known
  {
    hide SessionsGrounded, HandlersGrounded;
  }

  lemma ResolveGrounds(w: World, id: Uuid, known: iset<Evidence>)
    requires Grounded(w, known) && Learns(w, ResolvePending(id), known, known)
    ensures Grounded(Next(w, ResolvePending(id)), known)
  {
    hide Grounded;
    if id in w.db.pending && w.db.pending[id].expiresAt > w.now {
      var p := w.db.pending[id];
      PendingPassed(w, id, known);
      assert Witnesses(PendingHeld(w.requests, id, p.userId, p.kind, p.attempt), w, ResolvePending(id));
      Moves(w, PendingResolved(w, id), w.requests, HasPending(p.userId, p.kind, id, p.attempt), known);
    }
  }

  lemma ChallengePassed(w: World, q: nat, x: Handler, id: Uuid, known: iset<Evidence>)
    requires Learns(w, ConsumeLoginChallenge(q, id), known, known) && x.HasPending? && Passed(q, x, known)
    requires w.passkeysEnabled && id in Consumable(w.db.challenges, x.userId, ForLogin, w.now)
    ensures Passed(q, Challenged(x.userId, x.kind, x.pendingId, x.attempt), known)
  {
    assert Witnesses(ChallengeTaken(q, x.userId), w, ConsumeLoginChallenge(q, id));
  }

  lemma ConsumeGrounds(w: World, q: nat, id: Uuid, known: iset<Evidence>)
    requires Grounded(w, known) && Learns(w, ConsumeLoginChallenge(q, id), known, known)
    ensures Grounded(Next(w, ConsumeLoginChallenge(q, id)), known)
  {
    hide Grounded, Passed, Learns, Consumable, Refs, ConsumedBy;
    if q in w.inflight && w.inflight[q].HasPending? && w.passkeysEnabled {
      var x := w.inflight[q];
      var rows := Consumable(w.db.challenges, x.userId, ForLogin, w.now);
      if id in rows {
        var y := Challenged(x.userId, x.kind, x.pendingId, x.attempt);
        HandlerPassed(w, q, known);
        ChallengePassed(w, q, x, id, known);
        Moves(w, Move(Taking(w, rows, q), q, y), q, y, known);
      } else if rows == {} {
        Ends(w, Done(w, q), q, known);
      }
    }
  }

  lemma AssertionPassed(w: World, q: nat, x: Handler, id: Uuid, count: nat, known: iset<Evidence>)
    requires Learns(w, ValidateAssertion(q, id, count), known, known) && x.Challenged? && Passed(q, x, known)
    requires id in PasskeysOf(w.db.passkeys, x.userId) && Advances(w.db.passkeys[id].signCount, count)
    ensures Passed(q, Asserted(x.userId, x.kind, x.pendingId, x.attempt, w.db.passkeys[id].credentialId, count), known)
  {
    assert Witnesses(AssertionValid(q, x.userId), w, ValidateAssertion(q, id, count));
  }

  lemma ValidateGrounds(w: World, q: nat, id: Uuid, count: nat, known: iset<Evidence>)
    requires Grounded(w, known) && Learns(w, ValidateAssertion(q, id, count), known, known)
    ensures Grounded(Next(w, ValidateAssertion(q, id, count)), known)
  {
    hide Grounded, Passed, Learns, Advances;
    if q in w.inflight && w.inflight[q].Challenged? {
      var x := w.inflight[q];
      if id in PasskeysOf(w.db.passkeys, x.userId) && Advances(w.db.passkeys[id].signCount, count) {
        HandlerPassed(w, q, known);
        AssertionPassed(w, q, x, id, count, known);
        var y := Asserted(x.userId, x.kind, x.pendingId, x.attempt, w.db.passkeys[id].credentialId, count);
        Moves(w, Move(w, q, y), q, y, known);
      } else {
        Ends(w, Done(w, q), q, known);
      }
    }
  }

  lemma CodePassed(w: World, q: nat, x: Handler, hash: string, known: iset<Evidence>)
    requires Learns(w, SpendCode(q, hash), known, known) && x.HasPending? && Passed(q, x, known)
    requires |Spendable(w.db.codes, x.userId, hash)| == 1
    ensures Passed(q, Satisfied(x.userId, x.kind, SecondCode(x.pendingId, x.attempt)), known)
  {
    hide Spendable;
    SpendableRow(w.db.codes, x.userId, hash);
    assert Witnesses(CodeTaken(q, x.userId), w, SpendCode(q, hash));
  }

  lemma SpendGrounds(w: World, q: nat, hash: string, known: iset<Evidence>)
    requires Grounded(w, known) && Learns(w, SpendCode(q, hash), known, known)
    ensures Grounded(Next(w, SpendCode(q, hash)), known)
  {
    hide Grounded, Passed, Learns, Spendable, Spent, SpentBy;
    if q in w.inflight && w.inflight[q].HasPending? {
      var x := w.inflight[q];
      var u := Spending(w, x.userId, hash, q);
      if |Spendable(w.db.codes, x.userId, hash)| == 1 {
        var y := Satisfied(x.userId, x.kind, SecondCode(x.pendingId, x.attempt));
        HandlerPassed(w, q, known);
        CodePassed(w, q, x, hash, known);
        Moves(w, Move(u, q, y), q, y, known);
      } else {
        Ends(w, Done(u, q), q, known);
      }
    }
  }

  lemma DropGrounds(w: World, q: nat, dropped: bool, known: iset<Evidence>)
    requires Grounded(w, known)
    ensures Grounded(Next(w, DropPending(q, dropped)), known)
  {
    hide Grounded, Passed;
    if q in w.inflight && w.inflight[q].Satisfied? {
      HandlerPassed(w, q, known);
      SatisfiedIsProven(q, w.inflight[q], known);
      Carries(w, PendingDropped(w, q, dropped), known);
    }
  }

  lemma SatisfiedIsProven(q: nat, x: Handler, known: iset<Evidence>)
    requires x.Satisfied? && Passed(q, x, known)
    ensures Passed(q, Proven(x.userId, x.kind, x.origin), known)
  {
    hide Grounds;
  }

  function AfterTouch(x: Handler): Handler
    requires x.Asserted? || x.OpenAsserted?
  {
    if x.Asserted? then Satisfied(x.userId, x.kind, SecondPasskey(x.pendingId, x.attempt))
    else Proven(x.userId, x.kind, PasskeyAlone(x.twoPasskeys))
  }

  lemma TouchPassed(q: nat, x: Handler, known: iset<Evidence>)
    requires (x.Asserted? || x.OpenAsserted?) && Passed(q, x, known)
    ensures Passed(q, AfterTouch(x), known)
  {
    hide Grounds;
  }

  lemma TouchGrounds(w: World, q: nat, stored: bool, known: iset<Evidence>)
    requires Grounded(w, known)
    ensures Grounded(Next(w, Touch(q, stored)), known)
  {
    hide Grounded, Passed, Touched;
    if q in w.inflight && (w.inflight[q].Asserted? || w.inflight[q].OpenAsserted?) {
      HandlerPassed(w, q, known);
      TouchPassed(q, w.inflight[q], known);
      Moves(w, CounterTouched(w, q, stored), q, AfterTouch(w.inflight[q]), known);
    }
  }

  lemma SaveOpenGrounds(w: World, handle: Uuid, expiresAt: Instant, known: iset<Evidence>)
    requires Grounded(w, known)
    ensures Grounded(Next(w, SaveOpenChallenge(handle, expiresAt)), known)
  {
    hide Grounded, OpenSaved;
    if handle !in w.db.openChallenges && Open(handle) !in w.consumed {
      Stays(w, w.(db := w.db.(openChallenges := OpenSaved(w.db.openChallenges, handle, expiresAt, w.now))), known);
    }
  }

  lemma ConsumeOpenGrounds(w: World, handle: Uuid, kind: SessionKind, known: iset<Evidence>)
    requires Grounded(w, known) && Learns(w, ConsumeOpenChallenge(handle, kind), known, known)
    ensures Grounded(Next(w, ConsumeOpenChallenge(handle, kind)), known)
  {
    hide Grounded;
    var v := OpenChallengeConsumed(w, handle, kind);
    if v != w {
      assert Witnesses(OpenChallengeTaken(w.requests), w, ConsumeOpenChallenge(handle, kind));
      Moves(w, v, w.requests, OpenChallenged(kind), known);
    }
  }

  lemma OwnPasskey(passkeys: map<Uuid, Passkey>, id: Uuid)
    requires id in passkeys
    ensures id in PasskeysOf(passkeys, passkeys[id].userId)
  {
  }

  /** The lockout guard: with one passkey only, the request goes on to count the codes. */
  lemma OpenAssertionPassed(w: World, q: nat, kind: SessionKind, id: Uuid, count: nat, known: iset<Evidence>)
    requires Learns(w, ValidateOpenAssertion(q, id, count), known, known) && OpenChallengeTaken(q) in known
    requires id in w.db.passkeys && Advances(w.db.passkeys[id].signCount, count)
    ensures var next := OpenOutcome(w, kind, id, count);
      && Passed(q, next, known)
      && (next.OpenAsserted? <==> |PasskeysOf(w.db.passkeys, w.db.passkeys[id].userId)| >= 2)
      && (next.OneKeyOnly? <==> |PasskeysOf(w.db.passkeys, w.db.passkeys[id].userId)| < 2)
  {
    hide PasskeysOf;
    var u := w.db.passkeys[id].userId;
    OwnPasskey(w.db.passkeys, id);
    SecondPasskeyOf(w.db.passkeys, id);
    assert Witnesses(OpenAssertionValid(q, u, |PasskeysOf(w.db.passkeys, u)| >= 2), w, ValidateOpenAssertion(q, id, count));
  }

  lemma OpenTaken(w: World, q: nat, known: iset<Evidence>)
    requires Grounded(w, known) && q in w.inflight && w.inflight[q].OpenChallenged?
    ensures OpenChallengeTaken(q) in known
  {
    hide Grounded, Grounds;
    HandlerPassed(w, q, known);
  }

  lemma ValidateOpenGrounds(w: World, q: nat, id: Uuid, count: nat, known: iset<Evidence>)
    requires Grounded(w, known) && Learns(w, ValidateOpenAssertion(q, id, count), known, known)
    ensures Grounded(Next(w, ValidateOpenAssertion(q, id, count)), known)
  {
    hide Grounded, Passed, PasskeysOf, Advances, Learns, Grounds, OpenOutcome;
    if q in w.inflight && w.inflight[q].OpenChallenged? {
      if id in w.db.passkeys && Advances(w.db.passkeys[id].signCount, count) {
        OpenTaken(w, q, known);
        OpenAssertionPassed(w, q, w.inflight[q].kind, id, count, known);
        var y := OpenOutcome(w, w.inflight[q].kind, id, count);
        Moves(w, Move(w, q, y), q, y, known);
      } else {
        Ends(w, Done(w, q), q, known);
      }
    }
  }

  lemma CodeLeftPassed(w: World, q: nat, x: Handler, known: iset<Evidence>)
    requires Learns(w, CountCodes(q), known, known) && x.OneKeyOnly? && Passed(q, x, known)
    requires UnusedCodes(w.db.codes, x.userId) != {}
    ensures Passed(q, OpenAsserted(x.userId, x.kind, x.credentialId, x.count, false), known)
  {
    hide UnusedCodes;
    UnusedRow(w.db.codes, x.userId);
    assert Witnesses(CodeLeft(q, x.userId), w, CountCodes(q));
  }

  lemma CountCodesGrounds(w: World, q: nat, known: iset<Evidence>)
    requires Grounded(w, known) && Learns(w, CountCodes(q), known, known)
    ensures Grounded(Next(w, CountCodes(q)), known)
  {
    hide Grounded, UnusedCodes, Passed, Learns;
    if q in w.inflight && w.inflight[q].OneKeyOnly? {
      if UnusedCodes(w.db.codes, w.inflight[q].userId) != {} {
        HandlerPassed(w, q, known);
        var x := w.inflight[q];
        var y := OpenAsserted(x.userId, x.kind, x.credentialId, x.count, false);
        CodeLeftPassed(w, q, x, known);
        Moves(w, Move(w, q, y), q, y, known);
      } else {
        Ends(w, Done(w, q), q, known);
      }
    }
  }

  lemma NewSessionGrounds(w: World, v: World, id: Uuid, known: iset<Evidence>)
    requires SessionsGrounded(w, known) && id !in w.db.sessions && id !in w.made
    requires id in v.db.sessions && id in v.made
    requires v.db.sessions == w.db.sessions[id := v.db.sessions[id]] && v.made == w.made[id := v.made[id]]
    requires Grounds(v.made[id].request, v.db.sessions[id].userId, v.db.sessions[id].kind, v.made[id].origin, known)
    ensures SessionsGrounded(v, known)
  {
    hide Grounds;
  }

  function OriginOf(x: Handler): Origin
    requires x.Proven? || x.Reissuing?
  {
    if x.Proven? then x.origin else Reissue(x.from)
  }

  lemma OriginPassed(q: nat, x: Handler, known: iset<Evidence>)
    requires (x.Proven? || x.Reissuing?) && Passed(q, x, known)
    ensures Grounds(q, x.userId, x.kind, OriginOf(x), known)
  {
    hide Grounds;
  }

  lemma InsertGrounds(w: World, q: nat, id: Uuid, expiresAt: Instant, known: iset<Evidence>)
    requires Grounded(w, known)
    ensures Grounded(Next(w, InsertSession(q, id, expiresAt)), known)
  {
    hide Grounded;
    if q in w.inflight && id !in w.made && id !in w.db.sessions && (w.inflight[q].Proven? || w.inflight[q].Reissuing?) {
      var x := w.inflight[q];
      var u := Inserted(w, q, id, Session(x.userId, x.kind, expiresAt, None), OriginOf(x));
      InsertedGrounds(w, u, if x.Proven? then Done(u, q) else Move(u, q, Retiring(x.from)), q, id, expiresAt, known);
    }
  }

  lemma InsertedGrounds(w: World, u: World, v: World, q: nat, id: Uuid, expiresAt: Instant, known: iset<Evidence>)
    requires Grounded(w, known) && q in w.inflight && id !in w.made && id !in w.db.sessions
    requires var x := w.inflight[q];
      && (x.Proven? || x.Reissuing?)
      && u == Inserted(w, q, id, Session(x.userId, x.kind, expiresAt, None), OriginOf(x))
      && v == if x.Proven? then Done(u, q) else Move(u, q, Retiring(x.from))
    ensures Grounded(v, known)
  {
    hide Grounds, Passed, PendingGrounded, HandlersGrounded, SessionsGrounded;
    HandlerPassed(w, q, known);
    OriginPassed(q, w.inflight[q], known);
    NewSessionGrounds(w, v, id, known);
    PendingStays(w, v, known);
    OneHandlerGrounds(w, v, q, known);
  }

  /** One request has ended, or only has its old session left to retire. */
  lemma OneHandlerGrounds(w: World, v: World, q: nat, known: iset<Evidence>)
    requires HandlersGrounded(w, known)
    requires v.inflight == w.inflight - {q} || exists from :: v.inflight == w.inflight[q := Retiring(from)]
    ensures HandlersGrounded(v, known)
  {
  }

  lemma PendingStays(w: World, v: World, known: iset<Evidence>)
    requires PendingGrounded(w, known) && v.db.pending == w.db.pending
    ensures PendingGrounded(v, known)
  {
  }

  lemma SignUpGrounds(w: World, u: Uuid, password: string, hashes: map<Uuid, string>, known: iset<Evidence>)
    requires Grounded(w, known) && Learns(w, SignUp(u, password, hashes), known, known)
    ensures Grounded(Next(w, SignUp(u, password, hashes)), known)
  {
    hide Grounded, Replaced, CodesOf, NewCodes, CodeRows;
    if u !in w.db.users && NewCodes(w, hashes) {
      assert Witnesses(SignedUp(w.requests, u), w, SignUp(u, password, hashes));
      Moves(w, AccountCreated(w, u, password, hashes), w.requests, Proven(u, Browser, Signup), known);
    }
  }

  lemma ReissueGrounds(w: World, s: Uuid, known: iset<Evidence>)
    requires Grounded(w, known) && Learns(w, AuthenticateForReissue(s), known, known)
    ensures Grounded(Next(w, AuthenticateForReissue(s)), known)
  {
    hide Grounded;
    if Live(w.db, s, w.now) {
      var u, kind := w.db.sessions[s].userId, w.db.sessions[s].kind;
      assert Witnesses(SessionLive(w.requests, s, u, kind), w, AuthenticateForReissue(s));
      Moves(w, ReissueBegun(w, s), w.requests, Reissuing(u, kind, s), known);
    }
  }

  ghost predicate OwnersKept(a: map<Uuid, Session>, b: map<Uuid, Session>) {
    forall s | s in b :: s in a && b[s].userId == a[s].userId && b[s].kind == a[s].kind
  }

  lemma RevokingKeepsOwners(sessions: map<Uuid, Session>, s: Uuid, userId: Uuid, now: Instant)
    ensures s in sessions ==> OwnersKept(sessions, Revoked(sessions, s, now))
    ensures OwnersKept(sessions, SignedOut(sessions, userId, now))
    ensures OwnersKept(sessions, sessions)
  {
  }

  /** Sessions were at most stamped, pending rows at most deleted, requests at most ended. */
  lemma OnlyLess(w: World, v: World, known: iset<Evidence>)
    requires Grounded(w, known) && OwnersKept(w.db.sessions, v.db.sessions) && v.made == w.made
    requires SamePending(w, v)
    requires forall q | q in v.inflight :: q in w.inflight && v.inflight[q] == w.inflight[q]
    ensures Grounded(v, known)
  {
    hide Grounded, OwnersKept, Passed;
    Carries(w, v, known);
  }

  lemma RetireGrounds(w: World, q: nat, revoked: bool, known: iset<Evidence>)
    requires Grounded(w, known)
    ensures Grounded(Next(w, RetireSession(q, revoked)), known)
  {
    hide Grounded, OwnersKept, Revoked;
    if q in w.inflight && w.inflight[q].Retiring? {
      RevokingKeepsOwners(w.db.sessions, w.inflight[q].from, NIL, w.now);
      OnlyLess(w, SessionRetired(w, q, revoked), known);
    }
  }

  lemma PasswordGrounds(w: World, q: nat, known: iset<Evidence>)
    requires Grounded(w, known)
    ensures Grounded(Next(w, SetPassword(q)), known)
  {
    hide Grounded, OwnersKept, SignedOut;
    if q in w.inflight && w.inflight[q].Resetting? {
      RevokingKeepsOwners(w.db.sessions, NIL, w.inflight[q].userId, w.now);
      OnlyLess(w, PasswordSet(w, q), known);
    }
  }

  lemma ResetSpendGrounds(w: World, u: Uuid, hash: string, password: string, known: iset<Evidence>)
    requires Grounded(w, known)
    ensures Grounded(Next(w, SpendCodeForReset(u, hash, password)), known)
  {
    hide Grounded, Spendable, Spent, SpentBy;
    var v := ResetCodeSpent(w, u, hash, password);
    if |Spendable(w.db.codes, u, hash)| == 1 {
      Moves(w, v, w.requests, Resetting(u, password), known);
    } else {
      Stays(w, v, known);
    }
  }

  lemma RedeemGrounds(w: World, u: Uuid, password: string, known: iset<Evidence>)
    requires Grounded(w, known)
    ensures Grounded(Next(w, RedeemLink(u, password)), known)
  {
    hide Grounded, OwnersKept, WithoutPasskeys, PasskeysOf, PasskeyRows;
    var without := WithoutFactors(w, u);
    RevokingKeepsOwners(w.db.sessions, NIL, NIL, w.now);
    OnlyLess(w, without, known);
    Moves(without, LinkRedeemed(w, u, password), w.requests, Resetting(u, password), known);
  }

  /** The statements that stand on their own move no request. */
  lemma StatementGrounds(w: World, v: World, known: iset<Evidence>)
    requires Grounded(w, known) && OwnersKept(w.db.sessions, v.db.sessions)
    requires v == w.(now := v.now, db := v.db, retired := v.retired) && v.db.pending == w.db.pending
    ensures Grounded(v, known)
  {
    hide Grounded, OwnersKept;
    OnlyLess(w, v, known);
  }

  lemma SameSessionsGround(w: World, v: World, known: iset<Evidence>)
    requires Grounded(w, known) && v.db.sessions == w.db.sessions
    requires v == w.(now := v.now, db := v.db, retired := v.retired) && v.db.pending == w.db.pending
    ensures Grounded(v, known)
  {
    hide Grounded, OwnersKept;
    RevokingKeepsOwners(w.db.sessions, NIL, NIL, w.now);
    StatementGrounds(w, v, known);
  }

  lemma ClearGrounds(w: World, u: Uuid, purpose: Purpose, known: iset<Evidence>)
    requires Grounded(w, known)
    ensures Grounded(Next(w, ClearChallenges(u, purpose)), known)
  {
    hide Grounded, Cleared, Outstanding, ChallengeRows;
    Moves(w, ChallengesCleared(w, u, purpose), w.requests, Saving(u, purpose), known);
  }

  lemma InsertChallengeGrounds(w: World, q: nat, id: Uuid, expiresAt: Instant, known: iset<Evidence>)
    requires Grounded(w, known)
    ensures Grounded(Next(w, InsertChallenge(q, id, expiresAt)), known)
  {
    hide Grounded, NewChallenge;
    if q in w.inflight && w.inflight[q].Saving? && NewChallenge(w, id) {
      Ends(w, ChallengeInserted(w, q, id, expiresAt), q, known);
    }
  }

  lemma RegistrationGrounds(w: World, u: Uuid, id: Uuid, known: iset<Evidence>)
    requires Grounded(w, known)
    ensures Grounded(Next(w, ConsumeRegistrationChallenge(u, id)), known)
  {
    hide Grounded, Consumable, Refs, ConsumedBy;
    var v := RegistrationBegun(w, u, id);
    if id in Consumable(w.db.challenges, u, ForRegistration, w.now) && w.passkeysEnabled {
      Moves(w, v, w.requests, Registering(u), known);
    }
  }

  lemma RegisterGrounds(w: World, q: nat, id: Uuid, credentialId: string, count: nat, known: iset<Evidence>)
    requires Grounded(w, known)
    ensures Grounded(Next(w, RegisterPasskey(q, id, credentialId, count)), known)
  {
    hide Grounded, Unregistered;
    var v := PasskeyRegistered(w, q, id, credentialId, count);
    if q in w.inflight && w.inflight[q].Registering? &&
       id !in w.db.passkeys && PasskeyRow(id) !in w.retired && Unregistered(w.db.passkeys, credentialId)
    {
      Ends(w, v, q, known);
    }
  }

  lemma DeletePasskeyGrounds(w: World, id: Uuid, u: Uuid, known: iset<Evidence>)
    requires Grounded(w, known)
    ensures Grounded(Next(w, DeletePasskey(id, u)), known)
  {
    hide Grounded;
    if id in w.db.passkeys && w.db.passkeys[id].userId == u {
      SameSessionsGround(w, PasskeyDeleted(w, id, u), known);
    }
  }

  lemma ReplaceGrounds(w: World, u: Uuid, hashes: map<Uuid, string>, known: iset<Evidence>)
    requires Grounded(w, known)
    ensures Grounded(Next(w, ReplaceCodes(u, hashes)), known)
  {
    hide Grounded, Replaced, CodesOf, CodeRows;
    SameSessionsGround(w, WithCodes(w, u, hashes), known);
  }

  lemma RevokeGrounds(w: World, id: Uuid, known: iset<Evidence>)
    requires Grounded(w, known)
    ensures Grounded(Next(w, RevokeSession(id)), known)
  {
    hide Grounded, OwnersKept, Revoked;
    RevokingKeepsOwners(w.db.sessions, id, NIL, w.now);
    StatementGrounds(w, SessionRevoked(w, id), known);
  }

  lemma ClockAndSweepsGround(w: World, step: Step, known: iset<Evidence>)
    requires Grounded(w, known) && (step.Tick? || step.RevokeSessionsOf?)
    ensures Grounded(Next(w, step), known)
  {
    hide Grounded, OwnersKept, SignedOut;
    RevokingKeepsOwners(w.db.sessions, NIL, if step.RevokeSessionsOf? then step.userId else NIL, w.now);
    StatementGrounds(w, Next(w, step), known);
  }

  lemma StepGrounds(w: World, step: Step, known: iset<Evidence>)
    requires Grounded(w, known) && Learns(w, step, known, known)
    ensures Grounded(Next(w, step), known)
  {
    hide Grounded, Learns, Next;
    match step
    case SignUp(u, password, hashes) => SignUpGrounds(w, u, password, hashes, known);
    case VerifyPassword(u, password, kind) => VerifyGrounds(w, u, password, kind, known);
    case UpgradeHash(q) => UpgradeGrounds(w, q, known);
    case CountPasskeys(q) => CountGrounds(w, q, known);
    case CreatePending(q, id, expiresAt) => CreatePendingGrounds(w, q, id, expiresAt, known);
    case ResolvePending(id) => ResolveGrounds(w, id, known);
    case ConsumeLoginChallenge(q, id) => ConsumeGrounds(w, q, id, known);
    case ValidateAssertion(q, id, count) => ValidateGrounds(w, q, id, count, known);
    case Touch(q, stored) => TouchGrounds(w, q, stored, known);
    case SpendCode(q, hash) => SpendGrounds(w, q, hash, known);
    case DropPending(q, dropped) => DropGrounds(w, q, dropped, known);
    case SaveOpenChallenge(handle, expiresAt) => SaveOpenGrounds(w, handle, expiresAt, known);
    case ConsumeOpenChallenge(handle, kind) => ConsumeOpenGrounds(w, handle, kind, known);
    case ValidateOpenAssertion(q, id, count) => ValidateOpenGrounds(w, q, id, count, known);
    case CountCodes(q) => CountCodesGrounds(w, q, known);
    case InsertSession(q, id, expiresAt) => InsertGrounds(w, q, id, expiresAt, known);
    case AuthenticateForReissue(s) => ReissueGrounds(w, s, known);
    case RetireSession(q, revoked) => RetireGrounds(w, q, revoked, known);
    case SpendCodeForReset(u, hash, password) => ResetSpendGrounds(w, u, hash, password, known);
    case RedeemLink(u, password) => RedeemGrounds(w, u, password, known);
    case SetPassword(q) => PasswordGrounds(w, q, known);
    case ClearChallenges(u, purpose) => ClearGrounds(w, u, purpose, known);
    case InsertChallenge(q, id, expiresAt) => InsertChallengeGrounds(w, q, id, expiresAt, known);
    case ConsumeRegistrationChallenge(u, id) => RegistrationGrounds(w, u, id, known);
    case RegisterPasskey(q, id, credentialId, count) => RegisterGrounds(w, q, id, credentialId, count, known);
    case DeletePasskey(id, u) => DeletePasskeyGrounds(w, id, u, known);
    case ReplaceCodes(u, hashes) => ReplaceGrounds(w, u, hashes, known);
    case RevokeSession(id) => RevokeGrounds(w, id, known);
    case _ => ClockAndSweepsGround(w, step, known);
  }

  /** At some point of the run. */
  ghost predicate Ever(w: World, steps: seq<Step>, e: Evidence) {
    exists i :: 0 <= i < |steps| && Witnesses(e, Run(w, steps[..i]), steps[i])
  }

  ghost function EverKnown(w: World, steps: seq<Step>): iset<Evidence> {
    iset e | Ever(w, steps, e)
  }

  lemma KnownGrows(w: World, steps: seq<Step>)
    requires steps != []
    ensures var n := |steps| - 1;
      Learns(Run(w, steps[..n]), steps[n], EverKnown(w, steps[..n]), EverKnown(w, steps))
  {
    hide Witnesses, Run;
    var n := |steps| - 1;
    forall e | Ever(w, steps[..n], e) ensures Ever(w, steps, e) {
      var i :| 0 <= i < n && Witnesses(e, Run(w, steps[..n][..i]), steps[..n][i]);
      assert steps[..n][..i] == steps[..i];
    }
  }

  /** The evidence that a request is where it is: part of all that could ever show it. */
  ghost predicate Claims(q: nat, x: Handler, e: Evidence) {
    forall known | Passed(q, x, known) :: e in known
  }

  /** A request has passed its checks exactly where everything it claims is known. */
  lemma PassedMeansClaims(q: nat, x: Handler, known: iset<Evidence>)
    ensures Passed(q, x, known) <==> forall e | Claims(q, x, e) :: e in known
  {
  }

  function AttemptOf(x: Handler): Option<nat> {
    match x
    case HasPending(_, _, _, a) => Some(a)
    case Challenged(_, _, _, a) => Some(a)
    case Asserted(_, _, _, a, _, _) => Some(a)
    case Satisfied(_, _, origin) => if origin.SecondPasskey? || origin.SecondCode? then Some(origin.attempt) else None
    case Proven(_, _, origin) => if origin.SecondPasskey? || origin.SecondCode? then Some(origin.attempt) else None
    case _ => None
  }

  /** The evidence is of this request, or of the sign-in whose pending token it holds, and
      of the same user. */
  predicate OfItsOwn(q: nat, x: Handler, e: Evidence) {
    && !e.PredatesTheRun?
    && (e.request == q || Some(e.request) == AttemptOf(x))
    && (!e.OpenChallengeTaken? ==> !x.OpenChallenged? && !x.Retiring? && e.userId == x.userId)
  }

  /** The evidence is of a check that the request has got past. */
  predicate NotAhead(x: Handler, e: Evidence) {
    && (e.ChallengeTaken? ==> x.Challenged? || x.Asserted? || x.Satisfied? || x.Proven?)
    && (e.AssertionValid? ==> x.Asserted? || x.Satisfied? || x.Proven?)
    && (e.OpenAssertionValid? ==> x.OneKeyOnly? || x.OpenAsserted? || x.Satisfied? || x.Proven?)
    && (e.CodeLeft? ==> x.OpenAsserted? || x.Satisfied? || x.Proven?)
    && (e.CodeTaken? || e.PasswordWasEnough? || e.SignedUp? ==> x.Satisfied? || x.Proven?)
    && (e.SessionLive? ==> x.Reissuing? || x.Satisfied? || x.Proven?)
  }

  /** A request claims nothing of other requests or users, and no check that it has still
      to pass. */
  lemma NothingAheadIsClaimed(q: nat, x: Handler, e: Evidence)
    requires Claims(q, x, e)
    ensures OfItsOwn(q, x, e) && NotAhead(x, e)
  {
    OwnIsEnough(q, x);
    assert e in iset y: Evidence | OfItsOwn(q, x, y) && NotAhead(x, y);
  }

  lemma OwnIsEnough(q: nat, x: Handler)
    ensures Passed(q, x, iset y: Evidence | OfItsOwn(q, x, y) && NotAhead(x, y))
  {
  }

  /** What is known of a world in which a run begins: which sessions are there, what its
      requests have passed so far, and what its pending tokens were issued for. */
  ghost function Already(w: World): iset<Evidence> {
    iset e: Evidence |
      || (e.PredatesTheRun? && e.session in w.db.sessions)
      || (exists q :: q in w.inflight && Claims(q, w.inflight[q], e))
      || (exists p :: p in w.db.pending && (
            || e == PasswordAccepted(w.db.pending[p].attempt, w.db.pending[p].userId, w.db.pending[p].kind)
            || e == FactorWasAsked(w.db.pending[p].attempt, w.db.pending[p].userId)))
  }

  lemma AlreadyGrounds(w: World)
    ensures Grounded(w, Already(w))
  {
    hide Passed, Claims;
    forall q | q in w.inflight ensures Passed(q, w.inflight[q], Already(w)) {
      PassedMeansClaims(q, w.inflight[q], Already(w));
    }
  }

  /** Known at the start, or witnessed at some point of the run. */
  ghost function Known(w: World, steps: seq<Step>): iset<Evidence> {
    Already(w) + EverKnown(w, steps)
  }

  lemma {:induction false} RunGrounds(w: World, steps: seq<Step>)
    ensures Grounded(Run(w, steps), Known(w, steps))
    decreases |steps|
  {
    hide Grounded, EverKnown, Next, Learns, Already;
    if steps == [] {
      AlreadyGrounds(w);
      GroundedStays(w, Already(w), Known(w, steps));
    } else {
      var n := |steps| - 1;
      RunGrounds(w, steps[..n]);
      KnownGrows(w, steps);
      StillLearns(Run(w, steps[..n]), steps[n], EverKnown(w, steps[..n]), EverKnown(w, steps), Already(w));
      LearnsMore(Run(w, steps[..n]), steps[n], Known(w, steps[..n]), Known(w, steps));
      StepGrounds(Run(w, steps[..n]), steps[n], Known(w, steps));
    }
  }

  lemma StillLearns(w: World, step: Step, known: iset<Evidence>, more: iset<Evidence>, already: iset<Evidence>)
    requires Learns(w, step, known, more)
    ensures Learns(w, step, already + known, already + more)
  {
    hide Witnesses;
  }

  lemma LearnsMore(w: World, step: Step, known: iset<Evidence>, more: iset<Evidence>)
    requires Grounded(w, known) && Learns(w, step, known, more)
    ensures Grounded(w, more) && Learns(w, step, more, more)
  {
    GroundedStays(w, known, more);
  }

  /** Over all interleavings, from any point on: every session made since comes from a
      sign-up; from a password accepted by a request that then found no second factor to
      ask for; from a password accepted, a factor asked for, its pending token held, and
      one login challenge taken and answered, or one recovery code spent; from a challenge
      naming no account, answered by a passkey of an account with a second passkey or an
      unused code; or from re-issue of a session that was live. Owner and kind never
      change on the way. Each check was passed since; or it had been passed at that point,
      by the request that made the session, or before the pending token it used was issued. */
  lemma SessionProvenanceSince(w: World, steps: seq<Step>, s: Uuid)
    requires s in Run(w, steps).db.sessions && s !in w.db.sessions
    ensures var v := Run(w, steps);
      && s in v.made
      && Grounds(v.made[s].request, v.db.sessions[s].userId, v.db.sessions[s].kind, v.made[s].origin, Known(w, steps))
  {
    hide Run, Grounds, EverKnown, Claims;
    RunGrounds(w, steps);
    assert PredatesTheRun(s) !in EverKnown(w, steps) by { NoneWitnessed(w, steps, s); }
    forall q | q in w.inflight ensures !Claims(q, w.inflight[q], PredatesTheRun(s)) {
      NoneClaimed(q, w.inflight[q], s);
    }
  }

  lemma NoneWitnessed(w: World, steps: seq<Step>, s: Uuid)
    ensures PredatesTheRun(s) !in EverKnown(w, steps)
  {
    hide Run;
  }

  /** No request claims a session of old for itself. */
  lemma NoneClaimed(q: nat, x: Handler, s: Uuid)
    ensures !Claims(q, x, PredatesTheRun(s))
  {
    assert Passed(q, x, iset e: Evidence | !e.PredatesTheRun?);
  }

  predicate NothingUnderWay(w: World) {
    w.db.sessions == map[] && w.db.pending == map[] && w.inflight == map[]
  }

  /** So, of a service that starts without sessions, requests and pending tokens, every
      session there ever is comes from checks that were passed on the way. */
  lemma SessionProvenance(w: World, steps: seq<Step>, s: Uuid)
    requires NothingUnderWay(w) && s in Run(w, steps).db.sessions
    ensures var v := Run(w, steps);
      && s in v.made
      && Grounds(v.made[s].request, v.db.sessions[s].userId, v.db.sessions[s].kind, v.made[s].origin, EverKnown(w, steps))
  {
    hide Run, Grounds, EverKnown;
    SessionProvenanceSince(w, steps, s);
    assert Known(w, steps) == EverKnown(w, steps) by {
      assert Already(w) == iset{};
    }
  }

  // ---------------------------------------------------------------------------
  // What outlives a reset
  // ---------------------------------------------------------------------------

  /** Every stamp was taken from the clock. */
  predicate Dated(w: World) {
    forall s | s in w.db.sessions && w.db.sessions[s].revokedAt.Some? :: w.db.sessions[s].revokedAt.value <= w.now
  }

  lemma RunStaysDated(w: World, steps: seq<Step>)
    requires Gone(w) && Dated(w)
    ensures Gone(Run(w, steps)) && Dated(Run(w, steps))
  {
    hide Gone, PasskeysKept, Run;
    RunKeeps(w, steps);
  }

  /** A session that is revoked now never lives again. */
  lemma RevokedStaysRevoked(w: World, steps: seq<Step>, s: Uuid)
    requires Gone(w) && s in w.db.sessions && Reached(w.db.sessions[s].revokedAt, w.now)
    ensures !Live(Run(w, steps).db, s, Run(w, steps).now)
  {
    hide Gone, PasskeysKept, Run;
    RunKeeps(w, steps);
  }

  lemma ResetRevokes(w: World, q: nat)
    requires Gone(w) && Dated(w) && q in w.inflight && w.inflight[q].Resetting? && w.inflight[q].userId in w.db.users
    ensures var v := Next(w, SetPassword(q));
      && Gone(v)
      && (forall s | s in v.db.sessions && v.db.sessions[s].userId == w.inflight[q].userId :: Reached(v.db.sessions[s].revokedAt, v.now))
  {
    hide Gone, Frame, MovesOne, MakesOne, ChallengesKept, SessionsKept, PasskeysKept;
    SetPasswordFrames(w, q);
    FramedParts(w, Next(w, SetPassword(q)), q);
  }

  /** A new password ends what the old one protected. On any run after a reset, a live
      session of that user was made since, and each check behind it was passed since the
      reset, except what a request in flight at the reset had passed by then, and what a
      pending token that was out had been issued for. */
  lemma WhatOutlivesAReset(w: World, q: nat, steps: seq<Step>, s: Uuid)
    requires Gone(w) && Dated(w) && q in w.inflight && w.inflight[q].Resetting? && w.inflight[q].userId in w.db.users
    requires var v := Run(Next(w, SetPassword(q)), steps);
      Live(v.db, s, v.now) && v.db.sessions[s].userId == w.inflight[q].userId
    ensures var reset := Next(w, SetPassword(q));
      var v := Run(reset, steps);
      && s !in reset.db.sessions && s in v.made
      && Grounds(v.made[s].request, w.inflight[q].userId, v.db.sessions[s].kind, v.made[s].origin, Known(reset, steps))
  {
    hide Gone, Dated, Run, Grounds, Known, Next;
    var reset := Next(w, SetPassword(q));
    ResetRevokes(w, q);
    if s in reset.db.sessions {
      OwnerStays(reset, steps, s);
      RevokedStaysRevoked(reset, steps, s);
    }
    SessionProvenanceSince(reset, steps, s);
  }

  lemma OwnerStays(w: World, steps: seq<Step>, s: Uuid)
    requires Gone(w) && s in w.db.sessions
    ensures s in Run(w, steps).db.sessions && Run(w, steps).db.sessions[s].userId == w.db.sessions[s].userId
  {
    hide Gone, PasskeysKept, Run;
    RunKeeps(w, steps);
  }
}
