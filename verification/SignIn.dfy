/** Signing in: internal/store/passkeys.go and recovery.go, and the handlers that run
    over them. Every statement is one step, and any number of requests interleave. */
module SignIn {
  import opened Outcomes
  import opened Domain

  // ---------------------------------------------------------------------------
  // Rows
  // ---------------------------------------------------------------------------

  // The stored hash stands for the password it verifies. It is due for an upgrade if it
  // was made under older parameters.
  datatype Account = Account(password: string, due: bool, disabledAt: Option<Instant>)

  datatype Passkey = Passkey(userId: Uuid, credentialId: string, signCount: nat)

  datatype Purpose = ForRegistration | ForLogin

  datatype Challenge = Challenge(userId: Uuid, purpose: Purpose, expiresAt: Instant)

  // `attempt` is history: the sign-in request whose password was accepted.
  datatype Pending = Pending(userId: Uuid, kind: SessionKind, expiresAt: Instant, attempt: nat)

  datatype Code = Code(userId: Uuid, hash: string, usedAt: Option<Instant>)

  datatype Session = Session(userId: Uuid, kind: SessionKind, expiresAt: Instant, revokedAt: Option<Instant>)

  datatype Db = Db(
    users: map<Uuid, Account>,
    passkeys: map<Uuid, Passkey>,
    challenges: map<Uuid, Challenge>,
    openChallenges: map<Uuid, Instant>,
    pending: map<Uuid, Pending>,
    codes: map<Uuid, Code>,
    sessions: map<Uuid, Session>)

  // ---------------------------------------------------------------------------
  // Statements
  // ---------------------------------------------------------------------------

  predicate Matches(c: Challenge, userId: Uuid, purpose: Purpose) {
    c.userId == userId && c.purpose == purpose
  }

  /** SaveChallenge's first statement: every earlier one of the same purpose goes. */
  function Cleared(challenges: map<Uuid, Challenge>, userId: Uuid, purpose: Purpose): map<Uuid, Challenge> {
    map c | c in challenges && !Matches(challenges[c], userId, purpose) :: challenges[c]
  }

  /** The challenges of one user and purpose. */
  function Outstanding(challenges: map<Uuid, Challenge>, userId: Uuid, purpose: Purpose): set<Uuid> {
    set c | c in challenges && Matches(challenges[c], userId, purpose)
  }

  /** The rows ConsumeChallenge deletes and returns. */
  function Consumable(challenges: map<Uuid, Challenge>, userId: Uuid, purpose: Purpose, now: Instant): set<Uuid> {
    set c | c in challenges && Matches(challenges[c], userId, purpose) && challenges[c].expiresAt > now
  }

  /** SavePasswordlessChallenge: expired rows are swept on the way. */
  function OpenSaved(open: map<Uuid, Instant>, handle: Uuid, expiresAt: Instant, now: Instant): map<Uuid, Instant> {
    (map h | h in open && !(open[h] < now) :: open[h])[handle := expiresAt]
  }

  function Larger(a: nat, b: nat): nat {
    if a < b then b else a
  }

  /** TouchPasskey: the counter only ever moves forward. */
  function Touched(passkeys: map<Uuid, Passkey>, credentialId: string, count: nat): map<Uuid, Passkey> {
    map p | p in passkeys ::
      if passkeys[p].credentialId == credentialId then passkeys[p].(signCount := Larger(passkeys[p].signCount, count)) else passkeys[p]
  }

  function PasskeysOf(passkeys: map<Uuid, Passkey>, userId: Uuid): set<Uuid> {
    set p | p in passkeys && passkeys[p].userId == userId
  }

  function WithoutPasskeys(passkeys: map<Uuid, Passkey>, userId: Uuid): map<Uuid, Passkey> {
    map p | p in passkeys && passkeys[p].userId != userId :: passkeys[p]
  }

  function WithoutPending(pending: map<Uuid, Pending>, userId: Uuid): map<Uuid, Pending> {
    map p | p in pending && pending[p].userId != userId :: pending[p]
  }

  function CodesOf(codes: map<Uuid, Code>, userId: Uuid): set<Uuid> {
    set c | c in codes && codes[c].userId == userId
  }

  function UnusedCodes(codes: map<Uuid, Code>, userId: Uuid): set<Uuid> {
    set c | c in codes && codes[c].userId == userId && codes[c].usedAt.None?
  }

  /** The rows a presented code would spend. */
  function Spendable(codes: map<Uuid, Code>, userId: Uuid, hash: string): set<Uuid> {
    set c | c in codes && codes[c].userId == userId && codes[c].hash == hash && codes[c].usedAt.None?
  }

  function Spent(codes: map<Uuid, Code>, rows: set<Uuid>, now: Instant): map<Uuid, Code> {
    map c | c in codes :: if c in rows then codes[c].(usedAt := Some(now)) else codes[c]
  }

  predicate DistinctHashes(hashes: map<Uuid, string>) {
    forall a, b | a in hashes && b in hashes && hashes[a] == hashes[b] :: a == b
  }

  /** ReplaceRecoveryCodes: the old set goes, used or not, and the new one comes. */
  function Replaced(codes: map<Uuid, Code>, userId: Uuid, hashes: map<Uuid, string>): map<Uuid, Code> {
    (codes - CodesOf(codes, userId)) + map c | c in hashes :: Code(userId, hashes[c], None)
  }

  function SignedOut(sessions: map<Uuid, Session>, userId: Uuid, now: Instant): map<Uuid, Session> {
    map s | s in sessions ::
      if sessions[s].userId == userId && sessions[s].revokedAt.None? then sessions[s].(revokedAt := Some(now)) else sessions[s]
  }

  class AccountRepo {
    var db: Db

    constructor (db: Db)
      ensures this.db == db
    {
      this.db := db;
    }

    /** Two statements, with nothing in between. */
    method SaveChallenge(userId: Uuid, purpose: Purpose, id: Uuid, expiresAt: Instant)
      requires id !in db.challenges
      modifies this
      ensures db == old(db).(challenges := Cleared(old(db).challenges, userId, purpose)[id := Challenge(userId, purpose, expiresAt)])
      ensures Outstanding(db.challenges, userId, purpose) == {id}
    {
      db := db.(challenges := Cleared(db.challenges, userId, purpose));
      db := db.(challenges := db.challenges[id := Challenge(userId, purpose, expiresAt)]);
    }

    method ConsumeChallenge(userId: Uuid, purpose: Purpose, now: Instant) returns (r: Option<Uuid>)
      modifies this
      ensures db == old(db).(challenges := old(db).challenges - Consumable(old(db).challenges, userId, purpose, now))
      ensures r.Some? <==> Consumable(old(db).challenges, userId, purpose, now) != {}
      ensures r.Some? ==> r.value in Consumable(old(db).challenges, userId, purpose, now) && r.value !in db.challenges
    {
      var rows := Consumable(db.challenges, userId, purpose, now);
      db := db.(challenges := db.challenges - rows);
      r := None;
      if rows != {} {
        var c :| c in rows;
        r := Some(c);
      }
    }

    method TouchPasskey(credentialId: string, count: nat)
      modifies this
      ensures db == old(db).(passkeys := Touched(old(db).passkeys, credentialId, count))
      ensures forall p | p in old(db).passkeys :: p in db.passkeys && db.passkeys[p].signCount >= old(db).passkeys[p].signCount
    {
      db := db.(passkeys := Touched(db.passkeys, credentialId, count));
    }

    method ConsumeRecoveryCode(userId: Uuid, hash: string, now: Instant) returns (spent: bool)
      modifies this
      ensures db == old(db).(codes := Spent(old(db).codes, Spendable(old(db).codes, userId, hash), now))
      ensures spent <==> |Spendable(old(db).codes, userId, hash)| == 1
      ensures Spendable(db.codes, userId, hash) == {}
    {
      var rows := Spendable(db.codes, userId, hash);
      db := db.(codes := Spent(db.codes, rows, now));
      spent := |rows| == 1;
    }

    method ReplaceRecoveryCodes(userId: Uuid, hashes: map<Uuid, string>)
      requires forall c | c in hashes :: c !in db.codes
      modifies this
      ensures db == old(db).(codes := Replaced(old(db).codes, userId, hashes))
      ensures UnusedCodes(db.codes, userId) == hashes.Keys
    {
      db := db.(codes := db.codes - CodesOf(db.codes, userId));
      db := db.(codes := db.codes + map c | c in hashes :: Code(userId, hashes[c], None));
      assert db.codes == Replaced(old(db).codes, userId, hashes);
    }

    method DeleteAllPasskeys(userId: Uuid) returns (removed: nat)
      modifies this
      ensures db == old(db).(passkeys := WithoutPasskeys(old(db).passkeys, userId), pending := WithoutPending(old(db).pending, userId))
      ensures PasskeysOf(db.passkeys, userId) == {} && removed == |PasskeysOf(old(db).passkeys, userId)|
    {
      removed := |PasskeysOf(db.passkeys, userId)|;
      db := db.(passkeys := WithoutPasskeys(db.passkeys, userId));
      db := db.(pending := WithoutPending(db.pending, userId));
    }
  }

  // ---------------------------------------------------------------------------
  // Requests in flight
  // ---------------------------------------------------------------------------

  // Where a session came from.
  datatype Origin =
    | Signup
    | PasswordAlone
    | SecondPasskey(pendingId: Uuid, attempt: nat)
    | SecondCode(pendingId: Uuid, attempt: nat)
    | PasskeyAlone(twoPasskeys: bool)
    | Reissue(from: Uuid)

  // How far a request has got.
  datatype Handler =
    | PasswordOk(userId: Uuid, kind: SessionKind, password: string, due: bool)
    | NeedsFactor(userId: Uuid, kind: SessionKind)
    | HasPending(userId: Uuid, kind: SessionKind, pendingId: Uuid, attempt: nat)
    | Challenged(userId: Uuid, kind: SessionKind, pendingId: Uuid, attempt: nat)
    | Asserted(userId: Uuid, kind: SessionKind, pendingId: Uuid, attempt: nat, credentialId: string, count: nat)
    | Satisfied(userId: Uuid, kind: SessionKind, origin: Origin)
    | OpenChallenged(kind: SessionKind)
    | OneKeyOnly(userId: Uuid, kind: SessionKind, credentialId: string, count: nat)
    | OpenAsserted(userId: Uuid, kind: SessionKind, credentialId: string, count: nat, twoPasskeys: bool)
    | Proven(userId: Uuid, kind: SessionKind, origin: Origin)
    | Reissuing(userId: Uuid, kind: SessionKind, from: Uuid)
    | Retiring(from: Uuid)
    | Resetting(userId: Uuid, password: string)
    | Saving(userId: Uuid, purpose: Purpose)
    | Registering(userId: Uuid)

  datatype Made = Made(request: nat, origin: Origin)

  datatype Saved = Saved(request: nat, userId: Uuid, purpose: Purpose)

  datatype ChallengeRef = Bound(id: Uuid) | Open(handle: Uuid)

  // Rows that were deleted. Random identifiers are not drawn twice.
  datatype RowRef = PasskeyRow(id: Uuid) | CodeRow(id: Uuid) | ChallengeRow(id: Uuid)

  // `made`, `saved`, `consumed` and `spent` are history: where each session came from,
  // and which request saved or consumed each challenge and spent each code. Requests are
  // numbered.
  datatype World = World(
    now: Instant,
    passkeysEnabled: bool,
    db: Db,
    inflight: map<nat, Handler>,
    requests: nat,
    made: map<Uuid, Made>,
    saved: map<Uuid, Saved>,
    consumed: map<ChallengeRef, nat>,
    spent: map<Uuid, nat>,
    retired: set<RowRef>)

  datatype Step =
    | Tick(to: Instant)
    | SignUp(userId: Uuid, password: string, hashes: map<Uuid, string>)
    | VerifyPassword(userId: Uuid, password: string, kind: SessionKind)
    | UpgradeHash(request: nat)
    | CountPasskeys(request: nat)
    | CreatePending(request: nat, id: Uuid, expiresAt: Instant)
    | ResolvePending(id: Uuid)
    | ClearChallenges(userId: Uuid, purpose: Purpose)
    | InsertChallenge(request: nat, id: Uuid, expiresAt: Instant)
    | ConsumeLoginChallenge(request: nat, id: Uuid)
    | ValidateAssertion(request: nat, passkeyId: Uuid, count: nat)
    | Touch(request: nat, stored: bool)
    | SpendCode(request: nat, hash: string)
    | DropPending(request: nat, dropped: bool)
    | SaveOpenChallenge(handle: Uuid, expiresAt: Instant)
    | ConsumeOpenChallenge(handle: Uuid, kind: SessionKind)
    | ValidateOpenAssertion(request: nat, passkeyId: Uuid, count: nat)
    | CountCodes(request: nat)
    | InsertSession(request: nat, id: Uuid, expiresAt: Instant)
    | AuthenticateForReissue(session: Uuid)
    | RetireSession(request: nat, revoked: bool)
    | SpendCodeForReset(userId: Uuid, hash: string, password: string)
    | RedeemLink(userId: Uuid, password: string)
    | SetPassword(request: nat)
    | ConsumeRegistrationChallenge(userId: Uuid, id: Uuid)
    | RegisterPasskey(request: nat, id: Uuid, credentialId: string, count: nat)
    | DeletePasskey(id: Uuid, userId: Uuid)
    | ReplaceCodes(userId: Uuid, hashes: map<Uuid, string>)
    | RevokeSession(id: Uuid)
    | RevokeSessionsOf(userId: Uuid)

  predicate Accepts(db: Db, userId: Uuid, password: string, now: Instant) {
    userId in db.users && db.users[userId].password == password && !Reached(db.users[userId].disabledAt, now)
  }

  /** No second factor to ask for. */
  predicate PasswordSuffices(w: World, userId: Uuid) {
    PasskeysOf(w.db.passkeys, userId) == {} || !w.passkeysEnabled
  }

  /** The library's reading of an assertion's counter against the stored one: anything
      but an advance is a clone warning, unless the authenticator does not count. */
  predicate Advances(stored: nat, count: nat) {
    count > stored || (count == 0 && stored == 0)
  }

  predicate Live(db: Db, s: Uuid, now: Instant) {
    s in db.sessions && !Reached(db.sessions[s].revokedAt, now) && db.sessions[s].expiresAt > now
  }

  predicate NewCodes(w: World, hashes: map<Uuid, string>) {
    DistinctHashes(hashes) && forall c | c in hashes :: c !in w.db.codes && c !in w.spent && CodeRow(c) !in w.retired
  }

  predicate Unregistered(passkeys: map<Uuid, Passkey>, credentialId: string) {
    forall p | p in passkeys :: passkeys[p].credentialId != credentialId
  }

  function Begin(w: World, state: Handler): World {
    w.(inflight := w.inflight[w.requests := state], requests := w.requests + 1)
  }

  function Move(w: World, request: nat, state: Handler): World {
    w.(inflight := w.inflight[request := state])
  }

  function Done(w: World, request: nat): World {
    w.(inflight := w.inflight - {request})
  }

  function ConsumedBy(refs: set<ChallengeRef>, request: nat): map<ChallengeRef, nat> {
    map c | c in refs :: request
  }

  function SpentBy(rows: set<Uuid>, request: nat): map<Uuid, nat> {
    map c | c in rows :: request
  }

  function CodeRows(rows: set<Uuid>): set<RowRef> {
    set c | c in rows :: CodeRow(c)
  }

  function PasskeyRows(rows: set<Uuid>): set<RowRef> {
    set p | p in rows :: PasskeyRow(p)
  }

  function ChallengeRows(rows: set<Uuid>): set<RowRef> {
    set c | c in rows :: ChallengeRow(c)
  }

  function Refs(rows: set<Uuid>): set<ChallengeRef> {
    set c | c in rows :: Bound(c)
  }

  // handleLogin

  function PasswordVerified(w: World, userId: Uuid, password: string, kind: SessionKind): World {
    if Accepts(w.db, userId, password, w.now) && kind in {Browser, Cli}
    then Begin(w, PasswordOk(userId, kind, password, w.db.users[userId].due)) else w
  }

  function WithPassword(users: map<Uuid, Account>, userId: Uuid, password: string): map<Uuid, Account>
    requires userId in users
  {
    users[userId := users[userId].(password := password, due := false)]
  }

  /** Once, and only where the hash that was read is due. The update takes no notice of
      what has been stored since. */
  function HashUpgraded(w: World, request: nat): World {
    if request in w.inflight && w.inflight[request].PasswordOk? && w.inflight[request].due && w.inflight[request].userId in w.db.users then
      var x := w.inflight[request];
      Move(w.(db := w.db.(users := WithPassword(w.db.users, x.userId, x.password))), request, x.(due := false))
    else w
  }

  function PasskeysCounted(w: World, request: nat): World {
    if request in w.inflight && w.inflight[request].PasswordOk? then
      var x := w.inflight[request];
      if PasswordSuffices(w, x.userId) then Move(w, request, Proven(x.userId, x.kind, PasswordAlone))
      else Move(w, request, NeedsFactor(x.userId, x.kind))
    else w
  }

  function PendingCreated(w: World, request: nat, id: Uuid, expiresAt: Instant): World {
    if request in w.inflight && w.inflight[request].NeedsFactor? && id !in w.db.pending then
      var x := w.inflight[request];
      Done(w.(db := w.db.(pending := w.db.pending[id := Pending(x.userId, x.kind, expiresAt, request)])), request)
    else w
  }

  // handleFinishPasskeyAssertion and handleFinishWithRecoveryCode

  function PendingResolved(w: World, id: Uuid): World {
    if id in w.db.pending && w.db.pending[id].expiresAt > w.now then
      Begin(w, HasPending(w.db.pending[id].userId, w.db.pending[id].kind, id, w.db.pending[id].attempt))
    else w
  }

  /** The challenge returned is one of those the statement deletes. */
  function ChallengeConsumed(w: World, request: nat, id: Uuid): World {
    if request in w.inflight && w.inflight[request].HasPending? && w.passkeysEnabled then
      var x := w.inflight[request];
      var rows := Consumable(w.db.challenges, x.userId, ForLogin, w.now);
      if id in rows then
        Move(w.(db := w.db.(challenges := w.db.challenges - rows), consumed := w.consumed + ConsumedBy(Refs(rows), request)),
          request, Challenged(x.userId, x.kind, x.pendingId, x.attempt))
      else if rows == {} then Done(w, request) else w
    else w
  }

  function AssertionChecked(w: World, request: nat, passkeyId: Uuid, count: nat): World {
    if request in w.inflight && w.inflight[request].Challenged? then
      var x := w.inflight[request];
      if passkeyId in PasskeysOf(w.db.passkeys, x.userId) && Advances(w.db.passkeys[passkeyId].signCount, count) then
        Move(w, request, Asserted(x.userId, x.kind, x.pendingId, x.attempt, w.db.passkeys[passkeyId].credentialId, count))
      else Done(w, request)
    else w
  }

  function CodeSpent(w: World, request: nat, hash: string): World {
    if request in w.inflight && w.inflight[request].HasPending? then
      var x := w.inflight[request];
      var v := Spending(w, x.userId, hash, request);
      if |Spendable(w.db.codes, x.userId, hash)| == 1
      then Move(v, request, Satisfied(x.userId, x.kind, SecondCode(x.pendingId, x.attempt))) else Done(v, request)
    else w
  }

  function Spending(w: World, userId: Uuid, hash: string, request: nat): World {
    var rows := Spendable(w.db.codes, userId, hash);
    w.(db := w.db.(codes := Spent(w.db.codes, rows, w.now)), spent := w.spent + SpentBy(rows, request))
  }

  /** Clearing the pending token is attempted, and its failure is only logged. */
  function PendingDropped(w: World, request: nat, dropped: bool): World {
    if request in w.inflight && w.inflight[request].Satisfied? then
      var x := w.inflight[request];
      var pending := if dropped && (x.origin.SecondPasskey? || x.origin.SecondCode?) then w.db.pending - {x.origin.pendingId} else w.db.pending;
      Move(w.(db := w.db.(pending := pending)), request, Proven(x.userId, x.kind, x.origin))
    else w
  }

  // handleFinishPasswordlessSignIn

  function OpenChallengeSaved(w: World, handle: Uuid, expiresAt: Instant): World {
    if handle !in w.db.openChallenges && Open(handle) !in w.consumed then
      w.(db := w.db.(openChallenges := OpenSaved(w.db.openChallenges, handle, expiresAt, w.now)))
    else w
  }

  function OpenChallengeConsumed(w: World, handle: Uuid, kind: SessionKind): World {
    if handle in w.db.openChallenges && w.db.openChallenges[handle] > w.now && w.passkeysEnabled && kind in {Browser, Cli} then
      Begin(w.(db := w.db.(openChallenges := w.db.openChallenges - {handle}), consumed := w.consumed[Open(handle) := w.requests]),
        OpenChallenged(kind))
    else w
  }

  /** What a valid assertion with no account named moves the request on to. */
  function OpenOutcome(w: World, kind: SessionKind, id: Uuid, count: nat): Handler
    requires id in w.db.passkeys
  {
    var p := w.db.passkeys[id];
    if |PasskeysOf(w.db.passkeys, p.userId)| < 2 then OneKeyOnly(p.userId, kind, p.credentialId, count)
    else OpenAsserted(p.userId, kind, p.credentialId, count, true)
  }

  function OpenAssertionChecked(w: World, request: nat, passkeyId: Uuid, count: nat): World {
    if request in w.inflight && w.inflight[request].OpenChallenged? then
      if passkeyId in w.db.passkeys && Advances(w.db.passkeys[passkeyId].signCount, count)
      then Move(w, request, OpenOutcome(w, w.inflight[request].kind, passkeyId, count)) else Done(w, request)
    else w
  }

  function CodesCounted(w: World, request: nat): World {
    if request in w.inflight && w.inflight[request].OneKeyOnly? then
      var x := w.inflight[request];
      if UnusedCodes(w.db.codes, x.userId) == {} then Done(w, request)
      else Move(w, request, OpenAsserted(x.userId, x.kind, x.credentialId, x.count, false))
    else w
  }

  /** Advancing the counter is attempted, and its failure is only logged. */
  function CounterTouched(w: World, request: nat, stored: bool): World {
    if request in w.inflight && (w.inflight[request].Asserted? || w.inflight[request].OpenAsserted?) then
      var x := w.inflight[request];
      var v := if stored then w.(db := w.db.(passkeys := Touched(w.db.passkeys, x.credentialId, x.count))) else w;
      if x.Asserted? then Move(v, request, Satisfied(x.userId, x.kind, SecondPasskey(x.pendingId, x.attempt)))
      else Move(v, request, Proven(x.userId, x.kind, PasskeyAlone(x.twoPasskeys)))
    else w
  }

  // completeSignIn's insert, handleSignup, and reissueSessionFor

  function AccountCreated(w: World, userId: Uuid, password: string, hashes: map<Uuid, string>): World {
    if userId !in w.db.users && NewCodes(w, hashes) then
      var v := WithCodes(w, userId, hashes);
      Begin(v.(db := v.db.(users := w.db.users[userId := Account(password, false, None)])), Proven(userId, Browser, Signup))
    else w
  }

  function WithCodes(w: World, userId: Uuid, hashes: map<Uuid, string>): World {
    w.(db := w.db.(codes := Replaced(w.db.codes, userId, hashes)), retired := w.retired + CodeRows(CodesOf(w.db.codes, userId)))
  }

  function ReissueBegun(w: World, s: Uuid): World {
    if Live(w.db, s, w.now) then Begin(w, Reissuing(w.db.sessions[s].userId, w.db.sessions[s].kind, s)) else w
  }

  function Inserted(w: World, request: nat, id: Uuid, s: Session, origin: Origin): World {
    w.(db := w.db.(sessions := w.db.sessions[id := s]), made := w.made[id := Made(request, origin)])
  }

  function SessionInserted(w: World, request: nat, id: Uuid, expiresAt: Instant): World {
    if request in w.inflight && id !in w.made && id !in w.db.sessions then
      var x := w.inflight[request];
      if x.Proven? then
        Done(Inserted(w, request, id, Session(x.userId, x.kind, expiresAt, None), x.origin), request)
      else if x.Reissuing? then
        Move(Inserted(w, request, id, Session(x.userId, x.kind, expiresAt, None), Reissue(x.from)), request, Retiring(x.from))
      else w
    else w
  }

  function Revoked(sessions: map<Uuid, Session>, s: Uuid, now: Instant): map<Uuid, Session>
    requires s in sessions
  {
    if sessions[s].revokedAt.None? then sessions[s := sessions[s].(revokedAt := Some(now))] else sessions
  }

  function SessionRetired(w: World, request: nat, revoked: bool): World {
    if request in w.inflight && w.inflight[request].Retiring? then
      var s := w.inflight[request].from;
      var v := if revoked && s in w.db.sessions then w.(db := w.db.(sessions := Revoked(w.db.sessions, s, w.now))) else w;
      Done(v, request)
    else w
  }

  // handleResetPassword, handleRedeemAccountRecovery, setPassword

  function ResetCodeSpent(w: World, userId: Uuid, hash: string, password: string): World {
    var v := Spending(w, userId, hash, w.requests);
    if |Spendable(w.db.codes, userId, hash)| == 1 then Begin(v, Resetting(userId, password)) else v.(requests := v.requests + 1)
  }

  function WithoutFactors(w: World, userId: Uuid): World {
    w.(db := w.db.(passkeys := WithoutPasskeys(w.db.passkeys, userId), pending := WithoutPending(w.db.pending, userId)),
       retired := w.retired + PasskeyRows(PasskeysOf(w.db.passkeys, userId)))
  }

  function LinkRedeemed(w: World, userId: Uuid, password: string): World {
    Begin(WithoutFactors(w, userId), Resetting(userId, password))
  }

  function PasswordSet(w: World, request: nat): World {
    if request in w.inflight && w.inflight[request].Resetting? && w.inflight[request].userId in w.db.users then
      var x := w.inflight[request];
      Done(w.(db := w.db.(users := WithPassword(w.db.users, x.userId, x.password),
                          sessions := SignedOut(w.db.sessions, x.userId, w.now))), request)
    else w
  }

  // SaveChallenge: two statements, outside a transaction

  predicate NewChallenge(w: World, id: Uuid) {
    id !in w.db.challenges && id !in w.saved && Bound(id) !in w.consumed && ChallengeRow(id) !in w.retired
  }

  function ChallengesCleared(w: World, userId: Uuid, purpose: Purpose): World {
    Begin(w.(db := w.db.(challenges := Cleared(w.db.challenges, userId, purpose)),
             retired := w.retired + ChallengeRows(Outstanding(w.db.challenges, userId, purpose))),
      Saving(userId, purpose))
  }

  function ChallengeInserted(w: World, request: nat, id: Uuid, expiresAt: Instant): World {
    if request in w.inflight && w.inflight[request].Saving? && NewChallenge(w, id) then
      var x := w.inflight[request];
      Done(w.(db := w.db.(challenges := w.db.challenges[id := Challenge(x.userId, x.purpose, expiresAt)]),
              saved := w.saved[id := Saved(request, x.userId, x.purpose)]), request)
    else w
  }

  // handleFinishPasskeyRegistration

  function RegistrationBegun(w: World, userId: Uuid, id: Uuid): World {
    var rows := Consumable(w.db.challenges, userId, ForRegistration, w.now);
    if id in rows && w.passkeysEnabled then
      Begin(w.(db := w.db.(challenges := w.db.challenges - rows), consumed := w.consumed + ConsumedBy(Refs(rows), w.requests)),
        Registering(userId))
    else w
  }

  function PasskeyRegistered(w: World, request: nat, id: Uuid, credentialId: string, count: nat): World {
    if request in w.inflight && w.inflight[request].Registering? &&
       id !in w.db.passkeys && PasskeyRow(id) !in w.retired && Unregistered(w.db.passkeys, credentialId)
    then
      Done(w.(db := w.db.(passkeys := w.db.passkeys[id := Passkey(w.inflight[request].userId, credentialId, count)])), request)
    else w
  }

  // Statements on their own

  function PasskeyDeleted(w: World, id: Uuid, userId: Uuid): World {
    if id in w.db.passkeys && w.db.passkeys[id].userId == userId
    then w.(db := w.db.(passkeys := w.db.passkeys - {id}), retired := w.retired + {PasskeyRow(id)}) else w
  }

  function SessionRevoked(w: World, id: Uuid): World {
    if id in w.db.sessions then w.(db := w.db.(sessions := Revoked(w.db.sessions, id, w.now))) else w
  }

  function Next(w: World, step: Step): World {
    match step
    case Tick(to) => if w.now <= to then w.(now := to) else w
    case SignUp(userId, password, hashes) => AccountCreated(w, userId, password, hashes)
    case VerifyPassword(userId, password, kind) => PasswordVerified(w, userId, password, kind)
    case UpgradeHash(request) => HashUpgraded(w, request)
    case CountPasskeys(request) => PasskeysCounted(w, request)
    case CreatePending(request, id, expiresAt) => PendingCreated(w, request, id, expiresAt)
    case ResolvePending(id) => PendingResolved(w, id)
    case ClearChallenges(userId, purpose) => ChallengesCleared(w, userId, purpose)
    case InsertChallenge(request, id, expiresAt) => ChallengeInserted(w, request, id, expiresAt)
    case ConsumeLoginChallenge(request, id) => ChallengeConsumed(w, request, id)
    case ValidateAssertion(request, passkeyId, count) => AssertionChecked(w, request, passkeyId, count)
    case Touch(request, stored) => CounterTouched(w, request, stored)
    case SpendCode(request, hash) => CodeSpent(w, request, hash)
    case DropPending(request, dropped) => PendingDropped(w, request, dropped)
    case SaveOpenChallenge(handle, expiresAt) => OpenChallengeSaved(w, handle, expiresAt)
    case ConsumeOpenChallenge(handle, kind) => OpenChallengeConsumed(w, handle, kind)
    case ValidateOpenAssertion(request, passkeyId, count) => OpenAssertionChecked(w, request, passkeyId, count)
    case CountCodes(request) => CodesCounted(w, request)
    case InsertSession(request, id, expiresAt) => SessionInserted(w, request, id, expiresAt)
    case AuthenticateForReissue(s) => ReissueBegun(w, s)
    case RetireSession(request, revoked) => SessionRetired(w, request, revoked)
    case SpendCodeForReset(userId, hash, password) => ResetCodeSpent(w, userId, hash, password)
    case RedeemLink(userId, password) => LinkRedeemed(w, userId, password)
    case SetPassword(request) => PasswordSet(w, request)
    case ConsumeRegistrationChallenge(userId, id) => RegistrationBegun(w, userId, id)
    case RegisterPasskey(request, id, credentialId, count) => PasskeyRegistered(w, request, id, credentialId, count)
    case DeletePasskey(id, userId) => PasskeyDeleted(w, id, userId)
    case ReplaceCodes(userId, hashes) => if NewCodes(w, hashes) then WithCodes(w, userId, hashes) else w
    case RevokeSession(id) => SessionRevoked(w, id)
    case RevokeSessionsOf(userId) => w.(db := w.db.(sessions := SignedOut(w.db.sessions, userId, w.now)))
  }

  /** Runs, by their last step. */
  function Run(w: World, steps: seq<Step>): World {
    if steps == [] then w else Next(Run(w, steps[..|steps| - 1]), steps[|steps| - 1])
  }
}
