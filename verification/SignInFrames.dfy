/** What one statement of any sign-in request may change, and what no run takes back. */
module SignInFrames {
  import opened Outcomes
  import opened Domain
  import opened SignIn

  // ---------------------------------------------------------------------------
  // What a request has taken
  // ---------------------------------------------------------------------------

  predicate ByPasskey(origin: Origin) {
    origin.SecondPasskey? || origin.PasskeyAlone?
  }

  predicate HasTakenChallenge(x: Handler) {
    || x.Challenged? || x.Asserted? || x.OpenChallenged? || x.OneKeyOnly? || x.OpenAsserted?
    || (x.Satisfied? && ByPasskey(x.origin))
    || (x.Proven? && ByPasskey(x.origin))
  }

  predicate HasSpentCode(x: Handler) {
    (x.Satisfied? && x.origin.SecondCode?) || (x.Proven? && x.origin.SecondCode?)
  }

  ghost predicate TookChallenge(consumed: map<ChallengeRef, nat>, q: nat) {
    exists c :: c in consumed && consumed[c] == q
  }

  ghost predicate TookCode(spent: map<Uuid, nat>, q: nat) {
    exists c :: c in spent && spent[c] == q
  }

  // ---------------------------------------------------------------------------
  // The frame of one step
  // ---------------------------------------------------------------------------

  ghost predicate GoneChallenges(challenges: map<Uuid, Challenge>, consumed: map<ChallengeRef, nat>, retired: set<RowRef>) {
    forall c | c in challenges :: Bound(c) !in consumed && ChallengeRow(c) !in retired
  }

  ghost predicate GoneOpen(openChallenges: map<Uuid, Instant>, consumed: map<ChallengeRef, nat>) {
    forall h | h in openChallenges :: Open(h) !in consumed
  }

  ghost predicate GoneCodes(codes: map<Uuid, Code>, spent: map<Uuid, nat>, retired: set<RowRef>) {
    forall c | c in codes :: CodeRow(c) !in retired && (c in spent ==> codes[c].usedAt.Some?)
  }

  ghost predicate GonePasskeys(passkeys: map<Uuid, Passkey>, retired: set<RowRef>) {
    forall p | p in passkeys :: PasskeyRow(p) !in retired
  }

  /** What was consumed, spent or deleted is no longer there. */
  ghost predicate Gone(w: World) {
    && GoneChallenges(w.db.challenges, w.consumed, w.retired)
    && GoneOpen(w.db.openChallenges, w.consumed)
    && GoneCodes(w.db.codes, w.spent, w.retired)
    && GonePasskeys(w.db.passkeys, w.retired)
  }

  ghost predicate HistoryGrows(w: World, v: World) {
    && w.now <= v.now && w.requests <= v.requests
    && (forall c | c in w.consumed :: c in v.consumed && v.consumed[c] == w.consumed[c])
    && (forall c | c in w.spent :: c in v.spent && v.spent[c] == w.spent[c])
    && (forall s | s in w.made :: s in v.made && v.made[s] == w.made[s])
    && (forall c | c in w.saved :: c in v.saved && v.saved[c] == w.saved[c])
    && w.retired <= v.retired
  }

  /** A row leaves only by being retired, so its counter is never set afresh. */
  ghost predicate PasskeysKept(w: World, v: World) {
    forall p | p in w.db.passkeys ::
      if p in v.db.passkeys then w.db.passkeys[p].signCount <= v.db.passkeys[p].signCount else PasskeyRow(p) in v.retired
  }

  /** A session keeps its row, owner and kind; a stamp comes from the clock and stays. */
  ghost predicate SessionsKept(w: World, v: World) {
    && (forall s | s in w.db.sessions :: s in v.db.sessions && SameSession(w.db.sessions[s], v.db.sessions[s]))
    && (forall s | s in v.db.sessions && v.db.sessions[s].revokedAt.Some? ::
          v.db.sessions[s].revokedAt.value <= v.now || (s in w.db.sessions && w.db.sessions[s].revokedAt == v.db.sessions[s].revokedAt))
  }

  predicate SameSession(a: Session, b: Session) {
    a == b.(revokedAt := a.revokedAt) && (a.revokedAt.Some? ==> b == a)
  }

  /** A challenge leaves only by being consumed or cleared, and comes only by a save. */
  ghost predicate ChallengesKept(w: World, v: World) {
    && (forall c | c in w.db.challenges ::
          (c in v.db.challenges && v.db.challenges[c] == w.db.challenges[c]) || Bound(c) in v.consumed || ChallengeRow(c) in v.retired)
    && (forall c | c in v.db.challenges ::
          (c in w.db.challenges && v.db.challenges[c] == w.db.challenges[c]) || (c in v.saved && c !in w.saved))
    && (forall c | c in v.saved && c !in w.saved ::
          c in v.db.challenges && Matches(v.db.challenges[c], v.saved[c].userId, v.saved[c].purpose))
  }

  ghost predicate Keeps(w: World, v: World) {
    Gone(v) && HistoryGrows(w, v) && PasskeysKept(w, v) && SessionsKept(w, v)
  }

  /** Every request but q stands still. If q has moved on, it had neither a session to
      retire nor a challenge to insert, or it is new; and it has nothing to show that it
      did not have before and has not taken now. */
  ghost predicate MovesOne(w: World, v: World, q: nat) {
    && (forall x | x in v.inflight && x != q :: x in w.inflight && v.inflight[x] == w.inflight[x])
    && (q in v.inflight && !(q in w.inflight && v.inflight[q] == w.inflight[q]) ==>
          && ((q in w.inflight && !w.inflight[q].Retiring? && !w.inflight[q].Saving?) || q == w.requests < v.requests)
          && (HasTakenChallenge(v.inflight[q]) ==> TookChallenge(v.consumed, q) || (q in w.inflight && HasTakenChallenge(w.inflight[q])))
          && (HasSpentCode(v.inflight[q]) ==> TookCode(v.spent, q) || (q in w.inflight && HasSpentCode(w.inflight[q]))))
  }

  /** At most one session is made, by a request that has not made one and has what the
      session's origin says; the request is then over, but for the old session. */
  ghost predicate MakesOne(w: World, v: World, q: nat) {
    && (forall s | s in v.made && s !in w.made ::
          && v.made[s].request == q && q in w.inflight && !w.inflight[q].Retiring?
          && (q in v.inflight ==> v.inflight[q].Retiring?)
          && (ByPasskey(v.made[s].origin) ==> HasTakenChallenge(w.inflight[q]))
          && (v.made[s].origin.SecondCode? ==> HasSpentCode(w.inflight[q])))
    && (forall s, t | s in v.made && s !in w.made && t in v.made && t !in w.made :: s == t)
  }

  /** The request may yet store the password it was given. */
  predicate HoldsPassword(x: Handler) {
    x.Resetting? || (x.PasswordOk? && x.due)
  }

  predicate Holds(w: World, q: nat, u: Uuid, password: string) {
    q in w.inflight && HoldsPassword(w.inflight[q]) && w.inflight[q].userId == u && w.inflight[q].password == password
  }

  /** No account goes, and none but request q stores a password, which it held. */
  ghost predicate PasswordsStored(w: World, v: World, q: nat) {
    forall u | u in w.db.users ::
      u in v.db.users && (v.db.users[u].password == w.db.users[u].password || Holds(w, q, u, v.db.users[u].password))
  }

  /** What q holds now it held before, or was the stored password just now, or was given
      to it for a reset that has begun now. */
  ghost predicate PasswordsHeld(w: World, v: World, q: nat) {
    q in v.inflight && HoldsPassword(v.inflight[q]) ==>
      var x := v.inflight[q];
      || Holds(w, q, x.userId, x.password)
      || (x.PasswordOk? && x.userId in w.db.users && w.db.users[x.userId].password == x.password)
      || (x.Resetting? && q == w.requests < v.requests)
  }

  ghost predicate Frame(w: World, v: World, q: nat) {
    && Keeps(w, v) && ChallengesKept(w, v) && MovesOne(w, v, q) && MakesOne(w, v, q)
    && PasswordsStored(w, v, q) && PasswordsHeld(w, v, q)
  }

  // ---------------------------------------------------------------------------
  // Rows first, and then the request
  // ---------------------------------------------------------------------------

  /** What a statement does to the rows, before its request moves on. */
  ghost predicate Rows(w: World, u: World) {
    && Keeps(w, u) && ChallengesKept(w, u) && PasswordsUnchanged(w.db.users, u.db.users)
    && u.made == w.made && u.inflight == w.inflight && u.requests == w.requests
  }

  ghost predicate PasswordsUnchanged(a: map<Uuid, Account>, b: map<Uuid, Account>) {
    forall u | u in a :: u in b && b[u].password == a[u].password
  }

  lemma SameHistory(w: World, u: World)
    requires w.now <= u.now && w.requests <= u.requests && u.consumed == w.consumed && u.spent == w.spent
    requires u.made == w.made && u.saved == w.saved && w.retired <= u.retired
    ensures HistoryGrows(w, u)
  {
  }

  lemma SameSessions(w: World, u: World)
    requires u.db.sessions == w.db.sessions && w.now <= u.now
    ensures SessionsKept(w, u)
  {
  }

  lemma SamePasskeys(w: World, u: World)
    requires u.db.passkeys == w.db.passkeys
    ensures PasskeysKept(w, u)
  {
  }

  lemma SameChallenges(w: World, u: World)
    requires u.db.challenges == w.db.challenges && u.saved == w.saved
    ensures ChallengesKept(w, u)
  {
  }

  /** Only pending sign-ins and the clock changed. */
  lemma LightRows(w: World, u: World)
    requires Gone(w) && w.now <= u.now
    requires u == w.(now := u.now, db := w.db.(pending := u.db.pending))
    ensures Rows(w, u)
  {
    hide HistoryGrows, SessionsKept, PasskeysKept, ChallengesKept, GoneChallenges, GoneOpen, GoneCodes, GonePasskeys;
    SameHistory(w, u);
    SameSessions(w, u);
    SamePasskeys(w, u);
    SameChallenges(w, u);
  }

  lemma OnlyRows(w: World, u: World, q: nat)
    requires Rows(w, u)
    ensures Frame(w, u, q)
  {
    hide Keeps, ChallengesKept, HasTakenChallenge, HasSpentCode, TookChallenge, TookCode;
  }

  lemma RequestsDoNotMatter(w: World, u: World, v: World)
    requires Rows(w, u) && v == u.(inflight := v.inflight, requests := v.requests) && u.requests <= v.requests
    ensures Keeps(w, v) && ChallengesKept(w, v) && v.made == w.made && forall q :: PasswordsStored(w, v, q)
  {
  }

  lemma Begun(w: World, u: World, x: Handler)
    requires Rows(w, u)
    requires HasTakenChallenge(x) ==> TookChallenge(u.consumed, w.requests)
    requires !HasSpentCode(x)
    requires x.PasswordOk? ==> x.userId in w.db.users && w.db.users[x.userId].password == x.password
    ensures Frame(w, Begin(u, x), w.requests)
  {
    hide Rows, Keeps, ChallengesKept, PasswordsStored, HasTakenChallenge, HasSpentCode, TookChallenge, TookCode;
    RequestsDoNotMatter(w, u, Begin(u, x));
    RequestsUnmoved(w, u);
  }

  lemma RequestsUnmoved(w: World, u: World)
    requires Rows(w, u)
    ensures u.inflight == w.inflight && u.requests == w.requests && u.made == w.made
  {
  }

  lemma Moved(w: World, u: World, q: nat, x: Handler)
    requires Rows(w, u) && q in w.inflight && !w.inflight[q].Retiring? && !w.inflight[q].Saving?
    requires HasTakenChallenge(x) ==> HasTakenChallenge(w.inflight[q]) || TookChallenge(u.consumed, q)
    requires HasSpentCode(x) ==> HasSpentCode(w.inflight[q]) || TookCode(u.spent, q)
    requires !HoldsPassword(x)
    ensures Frame(w, Move(u, q, x), q)
  {
    hide Rows, Keeps, ChallengesKept, PasswordsStored, HasTakenChallenge, HasSpentCode, TookChallenge, TookCode;
    RequestsDoNotMatter(w, u, Move(u, q, x));
    RequestsUnmoved(w, u);
  }

  lemma Ended(w: World, u: World, q: nat)
    requires Rows(w, u)
    ensures Frame(w, Done(u, q), q)
  {
    hide Rows, Keeps, ChallengesKept, PasswordsStored, HasTakenChallenge, HasSpentCode, TookChallenge, TookCode;
    RequestsDoNotMatter(w, u, Done(u, q));
    RequestsUnmoved(w, u);
  }

  // ---------------------------------------------------------------------------
  // Handler by handler
  // ---------------------------------------------------------------------------

  lemma NothingFrames(w: World, q: nat)
    requires Gone(w)
    ensures Rows(w, w) && Frame(w, w, q)
  {
    hide Rows, Frame;
    LightRows(w, w);
    OnlyRows(w, w, q);
  }

  lemma TickFrames(w: World, to: Instant)
    requires Gone(w)
    ensures Frame(w, Next(w, Tick(to)), w.requests)
  {
    hide Gone, Rows, Frame;
    NothingFrames(w, w.requests);
    if w.now <= to {
      LightRows(w, w.(now := to));
      OnlyRows(w, w.(now := to), w.requests);
    }
  }

  // handleLogin

  lemma VerifyFrames(w: World, u: Uuid, password: string, kind: SessionKind)
    requires Gone(w)
    ensures Frame(w, Next(w, VerifyPassword(u, password, kind)), w.requests)
  {
    hide Gone, Rows, Frame, TookChallenge, TookCode;
    NothingFrames(w, w.requests);
    if Accepts(w.db, u, password, w.now) && kind in {Browser, Cli} {
      Begun(w, w, PasswordOk(u, kind, password, w.db.users[u].due));
    }
  }

  /** Besides whatever else it did, q has stored the password it held. */
  lemma Stored(w: World, v: World, q: nat, u: Uuid, password: string)
    requires Frame(w, v, q) && Holds(w, q, u, password) && u in w.db.users && v.db.users == w.db.users
    ensures Frame(w, v.(db := v.db.(users := WithPassword(w.db.users, u, password))), q)
  {
    hide MovesOne, MakesOne, HistoryGrows, GoneChallenges, GoneOpen, GoneCodes, GonePasskeys, PasswordsHeld;
    var next := v.(db := v.db.(users := WithPassword(w.db.users, u, password)));
    AccountsDoNotMatter(w, v, next, q);
  }

  lemma AccountsDoNotMatter(w: World, v: World, next: World, q: nat)
    requires Frame(w, v, q) && next == v.(db := v.db.(users := next.db.users))
    ensures Keeps(w, next) && ChallengesKept(w, next) && MovesOne(w, next, q) && MakesOne(w, next, q) && PasswordsHeld(w, next, q)
  {
    hide Frame, Keeps, ChallengesKept, MovesOne, MakesOne, PasswordsHeld;
    FramedParts(w, v, q);
    AccountsKeep(w, v, next);
    AccountsMoveNothing(w, v, next, q);
  }

  lemma AccountsKeep(w: World, v: World, next: World)
    requires Keeps(w, v) && ChallengesKept(w, v) && next == v.(db := v.db.(users := next.db.users))
    ensures Keeps(w, next) && ChallengesKept(w, next)
  {
    hide GoneChallenges, GoneOpen, GoneCodes, GonePasskeys, SameSession, Matches;
  }

  lemma AccountsMoveNothing(w: World, v: World, next: World, q: nat)
    requires MovesOne(w, v, q) && MakesOne(w, v, q) && PasswordsHeld(w, v, q) && next == v.(db := v.db.(users := next.db.users))
    ensures MovesOne(w, next, q) && MakesOne(w, next, q) && PasswordsHeld(w, next, q)
  {
    hide HasTakenChallenge, HasSpentCode, TookChallenge, TookCode, ByPasskey, HoldsPassword, Holds;
  }

  lemma UpgradeFrames(w: World, q: nat)
    requires Gone(w)
    ensures Frame(w, Next(w, UpgradeHash(q)), q)
  {
    hide Gone, Rows, Frame, TookChallenge, TookCode;
    NothingFrames(w, q);
    if q in w.inflight && w.inflight[q].PasswordOk? && w.inflight[q].due && w.inflight[q].userId in w.db.users {
      var x := w.inflight[q];
      Moved(w, w, q, x.(due := false));
      Stored(w, Move(w, q, x.(due := false)), q, x.userId, x.password);
    }
  }

  lemma CountFrames(w: World, q: nat)
    requires Gone(w)
    ensures Frame(w, Next(w, CountPasskeys(q)), q)
  {
    hide Gone, Rows, Frame, PasswordSuffices, TookChallenge, TookCode;
    NothingFrames(w, q);
    if q in w.inflight && w.inflight[q].PasswordOk? {
      var x := w.inflight[q];
      Moved(w, w, q, if PasswordSuffices(w, x.userId) then Proven(x.userId, x.kind, PasswordAlone) else NeedsFactor(x.userId, x.kind));
    }
  }

  lemma CreatePendingFrames(w: World, q: nat, id: Uuid, expiresAt: Instant)
    requires Gone(w)
    ensures Frame(w, Next(w, CreatePending(q, id, expiresAt)), q)
  {
    hide Gone, Rows, Frame;
    NothingFrames(w, q);
    if q in w.inflight && w.inflight[q].NeedsFactor? && id !in w.db.pending {
      var x := w.inflight[q];
      var u := w.(db := w.db.(pending := w.db.pending[id := Pending(x.userId, x.kind, expiresAt, q)]));
      LightRows(w, u);
      Ended(w, u, q);
    }
  }

  // The second factor

  lemma ResolveFrames(w: World, id: Uuid)
    requires Gone(w)
    ensures Frame(w, Next(w, ResolvePending(id)), w.requests)
  {
    hide Gone, Rows, Frame, TookChallenge, TookCode;
    NothingFrames(w, w.requests);
    if id in w.db.pending && w.db.pending[id].expiresAt > w.now {
      var p := w.db.pending[id];
      Begun(w, w, HasPending(p.userId, p.kind, id, p.attempt));
    }
  }

  function Taking(w: World, rows: set<Uuid>, q: nat): World {
    w.(db := w.db.(challenges := w.db.challenges - rows), consumed := w.consumed + ConsumedBy(Refs(rows), q))
  }

  lemma TakenAreGone(w: World, rows: set<Uuid>, q: nat)
    requires Gone(w) && rows <= w.db.challenges.Keys
    ensures var u := Taking(w, rows, q); GoneChallenges(u.db.challenges, u.consumed, u.retired) && GoneOpen(u.db.openChallenges, u.consumed)
    ensures rows != {} ==> TookChallenge(Taking(w, rows, q).consumed, q)
  {
    hide GoneCodes, GonePasskeys;
    if rows != {} {
      var c :| c in rows;
      assert Bound(c) in Refs(rows) && Bound(c) in Taking(w, rows, q).consumed;
    }
  }

  lemma TakingKeeps(w: World, rows: set<Uuid>, q: nat)
    requires GoneChallenges(w.db.challenges, w.consumed, w.retired) && rows <= w.db.challenges.Keys
    ensures HistoryGrows(w, Taking(w, rows, q)) && ChallengesKept(w, Taking(w, rows, q))
  {
    assert forall c | c in rows :: Bound(c) in Refs(rows);
  }

  lemma TakingRows(w: World, rows: set<Uuid>, q: nat)
    requires Gone(w) && rows <= w.db.challenges.Keys
    ensures Rows(w, Taking(w, rows, q))
    ensures rows != {} ==> TookChallenge(Taking(w, rows, q).consumed, q)
  {
    hide SessionsKept, PasskeysKept, ChallengesKept, HistoryGrows, GoneChallenges, GoneOpen, GoneCodes, GonePasskeys, TookChallenge;
    var u := Taking(w, rows, q);
    SameSessions(w, u);
    SamePasskeys(w, u);
    TakenAreGone(w, rows, q);
    TakingKeeps(w, rows, q);
  }

  lemma ConsumeFrames(w: World, q: nat, id: Uuid)
    requires Gone(w)
    ensures Frame(w, Next(w, ConsumeLoginChallenge(q, id)), q)
  {
    hide Gone, Rows, Frame, TookChallenge, TookCode, Refs, ConsumedBy;
    NothingFrames(w, q);
    if q in w.inflight && w.inflight[q].HasPending? && w.passkeysEnabled {
      var x := w.inflight[q];
      var rows := Consumable(w.db.challenges, x.userId, ForLogin, w.now);
      TakingRows(w, rows, q);
      if id in rows {
        Moved(w, Taking(w, rows, q), q, Challenged(x.userId, x.kind, x.pendingId, x.attempt));
      } else if rows == {} {
        Ended(w, w, q);
      }
    }
  }

  lemma ValidateFrames(w: World, q: nat, id: Uuid, count: nat)
    requires Gone(w)
    ensures Frame(w, Next(w, ValidateAssertion(q, id, count)), q)
  {
    hide Gone, Rows, Frame, TookChallenge, TookCode, Advances;
    NothingFrames(w, q);
    if q in w.inflight && w.inflight[q].Challenged? {
      var x := w.inflight[q];
      Ended(w, w, q);
      if id in PasskeysOf(w.db.passkeys, x.userId) {
        Moved(w, w, q, Asserted(x.userId, x.kind, x.pendingId, x.attempt, w.db.passkeys[id].credentialId, count));
      }
    }
  }

  lemma TouchingRows(w: World, credentialId: string, count: nat)
    requires Gone(w)
    ensures Rows(w, w.(db := w.db.(passkeys := Touched(w.db.passkeys, credentialId, count))))
  {
    hide HistoryGrows, SessionsKept, ChallengesKept, GoneChallenges, GoneOpen, GoneCodes;
    SameHistory(w, w.(db := w.db.(passkeys := Touched(w.db.passkeys, credentialId, count))));
    SameSessions(w, w.(db := w.db.(passkeys := Touched(w.db.passkeys, credentialId, count))));
    SameChallenges(w, w.(db := w.db.(passkeys := Touched(w.db.passkeys, credentialId, count))));
  }

  lemma TouchFrames(w: World, q: nat, stored: bool)
    requires Gone(w)
    ensures Frame(w, Next(w, Touch(q, stored)), q)
  {
    hide Gone, Rows, Frame, TookChallenge, TookCode, Touched;
    NothingFrames(w, q);
    if q in w.inflight && (w.inflight[q].Asserted? || w.inflight[q].OpenAsserted?) {
      var x := w.inflight[q];
      TouchingRows(w, x.credentialId, x.count);
      Moved(w, if stored then w.(db := w.db.(passkeys := Touched(w.db.passkeys, x.credentialId, x.count))) else w, q,
        if x.Asserted? then Satisfied(x.userId, x.kind, SecondPasskey(x.pendingId, x.attempt))
        else Proven(x.userId, x.kind, PasskeyAlone(x.twoPasskeys)));
    }
  }

  lemma SpendingRows(w: World, u: Uuid, hash: string, q: nat)
    requires Gone(w)
    ensures Rows(w, Spending(w, u, hash, q))
    ensures |Spendable(w.db.codes, u, hash)| == 1 ==> TookCode(Spending(w, u, hash, q).spent, q)
  {
    hide SessionsKept, PasskeysKept, ChallengesKept, GoneChallenges, GoneOpen, GonePasskeys;
    var v := Spending(w, u, hash, q);
    SameSessions(w, v);
    SamePasskeys(w, v);
    SameChallenges(w, v);
    if |Spendable(w.db.codes, u, hash)| == 1 {
      var c :| c in Spendable(w.db.codes, u, hash);
      assert c in v.spent;
    }
  }

  lemma SpendFrames(w: World, q: nat, hash: string)
    requires Gone(w)
    ensures Frame(w, Next(w, SpendCode(q, hash)), q)
  {
    hide Gone, Rows, Frame, TookChallenge, TookCode, Spending, Spendable;
    NothingFrames(w, q);
    if q in w.inflight && w.inflight[q].HasPending? {
      var x := w.inflight[q];
      var u := Spending(w, x.userId, hash, q);
      SpendingRows(w, x.userId, hash, q);
      Ended(w, u, q);
      if |Spendable(w.db.codes, x.userId, hash)| == 1 {
        Moved(w, u, q, Satisfied(x.userId, x.kind, SecondCode(x.pendingId, x.attempt)));
      }
    }
  }

  lemma DropFrames(w: World, q: nat, dropped: bool)
    requires Gone(w)
    ensures Frame(w, Next(w, DropPending(q, dropped)), q)
  {
    hide Gone, Rows, Frame, TookChallenge, TookCode;
    NothingFrames(w, q);
    if q in w.inflight && w.inflight[q].Satisfied? {
      var x, v := w.inflight[q], PendingDropped(w, q, dropped);
      var u := w.(db := w.db.(pending := v.db.pending));
      LightRows(w, u);
      Moved(w, u, q, Proven(x.userId, x.kind, x.origin));
    }
  }

  // Sign-in that names no account

  lemma OpenSavedRows(w: World, u: World, handle: Uuid, expiresAt: Instant)
    requires Gone(w) && Open(handle) !in w.consumed
    requires u == w.(db := w.db.(openChallenges := OpenSaved(w.db.openChallenges, handle, expiresAt, w.now)))
    ensures Rows(w, u)
  {
    hide HistoryGrows, SessionsKept, PasskeysKept, ChallengesKept, GoneChallenges, GoneCodes, GonePasskeys;
    SameHistory(w, u);
    SameSessions(w, u);
    SamePasskeys(w, u);
    SameChallenges(w, u);
  }

  lemma SaveOpenFrames(w: World, handle: Uuid, expiresAt: Instant)
    requires Gone(w)
    ensures Frame(w, Next(w, SaveOpenChallenge(handle, expiresAt)), w.requests)
  {
    hide Gone, Rows, Frame, OpenSaved;
    NothingFrames(w, w.requests);
    if handle !in w.db.openChallenges && Open(handle) !in w.consumed {
      var u := w.(db := w.db.(openChallenges := OpenSaved(w.db.openChallenges, handle, expiresAt, w.now)));
      OpenSavedRows(w, u, handle, expiresAt);
      OnlyRows(w, u, w.requests);
    }
  }

  function TakingOpen(w: World, handle: Uuid, q: nat): World {
    w.(db := w.db.(openChallenges := w.db.openChallenges - {handle}), consumed := w.consumed[Open(handle) := q])
  }

  lemma TakingOpenRows(w: World, handle: Uuid, q: nat)
    requires Gone(w) && handle in w.db.openChallenges
    ensures Rows(w, TakingOpen(w, handle, q)) && TookChallenge(TakingOpen(w, handle, q).consumed, q)
  {
    hide SessionsKept, PasskeysKept, ChallengesKept, GoneCodes, GonePasskeys;
    SameSessions(w, TakingOpen(w, handle, q));
    SamePasskeys(w, TakingOpen(w, handle, q));
    SameChallenges(w, TakingOpen(w, handle, q));
    assert TakingOpen(w, handle, q).consumed[Open(handle)] == q;
  }

  lemma ConsumeOpenFrames(w: World, handle: Uuid, kind: SessionKind)
    requires Gone(w)
    ensures Frame(w, Next(w, ConsumeOpenChallenge(handle, kind)), w.requests)
  {
    hide Gone, Rows, Frame, TookChallenge, TookCode;
    NothingFrames(w, w.requests);
    if OpenChallengeConsumed(w, handle, kind) != w {
      TakingOpenRows(w, handle, w.requests);
      Begun(w, TakingOpen(w, handle, w.requests), OpenChallenged(kind));
    }
  }

  lemma ValidateOpenFrames(w: World, q: nat, id: Uuid, count: nat)
    requires Gone(w)
    ensures Frame(w, Next(w, ValidateOpenAssertion(q, id, count)), q)
  {
    hide Gone, Rows, Frame, TookChallenge, TookCode, Advances, PasskeysOf;
    NothingFrames(w, q);
    if q in w.inflight && w.inflight[q].OpenChallenged? {
      Ended(w, w, q);
      if id in w.db.passkeys {
        Moved(w, w, q, OpenOutcome(w, w.inflight[q].kind, id, count));
      }
    }
  }

  lemma CountCodesFrames(w: World, q: nat)
    requires Gone(w)
    ensures Frame(w, Next(w, CountCodes(q)), q)
  {
    hide Gone, Rows, Frame, TookChallenge, TookCode, UnusedCodes;
    NothingFrames(w, q);
    if q in w.inflight && w.inflight[q].OneKeyOnly? {
      var x := w.inflight[q];
      Ended(w, w, q);
      Moved(w, w, q, OpenAsserted(x.userId, x.kind, x.credentialId, x.count, false));
    }
  }

  // Sessions

  /** Only sessions changed. */
  lemma SessionRows(w: World, u: World)
    requires Gone(w) && SessionsKept(w, u)
    requires u == w.(db := w.db.(sessions := u.db.sessions))
    ensures Rows(w, u)
  {
    hide HistoryGrows, SessionsKept, PasskeysKept, ChallengesKept, GoneChallenges, GoneOpen, GoneCodes, GonePasskeys;
    SameHistory(w, u);
    SamePasskeys(w, u);
    SameChallenges(w, u);
  }

  lemma StampingKeeps(w: World, s: Uuid, u: Uuid)
    ensures s in w.db.sessions ==> SessionsKept(w, w.(db := w.db.(sessions := Revoked(w.db.sessions, s, w.now))))
    ensures SessionsKept(w, w.(db := w.db.(sessions := SignedOut(w.db.sessions, u, w.now))))
  {
  }

  lemma InsertFrames(w: World, q: nat, id: Uuid, expiresAt: Instant)
    requires Gone(w)
    ensures Frame(w, Next(w, InsertSession(q, id, expiresAt)), q)
  {
    hide Gone, Rows, Frame, Keeps, ChallengesKept, MovesOne, MakesOne;
    NothingFrames(w, q);
    var v := SessionInserted(w, q, id, expiresAt);
    if v != w {
      var x := w.inflight[q];
      var origin := if x.Proven? then x.origin else Reissue(x.from);
      InsertingKeeps(w, q, id, Session(x.userId, x.kind, expiresAt, None), origin, v);
      InsertingMoves(w, v, q);
      InsertingMakes(w, v, q, id, origin);
      AllFrames(w, v, q);
    }
  }

  lemma AllFrames(w: World, v: World, q: nat)
    requires Keeps(w, v) && ChallengesKept(w, v) && MovesOne(w, v, q) && MakesOne(w, v, q)
    requires v.db.users == w.db.users && (q in v.inflight ==> v.inflight[q].Retiring?)
    ensures Frame(w, v, q)
  {
    hide Keeps, ChallengesKept, MovesOne, MakesOne;
  }

  lemma InsertingKeeps(w: World, q: nat, id: Uuid, s: Session, origin: Origin, v: World)
    requires Gone(w) && id !in w.made && id !in w.db.sessions && s.revokedAt.None?
    requires v == Inserted(w, q, id, s, origin).(inflight := v.inflight)
    ensures Keeps(w, v) && ChallengesKept(w, v)
  {
    hide PasskeysKept, ChallengesKept, GoneChallenges, GoneOpen, GoneCodes, GonePasskeys;
    SamePasskeys(w, v);
    SameChallenges(w, v);
  }

  lemma InsertingMoves(w: World, v: World, q: nat)
    requires q in w.inflight && (w.inflight[q].Proven? || w.inflight[q].Reissuing?)
    requires v.inflight == w.inflight - {q} || exists from :: v.inflight == w.inflight[q := Retiring(from)]
    ensures MovesOne(w, v, q)
  {
    hide TookChallenge, TookCode;
  }

  lemma InsertingMakes(w: World, v: World, q: nat, id: Uuid, origin: Origin)
    requires q in w.inflight && (w.inflight[q].Proven? || w.inflight[q].Reissuing?)
    requires v.made == w.made[id := Made(q, origin)]
    requires origin == if w.inflight[q].Proven? then w.inflight[q].origin else Reissue(w.inflight[q].from)
    requires q in v.inflight ==> v.inflight[q].Retiring?
    ensures MakesOne(w, v, q)
  {
  }

  lemma ReissueFrames(w: World, s: Uuid)
    requires Gone(w)
    ensures Frame(w, Next(w, AuthenticateForReissue(s)), w.requests)
  {
    hide Gone, Rows, Frame, TookChallenge, TookCode;
    NothingFrames(w, w.requests);
    if Live(w.db, s, w.now) {
      Begun(w, w, Reissuing(w.db.sessions[s].userId, w.db.sessions[s].kind, s));
    }
  }

  lemma RetireFrames(w: World, q: nat, revoked: bool)
    requires Gone(w)
    ensures Frame(w, Next(w, RetireSession(q, revoked)), q)
  {
    hide Gone, Rows, Frame, SessionsKept, Revoked;
    NothingFrames(w, q);
    if q in w.inflight && w.inflight[q].Retiring? {
      var s := w.inflight[q].from;
      StampingKeeps(w, s, NIL);
      Ended(w, w, q);
      if s in w.db.sessions {
        var u := w.(db := w.db.(sessions := Revoked(w.db.sessions, s, w.now)));
        SessionRows(w, u);
        Ended(w, u, q);
      }
    }
  }

  lemma RevokeFrames(w: World, s: Uuid)
    requires Gone(w)
    ensures Frame(w, Next(w, RevokeSession(s)), w.requests)
  {
    hide Gone, Rows, Frame, SessionsKept, Revoked;
    NothingFrames(w, w.requests);
    if s in w.db.sessions {
      StampingKeeps(w, s, NIL);
      SessionRows(w, SessionRevoked(w, s));
      OnlyRows(w, SessionRevoked(w, s), w.requests);
    }
  }

  lemma RevokeAllFrames(w: World, u: Uuid)
    requires Gone(w)
    ensures Frame(w, Next(w, RevokeSessionsOf(u)), w.requests)
  {
    hide Gone, Rows, Frame, SessionsKept, SignedOut;
    var v := w.(db := w.db.(sessions := SignedOut(w.db.sessions, u, w.now)));
    StampingKeeps(w, NIL, u);
    SessionRows(w, v);
    OnlyRows(w, v, w.requests);
  }

  // Accounts and recovery

  lemma ReplacedCodes(codes: map<Uuid, Code>, userId: Uuid, hashes: map<Uuid, string>)
    ensures var after := Replaced(codes, userId, hashes);
      forall c | c in after ::
        (c in hashes && after[c] == Code(userId, hashes[c], None)) || (c in codes && c !in CodesOf(codes, userId) && after[c] == codes[c])
  {
  }

  lemma CodeRowsReplaced(w: World, v: World, u: Uuid, hashes: map<Uuid, string>)
    requires Gone(w) && NewCodes(w, hashes)
    requires v == WithCodes(w, u, hashes).(db := WithCodes(w, u, hashes).db.(users := v.db.users))
    requires PasswordsUnchanged(w.db.users, v.db.users)
    ensures Rows(w, v)
  {
    hide HistoryGrows, PasswordsUnchanged, Replaced, SessionsKept, PasskeysKept, ChallengesKept, GoneOpen;
    SameHistory(w, v);
    SameSessions(w, v);
    SamePasskeys(w, v);
    SameChallenges(w, v);
    ReplacedCodes(w.db.codes, u, hashes);
  }

  lemma SignUpFrames(w: World, u: Uuid, password: string, hashes: map<Uuid, string>)
    requires Gone(w)
    ensures Frame(w, Next(w, SignUp(u, password, hashes)), w.requests)
  {
    hide Gone, Rows, Frame, TookChallenge, TookCode, NewCodes, Replaced, CodesOf, CodeRows;
    NothingFrames(w, w.requests);
    if u !in w.db.users && NewCodes(w, hashes) {
      var x := WithCodes(w, u, hashes);
      var v := x.(db := x.db.(users := w.db.users[u := Account(password, false, None)]));
      CodeRowsReplaced(w, v, u, hashes);
      Begun(w, v, Proven(u, Browser, Signup));
    }
  }

  lemma ReplaceFrames(w: World, u: Uuid, hashes: map<Uuid, string>)
    requires Gone(w)
    ensures Frame(w, Next(w, ReplaceCodes(u, hashes)), w.requests)
  {
    hide Gone, Rows, Frame, NewCodes, Replaced, CodesOf, CodeRows;
    NothingFrames(w, w.requests);
    if NewCodes(w, hashes) {
      CodeRowsReplaced(w, WithCodes(w, u, hashes), u, hashes);
      OnlyRows(w, WithCodes(w, u, hashes), w.requests);
    }
  }

  lemma ResetSpendFrames(w: World, u: Uuid, hash: string, password: string)
    requires Gone(w)
    ensures Frame(w, Next(w, SpendCodeForReset(u, hash, password)), w.requests)
  {
    hide Gone, Rows, Frame, TookChallenge, TookCode, Spending, Spendable;
    var x := Spending(w, u, hash, w.requests);
    SpendingRows(w, u, hash, w.requests);
    Begun(w, x, Resetting(u, password));
    Skipped(w, x);
  }

  /** A number is used up by a request that got nowhere. */
  lemma Skipped(w: World, u: World)
    requires Rows(w, u)
    ensures Frame(w, u.(requests := u.requests + 1), w.requests)
  {
    hide Rows, Keeps, ChallengesKept, PasswordsStored, HasTakenChallenge, HasSpentCode, TookChallenge, TookCode;
    RequestsDoNotMatter(w, u, u.(requests := u.requests + 1));
    RequestsUnmoved(w, u);
  }

  lemma FactorRows(w: World, u: Uuid)
    requires Gone(w)
    ensures Rows(w, WithoutFactors(w, u))
  {
    hide HistoryGrows, WithoutPending, SessionsKept, ChallengesKept, GoneOpen;
    SameHistory(w, WithoutFactors(w, u));
    SameSessions(w, WithoutFactors(w, u));
    SameChallenges(w, WithoutFactors(w, u));
  }

  lemma RedeemFrames(w: World, u: Uuid, password: string)
    requires Gone(w)
    ensures Frame(w, Next(w, RedeemLink(u, password)), w.requests)
  {
    hide Gone, Rows, Frame, TookChallenge, TookCode, WithoutFactors;
    FactorRows(w, u);
    Begun(w, WithoutFactors(w, u), Resetting(u, password));
  }

  lemma SetPasswordFrames(w: World, q: nat)
    requires Gone(w)
    ensures Frame(w, Next(w, SetPassword(q)), q)
  {
    hide Gone, Rows, Frame, SessionsKept, SignedOut;
    NothingFrames(w, q);
    if q in w.inflight && w.inflight[q].Resetting? && w.inflight[q].userId in w.db.users {
      var x := w.inflight[q];
      var u := w.(db := w.db.(sessions := SignedOut(w.db.sessions, x.userId, w.now)));
      StampingKeeps(w, NIL, x.userId);
      SessionRows(w, u);
      Ended(w, u, q);
      Stored(w, Done(u, q), q, x.userId, x.password);
    }
  }

  // Challenges and passkeys

  lemma ClearFrames(w: World, u: Uuid, purpose: Purpose)
    requires Gone(w)
    ensures Frame(w, Next(w, ClearChallenges(u, purpose)), w.requests)
  {
    hide Frame, Rows, TookChallenge, TookCode;
    var x := w.(db := w.db.(challenges := Cleared(w.db.challenges, u, purpose)),
      retired := w.retired + ChallengeRows(Outstanding(w.db.challenges, u, purpose)));
    ClearedRows(w, x, u, purpose);
    Begun(w, x, Saving(u, purpose));
  }

  lemma ClearedRows(w: World, x: World, u: Uuid, purpose: Purpose)
    requires Gone(w)
    requires x == w.(db := w.db.(challenges := Cleared(w.db.challenges, u, purpose)),
      retired := w.retired + ChallengeRows(Outstanding(w.db.challenges, u, purpose)))
    ensures Rows(w, x)
  {
    hide HistoryGrows, SessionsKept, PasskeysKept, GoneOpen;
    SameHistory(w, x);
    SameSessions(w, x);
    SamePasskeys(w, x);
  }

  lemma InsertChallengeFrames(w: World, q: nat, id: Uuid, expiresAt: Instant)
    requires Gone(w)
    ensures Frame(w, Next(w, InsertChallenge(q, id, expiresAt)), q)
  {
    hide Frame, Rows;
    NothingFrames(w, q);
    if q in w.inflight && w.inflight[q].Saving? && NewChallenge(w, id) {
      var x := w.inflight[q];
      var u := w.(db := w.db.(challenges := w.db.challenges[id := Challenge(x.userId, x.purpose, expiresAt)]),
        saved := w.saved[id := Saved(q, x.userId, x.purpose)]);
      SavedRows(w, u, q, id, expiresAt, x.userId, x.purpose);
      Ended(w, u, q);
    }
  }

  lemma SavedKeeps(w: World, u: World, id: Uuid)
    requires GoneChallenges(w.db.challenges, w.consumed, w.retired) && NewChallenge(w, id)
    requires id in u.saved && id in u.db.challenges && Matches(u.db.challenges[id], u.saved[id].userId, u.saved[id].purpose)
    requires u == w.(db := w.db.(challenges := w.db.challenges[id := u.db.challenges[id]]), saved := w.saved[id := u.saved[id]])
    ensures GoneChallenges(u.db.challenges, u.consumed, u.retired) && HistoryGrows(w, u) && ChallengesKept(w, u)
  {
  }

  lemma SavedRows(w: World, u: World, q: nat, id: Uuid, expiresAt: Instant, userId: Uuid, purpose: Purpose)
    requires Gone(w) && NewChallenge(w, id)
    requires u == w.(db := w.db.(challenges := w.db.challenges[id := Challenge(userId, purpose, expiresAt)]),
      saved := w.saved[id := Saved(q, userId, purpose)])
    ensures Rows(w, u)
  {
    hide HistoryGrows, SessionsKept, PasskeysKept, ChallengesKept, GoneChallenges, GoneOpen, GoneCodes, GonePasskeys;
    SameSessions(w, u);
    SamePasskeys(w, u);
    SavedKeeps(w, u, id);
  }

  lemma RegistrationFrames(w: World, u: Uuid, id: Uuid)
    requires Gone(w)
    ensures Frame(w, Next(w, ConsumeRegistrationChallenge(u, id)), w.requests)
  {
    hide Gone, Rows, Frame, TookChallenge, TookCode, Refs, ConsumedBy;
    NothingFrames(w, w.requests);
    var rows := Consumable(w.db.challenges, u, ForRegistration, w.now);
    if id in rows && w.passkeysEnabled {
      TakingRows(w, rows, w.requests);
      Begun(w, Taking(w, rows, w.requests), Registering(u));
    }
  }

  lemma RegisterFrames(w: World, q: nat, id: Uuid, credentialId: string, count: nat)
    requires Gone(w)
    ensures Frame(w, Next(w, RegisterPasskey(q, id, credentialId, count)), q)
  {
    hide Frame, Rows, Unregistered;
    NothingFrames(w, q);
    if PasskeyRegistered(w, q, id, credentialId, count) != w {
      var u := w.(db := w.db.(passkeys := w.db.passkeys[id := Passkey(w.inflight[q].userId, credentialId, count)]));
      RegisteredRows(w, u, id);
      Ended(w, u, q);
    }
  }

  lemma RegisteredRows(w: World, u: World, id: Uuid)
    requires Gone(w) && id !in w.db.passkeys && PasskeyRow(id) !in w.retired && id in u.db.passkeys
    requires u == w.(db := w.db.(passkeys := w.db.passkeys[id := u.db.passkeys[id]]))
    ensures Rows(w, u)
  {
    hide HistoryGrows, SessionsKept, ChallengesKept, GoneChallenges, GoneOpen, GoneCodes;
    SameHistory(w, u);
    SameSessions(w, u);
    SameChallenges(w, u);
  }

  lemma DeletedRows(w: World, u: World, id: Uuid)
    requires Gone(w) && u == w.(db := w.db.(passkeys := w.db.passkeys - {id}), retired := w.retired + {PasskeyRow(id)})
    ensures Rows(w, u)
  {
    hide HistoryGrows, SessionsKept, ChallengesKept, GoneOpen;
    SameHistory(w, u);
    SameSessions(w, u);
    SameChallenges(w, u);
  }

  lemma DeleteFrames(w: World, id: Uuid, u: Uuid)
    requires Gone(w)
    ensures Frame(w, Next(w, DeletePasskey(id, u)), w.requests)
  {
    hide Gone, Rows, Frame;
    NothingFrames(w, w.requests);
    if id in w.db.passkeys && w.db.passkeys[id].userId == u {
      DeletedRows(w, PasskeyDeleted(w, id, u), id);
      OnlyRows(w, PasskeyDeleted(w, id, u), w.requests);
    }
  }

  /** Every step of every request is framed. */
  lemma StepFrames(w: World, step: Step) returns (q: nat)
    requires Gone(w)
    ensures Frame(w, Next(w, step), q)
  {
    hide Gone, Frame, Next;
    q := w.requests;
    match step
    case Tick(to) => TickFrames(w, to);
    case SignUp(u, password, hashes) => SignUpFrames(w, u, password, hashes);
    case VerifyPassword(u, password, kind) => VerifyFrames(w, u, password, kind);
    case UpgradeHash(r) => q := r; UpgradeFrames(w, r);
    case CountPasskeys(r) => q := r; CountFrames(w, r);
    case CreatePending(r, id, expiresAt) => q := r; CreatePendingFrames(w, r, id, expiresAt);
    case ResolvePending(id) => ResolveFrames(w, id);
    case ClearChallenges(u, purpose) => ClearFrames(w, u, purpose);
    case InsertChallenge(r, id, expiresAt) => q := r; InsertChallengeFrames(w, r, id, expiresAt);
    case ConsumeLoginChallenge(r, id) => q := r; ConsumeFrames(w, r, id);
    case ValidateAssertion(r, id, count) => q := r; ValidateFrames(w, r, id, count);
    case Touch(r, stored) => q := r; TouchFrames(w, r, stored);
    case SpendCode(r, hash) => q := r; SpendFrames(w, r, hash);
    case DropPending(r, dropped) => q := r; DropFrames(w, r, dropped);
    case SaveOpenChallenge(handle, expiresAt) => SaveOpenFrames(w, handle, expiresAt);
    case ConsumeOpenChallenge(handle, kind) => ConsumeOpenFrames(w, handle, kind);
    case ValidateOpenAssertion(r, id, count) => q := r; ValidateOpenFrames(w, r, id, count);
    case CountCodes(r) => q := r; CountCodesFrames(w, r);
    case InsertSession(r, id, expiresAt) => q := r; InsertFrames(w, r, id, expiresAt);
    case AuthenticateForReissue(s) => ReissueFrames(w, s);
    case RetireSession(r, revoked) => q := r; RetireFrames(w, r, revoked);
    case SpendCodeForReset(u, hash, password) => ResetSpendFrames(w, u, hash, password);
    case RedeemLink(u, password) => RedeemFrames(w, u, password);
    case SetPassword(r) => q := r; SetPasswordFrames(w, r);
    case ConsumeRegistrationChallenge(u, id) => RegistrationFrames(w, u, id);
    case RegisterPasskey(r, id, credentialId, count) => q := r; RegisterFrames(w, r, id, credentialId, count);
    case DeletePasskey(id, u) => DeleteFrames(w, id, u);
    case ReplaceCodes(u, hashes) => ReplaceFrames(w, u, hashes);
    case RevokeSession(id) => RevokeFrames(w, id);
    case RevokeSessionsOf(u) => RevokeAllFrames(w, u);
  }

  // ---------------------------------------------------------------------------
  // Runs
  // ---------------------------------------------------------------------------

  lemma FramedParts(w: World, v: World, q: nat)
    requires Frame(w, v, q)
    ensures Gone(v) && Keeps(w, v) && ChallengesKept(w, v) && MovesOne(w, v, q) && MakesOne(w, v, q)
    ensures PasswordsStored(w, v, q) && PasswordsHeld(w, v, q)
  {
  }

  lemma PasskeysKeptTransitively(u: World, v: World, w: World)
    requires PasskeysKept(u, v) && PasskeysKept(v, w) && v.retired <= w.retired && GonePasskeys(w.db.passkeys, w.retired)
    ensures PasskeysKept(u, w)
  {
  }

  lemma SessionsKeptTransitively(u: World, v: World, w: World)
    requires SessionsKept(u, v) && SessionsKept(v, w) && v.now <= w.now
    ensures SessionsKept(u, w)
  {
  }

  lemma HistoryGrowsTransitively(u: World, v: World, w: World)
    requires HistoryGrows(u, v) && HistoryGrows(v, w)
    ensures HistoryGrows(u, w)
  {
  }

  lemma KeepsTransitively(u: World, v: World, w: World)
    requires Keeps(u, v) && Keeps(v, w)
    ensures Keeps(u, w)
  {
    hide SessionsKept, PasskeysKept, GoneChallenges, GoneOpen, GoneCodes, GonePasskeys;
    HistoryGrowsTransitively(u, v, w);
    PasskeysKeptTransitively(u, v, w);
    SessionsKeptTransitively(u, v, w);
  }

  /** Over any run: nothing consumed, spent or deleted comes back, histories only grow,
      counters only advance, and sessions keep their owners and their stamps. */
  lemma {:induction false} RunKeeps(w: World, steps: seq<Step>)
    requires Gone(w)
    ensures Keeps(w, Run(w, steps)) && Gone(Run(w, steps))
    decreases |steps|
  {
    hide Gone, Rows, Frame, MovesOne, MakesOne, ChallengesKept, Next;
    if steps == [] {
      NothingKeeps(w);
    } else {
      var n := |steps| - 1;
      RunKeeps(w, steps[..n]);
      var q := StepFrames(Run(w, steps[..n]), steps[n]);
      FramedParts(Run(w, steps[..n]), Run(w, steps), q);
      KeepsTransitively(w, Run(w, steps[..n]), Run(w, steps));
    }
  }

  lemma NothingKeeps(w: World)
    requires Gone(w)
    ensures Keeps(w, w)
  {
  }

  /** A service that has only been set up: accounts with their passkeys and codes, and
      nothing else yet. */
  predicate Quiet(w: World) {
    && w.db.sessions == map[] && w.db.pending == map[] && w.db.challenges == map[] && w.db.openChallenges == map[]
    && w.inflight == map[] && w.made == map[] && w.saved == map[] && w.consumed == map[] && w.spent == map[] && w.retired == {}
  }

  lemma QuietIsGone(w: World)
    requires Quiet(w)
    ensures Gone(w)
  {
  }
}
