/** Which passwords an account may have after a reset. */
module SignInPasswords {
  import opened Outcomes
  import opened Domain
  import opened SignIn
  import opened SignInFrames

  /** The step from w to v begins a request that will set a new password for u. */
  predicate BeginsReset(w: World, v: World, u: Uuid) {
    w.requests < v.requests && w.requests in v.inflight && v.inflight[w.requests].Resetting? && v.inflight[w.requests].userId == u
  }

  /** No request for a new password of u gets through during the run. */
  ghost predicate NobodyAsks(w: World, steps: seq<Step>, u: Uuid) {
    forall i | 0 <= i < |steps| :: !BeginsReset(Run(w, steps[..i]), Run(w, steps[..i + 1]), u)
  }

  /** The stored password, or one that a request in flight may yet store. */
  ghost predicate Possible(w: World, u: Uuid, password: string)
    requires u in w.db.users
  {
    password == w.db.users[u].password || exists q :: Holds(w, q, u, password)
  }

  ghost predicate Within(w: World, v: World, u: Uuid)
    requires u in w.db.users
  {
    && u in v.db.users && Possible(w, u, v.db.users[u].password)
    && forall q, password | Holds(v, q, u, password) :: Possible(w, u, password)
  }

  lemma FrameKeepsWithin(w: World, v: World, next: World, q: nat, u: Uuid)
    requires u in w.db.users && Within(w, v, u) && !BeginsReset(v, next, u)
    requires MovesOne(v, next, q) && PasswordsStored(v, next, q) && PasswordsHeld(v, next, q)
    ensures Within(w, next, u)
  {
    hide Possible, HasTakenChallenge, HasSpentCode, TookChallenge, TookCode;
    forall r, password | Holds(next, r, u, password) ensures Possible(w, u, password) {
      assert r != q ==> Holds(v, r, u, password);
    }
  }

  lemma {:induction false} RunStaysWithin(w: World, steps: seq<Step>, u: Uuid)
    requires Gone(w) && u in w.db.users && NobodyAsks(w, steps, u)
    ensures Within(w, Run(w, steps), u)
    decreases |steps|
  {
    hide Gone, Frame, Keeps, MovesOne, MakesOne, ChallengesKept, PasswordsStored, PasswordsHeld, BeginsReset, Next;
    if steps == [] {
      NothingElseIsPossible(w, u);
    } else {
      var n := |steps| - 1;
      var v := Run(w, steps[..n]);
      assert NobodyAsks(w, steps[..n], u) by { FewerAsk(w, steps, u); }
      RunStaysWithin(w, steps[..n], u);
      RunKeeps(w, steps[..n]);
      var q := StepFrames(v, steps[n]);
      FramedParts(v, Run(w, steps), q);
      assert steps[..n + 1] == steps;
      FrameKeepsWithin(w, v, Run(w, steps), q, u);
    }
  }

  lemma NothingElseIsPossible(w: World, u: Uuid)
    requires u in w.db.users
    ensures Within(w, w, u)
  {
  }

  lemma FewerAsk(w: World, steps: seq<Step>, u: Uuid)
    requires steps != [] && NobodyAsks(w, steps, u)
    ensures NobodyAsks(w, steps[..|steps| - 1], u)
  {
    hide Run, BeginsReset;
    var fewer := steps[..|steps| - 1];
    forall i | 0 <= i < |fewer| ensures !BeginsReset(Run(w, fewer[..i]), Run(w, fewer[..i + 1]), u) {
      assert fewer[..i] == steps[..i] && fewer[..i + 1] == steps[..i + 1];
    }
  }

  /** After a reset, and until somebody asks for another: a password the account accepts is
      the one just set, or one held by a request that was in flight at the reset, for a
      reset of its own or to upgrade the hash it had read. */
  lemma PasswordsAfterAReset(w: World, q: nat, steps: seq<Step>, password: string)
    requires Gone(w) && q in w.inflight && w.inflight[q].Resetting? && w.inflight[q].userId in w.db.users
    requires var u, reset := w.inflight[q].userId, Next(w, SetPassword(q));
      NobodyAsks(reset, steps, u) && Accepts(Run(reset, steps).db, u, password, Run(reset, steps).now)
    ensures password == w.inflight[q].password || exists r :: Holds(Next(w, SetPassword(q)), r, w.inflight[q].userId, password)
  {
    hide Gone, Run, NobodyAsks;
    ResetSets(w, q);
    RunStaysWithin(Next(w, SetPassword(q)), steps, w.inflight[q].userId);
  }

  lemma ResetSets(w: World, q: nat)
    requires Gone(w) && q in w.inflight && w.inflight[q].Resetting? && w.inflight[q].userId in w.db.users
    ensures var u, reset := w.inflight[q].userId, Next(w, SetPassword(q));
      Gone(reset) && u in reset.db.users && reset.db.users[u].password == w.inflight[q].password
  {
    hide Gone, Frame, Keeps, MovesOne, MakesOne, ChallengesKept, PasswordsStored, PasswordsHeld;
    SetPasswordFrames(w, q);
    FramedParts(w, Next(w, SetPassword(q)), q);
  }

  /** The stored password of u never changes on any run in which nobody asks for another. */
  ghost predicate PasswordStays(w: World, u: Uuid) {
    forall steps | NobodyAsks(w, steps, u) ::
      u in w.db.users && u in Run(w, steps).db.users && Run(w, steps).db.users[u].password == w.db.users[u].password
  }

  lemma ResetStores(w: World, q: nat)
    requires q in w.inflight && w.inflight[q].Resetting? && w.inflight[q].userId in w.db.users
    ensures var v, x := Next(w, SetPassword(q)), w.inflight[q];
      v.requests == w.requests && x.userId in v.db.users && v.db.users[x.userId].password == x.password
  {
    hide SignedOut;
  }

  lemma UpgradeStores(w: World, q: nat)
    requires q in w.inflight && w.inflight[q].PasswordOk? && w.inflight[q].due && w.inflight[q].userId in w.db.users
    ensures var v, x := Next(w, UpgradeHash(q)), w.inflight[q];
      v.requests == w.requests && x.userId in v.db.users && v.db.users[x.userId].password == x.password
  {
  }

  /** Whatever a request in flight holds, one more step of it stores. */
  lemma HeldIsStored(w: World, q: nat, u: Uuid, password: string) returns (steps: seq<Step>)
    requires Holds(w, q, u, password) && u in w.db.users
    ensures NobodyAsks(w, steps, u) && u in Run(w, steps).db.users && Run(w, steps).db.users[u].password == password
  {
    hide Next;
    if w.inflight[q].Resetting? {
      steps := [SetPassword(q)];
      ResetStores(w, q);
    } else {
      steps := [UpgradeHash(q)];
      UpgradeStores(w, q);
    }
    assert steps[..0] == [] && steps[..1] == steps;
    assert Run(w, steps) == Next(w, steps[0]);
  }

  /** A new password is stored for good, until somebody asks for another, exactly when no
      request in flight at the reset holds a different one for that account: neither another
      reset, nor a login that was accepted under a hash due for an upgrade. */
  lemma NewPasswordStaysExactlyWhen(w: World, q: nat)
    requires Gone(w) && q in w.inflight && w.inflight[q].Resetting? && w.inflight[q].userId in w.db.users
    ensures var u, reset := w.inflight[q].userId, Next(w, SetPassword(q));
      PasswordStays(reset, u) <==> forall r, password | Holds(reset, r, u, password) :: password == w.inflight[q].password
  {
    hide Gone, Run, Next, Holds, NobodyAsks;
    var u, reset := w.inflight[q].userId, Next(w, SetPassword(q));
    ResetSets(w, q);
    if forall r, password | Holds(reset, r, u, password) :: password == w.inflight[q].password {
      forall steps | NobodyAsks(reset, steps, u)
        ensures u in Run(reset, steps).db.users && Run(reset, steps).db.users[u].password == reset.db.users[u].password
      {
        RunStaysWithin(reset, steps, u);
      }
    } else {
      var r, password :| Holds(reset, r, u, password) && password != w.inflight[q].password;
      var steps := HeldIsStored(reset, r, u, password);
    }
  }
}
