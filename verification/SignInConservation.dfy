/** What is spent once, what never goes back, and how many sessions that allows. */
module SignInConservation {
  import opened Outcomes
  import opened Domain
  import opened SignIn
  import opened SignInFrames

  // ---------------------------------------------------------------------------
  // Single use
  // ---------------------------------------------------------------------------

  predicate Available(db: Db, c: ChallengeRef) {
    match c
    case Bound(id) => id in db.challenges
    case Open(handle) => handle in db.openChallenges
  }

  predicate UsedUp(w: World, code: Uuid) {
    code in w.spent || CodeRow(code) in w.retired
  }

  /** A challenge consumed by one request is never there for another; a code spent by
      one request, or replaced, is never spendable again, whatever happens later. */
  lemma NothingIsTakenTwice(w: World, steps: seq<Step>)
    requires Gone(w)
    ensures var v := Run(w, steps);
      && (forall c | c in w.consumed :: c in v.consumed && v.consumed[c] == w.consumed[c] && !Available(v.db, c))
      && (forall c | c in w.spent :: c in v.spent && v.spent[c] == w.spent[c])
      && (forall c, u, hash | UsedUp(w, c) :: c !in Spendable(v.db.codes, u, hash))
      && (forall c, u | UsedUp(w, c) :: c !in UnusedCodes(v.db.codes, u))
  {
    hide Run, SessionsKept, PasskeysKept;
    RunKeeps(w, steps);
  }

  /** Over any run, the stored counter of a passkey row never decreases. */
  lemma CountersNeverDecrease(w: World, steps: seq<Step>, p: Uuid)
    requires Gone(w) && p in w.db.passkeys && p in Run(w, steps).db.passkeys
    ensures w.db.passkeys[p].signCount <= Run(w, steps).db.passkeys[p].signCount
  {
    hide Run, SessionsKept, GoneChallenges, GoneOpen, GoneCodes;
    RunKeeps(w, steps);
  }

  // ---------------------------------------------------------------------------
  // How many sessions that allows
  // ---------------------------------------------------------------------------

  /** Each request makes at most one session, and has what its path takes. */
  ghost predicate Tallied(w: World) {
    && (forall q | q in w.inflight ::
          && q < w.requests
          && (HasTakenChallenge(w.inflight[q]) ==> TookChallenge(w.consumed, q))
          && (HasSpentCode(w.inflight[q]) ==> TookCode(w.spent, q))
          && (!w.inflight[q].Retiring? ==> forall s | s in w.made :: w.made[s].request != q))
    && (forall s | s in w.made ::
          && w.made[s].request < w.requests
          && (ByPasskey(w.made[s].origin) ==> TookChallenge(w.consumed, w.made[s].request))
          && (w.made[s].origin.SecondCode? ==> TookCode(w.spent, w.made[s].request)))
    && (forall s, t | s in w.made && t in w.made && w.made[s].request == w.made[t].request :: s == t)
  }

  lemma QuietIsTallied(w: World)
    requires Quiet(w)
    ensures Tallied(w)
  {
  }

  lemma TakenStays(w: World, v: World, q: nat)
    requires HistoryGrows(w, v)
    ensures TookChallenge(w.consumed, q) ==> TookChallenge(v.consumed, q)
    ensures TookCode(w.spent, q) ==> TookCode(v.spent, q)
  {
    if TookChallenge(w.consumed, q) {
      var c :| c in w.consumed && w.consumed[c] == q;
      assert c in v.consumed && v.consumed[c] == q;
    }
    if TookCode(w.spent, q) {
      var c :| c in w.spent && w.spent[c] == q;
      assert c in v.spent && v.spent[c] == q;
    }
  }

  /** No step can upset the tally, whatever it is a step of. */
  lemma FrameTallies(w: World, v: World, moved: nat)
    requires Tallied(w) && HistoryGrows(w, v) && MovesOne(w, v, moved) && MakesOne(w, v, moved)
    ensures Tallied(v)
  {
    hide HasTakenChallenge, HasSpentCode, TookChallenge, TookCode, ByPasskey;
    forall q: nat | q < w.requests
      ensures TookChallenge(w.consumed, q) ==> TookChallenge(v.consumed, q)
      ensures TookCode(w.spent, q) ==> TookCode(v.spent, q)
    {
      TakenStays(w, v, q);
    }
  }

  lemma {:induction false} RunTallies(w: World, steps: seq<Step>)
    requires Tallied(w) && Gone(w)
    ensures Tallied(Run(w, steps))
    decreases |steps|
  {
    hide Tallied, Gone, Frame, MovesOne, MakesOne, ChallengesKept, HistoryGrows, SessionsKept, PasskeysKept, Next;
    if steps != [] {
      var n := |steps| - 1;
      RunTallies(w, steps[..n]);
      RunKeeps(w, steps[..n]);
      var q := StepFrames(Run(w, steps[..n]), steps[n]);
      FramedParts(Run(w, steps[..n]), Run(w, steps), q);
      FrameTallies(Run(w, steps[..n]), Run(w, steps), q);
    }
  }

  function SessionsBy(made: map<Uuid, Made>, passkey: bool): set<Uuid> {
    set s | s in made && (if passkey then ByPasskey(made[s].origin) else made[s].origin.SecondCode?)
  }

  /** A set no larger than another, given an injection by way of what was taken. */
  lemma {:induction false} NoMoreThan<K>(sessions: set<Uuid>, made: map<Uuid, Made>, taken: map<K, nat>)
    requires sessions <= made.Keys
    requires forall s, t | s in sessions && t in sessions && made[s].request == made[t].request :: s == t
    requires forall s | s in sessions :: exists k :: k in taken && taken[k] == made[s].request
    ensures |sessions| <= |taken|
    decreases |sessions|
  {
    if sessions != {} {
      var s :| s in sessions;
      var k :| k in taken && taken[k] == made[s].request;
      var rest := taken - {k};
      forall t | t in sessions - {s} ensures exists j :: j in rest && rest[j] == made[t].request {
        var j :| j in taken && taken[j] == made[t].request;
        assert j in rest && rest[j] == made[t].request;
      }
      NoMoreThan(sessions - {s}, made, rest);
      assert taken.Keys == rest.Keys + {k};
    }
  }

  /** Sessions obtained by passkey never outnumber the challenges consumed, and those
      obtained by recovery code never outnumber the codes spent. */
  lemma SessionsNeverOutnumberWhatWasTaken(w: World, steps: seq<Step>)
    requires Tallied(w) && Gone(w)
    ensures var v := Run(w, steps);
      |SessionsBy(v.made, true)| <= |v.consumed| && |SessionsBy(v.made, false)| <= |v.spent|
  {
    hide Run, Gone;
    var v := Run(w, steps);
    RunTallies(w, steps);
    NoMoreThan(SessionsBy(v.made, true), v.made, v.consumed);
    NoMoreThan(SessionsBy(v.made, false), v.made, v.spent);
  }

  // ---------------------------------------------------------------------------
  // One outstanding challenge
  // ---------------------------------------------------------------------------

  /** Saved for this user and purpose by a request, since w. */
  predicate SavedSince(w: World, v: World, c: Uuid, u: Uuid, purpose: Purpose) {
    c in v.saved && c !in w.saved && v.saved[c].userId == u && v.saved[c].purpose == purpose
  }

  predicate ConsumedOrCleared(v: World, c: Uuid) {
    Bound(c) in v.consumed || ChallengeRow(c) in v.retired
  }

  /** What is outstanding is what was saved since and is neither consumed nor cleared. */
  ghost predicate OnlySaved(w: World, v: World, u: Uuid, purpose: Purpose) {
    forall c :: c in Outstanding(v.db.challenges, u, purpose) <==> SavedSince(w, v, c, u, purpose) && !ConsumedOrCleared(v, c)
  }

  lemma FrameKeepsOnlySaved(w: World, v: World, next: World, u: Uuid, purpose: Purpose)
    requires OnlySaved(w, v, u, purpose) && HistoryGrows(w, v) && HistoryGrows(v, next)
    requires Gone(next) && ChallengesKept(v, next)
    ensures OnlySaved(w, next, u, purpose)
  {
    hide GoneOpen, GoneCodes, GonePasskeys;
    forall c ensures c in Outstanding(next.db.challenges, u, purpose) <==> SavedSince(w, next, c, u, purpose) && !ConsumedOrCleared(next, c) {
      assert c in Outstanding(v.db.challenges, u, purpose) <==> SavedSince(w, v, c, u, purpose) && !ConsumedOrCleared(v, c);
      assert c in next.saved && c !in v.saved ==> c in next.db.challenges;
    }
  }

  /** A request between its two statements does nothing else. */
  lemma SavingWaits(v: World, next: World, q: nat, moved: nat)
    requires MovesOne(v, next, moved) && q < v.requests && q in v.inflight && v.inflight[q].Saving? && q in next.inflight
    ensures next.inflight[q] == v.inflight[q]
  {
    hide HasTakenChallenge, HasSpentCode, TookChallenge, TookCode;
  }

  lemma EndedStaysEnded(v: World, next: World, q: nat, moved: nat)
    requires MovesOne(v, next, moved) && q < v.requests && q !in v.inflight
    ensures q !in next.inflight
  {
    hide HasTakenChallenge, HasSpentCode, TookChallenge, TookCode;
  }

  lemma {:induction false} SaveWaits(w: World, steps: seq<Step>, q: nat, u: Uuid, purpose: Purpose)
    requires Gone(w) && OnlySaved(w, w, u, purpose) && q < w.requests && q in w.inflight && w.inflight[q] == Saving(u, purpose)
    ensures OnlySaved(w, Run(w, steps), u, purpose)
    ensures q in Run(w, steps).inflight ==> Run(w, steps).inflight[q] == Saving(u, purpose)
    decreases |steps|
  {
    hide Gone, Frame, MovesOne, MakesOne, ChallengesKept, SessionsKept, PasskeysKept, OnlySaved, Next;
    if steps != [] {
      var n := |steps| - 1;
      var v, next := Run(w, steps[..n]), Run(w, steps);
      SaveWaits(w, steps[..n], q, u, purpose);
      RunKeeps(w, steps[..n]);
      var moved := StepFrames(v, steps[n]);
      FramedParts(v, next, moved);
      FrameKeepsOnlySaved(w, v, next, u, purpose);
      if q in v.inflight && q in next.inflight {
        SavingWaits(v, next, q, moved);
      } else if q in next.inflight {
        EndedStaysEnded(v, next, q, moved);
      }
    }
  }

  lemma NothingIsLeft(w: World, u: Uuid, purpose: Purpose)
    ensures OnlySaved(Next(w, ClearChallenges(u, purpose)), Next(w, ClearChallenges(u, purpose)), u, purpose)
  {
    hide Outstanding;
    var v := ChallengesCleared(w, u, purpose);
    assert Outstanding(v.db.challenges, u, purpose) == {} by { ClearedOut(w.db.challenges, u, purpose); }
  }

  lemma ClearedOut(challenges: map<Uuid, Challenge>, u: Uuid, purpose: Purpose)
    ensures Outstanding(Cleared(challenges, u, purpose), u, purpose) == {}
  {
  }

  lemma InsertAddsItsOwn(v: World, q: nat, id: Uuid, expiresAt: Instant, u: Uuid, purpose: Purpose)
    requires q in v.inflight && v.inflight[q] == Saving(u, purpose) && NewChallenge(v, id)
    ensures Outstanding(Next(v, InsertChallenge(q, id, expiresAt)).db.challenges, u, purpose) ==
      Outstanding(v.db.challenges, u, purpose) + {id}
  {
  }

  /** A save is a delete and an insert, and anything may run in between. Whatever does,
      the insert leaves exactly its own challenge outstanding if, and only if, every
      challenge other saves of that user and purpose have inserted since the delete has
      been consumed or cleared again. */
  lemma SaveLeavesItsOwnExactlyWhen(w: World, u: Uuid, purpose: Purpose, steps: seq<Step>, id: Uuid, expiresAt: Instant)
    requires Gone(w)
    requires var v := Run(Next(w, ClearChallenges(u, purpose)), steps); w.requests in v.inflight && NewChallenge(v, id)
    ensures var cleared := Next(w, ClearChallenges(u, purpose));
      var v := Run(cleared, steps);
      Outstanding(Next(v, InsertChallenge(w.requests, id, expiresAt)).db.challenges, u, purpose) == {id} <==>
      forall c | SavedSince(cleared, v, c, u, purpose) :: ConsumedOrCleared(v, c)
  {
    hide Gone, Run, Next, Outstanding, SavedSince, ConsumedOrCleared;
    var cleared := Next(w, ClearChallenges(u, purpose));
    var v := Run(cleared, steps);
    SaveBegins(w, u, purpose);
    NothingIsLeft(w, u, purpose);
    SaveWaits(cleared, steps, w.requests, u, purpose);
    InsertAddsItsOwn(v, w.requests, id, expiresAt, u, purpose);
    assert id !in Outstanding(v.db.challenges, u, purpose) by { NotYetThere(v, id, u, purpose); }
    assert Outstanding(v.db.challenges, u, purpose) + {id} == {id} <==> Outstanding(v.db.challenges, u, purpose) == {};
  }

  lemma NotYetThere(v: World, id: Uuid, u: Uuid, purpose: Purpose)
    requires NewChallenge(v, id)
    ensures id !in Outstanding(v.db.challenges, u, purpose)
  {
  }

  lemma SaveBegins(w: World, u: Uuid, purpose: Purpose)
    requires Gone(w)
    ensures var v := Next(w, ClearChallenges(u, purpose));
      Gone(v) && w.requests < v.requests && w.requests in v.inflight && v.inflight[w.requests] == Saving(u, purpose)
  {
    hide Gone, Frame, MovesOne, MakesOne, ChallengesKept, HistoryGrows, SessionsKept, PasskeysKept, Cleared, Outstanding;
    ClearFrames(w, u, purpose);
    FramedParts(w, Next(w, ClearChallenges(u, purpose)), w.requests);
  }

  lemma RunTwo(w: World, first: Step, second: Step)
    ensures Run(w, [first, second]) == Next(Next(w, first), second)
  {
    hide Next;
    assert [first, second][..1] == [first] && [first][..0] == [];
    assert Run(w, [first]) == Next(Run(w, []), first);
  }

  lemma TwoSavesBegin(w: World, u: Uuid, purpose: Purpose, a: Uuid)
    requires NewChallenge(w, a)
    ensures var v := Next(Next(w, ClearChallenges(u, purpose)), ClearChallenges(u, purpose));
      && NewChallenge(v, a) && Outstanding(v.db.challenges, u, purpose) == {}
      && w.requests in v.inflight && v.inflight[w.requests] == Saving(u, purpose)
      && w.requests + 1 in v.inflight && v.inflight[w.requests + 1] == Saving(u, purpose)
  {
    hide Outstanding, Cleared;
    ClearedOut(ChallengesCleared(w, u, purpose).db.challenges, u, purpose);
    assert ClearedAway(w.db.challenges, u, purpose, a) && ClearedAway(Cleared(w.db.challenges, u, purpose), u, purpose, a) by {
      ClearingBringsNothing(w.db.challenges, u, purpose, a);
      ClearingBringsNothing(Cleared(w.db.challenges, u, purpose), u, purpose, a);
    }
  }

  predicate ClearedAway(challenges: map<Uuid, Challenge>, u: Uuid, purpose: Purpose, a: Uuid) {
    a !in Cleared(challenges, u, purpose) && ChallengeRow(a) !in ChallengeRows(Outstanding(challenges, u, purpose))
  }

  lemma ClearingBringsNothing(challenges: map<Uuid, Challenge>, u: Uuid, purpose: Purpose, a: Uuid)
    requires a !in challenges
    ensures ClearedAway(challenges, u, purpose, a)
  {
  }

  lemma OneMoreInserted(v: World, q: nat, id: Uuid, expiresAt: Instant, u: Uuid, purpose: Purpose, b: Uuid)
    requires q in v.inflight && v.inflight[q] == Saving(u, purpose) && NewChallenge(v, id) && NewChallenge(v, b) && b != id
    ensures var next := Next(v, InsertChallenge(q, id, expiresAt));
      NewChallenge(next, b) && forall x | x in v.inflight && x != q :: x in next.inflight && next.inflight[x] == v.inflight[x]
  {
  }

  /** The promise of one outstanding challenge does fail: wherever two saves interleave
      delete, delete, insert, insert, both of their challenges are left. */
  lemma InterleavedSavesLeaveTwo(w: World, u: Uuid, purpose: Purpose, a: Uuid, b: Uuid, expiresAt: Instant)
    requires a != b && NewChallenge(w, a) && NewChallenge(w, b)
    ensures var cleared := Run(w, [ClearChallenges(u, purpose), ClearChallenges(u, purpose)]);
      var v := Run(cleared, [InsertChallenge(w.requests, a, expiresAt), InsertChallenge(w.requests + 1, b, expiresAt)]);
      Outstanding(v.db.challenges, u, purpose) == {a, b}
  {
    hide Next, Run, Outstanding, NewChallenge;
    RunTwo(w, ClearChallenges(u, purpose), ClearChallenges(u, purpose));
    TwoSavesBegin(w, u, purpose, a);
    TwoSavesBegin(w, u, purpose, b);
    var cleared := Run(w, [ClearChallenges(u, purpose), ClearChallenges(u, purpose)]);
    RunTwo(cleared, InsertChallenge(w.requests, a, expiresAt), InsertChallenge(w.requests + 1, b, expiresAt));
    InsertAddsItsOwn(cleared, w.requests, a, expiresAt, u, purpose);
    OneMoreInserted(cleared, w.requests, a, expiresAt, u, purpose, b);
    InsertAddsItsOwn(Next(cleared, InsertChallenge(w.requests, a, expiresAt)), w.requests + 1, b, expiresAt, u, purpose);
  }
}
