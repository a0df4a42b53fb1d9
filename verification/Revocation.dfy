/** What a revocation, a disabling, a purge or a removal means for every later run. */
module Revocation {
  import opened Outcomes
  import opened Domain
  import opened Machines
  import opened MachineTheorems
  import Authz

  // ---------------------------------------------------------------------------
  // Tokens and identities
  // ---------------------------------------------------------------------------

  // What was cut off: one token, or every token of one identity.
  datatype Target = TheToken(id: Uuid) | TheIdentity(id: Uuid)

  predicate Hits(tokens: map<Uuid, Token>, target: Target, source: Uuid) {
    match target
    case TheToken(id) => source == id
    case TheIdentity(id) => IsTokenOf(tokens, source, id)
  }

  predicate IsCut(r: Records, target: Target, now: Instant) {
    match target
    case TheToken(id) => id in r.tokens && Reached(r.tokens[id].revokedAt, now)
    case TheIdentity(id) => id in r.identities && Reached(r.identities[id].disabledAt, now)
  }

  /** The target is cut, and so is every session and every exchange minted directly
      from it, but for the exempt requests. */
  ghost predicate Severed(w: World, target: Target, exempt: set<nat>) {
    && IsCut(w.db, target, w.now)
    && (forall q | q in exempt :: q < w.requests)
    && (forall s | s in w.db.sessions && Hits(w.db.tokens, target, w.db.sessions[s].source) ::
          Reached(w.db.sessions[s].revokedAt, w.now) || (s in w.minted && w.minted[s] in exempt))
    && (forall q | q in w.inflight && Hits(w.db.tokens, target, w.inflight[q].principal.credentialId) :: q in exempt)
  }

  lemma CutTokensDoNotAuthenticate(r: Records, target: Target, now: Instant, id: Uuid)
    requires IsCut(r, target, now) && Hits(r.tokens, target, id)
    ensures AuthenticateToken(r, id, now).None?
  {
  }

  lemma CutStaysCut(a: Records, b: Records, target: Target, now: Instant, later: Instant)
    requires IsCut(a, target, now) && RecordsGrow(a, b) && now <= later
    ensures IsCut(b, target, later)
  {
  }

  /** A source known now is hit later exactly when it is hit now. */
  lemma HitsSurvive(w: World, v: World, target: Target, source: Uuid, root: Root)
    requires Grows(w, v) && IsCut(w.db, target, w.now) && KnownSource(w, source, root) && Disjoint(v)
    ensures Hits(v.db.tokens, target, source) <==> Hits(w.db.tokens, target, source)
  {
  }

  lemma OtherStepKeepsSevered(w: World, step: Step, target: Target, exempt: set<nat>)
    requires Sound(w) && Severed(w, target, exempt) && !IsExchangeStep(step)
    ensures Severed(Next(w, step), target, exempt)
  {
    hide Timely, TokensFiled, OneMembershipEach, Hits, FixedByRoot, KnownSource, RecordsGrow, IsCut, Next, Numbered;
    var v := Next(w, step);
    OtherStepEvolves(w, step);
    OtherStepKeeps(w, step);
    OtherStepKeepsDisjoint(w, step);
    CutStaysCut(w.db, v.db, target, w.now, v.now);
    forall s | s in v.db.sessions && Hits(v.db.tokens, target, v.db.sessions[s].source)
      ensures Reached(v.db.sessions[s].revokedAt, v.now) || (s in v.minted && v.minted[s] in exempt)
    {
      assert GoodSession(w, w.db.sessions[s], w.roots[s]);
      HitsSurvive(w, v, target, w.db.sessions[s].source, w.roots[s]);
    }
    forall q | q in v.inflight && Hits(v.db.tokens, target, v.inflight[q].principal.credentialId) ensures q in exempt {
      assert GoodExchange(w, w.inflight[q]);
      HitsSurvive(w, v, target, w.inflight[q].principal.credentialId, w.inflight[q].root);
    }
  }

  lemma BeginKeepsSevered(w: World, c: Credential, named: Named, target: Target, exempt: set<nat>)
    requires Sound(w) && Severed(w, target, exempt)
    ensures Severed(Next(w, BeginExchange(c, named)), target, exempt)
  {
    hide Timely, TokensFiled, OneMembershipEach, FixedByRoot, RecordsGrow, Rooted;
    if Resolve(w.db, w.tree, c, named, w.now).Ok? && Hits(w.db.tokens, target, c.id) {
      PrincipalIsFixedByRoot(w, c, named);
      CutTokensDoNotAuthenticate(w.db, target, w.now, c.id);
      assert false;
    } else if Resolve(w.db, w.tree, c, named, w.now).Ok? {
      PrincipalIsFixedByRoot(w, c, named);
    }
  }

  lemma FinishKeepsSevered(w: World, request: nat, id: Uuid, target: Target, exempt: set<nat>)
    requires Sound(w) && Severed(w, target, exempt)
    ensures Severed(Next(w, FinishExchange(request, id)), target, exempt)
  {
    hide Timely, TokensFiled, OneMembershipEach, Rooted, Hits;
  }

  lemma {:induction false} RunKeepsSevered(w: World, steps: seq<Step>, target: Target, exempt: set<nat>)
    requires Sound(w) && Severed(w, target, exempt)
    ensures Severed(Run(w, steps), target, exempt)
    decreases |steps|
  {
    hide Sound, Severed, Next;
    if steps != [] {
      match steps[0] {
        case BeginExchange(c, named) => BeginKeepsSevered(w, c, named, target, exempt);
        case FinishExchange(request, id) => FinishKeepsSevered(w, request, id, target, exempt);
        case _ => OtherStepKeepsSevered(w, steps[0], target, exempt);
      }
      StepKeeps(w, steps[0]);
      RunKeepsSevered(Next(w, steps[0]), steps[1..], target, exempt);
    }
  }

  /** The requests that had authenticated with what was cut, and not yet inserted. */
  function PastAuthentication(w: World, target: Target): set<nat> {
    set q | q in w.inflight && Hits(w.db.tokens, target, w.inflight[q].principal.credentialId)
  }

  lemma RevokingSevers(w: World, org: Uuid, id: Uuid)
    requires Sound(w) && TokenRevoked(w.db, org, id, w.now).Ok?
    ensures Severed(Next(w, RevokeToken(org, id)), TheToken(id), PastAuthentication(w, TheToken(id)))
  {
    hide TokensFiled, OneMembershipEach, Rooted;
  }

  lemma DisablingSevers(w: World, org: Uuid, id: Uuid)
    requires Sound(w) && IdentityDisabled(w.db, org, id, w.now).Ok?
    ensures Severed(Next(w, DisableIdentity(org, id)), TheIdentity(id), PastAuthentication(w, TheIdentity(id)))
  {
    hide OneMembershipEach;
    var v := Next(w, DisableIdentity(org, id));
    forall s | s in v.db.sessions && Hits(v.db.tokens, TheIdentity(id), v.db.sessions[s].source)
      ensures Reached(v.db.sessions[s].revokedAt, v.now)
    {
      assert GoodSession(w, w.db.sessions[s], w.roots[s]);
    }
  }

  /** After a token is revoked, on every later run: the token never authenticates, and
      a session minted directly from it authenticates only if its exchange was already
      past authentication at that moment. */
  lemma RevokedTokenStaysDead(w: World, org: Uuid, id: Uuid, steps: seq<Step>)
    requires Sound(w) && TokenRevoked(w.db, org, id, w.now).Ok?
    ensures var v := Run(Next(w, RevokeToken(org, id)), steps);
      && AuthenticateToken(v.db, id, v.now).None?
      && forall s | s in v.db.sessions && v.db.sessions[s].source == id && AuthenticateRuntime(v.db.sessions, s, v.now).Some? ::
           s in v.minted && v.minted[s] in w.inflight && w.inflight[v.minted[s]].principal.credentialId == id
  {
    hide Sound, Next, Run;
    var target := TheToken(id);
    RevokingSevers(w, org, id);
    StepKeeps(w, RevokeToken(org, id));
    RunKeepsSevered(Next(w, RevokeToken(org, id)), steps, target, PastAuthentication(w, target));
    var v := Run(Next(w, RevokeToken(org, id)), steps);
    CutTokensDoNotAuthenticate(v.db, target, v.now, id);
  }

  /** Disabling an identity does the same for each of its tokens, those minted later
      included, and for the sessions minted directly from them. */
  lemma DisabledIdentityStaysDead(w: World, org: Uuid, id: Uuid, steps: seq<Step>)
    requires Sound(w) && IdentityDisabled(w.db, org, id, w.now).Ok?
    ensures var v := Run(Next(w, DisableIdentity(org, id)), steps);
      && (forall t | IsTokenOf(v.db.tokens, t, id) :: AuthenticateToken(v.db, t, v.now).None?)
      && forall s | s in v.db.sessions && IsTokenOf(v.db.tokens, v.db.sessions[s].source, id) &&
                    AuthenticateRuntime(v.db.sessions, s, v.now).Some? ::
           s in v.minted && v.minted[s] in w.inflight && IsTokenOf(w.db.tokens, w.inflight[v.minted[s]].principal.credentialId, id)
  {
    hide Sound, Next, Run;
    var target := TheIdentity(id);
    DisablingSevers(w, org, id);
    StepKeeps(w, DisableIdentity(org, id));
    RunKeepsSevered(Next(w, DisableIdentity(org, id)), steps, target, PastAuthentication(w, target));
    var v := Run(Next(w, DisableIdentity(org, id)), steps);
    forall t | IsTokenOf(v.db.tokens, t, id) ensures AuthenticateToken(v.db, t, v.now).None? {
      CutTokensDoNotAuthenticate(v.db, target, v.now, t);
    }
  }

  /** With one request as one step there are no exceptions: nothing minted directly
      from the token authenticates again. */
  lemma RevokedTokenStaysDeadWhenRequestsAreAtomic(w: World, org: Uuid, id: Uuid, steps: seq<Step>, s: Uuid)
    requires Sound(w) && TokenRevoked(w.db, org, id, w.now).Ok? && w.inflight == map[]
    ensures var v := Run(Next(w, RevokeToken(org, id)), steps);
      s in v.db.sessions && v.db.sessions[s].source == id ==> AuthenticateRuntime(v.db.sessions, s, v.now).None?
  {
    hide Sound, Next, Run;
    RevokedTokenStaysDead(w, org, id, steps);
  }

  // ---------------------------------------------------------------------------
  // How far a revocation reaches
  // ---------------------------------------------------------------------------

  /** A session stops authenticating at a revocation exactly when its direct source is
      the token; every other session keeps the answer it had. */
  lemma RevocationReachesExactlyTheDirectSessions(r: Records, org: Uuid, id: Uuid, now: Instant, s: Uuid)
    requires TokenRevoked(r, org, id, now).Ok? && s in r.sessions && TimelySessions(r.sessions, now)
    ensures var after := TokenRevoked(r, org, id, now).value;
      AuthenticateRuntime(after.sessions, s, now) ==
      if r.sessions[s].source == id then None else AuthenticateRuntime(r.sessions, s, now)
  {
  }

  /** The root is the token that was cut, or one of those that were. */
  predicate RootHit(tokens: map<Uuid, Token>, target: Target, root: Root) {
    root.TokenRoot? && Hits(tokens, target, root.id)
  }

  /** No credential rooted in the target authenticates now, or on any run from now. */
  ghost predicate NeverAgain(w: World, target: Target) {
    forall steps: seq<Step>, c: Credential | RootHit(Run(w, steps).db.tokens, target, RootOf(Run(w, steps), c)) ::
      AuthenticateRuntimeApi(Run(w, steps).db, c, Run(w, steps).now).None?
  }

  /** No live session of the target is left, and no exchange of it is in flight. */
  ghost predicate NoneLeft(w: World, target: Target) {
    && (forall s | s in w.db.sessions && s in w.roots && RootHit(w.db.tokens, target, w.roots[s]) ::
          AuthenticateRuntime(w.db.sessions, s, w.now).None?)
    && (forall q | q in w.inflight :: !RootHit(w.db.tokens, target, w.inflight[q].root))
  }

  ghost predicate Dry(w: World, target: Target) {
    IsCut(w.db, target, w.now) && NoneLeft(w, target)
  }

  lemma DeadStaysDead(a: map<Uuid, RuntimeSession>, b: map<Uuid, RuntimeSession>, s: Uuid, now: Instant, later: Instant)
    requires SameSessions(a, b) && now <= later && s in b && AuthenticateRuntime(a, s, now).None?
    ensures AuthenticateRuntime(b, s, later).None?
  {
  }

  lemma RootHitSurvives(a: Records, b: Records, target: Target, root: Root)
    requires RecordsGrow(a, b) && (root.TokenRoot? ==> root.id in a.tokens)
    ensures RootHit(b.tokens, target, root) <==> RootHit(a.tokens, target, root)
  {
  }

  lemma RootsAreTokens(w: World)
    requires Sound(w)
    ensures forall s | s in w.db.sessions && w.roots[s].TokenRoot? :: w.roots[s].id in w.db.tokens
    ensures forall q | q in w.inflight && w.inflight[q].root.TokenRoot? :: w.inflight[q].root.id in w.db.tokens
  {
    hide Timely, TokensFiled, OneMembershipEach, Numbered, KnownSource;
    forall s | s in w.db.sessions && w.roots[s].TokenRoot? ensures w.roots[s].id in w.db.tokens {
      assert GoodSession(w, w.db.sessions[s], w.roots[s]);
    }
    forall q | q in w.inflight && w.inflight[q].root.TokenRoot? ensures w.inflight[q].root.id in w.db.tokens {
      assert GoodExchange(w, w.inflight[q]);
    }
  }

  lemma OtherStepKeepsDry(w: World, step: Step, target: Target)
    requires Sound(w) && Dry(w, target) && !IsExchangeStep(step)
    ensures Dry(Next(w, step), target)
  {
    hide Timely, TokensFiled, OneMembershipEach, Rooted, RecordsGrow, SameSessions, IsCut, Next, Numbered, RootHit, AuthenticateRuntime;
    var v := Next(w, step);
    OtherStepEvolves(w, step);
    CutStaysCut(w.db, v.db, target, w.now, v.now);
    RootsAreTokens(w);
    forall s | s in v.db.sessions && s in v.roots && RootHit(v.db.tokens, target, v.roots[s])
      ensures AuthenticateRuntime(v.db.sessions, s, v.now).None?
    {
      assert s in w.db.sessions by { SessionsCome(w.db.sessions, v.db.sessions, s); }
      RootHitSurvives(w.db, v.db, target, w.roots[s]);
      DeadStaysDead(w.db.sessions, v.db.sessions, s, w.now, v.now);
    }
    forall q | q in v.inflight ensures !RootHit(v.db.tokens, target, v.inflight[q].root) {
      RootHitSurvives(w.db, v.db, target, w.inflight[q].root);
    }
  }

  lemma SessionsCome(a: map<Uuid, RuntimeSession>, b: map<Uuid, RuntimeSession>, s: Uuid)
    requires SameSessions(a, b) && s in b
    ensures s in a
  {
  }

  /** Nothing rooted in the target authenticates in a world that is dry of it. */
  lemma NothingAuthenticates(w: World, target: Target, c: Credential)
    requires Sound(w) && Dry(w, target) && RootHit(w.db.tokens, target, RootOf(w, c))
    ensures AuthenticateRuntimeApi(w.db, c, w.now).None?
  {
    hide Timely, TokensFiled, OneMembershipEach, Rooted, Numbered, IsCut;
    match c
    case MachineToken(id) => CutTokensDoNotAuthenticate(w.db, target, w.now, id);
    case Runtime(_) =>
  }

  lemma BeginKeepsDry(w: World, c: Credential, named: Named, target: Target)
    requires Sound(w) && Dry(w, target)
    ensures Dry(Next(w, BeginExchange(c, named)), target)
  {
    hide Timely, TokensFiled, OneMembershipEach, Rooted, Numbered, IsCut, RootHit, RootOf, AuthenticateRuntimeApi, AuthenticateRuntime;
    if RootHit(w.db.tokens, target, RootOf(w, c)) {
      NothingAuthenticates(w, target, c);
    }
  }

  lemma FinishKeepsDry(w: World, request: nat, id: Uuid, target: Target)
    requires Sound(w) && Dry(w, target)
    ensures Dry(Next(w, FinishExchange(request, id)), target)
  {
    hide Timely, TokensFiled, OneMembershipEach, Rooted, Numbered, RootHit;
  }

  lemma {:induction false} RunKeepsDry(w: World, steps: seq<Step>, target: Target)
    requires Sound(w) && Dry(w, target)
    ensures Dry(Run(w, steps), target)
    decreases |steps|
  {
    hide Sound, Dry, Next;
    if steps != [] {
      match steps[0] {
        case BeginExchange(c, named) => BeginKeepsDry(w, c, named, target);
        case FinishExchange(request, id) => FinishKeepsDry(w, request, id, target);
        case _ => OtherStepKeepsDry(w, steps[0], target);
      }
      StepKeeps(w, steps[0]);
      RunKeepsDry(Next(w, steps[0]), steps[1..], target);
    }
  }

  /** An exchange that is in flight mints a session that lives. */
  lemma InFlightLives(w: World, target: Target, q: nat, spare: Uuid)
    requires Sound(w) && w.ttl > 0 && Fresh(w, spare)
    requires q in w.inflight && RootHit(w.db.tokens, target, w.inflight[q].root)
    ensures !NeverAgain(w, target)
  {
    hide Sound, Fresh, RootHit;
    var steps := [FinishExchange(q, spare)];
    var v := Next(w, steps[0]);
    assert Run(w, steps) == v by { assert steps[1..] == []; }
    assert RootOf(v, Runtime(spare)) == w.inflight[q].root;
    assert AuthenticateRuntimeApi(v.db, Runtime(spare), v.now).Some?;
  }

  /** Once it has been cut, nothing rooted in the target ever authenticates again exactly
      when no live session of that root, and no exchange of it in flight, is left. */
  lemma NeverAgainExactlyWhenNoneLeft(w: World, target: Target, spare: Uuid)
    requires Sound(w) && IsCut(w.db, target, w.now) && w.ttl > 0 && Fresh(w, spare)
    ensures NeverAgain(w, target) <==> NoneLeft(w, target)
  {
    hide Sound, Fresh, RootHit, IsCut, RootOf, AuthenticateRuntimeApi, Run, NoneLeft;
    if NoneLeft(w, target) {
      forall steps: seq<Step>, c: Credential | RootHit(Run(w, steps).db.tokens, target, RootOf(Run(w, steps), c))
        ensures AuthenticateRuntimeApi(Run(w, steps).db, c, Run(w, steps).now).None?
      {
        RunKeeps(w, steps);
        RunKeepsDry(w, steps, target);
        NothingAuthenticates(Run(w, steps), target, c);
      }
    } else {
      SomeLeftLives(w, target, spare);
    }
  }

  lemma SomeLeftLives(w: World, target: Target, spare: Uuid)
    requires Sound(w) && w.ttl > 0 && Fresh(w, spare) && !NoneLeft(w, target)
    ensures !NeverAgain(w, target)
  {
    hide Sound, Fresh, RootHit, AuthenticateRuntime;
    if s :| s in w.db.sessions && s in w.roots && RootHit(w.db.tokens, target, w.roots[s]) && AuthenticateRuntime(w.db.sessions, s, w.now).Some? {
      assert Run(w, []) == w;
      assert RootOf(Run(w, []), Runtime(s)) == w.roots[s];
      assert AuthenticateRuntimeApi(Run(w, []).db, Runtime(s), Run(w, []).now).Some?;
    } else {
      var q :| q in w.inflight && RootHit(w.db.tokens, target, w.inflight[q].root);
      InFlightLives(w, target, q, spare);
    }
  }

  /** A live session of the root that was minted from another session. */
  predicate IndirectlyLives(w: World, target: Target, s: Uuid) {
    && s in w.db.sessions && s in w.roots && RootHit(w.db.tokens, target, w.roots[s])
    && w.db.sessions[s].source in w.roots
    && AuthenticateRuntime(w.db.sessions, s, w.now).Some?
  }

  /** After a token's revocation, on every later run, nothing rooted in it ever
      authenticates again exactly when, at the revocation, it had no live session minted
      from another session, and no exchange of its chain in flight. */
  lemma RevocationReachesTheWholeChainExactlyWhen(w: World, org: Uuid, id: Uuid, spare: Uuid)
    requires Sound(w) && TokenRevoked(w.db, org, id, w.now).Ok? && w.ttl > 0 && Fresh(w, spare)
    ensures NeverAgain(Next(w, RevokeToken(org, id)), TheToken(id)) <==>
      && (forall s :: !IndirectlyLives(w, TheToken(id), s))
      && (forall q | q in w.inflight :: w.inflight[q].root != TokenRoot(id))
  {
    hide TokensFiled, OneMembershipEach, Numbered, Rooted, TimelyTokens, TimelySessions, AuthenticateRuntime, Grows;
    var v := Next(w, RevokeToken(org, id));
    StepKeeps(w, RevokeToken(org, id));
    assert Fresh(v, spare) by { RevokedKeepsSessions(w.db, org, id, w.now); }
    NeverAgainExactlyWhenNoneLeft(v, TheToken(id), spare);
    forall s | s in w.db.sessions && w.roots[s] == TokenRoot(id)
      ensures s in v.db.sessions
      ensures AuthenticateRuntime(v.db.sessions, s, v.now).Some? <==> IndirectlyLives(w, TheToken(id), s)
    {
      RevokedKeepsSessions(w.db, org, id, w.now);
      RevocationReachesExactlyTheDirectSessions(w.db, org, id, w.now, s);
      SourceOfTokenRoot(w, s, id);
    }
    RevokedKeepsSessions(w.db, org, id, w.now);
  }

  /** The same of an identity that is disabled: every token of it is cut, and what may
      be left is what was minted from a session, or is being minted. */
  lemma DisablingReachesTheWholeChainExactlyWhen(w: World, org: Uuid, id: Uuid, spare: Uuid)
    requires Sound(w) && IdentityDisabled(w.db, org, id, w.now).Ok? && w.ttl > 0 && Fresh(w, spare)
    ensures NeverAgain(Next(w, DisableIdentity(org, id)), TheIdentity(id)) <==>
      && (forall s :: !IndirectlyLives(w, TheIdentity(id), s))
      && (forall q | q in w.inflight :: !RootHit(w.db.tokens, TheIdentity(id), w.inflight[q].root))
  {
    hide Timely, TokensFiled, OneMembershipEach, Numbered, Rooted, AuthenticateRuntime, IsTokenOf, WithoutIdentity;
    var v := Next(w, DisableIdentity(org, id));
    StepKeeps(w, DisableIdentity(org, id));
    DisabledKeepsSessions(w.db, org, id, w.now);
    assert Fresh(v, spare);
    NeverAgainExactlyWhenNoneLeft(v, TheIdentity(id), spare);
    forall s | s in w.db.sessions && RootHit(w.db.tokens, TheIdentity(id), w.roots[s])
      ensures AuthenticateRuntime(v.db.sessions, s, v.now).Some? <==> IndirectlyLives(w, TheIdentity(id), s)
    {
      DisablingReachesTheDirectSessions(w, org, id, s);
    }
  }

  lemma DisabledKeepsSessions(r: Records, org: Uuid, id: Uuid, now: Instant)
    requires IdentityDisabled(r, org, id, now).Ok?
    ensures var after := IdentityDisabled(r, org, id, now).value;
      after.tokens == r.tokens && after.identities.Keys == r.identities.Keys && after.sessions.Keys == r.sessions.Keys
  {
  }

  lemma DisablingReachesTheDirectSessions(w: World, org: Uuid, id: Uuid, s: Uuid)
    requires Sound(w) && IdentityDisabled(w.db, org, id, w.now).Ok?
    requires s in w.db.sessions && RootHit(w.db.tokens, TheIdentity(id), w.roots[s])
    ensures var v := Next(w, DisableIdentity(org, id));
      AuthenticateRuntime(v.db.sessions, s, v.now).Some? <==> IndirectlyLives(w, TheIdentity(id), s)
  {
    hide OneMembershipEach, Numbered, TimelyTokens, TimelyLogins, TimelyMemberships, TimelyGrants, Fresh, Resolve;
    assert GoodSession(w, w.db.sessions[s], w.roots[s]);
    SourceOfTokenRoot(w, s, w.roots[s].id);
  }

  lemma RevokedKeepsSessions(r: Records, org: Uuid, id: Uuid, now: Instant)
    requires TokenRevoked(r, org, id, now).Ok?
    ensures forall s :: s in TokenRevoked(r, org, id, now).value.sessions <==> s in r.sessions
  {
  }

  /** A session rooted in a token was minted from that token, or from a session. */
  lemma SourceOfTokenRoot(w: World, s: Uuid, id: Uuid)
    requires Disjoint(w) && Rooted(w) && s in w.db.sessions && w.roots[s] == TokenRoot(id)
    ensures w.db.sessions[s].source == id <==> w.db.sessions[s].source !in w.roots
  {
    hide FixedByRoot;
    assert GoodSession(w, w.db.sessions[s], w.roots[s]);
    TokenRootIsAToken(w, s, id);
  }

  lemma TokenRootIsAToken(w: World, s: Uuid, id: Uuid)
    requires Disjoint(w) && Rooted(w) && s in w.db.sessions && w.roots[s] == TokenRoot(id)
    ensures id in w.db.tokens
  {
    assert GoodSession(w, w.db.sessions[s], w.roots[s]);
  }

  function WithSession(r: Records, s: Uuid, session: RuntimeSession): Records {
    r.(sessions := r.sessions[s := session])
  }

  /** An undisturbed exchange: one session more, and nothing else in the tables. */
  lemma OneExchange(w: World, c: Credential, p: Principal, scope: Scope, s: Uuid)
    requires Resolve(w.db, w.tree, c, Unnamed, w.now) == Ok((p, scope)) && Fresh(w, s)
    ensures var v := Next(Next(w, BeginExchange(c, Unnamed)), FinishExchange(w.requests, s));
      && v.now == w.now && v.ttl == w.ttl && v.tree == w.tree
      && v.db == WithSession(w.db, s, Minted(p, scope, w.now, w.ttl))
      && forall x | x != s && Fresh(w, x) :: Fresh(v, x)
  {
    hide Resolve;
  }

  /** Whatever a scoped credential resolves to with no names given is its own scope. */
  lemma ResolvesToItself(r: Records, tree: Tree, c: Credential, p: Principal, now: Instant)
    requires AuthenticateRuntimeApi(r, c, now) == Some(p) && p.scope.Some?
    requires tree.HasEnvironment(p.organizationId, p.scope.value.environmentId)
    requires tree.environments[p.scope.value.environmentId] == p.scope.value.projectId
    ensures Resolve(r, tree, c, Unnamed, now) == Ok((p, p.scope.value))
  {
    hide AuthenticateRuntimeApi;
  }

  /** The chain that survives: a session minted from a session of the token, whatever
      the world, still authenticates right after the token's revocation. */
  lemma SessionOfASessionSurvives(w: World, org: Uuid, id: Uuid, s1: Uuid, s2: Uuid)
    requires Sound(w) && w.ttl > 0 && AuthenticateToken(w.db, id, w.now).Some? && w.db.tokens[id].organizationId == org
    requires w.db.tokens[id].revokedAt.None? && Fresh(w, s1) && Fresh(w, s2) && s1 != s2
    ensures
      var w1 := Next(Next(w, BeginExchange(MachineToken(id), Unnamed)), FinishExchange(w.requests, s1));
      var w2 := Next(Next(w1, BeginExchange(Runtime(s1), Unnamed)), FinishExchange(w1.requests, s2));
      var v := Next(w2, RevokeToken(org, id));
      && AuthenticateToken(v.db, id, v.now).None?
      && AuthenticateRuntime(v.db.sessions, s1, v.now).None?
      && AuthenticateRuntime(v.db.sessions, s2, v.now).Some?
  {
    assert s1 != id;
    hide Rooted, Timely, OneMembershipEach, Next, Resolve, Fresh, Disjoint, Numbered;
    var token := w.db.tokens[id];
    var p := AuthenticateToken(w.db, id, w.now).value;
    var w1 := Next(Next(w, BeginExchange(MachineToken(id), Unnamed)), FinishExchange(w.requests, s1));
    ResolvesToItself(w.db, w.tree, MachineToken(id), p, w.now);
    OneExchange(w, MachineToken(id), p, token.scope, s1);
    var q := AuthenticateRuntime(w1.db.sessions, s1, w1.now).value;
    var w2 := Next(Next(w1, BeginExchange(Runtime(s1), Unnamed)), FinishExchange(w1.requests, s2));
    ResolvesToItself(w1.db, w1.tree, Runtime(s1), q, w1.now);
    OneExchange(w1, Runtime(s1), q, token.scope, s2);
    SecondSessionOutlives(w, w2, org, id, s1, s2, token, p);
  }

  lemma SecondSessionOutlives(w: World, w2: World, org: Uuid, id: Uuid, s1: Uuid, s2: Uuid, token: Token, p: Principal)
    requires w.ttl > 0 && s1 != s2 && s1 != id && w2.now == w.now
    requires id in w.db.tokens && w.db.tokens[id] == token && token.organizationId == org && token.revokedAt.None?
    requires p.credentialId == id
    requires w2.db == WithSession(WithSession(w.db, s1, Minted(p, token.scope, w.now, w.ttl)),
      s2, Minted(p.(credentialId := s1), token.scope, w.now, w.ttl))
    ensures var v := Next(w2, RevokeToken(org, id));
      && AuthenticateToken(v.db, id, v.now).None?
      && AuthenticateRuntime(v.db.sessions, s1, v.now).None?
      && AuthenticateRuntime(v.db.sessions, s2, v.now).Some?
  {
  }

  // ---------------------------------------------------------------------------
  // Purging
  // ---------------------------------------------------------------------------

  ghost predicate PurgeChangesNoAnswer(sessions: map<Uuid, RuntimeSession>, olderThan: int, now: Instant) {
    forall id, t | now <= t ::
      AuthenticateRuntime(Purged(sessions, olderThan, now), id, t) == AuthenticateRuntime(sessions, id, t)
  }

  /** A purge changes no authentication answer, now or later, on any table, exactly when
      its margin is not negative by more than a nanosecond. The service's margin is 1 h. */
  lemma PurgeIsInvisibleExactlyWhen(olderThan: int)
    ensures (forall sessions, now :: PurgeChangesNoAnswer(sessions, olderThan, now)) <==> olderThan >= -1
  {
    if olderThan < -1 {
      var s := RuntimeSession(NIL, Machine, NIL, Scope(NIL, NIL, [], []), NIL, 1, None);
      var sessions := map[NIL := s];
      assert AuthenticateRuntime(sessions, NIL, 0).Some?;
      assert NIL !in Purged(sessions, olderThan, 0);
      assert !PurgeChangesNoAnswer(sessions, olderThan, 0);
    }
  }

  /** v is w with some sessions missing, all of them expired. */
  ghost predicate Alike(w: World, v: World) {
    && v == w.(db := w.db.(sessions := v.db.sessions))
    && (forall s | s in v.db.sessions :: s in w.db.sessions && v.db.sessions[s] == w.db.sessions[s])
    && (forall s | s in w.db.sessions && s !in v.db.sessions :: w.db.sessions[s].expiresAt <= w.now)
  }

  lemma AlikeAnswers(w: World, v: World, c: Credential)
    requires Alike(w, v)
    ensures AuthenticateRuntimeApi(v.db, c, v.now) == AuthenticateRuntimeApi(w.db, c, w.now)
  {
    hide GetMembership;
  }

  lemma AlikeResolves(w: World, v: World, c: Credential, named: Named)
    requires Alike(w, v)
    ensures Resolve(v.db, v.tree, c, named, v.now) == Resolve(w.db, w.tree, c, named, w.now)
  {
    hide AuthenticateRuntimeApi, ResolveRuntimeScope;
    AlikeAnswers(w, v, c);
  }

  lemma AlikeRevokes(w: World, v: World, org: Uuid, id: Uuid)
    requires Alike(w, v)
    ensures Alike(Next(w, RevokeToken(org, id)), Next(v, RevokeToken(org, id)))
  {
  }

  lemma AlikeDisables(w: World, v: World, org: Uuid, id: Uuid)
    requires Alike(w, v)
    ensures Alike(Next(w, DisableIdentity(org, id)), Next(v, DisableIdentity(org, id)))
  {
    hide IsTokenOf;
  }

  lemma AlikeExchanges(w: World, v: World, step: Step)
    requires Alike(w, v) && Disjoint(w) && IsExchangeStep(step)
    ensures Alike(Next(w, step), Next(v, step))
  {
    hide Resolve;
    if step.BeginExchange? {
      AlikeResolves(w, v, step.credential, step.named);
    } else {
      assert Fresh(w, step.id) <==> Fresh(v, step.id);
    }
  }

  lemma AlikeInserts(w: World, v: World, step: Step)
    requires Alike(w, v) && Disjoint(w)
    ensures MayInsert(w, step) <==> MayInsert(v, step)
  {
    hide IsMembership;
    assert forall id :: Fresh(w, id) <==> Fresh(v, id);
    hide Fresh;
  }

  predicate IsInsert(step: Step) {
    step.CreateIdentity? || step.CreateToken? || step.CreateMembership? || step.CreateGrant? || step.CreateUser? || step.CreateLogin?
  }

  lemma AlikeAfterInsert(w: World, v: World, step: Step)
    requires Alike(w, v) && Disjoint(w) && IsInsert(step)
    ensures Alike(Next(w, step), Next(v, step))
  {
    hide MayInsert, Disjoint;
    AlikeInserts(w, v, step);
    assert Next(w, step).db.sessions == w.db.sessions && Next(v, step).db.sessions == v.db.sessions;
  }

  lemma AlikeRemoves(w: World, v: World, org: Uuid, id: Uuid)
    requires Alike(w, v)
    ensures Alike(Next(w, RevokeMembership(org, id)), Next(v, RevokeMembership(org, id)))
  {
    hide WithoutGrantsTo, WithoutLoginsOf;
  }

  lemma AlikeUngrants(w: World, v: World, org: Uuid, id: Uuid)
    requires Alike(w, v)
    ensures Alike(Next(w, RevokeGrant(org, id)), Next(v, RevokeGrant(org, id)))
  {
    hide TokenRevoked, IdentityDisabled, MembershipRevoked, Resolve, Fresh;
  }

  lemma AlikeAfterUpdate(w: World, v: World, step: Step)
    requires Alike(w, v) && (step.Tick? || step.RevokeLogin? || step.RevokeLoginsOf?)
    ensures Alike(Next(w, step), Next(v, step))
  {
    hide WithoutLoginsOf, Stamped, Fresh, Resolve;
    match step
    case Tick(_) =>
    case RevokeLogin(_) =>
    case RevokeLoginsOf(_) =>
  }

  lemma AlikePurge(w: World, v: World, olderThan: int)
    requires Alike(w, v) && olderThan >= 0
    ensures Alike(w, Next(v, Purge(olderThan)))
  {
  }

  function WithoutPurges(steps: seq<Step>): seq<Step>
    decreases |steps|
  {
    if steps == [] then []
    else if steps[0].Purge? then WithoutPurges(steps[1..])
    else [steps[0]] + WithoutPurges(steps[1..])
  }

  /** Whole runs: with every purge left out, every credential authenticates, or not,
      exactly as it did with them. */
  lemma {:induction false} PurgingIsInvisible(w: World, v: World, steps: seq<Step>, c: Credential)
    requires Sound(w) && Alike(w, v)
    requires forall i | 0 <= i < |steps| && steps[i].Purge? :: steps[i].olderThan >= 0
    ensures var unpurged, purged := Run(w, WithoutPurges(steps)), Run(v, steps);
      AuthenticateRuntimeApi(purged.db, c, purged.now) == AuthenticateRuntimeApi(unpurged.db, c, unpurged.now)
    decreases |steps|
  {
    hide Alike, Next, AuthenticateRuntimeApi, Timely, Numbered, Rooted, TokensFiled, OneMembershipEach;
    if steps == [] {
      AlikeAnswers(w, v, c);
    } else {
      var step := steps[0];
      if step.Purge? {
        AlikePurge(w, v, step.olderThan);
        PurgingIsInvisible(w, Next(v, step), steps[1..], c);
      } else {
        AlikeSteps(w, v, step);
        StepKeeps(w, step);
        PurgingIsInvisible(Next(w, step), Next(v, step), steps[1..], c);
        assert WithoutPurges(steps)[1..] == WithoutPurges(steps[1..]);
      }
    }
  }

  lemma AlikeSteps(w: World, v: World, step: Step)
    requires Alike(w, v) && Disjoint(w) && !step.Purge?
    ensures Alike(Next(w, step), Next(v, step))
  {
    hide Alike, Next, Disjoint;
    if IsExchangeStep(step) {
      AlikeExchanges(w, v, step);
    } else if IsInsert(step) {
      AlikeAfterInsert(w, v, step);
    } else {
      match step
      case RevokeToken(org, id) => AlikeRevokes(w, v, org, id);
      case DisableIdentity(org, id) => AlikeDisables(w, v, org, id);
      case RevokeMembership(org, id) => AlikeRemoves(w, v, org, id);
      case RevokeGrant(org, id) => AlikeUngrants(w, v, org, id);
      case _ => AlikeAfterUpdate(w, v, step);
    }
  }

  // ---------------------------------------------------------------------------
  // Removing a member
  // ---------------------------------------------------------------------------

  ghost predicate NoGrantsHeld(r: Records, org: Uuid, userId: Uuid) {
    forall g | g in r.grants && r.grants[g].organizationId == org && r.grants[g].subjectType == User && r.grants[g].subjectId == userId ::
      r.grants[g].grant.revokedAt.Some?
  }

  /** The membership is over, the grants are gone, and the logins of that time are dead. */
  ghost predicate Removed(w: World, org: Uuid, userId: Uuid, membershipId: Uuid, logins: set<Uuid>) {
    && IsMembership(w.db.memberships, org, userId, membershipId)
    && Reached(w.db.memberships[membershipId].revokedAt, w.now)
    && NoGrantsHeld(w.db, org, userId)
    && forall l | l in logins :: l in w.db.logins && Reached(w.db.logins[l].revokedAt, w.now)
  }

  predicate GrantsTo(step: Step, org: Uuid, userId: Uuid) {
    && step.CreateGrant?
    && step.grant.organizationId == org && step.grant.subjectType == User && step.grant.subjectId == userId
  }

  lemma StepKeepsNoGrants(w: World, step: Step, org: Uuid, userId: Uuid)
    requires NoGrantsHeld(w.db, org, userId) && !GrantsTo(step, org, userId)
    ensures NoGrantsHeld(Next(w, step).db, org, userId)
  {
    hide Resolve, Fresh, WithoutSource, WithoutIdentity, WithoutLoginsOf, Purged, IsMembership;
  }

  lemma StepKeepsRemoved(w: World, step: Step, org: Uuid, userId: Uuid, membershipId: Uuid, logins: set<Uuid>)
    requires Sound(w) && Removed(w, org, userId, membershipId, logins) && !GrantsTo(step, org, userId)
    ensures Removed(Next(w, step), org, userId, membershipId, logins)
  {
    hide Sound, Next, NoGrantsHeld, IdentitiesGrow, TokensGrow, GrantsTo;
    StepKeeps(w, step);
    StepKeepsNoGrants(w, step, org, userId);
  }

  predicate NoLaterGrant(steps: seq<Step>, org: Uuid, userId: Uuid) {
    forall i | 0 <= i < |steps| :: !GrantsTo(steps[i], org, userId)
  }

  lemma {:induction false} RunKeepsRemoved(w: World, steps: seq<Step>, org: Uuid, userId: Uuid, membershipId: Uuid, logins: set<Uuid>)
    requires Sound(w) && Removed(w, org, userId, membershipId, logins) && NoLaterGrant(steps, org, userId)
    ensures Removed(Run(w, steps), org, userId, membershipId, logins) && Sound(Run(w, steps))
    decreases |steps|
  {
    hide Sound, Next, Removed, GrantsTo;
    if steps != [] {
      StepKeepsRemoved(w, steps[0], org, userId, membershipId, logins);
      StepKeeps(w, steps[0]);
      RunKeepsRemoved(Next(w, steps[0]), steps[1..], org, userId, membershipId, logins);
    }
  }

  lemma RemovingRemoves(w: World, org: Uuid, id: Uuid)
    requires Sound(w) && MembershipRevoked(w.db, org, id, w.now).Ok?
    ensures var userId := MembershipRevoked(w.db, org, id, w.now).value.1;
      Removed(Next(w, RevokeMembership(org, id)), org, userId, id, LoginsOf(w.db, userId))
  {
    hide TokensFiled, OneMembershipEach, Rooted, Disjoint, Numbered;
  }

  function LoginsOf(r: Records, userId: Uuid): set<Uuid> {
    set l | l in r.logins && r.logins[l].userId == userId
  }

  /** A removed member's login in that organization never authenticates, whenever it
      was made. */
  lemma NoLoginThere(w: World, org: Uuid, userId: Uuid, membershipId: Uuid, logins: set<Uuid>, l: Uuid, kinds: set<SessionKind>)
    requires Sound(w) && Removed(w, org, userId, membershipId, logins) && org != NIL
    requires l in w.db.logins && w.db.logins[l].userId == userId && w.db.logins[l].organizationId == org
    ensures AuthenticateLogin(w.db, l, kinds, w.now).None?
  {
    hide Timely, TokensFiled, Disjoint, Numbered, Rooted, NoGrantsHeld;
  }

  lemma NothingIn(out: seq<Grant>)
    ensures (forall g :: g !in out) ==> out == []
  {
    assert out != [] ==> out[0] in out;
  }

  /** After a member is removed, and until somebody grants them something there again:
      the grants anyone reads for them in that organization are none, no login of theirs
      there authenticates, and no login they held at the time does anywhere. */
  lemma RemovedMemberHoldsNothing(w: World, org: Uuid, id: Uuid, steps: seq<Step>)
    requires Sound(w) && MembershipRevoked(w.db, org, id, w.now).Ok? && org != NIL
    requires NoLaterGrant(steps, org, MembershipRevoked(w.db, org, id, w.now).value.1)
    ensures var userId := MembershipRevoked(w.db, org, id, w.now).value.1;
      var v := Run(Next(w, RevokeMembership(org, id)), steps);
      && (forall out | IsGrantsFor(v.db, org, User, userId, v.now, out) :: out == [])
      && (forall l, kinds | l in v.db.logins && v.db.logins[l].userId == userId && (v.db.logins[l].organizationId == org || l in LoginsOf(w.db, userId)) ::
            AuthenticateLogin(v.db, l, kinds, v.now).None?)
  {
    hide Sound, Next, Run, GetMembership;
    var userId := MembershipRevoked(w.db, org, id, w.now).value.1;
    var v := Run(Next(w, RevokeMembership(org, id)), steps);
    RemovingRemoves(w, org, id);
    StepKeeps(w, RevokeMembership(org, id));
    RunKeepsRemoved(Next(w, RevokeMembership(org, id)), steps, org, userId, id, LoginsOf(w.db, userId));
    forall out | IsGrantsFor(v.db, org, User, userId, v.now, out) ensures out == [] {
      NothingIn(out);
    }
    forall l, kinds | l in v.db.logins && v.db.logins[l].userId == userId && (v.db.logins[l].organizationId == org || l in LoginsOf(w.db, userId))
      ensures AuthenticateLogin(v.db, l, kinds, v.now).None?
    {
      if v.db.logins[l].organizationId == org {
        NoLoginThere(v, org, userId, id, LoginsOf(w.db, userId), l, kinds);
      }
    }
  }

  /** No request carrying that user into that organization is allowed a value, by any
      credential and under any ceiling: not even by a runtime session that still
      authenticates. */
  lemma RemovedMemberMayUseNothing(w: World, org: Uuid, id: Uuid, steps: seq<Step>, out: seq<Grant>, req: Authz.Request, now: Instant)
    requires Sound(w) && MembershipRevoked(w.db, org, id, w.now).Ok? && org != NIL
    requires NoLaterGrant(steps, org, MembershipRevoked(w.db, org, id, w.now).value.1)
    requires req.principal.kind == User && req.principal.organizationId == org
    requires req.principal.id == MembershipRevoked(w.db, org, id, w.now).value.1 && IsSecretPlane(req.capability)
    requires var v := Run(Next(w, RevokeMembership(org, id)), steps);
      IsGrantsFor(v.db, org, User, req.principal.id, v.now, out)
    ensures Authz.Decide(Authz.Loaded(out), now, req).value.Deny?
  {
    hide Sound, Next, Run, IsGrantsFor, AuthenticateLogin;
    RemovedMemberHoldsNothing(w, org, id, steps);
    Authz.SecretPlaneNeedsAGrant(Authz.Held(out), now, req);
    Authz.DecideMeetsSpecification(Authz.Loaded(out), now, req);
  }

  /** Removal itself leaves runtime sessions as they were. */
  lemma RemovalLeavesRuntimeSessions(r: Records, org: Uuid, id: Uuid, now: Instant)
    requires MembershipRevoked(r, org, id, now).Ok?
    ensures forall s, t :: AuthenticateRuntime(MembershipRevoked(r, org, id, now).value.0.sessions, s, t) == AuthenticateRuntime(r.sessions, s, t)
  {
  }
}
