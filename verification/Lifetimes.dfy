/** How long a credential, a member and a grant last: what each row's own columns say,
    and that no later run says otherwise. Stated in the columns throughout. */
module Lifetimes {
  import opened Outcomes
  import opened Domain
  import opened Machines
  import opened MachineTheorems

  // ---------------------------------------------------------------------------
  // Who authenticates, in rows
  // ---------------------------------------------------------------------------

  /** A deadline that is absent, or still ahead. */
  predicate Ahead(deadline: Option<Instant>, now: Instant) {
    deadline.None? || now < deadline.value
  }

  /** A token authenticates exactly while its four stamps and deadlines, and its
      identity's, are absent or ahead; and then as its identity, under its own scope. */
  lemma TokenAuthenticatesExactlyWhen(r: Records, id: Uuid, now: Instant, p: Principal)
    ensures AuthenticateToken(r, id, now) == Some(p) <==>
      && id in r.tokens && r.tokens[id].identityId in r.identities
      && Ahead(r.tokens[id].revokedAt, now) && Ahead(r.tokens[id].expiresAt, now)
      && Ahead(r.identities[r.tokens[id].identityId].disabledAt, now) && Ahead(r.identities[r.tokens[id].identityId].expiresAt, now)
      && p.kind == Machine && p.id == r.tokens[id].identityId && p.organizationId == r.tokens[id].organizationId
      && p.scope == Some(r.tokens[id].scope) && p.credentialId == id && p.role == NoRole && p.sessionKind == NotASession
  {
  }

  lemma RuntimeAuthenticatesExactlyWhen(sessions: map<Uuid, RuntimeSession>, id: Uuid, now: Instant, p: Principal)
    ensures AuthenticateRuntime(sessions, id, now) == Some(p) <==>
      && id in sessions && Ahead(sessions[id].revokedAt, now) && now < sessions[id].expiresAt
      && p.kind == sessions[id].subjectType && p.id == sessions[id].subjectId && p.organizationId == sessions[id].organizationId
      && p.scope == Some(sessions[id].scope) && p.credentialId == id && p.role == NoRole && p.sessionKind == NotASession
  {
  }

  /** A login authenticates exactly while it is of an accepted kind, lasts, its user is
      not disabled, and, in an organization, its user's membership there lasts; the role
      is the membership's as it is now. */
  lemma LoginAuthenticatesExactlyWhen(r: Records, id: Uuid, kinds: set<SessionKind>, now: Instant, p: Principal)
    requires OneMembershipEach(r.memberships)
    ensures AuthenticateLogin(r, id, kinds, now) == Some(p) <==>
      && id in r.logins && r.logins[id].kind in kinds
      && Ahead(r.logins[id].revokedAt, now) && now < r.logins[id].expiresAt
      && r.logins[id].userId in r.users && Ahead(r.users[r.logins[id].userId], now)
      && (if r.logins[id].organizationId == NIL then p.role == NoRole else
            exists m :: m in r.memberships && r.memberships[m].organizationId == r.logins[id].organizationId &&
                        r.memberships[m].userId == r.logins[id].userId && Ahead(r.memberships[m].revokedAt, now) &&
                        Ahead(r.memberships[m].expiresAt, now) && p.role == r.memberships[m].role)
      && p.kind == User && p.id == r.logins[id].userId && p.organizationId == r.logins[id].organizationId
      && p.scope == None && p.credentialId == id && p.sessionKind == r.logins[id].kind
  {
    if id in r.logins && r.logins[id].organizationId != NIL {
      MembershipReadsOff(r.memberships, r.logins[id].organizationId, r.logins[id].userId);
    }
    hide GetMembership;
  }

  lemma MembershipReadsOff(ms: map<Uuid, Membership>, org: Uuid, userId: Uuid)
    requires OneMembershipEach(ms)
    ensures GetMembership(ms, org, userId).None? <==> forall m | m in ms :: !(ms[m].organizationId == org && ms[m].userId == userId)
    ensures forall m | m in ms && ms[m].organizationId == org && ms[m].userId == userId :: GetMembership(ms, org, userId) == Some(ms[m])
  {
    if m :| m in ms && ms[m].organizationId == org && ms[m].userId == userId {
      assert IsMembership(ms, org, userId, m);
    }
  }

  // ---------------------------------------------------------------------------
  // What an exchange asks and what it inserts
  // ---------------------------------------------------------------------------

  /** An exchange begins exactly when the credential authenticates and the place asked for
      is in its organization: its own one, where it has a ceiling, or a named one. */
  lemma ExchangeBeginsExactlyWhen(w: World, c: Credential, named: Named)
    ensures var v, p := Next(w, BeginExchange(c, named)), AuthenticateRuntimeApi(w.db, c, w.now);
      (v != w <==>
        && p.Some?
        && (p.value.scope.None? ==> named.Resolves?)
        && (p.value.scope.Some? ==> named.Unnamed? || named == Resolves(p.value.scope.value.environmentId))
        && var env := if named.Resolves? then named.environmentId else p.value.scope.value.environmentId;
           && env in w.tree.environments && w.tree.environments[env] in w.tree.projects
           && w.tree.projects[w.tree.environments[env]] == p.value.organizationId
           && (p.value.scope.Some? ==> w.tree.HasProject(p.value.organizationId, p.value.scope.value.projectId))
           && (p.value.scope.Some? && named.Resolves? ==> w.tree.environments[env] == p.value.scope.value.projectId))
  {
    hide AuthenticateRuntimeApi;
  }

  /** What it inserts: the principal's own subject, organization and ceiling, with the
      presented credential as its source, for the configured time. */
  lemma ExchangeInserts(w: World, c: Credential, named: Named, s: Uuid)
    requires var p := AuthenticateRuntimeApi(w.db, c, w.now); p.Some? && Next(w, BeginExchange(c, named)) != w
    requires Fresh(w, s)
    ensures var p := AuthenticateRuntimeApi(w.db, c, w.now).value;
      var v := Next(Next(w, BeginExchange(c, named)), FinishExchange(w.requests, s));
      && v.db.sessions.Keys == w.db.sessions.Keys + {s}
      && (forall x | x in w.db.sessions && x != s :: v.db.sessions[x] == w.db.sessions[x])
      && v.db == w.db.(sessions := v.db.sessions)
      && var row := v.db.sessions[s];
         && row.subjectType == p.kind && row.subjectId == p.id && row.organizationId == p.organizationId
         && row.source == c.id && row.expiresAt == w.now + w.ttl && row.revokedAt == None
         && (p.scope.Some? ==> row.scope == p.scope.value)
         && (p.scope.None? ==> named == Resolves(row.scope.environmentId))
         && (p.scope.None? ==> (row.scope.environmentId, row.scope.projectId) in w.tree.environments.Items)
         && (p.scope.None? ==> row.scope.capabilities == [UseSecret] && row.scope.secretKeys == [])
  {
    CredentialIsItsOwn(w.db, c, w.now);
    hide AuthenticateRuntimeApi;
  }

  lemma CredentialIsItsOwn(r: Records, c: Credential, now: Instant)
    requires AuthenticateRuntimeApi(r, c, now).Some?
    ensures AuthenticateRuntimeApi(r, c, now).value.credentialId == c.id
  {
    hide GetMembership;
  }

  // ---------------------------------------------------------------------------
  // What ends a row
  // ---------------------------------------------------------------------------

  lemma OnlyItsStepsTouchATable(w: World, step: Step)
    ensures !step.CreateToken? && !step.RevokeToken? ==> Next(w, step).db.tokens == w.db.tokens
    ensures !step.CreateIdentity? && !step.DisableIdentity? ==> Next(w, step).db.identities == w.db.identities
    ensures !step.FinishExchange? && !step.RevokeToken? && !step.DisableIdentity? && !step.Purge? ==> Next(w, step).db.sessions == w.db.sessions
    ensures !step.CreateMembership? && !step.RevokeMembership? ==> Next(w, step).db.memberships == w.db.memberships
    ensures !step.CreateLogin? && !step.RevokeLogin? && !step.RevokeLoginsOf? && !step.RevokeMembership? ==> Next(w, step).db.logins == w.db.logins
    ensures !step.CreateGrant? && !step.RevokeGrant? && !step.RevokeMembership? ==> Next(w, step).db.grants == w.db.grants
  {
    hide MayInsert, Fresh, Resolve, Stamped, WithoutSource, WithoutIdentity, WithoutGrantsTo, WithoutLoginsOf, Purged;
  }

  /** A token is stamped by its own revocation in its own organization, and by nothing
      else; an identity by its own disabling. */
  lemma TokenIsStampedExactlyBy(w: World, step: Step, t: Uuid)
    requires t in w.db.tokens
    ensures t in Next(w, step).db.tokens
    ensures Next(w, step).db.tokens[t] == if w.db.tokens[t].revokedAt.None? && step == RevokeToken(w.db.tokens[t].organizationId, t)
      then w.db.tokens[t].(revokedAt := Some(w.now)) else w.db.tokens[t]
  {
    hide Next, WithoutSource;
    OnlyItsStepsTouchATable(w, step);
    if step.CreateToken? {
      NewToken(w, step.id, step.token);
    } else if step.RevokeToken? {
      RevokedToken(w, step.organizationId, step.id);
    }
  }

  lemma NewToken(w: World, id: Uuid, token: Token)
    ensures var v := Next(w, CreateToken(id, token)); v == w || (id !in w.db.tokens && v.db.tokens == w.db.tokens[id := token])
  {
  }

  lemma RevokedToken(w: World, org: Uuid, id: Uuid)
    ensures Next(w, RevokeToken(org, id)) == Applied(w, TokenRevoked(w.db, org, id, w.now))
  {
  }

  lemma IdentityIsStampedExactlyBy(w: World, step: Step, i: Uuid)
    requires i in w.db.identities
    ensures i in Next(w, step).db.identities
    ensures Next(w, step).db.identities[i] == if w.db.identities[i].disabledAt.None? && step == DisableIdentity(w.db.identities[i].organizationId, i)
      then w.db.identities[i].(disabledAt := Some(w.now)) else w.db.identities[i]
  {
    hide Next, WithoutIdentity;
    OnlyItsStepsTouchATable(w, step);
    if step.CreateIdentity? {
      NewIdentity(w, step.id, step.identity);
    } else if step.DisableIdentity? {
      DisabledIdentity(w, step.organizationId, step.id);
    }
  }

  lemma NewIdentity(w: World, id: Uuid, identity: Identity)
    ensures var v := Next(w, CreateIdentity(id, identity)); v == w || (id !in w.db.identities && v.db.identities == w.db.identities[id := identity])
  {
  }

  lemma DisabledIdentity(w: World, org: Uuid, id: Uuid)
    ensures Next(w, DisableIdentity(org, id)) == Applied(w, IdentityDisabled(w.db, org, id, w.now))
  {
  }

  /** This step revokes, or disables, what the session was directly minted from. */
  predicate CutsSource(r: Records, step: Step, x: RuntimeSession) {
    || (&& step.RevokeToken? && step.id == x.source && x.source in r.tokens
        && r.tokens[x.source].organizationId == step.organizationId && r.tokens[x.source].revokedAt.None?)
    || (&& step.DisableIdentity? && step.id in r.identities && r.identities[step.id].organizationId == step.organizationId
        && r.identities[step.id].disabledAt.None? && x.organizationId == step.organizationId
        && x.source in r.tokens && r.tokens[x.source].identityId == step.id)
  }

  /** A runtime session is stamped exactly when its own source is cut. Only a purge
      removes one, and only one whose expiry is further back than the purge's margin. */
  lemma SessionIsStampedExactlyBy(w: World, step: Step, s: Uuid)
    requires Disjoint(w) && s in w.db.sessions
    ensures s !in Next(w, step).db.sessions <==> step.Purge? && w.db.sessions[s].expiresAt + step.olderThan < w.now
    ensures s in Next(w, step).db.sessions ==>
      Next(w, step).db.sessions[s] == if w.db.sessions[s].revokedAt.None? && CutsSource(w.db, step, w.db.sessions[s])
        then w.db.sessions[s].(revokedAt := Some(w.now)) else w.db.sessions[s]
  {
    hide Next, CutsSource, Stamped;
    OnlyItsStepsTouchATable(w, step);
    match step
    case FinishExchange(request, id) => NewSession(w, request, id); OnlyTwoStepsCut(w.db, step, w.db.sessions[s]);
    case RevokeToken(org, id) => SessionAfterRevocation(w, org, id, s);
    case DisableIdentity(org, id) => SessionAfterDisabling(w, org, id, s);
    case Purge(olderThan) => PurgedSessions(w, olderThan); OnlyTwoStepsCut(w.db, step, w.db.sessions[s]);
    case _ => OnlyTwoStepsCut(w.db, step, w.db.sessions[s]);
  }

  lemma OnlyTwoStepsCut(r: Records, step: Step, x: RuntimeSession)
    requires !step.RevokeToken? && !step.DisableIdentity?
    ensures !CutsSource(r, step, x)
  {
  }

  lemma SessionAfterRevocation(w: World, org: Uuid, id: Uuid, s: Uuid)
    requires s in w.db.sessions
    ensures var v, row := Next(w, RevokeToken(org, id)), w.db.sessions[s];
      s in v.db.sessions && v.db.sessions[s] ==
        if row.revokedAt.None? && CutsSource(w.db, RevokeToken(org, id), row) then row.(revokedAt := Some(w.now)) else row
  {
    hide Next;
    RevokedToken(w, org, id);
  }

  lemma SessionAfterDisabling(w: World, org: Uuid, id: Uuid, s: Uuid)
    requires s in w.db.sessions
    ensures var v, row := Next(w, DisableIdentity(org, id)), w.db.sessions[s];
      s in v.db.sessions && v.db.sessions[s] ==
        if row.revokedAt.None? && CutsSource(w.db, DisableIdentity(org, id), row) then row.(revokedAt := Some(w.now)) else row
  {
    hide Next, WithoutIdentity;
    DisabledIdentity(w, org, id);
    StampedOfIdentity(w.db, org, id, w.now, s);
  }

  lemma StampedOfIdentity(r: Records, org: Uuid, id: Uuid, now: Instant, s: Uuid)
    requires s in r.sessions
    ensures var after, row := WithoutIdentity(r, org, id, now), r.sessions[s];
      s in after && after[s] ==
        if row.revokedAt.None? && row.organizationId == org && row.source in r.tokens && r.tokens[row.source].identityId == id
        then row.(revokedAt := Some(now)) else row
  {
  }

  lemma NewSession(w: World, request: nat, id: Uuid)
    ensures var v := Next(w, FinishExchange(request, id));
      v == w || (id !in w.db.sessions && v.db.sessions.Keys == w.db.sessions.Keys + {id} && forall s | s in w.db.sessions :: v.db.sessions[s] == w.db.sessions[s])
  {
  }

  lemma PurgedSessions(w: World, olderThan: int)
    ensures Next(w, Purge(olderThan)).db.sessions == Purged(w.db.sessions, olderThan, w.now)
  {
  }

  /** This step removes the user from the organization. */
  predicate Removes(r: Records, step: Step, org: Uuid, userId: Uuid) {
    && step.RevokeMembership? && step.id in r.memberships && step.organizationId == org
    && r.memberships[step.id].organizationId == org && r.memberships[step.id].userId == userId
    && r.memberships[step.id].revokedAt.None?
  }

  lemma MembershipIsStampedExactlyBy(w: World, step: Step, m: Uuid)
    requires OneMembershipEach(w.db.memberships) && m in w.db.memberships
    ensures m in Next(w, step).db.memberships
    ensures var row := w.db.memberships[m];
      Next(w, step).db.memberships[m] == if Removes(w.db, step, row.organizationId, row.userId)
        then row.(revokedAt := Some(w.now)) else row
  {
    hide Next, WithoutGrantsTo, WithoutLoginsOf;
    OnlyItsStepsTouchATable(w, step);
    if step.CreateMembership? {
      NewMembership(w, step.id, step.membership);
    } else if step.RevokeMembership? {
      RevokedMembership(w, step.organizationId, step.id);
    }
  }

  lemma NewMembership(w: World, id: Uuid, m: Membership)
    ensures var v := Next(w, CreateMembership(id, m)); v == w || (id !in w.db.memberships && v.db.memberships == w.db.memberships[id := m])
  {
    hide IsMembership;
  }

  lemma RevokedMembership(w: World, org: Uuid, id: Uuid)
    ensures var r := MembershipRevoked(w.db, org, id, w.now);
      Next(w, RevokeMembership(org, id)) == if r.Ok? then w.(db := r.value.0) else w
  {
    hide MembershipRevoked;
  }

  /** A login is stamped by its own sign-out, by a sign-out of all its user's, and by the
      user's removal from any organization. */
  lemma LoginIsStampedExactlyBy(w: World, step: Step, l: Uuid)
    requires l in w.db.logins
    ensures l in Next(w, step).db.logins
    ensures var row := w.db.logins[l];
      Next(w, step).db.logins[l] == if row.revokedAt.None? &&
          (step == RevokeLogin(l) || step == RevokeLoginsOf(row.userId) ||
           (step.RevokeMembership? && Removes(w.db, step, step.organizationId, row.userId)))
        then row.(revokedAt := Some(w.now)) else row
  {
    hide Next, WithoutGrantsTo;
    OnlyItsStepsTouchATable(w, step);
    match step
    case CreateLogin(id, row) => NewLogin(w, id, row);
    case RevokeLogin(id) => SignedOutOnce(w, id);
    case RevokeLoginsOf(userId) => SignedOutEverywhere(w, userId);
    case RevokeMembership(org, id) => RevokedMembership(w, org, id);
    case _ =>
  }

  lemma NewLogin(w: World, id: Uuid, row: Login)
    ensures var v := Next(w, CreateLogin(id, row)); v == w || (id !in w.db.logins && v.db.logins == w.db.logins[id := row])
  {
  }

  lemma SignedOutOnce(w: World, l: Uuid)
    ensures Next(w, RevokeLogin(l)).db.logins ==
      if l in w.db.logins then w.db.logins[l := w.db.logins[l].(revokedAt := Stamped(w.db.logins[l].revokedAt, w.now))] else w.db.logins
  {
  }

  lemma SignedOutEverywhere(w: World, userId: Uuid)
    ensures Next(w, RevokeLoginsOf(userId)).db.logins == WithoutLoginsOf(w.db.logins, userId, w.now)
  {
  }

  /** A grant is stamped by its own revocation, and by its user's removal from its
      organization. */
  lemma GrantIsStampedExactlyBy(w: World, step: Step, g: Uuid)
    requires g in w.db.grants
    ensures g in Next(w, step).db.grants
    ensures var row := w.db.grants[g];
      Next(w, step).db.grants[g] == if row.grant.revokedAt.None? &&
          (step == RevokeGrant(row.organizationId, g) ||
           (row.subjectType == User && Removes(w.db, step, row.organizationId, row.subjectId)))
        then row.(grant := row.grant.(revokedAt := Some(w.now))) else row
  {
    hide Next, Removes, WithoutLoginsOf, WithoutGrantsTo, MembershipRevoked, GrantRevoked;
    OnlyItsStepsTouchATable(w, step);
    OnlyOneStepRemoves(w.db, step);
    match step
    case CreateGrant(id, row) => NewGrant(w, id, row);
    case RevokeGrant(org, id) => GrantAfterRevocation(w, org, id, g);
    case RevokeMembership(org, id) => GrantAfterRemoval(w, org, id, g);
    case _ =>
  }

  lemma OnlyOneStepRemoves(r: Records, step: Step)
    ensures !step.RevokeMembership? ==> forall org, userId :: !Removes(r, step, org, userId)
  {
  }

  lemma GrantAfterRevocation(w: World, org: Uuid, id: Uuid, g: Uuid)
    requires g in w.db.grants
    ensures var v, row := Next(w, RevokeGrant(org, id)), w.db.grants[g];
      g in v.db.grants && v.db.grants[g] == if row.grant.revokedAt.None? && id == g && org == row.organizationId
        then row.(grant := row.grant.(revokedAt := Some(w.now))) else row
  {
    hide Next, GrantRevoked;
    RevokedGrant(w, org, id);
    OneGrantIsRevoked(w.db, org, id, w.now);
  }

  lemma OneGrantIsRevoked(r: Records, org: Uuid, id: Uuid, now: Instant)
    ensures var after := GrantRevoked(r, org, id, now);
      (after.Ok? <==> id in r.grants && r.grants[id].organizationId == org && r.grants[id].grant.revokedAt.None?)
    ensures var after := GrantRevoked(r, org, id, now);
      after.Ok? ==> after.value.grants == r.grants[id := r.grants[id].(grant := r.grants[id].grant.(revokedAt := Some(now)))]
  {
  }

  lemma GrantAfterRemoval(w: World, org: Uuid, id: Uuid, g: Uuid)
    requires g in w.db.grants
    ensures var v, row := Next(w, RevokeMembership(org, id)), w.db.grants[g];
      g in v.db.grants && v.db.grants[g] ==
        if row.grant.revokedAt.None? && row.subjectType == User && Removes(w.db, RevokeMembership(org, id), row.organizationId, row.subjectId)
        then row.(grant := row.grant.(revokedAt := Some(w.now))) else row
  {
    hide Next, WithoutLoginsOf;
    RevokedMembership(w, org, id);
  }

  lemma NewGrant(w: World, id: Uuid, row: GrantRow)
    ensures var v := Next(w, CreateGrant(id, row)); v == w || (id !in w.db.grants && v.db.grants == w.db.grants[id := row])
  {
  }

  lemma RevokedGrant(w: World, org: Uuid, id: Uuid)
    ensures Next(w, RevokeGrant(org, id)) == Applied(w, GrantRevoked(w.db, org, id, w.now))
  {
  }

  // ---------------------------------------------------------------------------
  // Over runs
  // ---------------------------------------------------------------------------

  /** On every later run, a token authenticates exactly until the expiry it was made with,
      or its identity's, or its revocation, or its identity's disabling. */
  lemma TokenLastsExactlyUntil(w: World, id: Uuid, steps: seq<Step>)
    requires Sound(w) && id in w.db.tokens
    ensures var v := Run(w, steps);
      && id in v.db.tokens && v.db.tokens[id].identityId == w.db.tokens[id].identityId && v.db.tokens[id].identityId in v.db.identities
      && (AuthenticateToken(v.db, id, v.now).Some? <==>
            && v.db.tokens[id].revokedAt.None? && v.db.identities[v.db.tokens[id].identityId].disabledAt.None?
            && Ahead(w.db.tokens[id].expiresAt, v.now) && Ahead(w.db.identities[w.db.tokens[id].identityId].expiresAt, v.now))
  {
    hide Run, OneMembershipEach, Disjoint, Numbered, Rooted, LoginsGrow, MembershipsGrow, GrantsGrow, UsersGrow;
    RunKeeps(w, steps);
    assert Past(Run(w, steps).db.tokens[id].revokedAt, Run(w, steps).now);
    assert Past(Run(w, steps).db.identities[w.db.tokens[id].identityId].disabledAt, Run(w, steps).now);
  }

  /** Once a token's expiry, or its identity's, has come, on every later run it does not
      authenticate, and no exchange begins from it. */
  lemma ExpiredTokenStaysDead(w: World, id: Uuid, steps: seq<Step>, named: Named)
    requires Sound(w) && id in w.db.tokens
    requires !Ahead(w.db.tokens[id].expiresAt, w.now) || !Ahead(w.db.identities[w.db.tokens[id].identityId].expiresAt, w.now)
    ensures var v := Run(w, steps);
      AuthenticateToken(v.db, id, v.now).None? && Next(v, BeginExchange(MachineToken(id), named)) == v
  {
    hide Run, Sound, AuthenticateToken;
    TokenLastsExactlyUntil(w, id, steps);
    RunKeeps(w, steps);
  }

  /** On every later run a runtime session authenticates until the expiry it was minted
      with, for as long as it is not stamped: a purge takes only what had expired. */
  lemma SessionLastsExactlyUntil(w: World, s: Uuid, steps: seq<Step>)
    requires Sound(w) && s in w.db.sessions
    requires forall i | 0 <= i < |steps| && steps[i].Purge? :: steps[i].olderThan >= 0
    ensures var v := Run(w, steps);
      AuthenticateRuntime(v.db.sessions, s, v.now).Some? <==>
      (s in v.db.sessions ==> v.db.sessions[s].revokedAt.None?) && v.now < w.db.sessions[s].expiresAt
  {
    hide Sound, Run;
    StillThereOrExpired(w, s, steps);
    RunKeeps(w, steps);
    if s in Run(w, steps).db.sessions {
      SessionStampsPast(Run(w, steps), s);
    }
  }

  lemma SessionStampsPast(w: World, s: Uuid)
    requires Sound(w) && s in w.db.sessions
    ensures Past(w.db.sessions[s].revokedAt, w.now)
  {
  }

  lemma {:induction false} StillThereOrExpired(w: World, s: Uuid, steps: seq<Step>)
    requires Sound(w) && s in w.db.sessions
    requires forall i | 0 <= i < |steps| && steps[i].Purge? :: steps[i].olderThan >= 0
    ensures var v := Run(w, steps);
      (s in v.db.sessions && v.db.sessions[s].expiresAt == w.db.sessions[s].expiresAt) ||
      (s !in v.db.sessions && w.db.sessions[s].expiresAt <= v.now)
    decreases |steps|
  {
    hide Next, Timely, TokensFiled, OneMembershipEach, Numbered, Rooted;
    if steps != [] {
      var v := Next(w, steps[0]);
      StepKeeps(w, steps[0]);
      SessionIsStampedExactlyBy(w, steps[0], s);
      if s in v.db.sessions {
        StillThereOrExpired(v, s, steps[1..]);
      } else {
        PurgeOnlyReads(w, steps[0]);
        GoneStaysGone(v, s, steps[1..]);
      }
    }
  }

  lemma PurgeOnlyReads(w: World, step: Step)
    requires step.Purge?
    ensures Next(w, step).now == w.now && Next(w, step).roots == w.roots
  {
  }

  /** Identifiers are not used again. */
  lemma {:induction false} GoneStaysGone(w: World, s: Uuid, steps: seq<Step>)
    requires Sound(w) && s in w.roots && s !in w.db.sessions
    ensures s !in Run(w, steps).db.sessions && w.now <= Run(w, steps).now
    decreases |steps|
  {
    hide Next, Timely, TokensFiled, OneMembershipEach, Numbered, Rooted, RecordsGrow;
    if steps != [] {
      StepKeeps(w, steps[0]);
      NothingComesBack(w, s, steps[0]);
      GoneStaysGone(Next(w, steps[0]), s, steps[1..]);
    }
  }

  lemma NothingComesBack(w: World, s: Uuid, step: Step)
    requires Sound(w) && s in w.roots && s !in w.db.sessions
    ensures s !in Next(w, step).db.sessions
  {
    hide Next, Timely, TokensFiled, OneMembershipEach, Numbered, Rooted;
    if step.FinishExchange? {
      OnlyFreshSessions(w, step.request, step.id);
    } else if step.BeginExchange? {
      OnlyItsStepsTouchATable(w, step);
    } else {
      KeysOf(w, step);
    }
  }

  lemma OnlyFreshSessions(w: World, request: nat, id: Uuid)
    ensures var v := Next(w, FinishExchange(request, id));
      v == w || (id !in w.roots && v.db.sessions.Keys == w.db.sessions.Keys + {id})
  {
  }

  /** On every later run a login that is not signed out authenticates until the expiry it
      was made with, unless its user was disabled, and, in an organization, exactly while a
      membership of that user there is neither ended nor lapsed. */
  lemma LoginLastsExactlyUntil(w: World, l: Uuid, steps: seq<Step>)
    requires Sound(w) && l in w.db.logins && w.db.logins[l].userId in w.db.users
    ensures var v, row := Run(w, steps), w.db.logins[l];
      && l in v.db.logins
      && (AuthenticateLogin(v.db, l, {Browser, Cli}, v.now).Some? <==>
            && v.db.logins[l].revokedAt.None? && row.kind in {Browser, Cli} && v.now < row.expiresAt
            && Ahead(w.db.users[row.userId], v.now)
            && (row.organizationId != NIL ==> Belongs(v.db.memberships, row.organizationId, row.userId, v.now)))
  {
    hide Run, TokensFiled, Disjoint, Numbered, Rooted, AuthenticateLogin, IdentitiesGrow, TokensGrow, GrantsGrow,
      TimelyIdentities, TimelyTokens, TimelySessions, TimelyGrants;
    RunKeeps(w, steps);
    LoginStampsPast(Run(w, steps), l);
    SomeLogin(Run(w, steps), l);
  }

  lemma LoginStampsPast(w: World, l: Uuid)
    requires Sound(w) && l in w.db.logins
    ensures Past(w.db.logins[l].revokedAt, w.now)
  {
  }

  /** A membership of the user that is neither ended nor lapsed. */
  ghost predicate Belongs(ms: map<Uuid, Membership>, org: Uuid, userId: Uuid, now: Instant) {
    exists m :: m in ms && ms[m].organizationId == org && ms[m].userId == userId && ms[m].revokedAt.None? && Ahead(ms[m].expiresAt, now)
  }

  lemma SomeLogin(w: World, l: Uuid)
    requires Sound(w) && l in w.db.logins
    ensures var row := w.db.logins[l];
      AuthenticateLogin(w.db, l, {Browser, Cli}, w.now).Some? <==>
        && row.kind in {Browser, Cli} && row.revokedAt.None? && w.now < row.expiresAt
        && row.userId in w.db.users && Ahead(w.db.users[row.userId], w.now)
        && (row.organizationId != NIL ==> Belongs(w.db.memberships, row.organizationId, row.userId, w.now))
  {
    hide TokensFiled, Disjoint, Numbered, Rooted;
    MembershipReadsOff(w.db.memberships, w.db.logins[l].organizationId, w.db.logins[l].userId);
  }

  /** Once a login's expiry has come, or its user is disabled, or the one membership behind
      it has lapsed, on every later run it does not authenticate and no exchange begins
      from it. */
  lemma LapsedLoginStaysDead(w: World, l: Uuid, steps: seq<Step>, named: Named)
    requires Sound(w) && l in w.db.logins && w.db.logins[l].userId in w.db.users
    requires var row := w.db.logins[l];
      || row.expiresAt <= w.now
      || !Ahead(w.db.users[row.userId], w.now)
      || (row.organizationId != NIL && exists m :: IsMembership(w.db.memberships, row.organizationId, row.userId, m) && !Ahead(w.db.memberships[m].expiresAt, w.now))
    ensures var v := Run(w, steps);
      AuthenticateLogin(v.db, l, {Browser, Cli}, v.now).None? && Next(v, BeginExchange(UserLogin(l), named)) == v
  {
    hide Run, Sound, AuthenticateLogin, Belongs;
    LoginLastsExactlyUntil(w, l, steps);
    RunKeeps(w, steps);
    if m :| IsMembership(w.db.memberships, w.db.logins[l].organizationId, w.db.logins[l].userId, m) && !Ahead(w.db.memberships[m].expiresAt, w.now) {
      LapsedMembership(w, Run(w, steps), m);
    }
    NarrowerKinds(Run(w, steps).db, l, Run(w, steps).now);
  }

  lemma LapsedMembership(w: World, v: World, m: Uuid)
    requires Grows(w, v) && Sound(v) && m in w.db.memberships && !Ahead(w.db.memberships[m].expiresAt, w.now)
    ensures !Belongs(v.db.memberships, w.db.memberships[m].organizationId, w.db.memberships[m].userId, v.now)
  {
    hide Timely, TokensFiled, Disjoint, Numbered, Rooted;
  }

  lemma NarrowerKinds(r: Records, l: Uuid, now: Instant)
    ensures AuthenticateLogin(r, l, {Browser, Cli}, now).None? ==> AuthenticateLogin(r, l, {Cli}, now).None?
  {
    hide GetMembership;
  }

  /** On every later run a grant is read for a subject exactly when its row was made for
      that subject and organization, it is not revoked, and the expiry it was made with is
      ahead. */
  lemma GrantIsReadExactlyUntil(w: World, g: Uuid, steps: seq<Step>, org: Uuid, kind: SubjectType, subject: Uuid)
    requires Sound(w) && g in w.db.grants
    ensures var v, row := Run(w, steps), w.db.grants[g];
      && g in v.db.grants
      && (Holds(v.db, org, kind, subject, v.now, g) <==>
            && row.organizationId == org && row.subjectType == kind && row.subjectId == subject
            && v.db.grants[g].grant.revokedAt.None? && Ahead(row.grant.expiresAt, v.now))
      && v.db.grants[g].grant == row.grant.(revokedAt := v.db.grants[g].grant.revokedAt)
  {
    hide Run, Sound;
    RunKeeps(w, steps);
  }

  /** A list that is read holds the rows of that subject in that organization that last,
      all of them, and nothing else. */
  lemma GrantsReadAreTheRowsThatLast(r: Records, org: Uuid, kind: SubjectType, subject: Uuid, now: Instant, out: seq<Grant>)
    requires IsGrantsFor(r, org, kind, subject, now, out)
    ensures forall g :: g in out <==> exists id ::
      && id in r.grants && r.grants[id].organizationId == org && r.grants[id].subjectType == kind && r.grants[id].subjectId == subject
      && r.grants[id].grant.revokedAt.None? && Ahead(r.grants[id].grant.expiresAt, now) && r.grants[id].grant == g
  {
    assert forall id :: Holds(r, org, kind, subject, now, id) <==>
      && id in r.grants && r.grants[id].organizationId == org && r.grants[id].subjectType == kind && r.grants[id].subjectId == subject
      && r.grants[id].grant.revokedAt.None? && Ahead(r.grants[id].grant.expiresAt, now);
    hide Holds;
  }
}
