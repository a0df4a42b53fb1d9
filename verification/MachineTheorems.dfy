/** What holds on every run of exchanges, revocations and purges. */
module MachineTheorems {
  import opened Outcomes
  import opened Domain
  import opened Machines
  import Authz

  // ---------------------------------------------------------------------------
  // The invariant
  // ---------------------------------------------------------------------------

  ghost predicate Past(t: Option<Instant>, now: Instant) {
    t.Some? ==> t.value <= now
  }

  ghost predicate TimelyIdentities(t: map<Uuid, Identity>, now: Instant) {
    forall i | i in t :: Past(t[i].disabledAt, now)
  }

  ghost predicate TimelyTokens(t: map<Uuid, Token>, now: Instant) {
    forall i | i in t :: Past(t[i].revokedAt, now)
  }

  ghost predicate TimelySessions(t: map<Uuid, RuntimeSession>, now: Instant) {
    forall i | i in t :: Past(t[i].revokedAt, now)
  }

  ghost predicate TimelyLogins(t: map<Uuid, Login>, now: Instant) {
    forall i | i in t :: Past(t[i].revokedAt, now)
  }

  ghost predicate TimelyMemberships(t: map<Uuid, Membership>, now: Instant) {
    forall i | i in t :: Past(t[i].revokedAt, now)
  }

  ghost predicate TimelyGrants(t: map<Uuid, GrantRow>, now: Instant) {
    forall i | i in t :: Past(t[i].grant.revokedAt, now)
  }

  /** Every stamp was taken from the clock. */
  ghost predicate Timely(r: Records, now: Instant) {
    && TimelyIdentities(r.identities, now) && TimelyTokens(r.tokens, now) && TimelySessions(r.sessions, now)
    && TimelyLogins(r.logins, now) && TimelyMemberships(r.memberships, now) && TimelyGrants(r.grants, now)
  }

  /** A token belongs to an identity of its own organization, and names a real place. */
  ghost predicate TokensFiled(tokens: map<Uuid, Token>, identities: map<Uuid, Identity>, tree: Tree) {
    forall t | t in tokens ::
      && tokens[t].identityId in identities
      && identities[tokens[t].identityId].organizationId == tokens[t].organizationId
      && tree.HasEnvironment(tokens[t].organizationId, tokens[t].scope.environmentId)
      && tree.environments[tokens[t].scope.environmentId] == tokens[t].scope.projectId
  }

  ghost predicate OneMembershipEach(ms: map<Uuid, Membership>) {
    forall a, b | a in ms && b in ms && ms[a].organizationId == ms[b].organizationId && ms[a].userId == ms[b].userId :: a == b
  }

  ghost predicate Disjoint(w: World) {
    && w.db.tokens.Keys !! w.db.logins.Keys
    && w.db.tokens.Keys !! w.roots.Keys
    && w.db.logins.Keys !! w.roots.Keys
    && w.db.sessions.Keys <= w.roots.Keys
  }

  ghost predicate Numbered(w: World) {
    && w.roots.Keys == w.minted.Keys
    && (forall q | q in w.inflight :: q < w.requests)
    && (forall s | s in w.minted :: w.minted[s] < w.requests && w.minted[s] !in w.inflight)
  }

  /** The subject and ceiling are those the root fixes: a token's own, or USE_SECRET
      in one environment of the login's organization. */
  ghost predicate FixedByRoot(r: Records, tree: Tree, root: Root, kind: SubjectType, subject: Uuid, org: Uuid, scope: Scope) {
    match root
    case TokenRoot(t) =>
      && t in r.tokens
      && kind == Machine && subject == r.tokens[t].identityId && org == r.tokens[t].organizationId
      && scope == r.tokens[t].scope
    case LoginRoot(l) =>
      && l in r.logins && r.logins[l].kind == Cli
      && kind == User && subject == r.logins[l].userId && org == r.logins[l].organizationId
      && scope.capabilities == [UseSecret] && scope.secretKeys == []
      && tree.HasEnvironment(org, scope.environmentId)
      && tree.environments[scope.environmentId] == scope.projectId
  }

  /** A source is a known credential: a token or a login that is the root itself, or an
      earlier session of the same root. */
  ghost predicate KnownSource(w: World, source: Uuid, root: Root) {
    && (source in w.db.tokens || source in w.db.logins || source in w.roots)
    && (source in w.db.tokens ==> root == TokenRoot(source))
    && (source in w.db.logins ==> root == LoginRoot(source))
    && (source in w.roots ==> root == w.roots[source])
  }

  ghost predicate GoodSession(w: World, s: RuntimeSession, root: Root) {
    FixedByRoot(w.db, w.tree, root, s.subjectType, s.subjectId, s.organizationId, s.scope) && KnownSource(w, s.source, root)
  }

  ghost predicate GoodExchange(w: World, x: Exchange) {
    && FixedByRoot(w.db, w.tree, x.root, x.principal.kind, x.principal.id, x.principal.organizationId, x.scope)
    && KnownSource(w, x.principal.credentialId, x.root)
  }

  ghost predicate Rooted(w: World)
    requires w.db.sessions.Keys <= w.roots.Keys
  {
    && (forall s | s in w.db.sessions :: GoodSession(w, w.db.sessions[s], w.roots[s]))
    && (forall q | q in w.inflight :: GoodExchange(w, w.inflight[q]))
  }

  ghost predicate Sound(w: World) {
    && Timely(w.db, w.now)
    && TokensFiled(w.db.tokens, w.db.identities, w.tree)
    && OneMembershipEach(w.db.memberships)
    && Disjoint(w)
    && Numbered(w)
    && Rooted(w)
  }

  lemma EmptyIsSound(now: Instant, ttl: int, tree: Tree)
    ensures Sound(World(now, ttl, tree, Records(map[], map[], map[], map[], map[], map[], map[]), map[], 0, map[], map[]))
  {
  }

  // ---------------------------------------------------------------------------
  // What no step takes back
  // ---------------------------------------------------------------------------

  ghost predicate Kept(a: Option<Instant>, b: Option<Instant>) {
    a.Some? ==> b == a
  }

  ghost predicate IdentitiesGrow(a: map<Uuid, Identity>, b: map<Uuid, Identity>) {
    forall i | i in a ::
      i in b && b[i].organizationId == a[i].organizationId && b[i].expiresAt == a[i].expiresAt && Kept(a[i].disabledAt, b[i].disabledAt)
  }

  predicate SameToken(a: Token, b: Token) {
    a.identityId == b.identityId && a.organizationId == b.organizationId && a.scope == b.scope && a.expiresAt == b.expiresAt
  }

  ghost predicate TokensGrow(a: map<Uuid, Token>, b: map<Uuid, Token>) {
    forall i | i in a :: i in b && SameToken(a[i], b[i]) && Kept(a[i].revokedAt, b[i].revokedAt)
  }

  predicate SameLogin(a: Login, b: Login) {
    a.userId == b.userId && a.organizationId == b.organizationId && a.kind == b.kind && a.expiresAt == b.expiresAt
  }

  ghost predicate LoginsGrow(a: map<Uuid, Login>, b: map<Uuid, Login>) {
    forall i | i in a :: i in b && SameLogin(a[i], b[i]) && Kept(a[i].revokedAt, b[i].revokedAt)
  }

  ghost predicate MembershipsGrow(a: map<Uuid, Membership>, b: map<Uuid, Membership>) {
    forall i | i in a ::
      && i in b && b[i].organizationId == a[i].organizationId && b[i].userId == a[i].userId
      && b[i].role == a[i].role && b[i].expiresAt == a[i].expiresAt && Kept(a[i].revokedAt, b[i].revokedAt)
  }

  predicate SameGrant(a: GrantRow, b: GrantRow) {
    && a.organizationId == b.organizationId && a.subjectType == b.subjectType && a.subjectId == b.subjectId
    && b.grant == a.grant.(revokedAt := b.grant.revokedAt)
  }

  ghost predicate GrantsGrow(a: map<Uuid, GrantRow>, b: map<Uuid, GrantRow>) {
    forall g | g in a :: g in b && SameGrant(a[g], b[g]) && Kept(a[g].grant.revokedAt, b[g].grant.revokedAt)
  }

  ghost predicate UsersGrow(a: map<Uuid, Option<Instant>>, b: map<Uuid, Option<Instant>>) {
    forall u | u in a :: u in b && b[u] == a[u]
  }

  /** Rows keep who and where they are for, and how long; a stamp is never lifted. */
  ghost predicate RecordsGrow(a: Records, b: Records) {
    && IdentitiesGrow(a.identities, b.identities)
    && TokensGrow(a.tokens, b.tokens)
    && LoginsGrow(a.logins, b.logins)
    && MembershipsGrow(a.memberships, b.memberships)
    && GrantsGrow(a.grants, b.grants)
    && UsersGrow(a.users, b.users)
  }

  ghost predicate Grows(w: World, v: World) {
    && v.tree == w.tree && w.now <= v.now && w.requests <= v.requests
    && RecordsGrow(w.db, v.db)
    && (forall s | s in w.roots :: s in v.roots && v.roots[s] == w.roots[s])
    && (forall s | s in w.minted :: s in v.minted && v.minted[s] == w.minted[s])
  }

  lemma GrowsIsTransitive(u: World, v: World, w: World)
    requires Grows(u, v) && Grows(v, w)
    ensures Grows(u, w)
  {
  }

  lemma RootSurvives(a: Records, b: Records, tree: Tree, root: Root, kind: SubjectType, subject: Uuid, org: Uuid, scope: Scope)
    requires RecordsGrow(a, b) && FixedByRoot(a, tree, root, kind, subject, org, scope)
    ensures FixedByRoot(b, tree, root, kind, subject, org, scope)
  {
  }

  lemma SourceSurvives(w: World, v: World, source: Uuid, root: Root)
    requires Grows(w, v) && KnownSource(w, source, root) && Disjoint(v)
    ensures KnownSource(v, source, root)
  {
  }

  predicate SameSession(a: RuntimeSession, b: RuntimeSession) {
    && a.organizationId == b.organizationId && a.subjectType == b.subjectType && a.subjectId == b.subjectId
    && a.scope == b.scope && a.source == b.source && a.expiresAt == b.expiresAt
  }

  /** Sessions of v are those of w, possibly stamped or purged. */
  ghost predicate SameSessions(a: map<Uuid, RuntimeSession>, b: map<Uuid, RuntimeSession>) {
    forall s | s in b :: s in a && SameSession(a[s], b[s]) && Kept(a[s].revokedAt, b[s].revokedAt)
  }

  /** Steps that begin or finish no exchange keep every session and exchange rooted. */
  lemma RootedSurvives(w: World, v: World)
    requires Disjoint(w) && Disjoint(v) && Rooted(w) && Grows(w, v)
    requires SameSessions(w.db.sessions, v.db.sessions) && v.inflight == w.inflight && v.roots == w.roots
    ensures Rooted(v)
  {
    hide RecordsGrow, FixedByRoot, KnownSource;
    forall s | s in v.db.sessions ensures GoodSession(v, v.db.sessions[s], v.roots[s]) {
      assert GoodSession(w, w.db.sessions[s], w.roots[s]);
      var x := v.db.sessions[s];
      RootSurvives(w.db, v.db, w.tree, w.roots[s], x.subjectType, x.subjectId, x.organizationId, x.scope);
      SourceSurvives(w, v, x.source, w.roots[s]);
    }
    forall q | q in v.inflight ensures GoodExchange(v, v.inflight[q]) {
      var x := w.inflight[q];
      assert GoodExchange(w, x);
      RootSurvives(w.db, v.db, w.tree, x.root, x.principal.kind, x.principal.id, x.principal.organizationId, x.scope);
      SourceSurvives(w, v, x.principal.credentialId, x.root);
    }
  }

  predicate IsExchangeStep(step: Step) {
    step.BeginExchange? || step.FinishExchange?
  }

  ghost predicate GoodRecords(r: Records, tree: Tree, now: Instant) {
    Timely(r, now) && TokensFiled(r.tokens, r.identities, tree) && OneMembershipEach(r.memberships)
  }

  ghost predicate Evolves(a: Records, b: Records, tree: Tree, now: Instant) {
    GoodRecords(b, tree, now) && RecordsGrow(a, b) && SameSessions(a.sessions, b.sessions)
  }

  lemma NothingEvolves(r: Records, tree: Tree, now: Instant, later: Instant)
    requires GoodRecords(r, tree, now) && now <= later
    ensures Evolves(r, r, tree, later)
  {
    hide TokensFiled, OneMembershipEach;
  }

  /** A transaction evolves the records if each table it changed does. */
  lemma TablesEvolve(a: Records, b: Records, tree: Tree, now: Instant)
    requires GoodRecords(a, tree, now)
    requires b.identities != a.identities ==> IdentitiesGrow(a.identities, b.identities) && TimelyIdentities(b.identities, now)
    requires b.tokens != a.tokens ==> TokensGrow(a.tokens, b.tokens) && TimelyTokens(b.tokens, now)
    requires b.tokens != a.tokens || b.identities != a.identities ==> TokensFiled(b.tokens, b.identities, tree)
    requires b.sessions != a.sessions ==> SameSessions(a.sessions, b.sessions) && TimelySessions(b.sessions, now)
    requires b.logins != a.logins ==> LoginsGrow(a.logins, b.logins) && TimelyLogins(b.logins, now)
    requires b.memberships != a.memberships ==>
      MembershipsGrow(a.memberships, b.memberships) && TimelyMemberships(b.memberships, now) && OneMembershipEach(b.memberships)
    requires b.grants != a.grants ==> GrantsGrow(a.grants, b.grants) && TimelyGrants(b.grants, now)
    requires b.users != a.users ==> UsersGrow(a.users, b.users)
    ensures Evolves(a, b, tree, now)
  {
    hide TimelyIdentities, TimelyTokens, TimelySessions, TimelyLogins, TimelyMemberships, TimelyGrants, TokensFiled,
      OneMembershipEach, IdentitiesGrow, TokensGrow, LoginsGrow, MembershipsGrow, GrantsGrow, UsersGrow, SameSessions;
    NothingEvolves(a, tree, now, now);
  }

  lemma TokenInsertEvolves(r: Records, tree: Tree, now: Instant, id: Uuid, token: Token)
    requires GoodRecords(r, tree, now) && id !in r.tokens && token.revokedAt.None?
    requires TokensFiled(map[id := token], r.identities, tree)
    ensures Evolves(r, r.(tokens := r.tokens[id := token]), tree, now)
  {
    hide Evolves, OneMembershipEach;
    assert id in map[id := token] && map[id := token][id] == token;
    TablesEvolve(r, r.(tokens := r.tokens[id := token]), tree, now);
  }

  lemma IdentityInsertEvolves(r: Records, tree: Tree, now: Instant, id: Uuid, identity: Identity)
    requires GoodRecords(r, tree, now) && id !in r.identities && identity.disabledAt.None?
    ensures Evolves(r, r.(identities := r.identities[id := identity]), tree, now)
  {
    hide Evolves, OneMembershipEach;
    TablesEvolve(r, r.(identities := r.identities[id := identity]), tree, now);
  }

  lemma MembershipInsertEvolves(r: Records, tree: Tree, now: Instant, id: Uuid, m: Membership)
    requires GoodRecords(r, tree, now) && id !in r.memberships && m.revokedAt.None?
    requires forall x | x in r.memberships :: !IsMembership(r.memberships, m.organizationId, m.userId, x)
    ensures Evolves(r, r.(memberships := r.memberships[id := m]), tree, now)
  {
    hide Evolves, TokensFiled;
    TablesEvolve(r, r.(memberships := r.memberships[id := m]), tree, now);
  }

  lemma LoginsEvolve(r: Records, tree: Tree, now: Instant, logins: map<Uuid, Login>)
    requires GoodRecords(r, tree, now) && LoginsGrow(r.logins, logins) && TimelyLogins(logins, now)
    ensures Evolves(r, r.(logins := logins), tree, now)
  {
    hide Evolves, TokensFiled, OneMembershipEach, LoginsGrow;
    TablesEvolve(r, r.(logins := logins), tree, now);
  }

  lemma GrantsEvolve(r: Records, tree: Tree, now: Instant, grants: map<Uuid, GrantRow>)
    requires GoodRecords(r, tree, now) && GrantsGrow(r.grants, grants) && TimelyGrants(grants, now)
    ensures Evolves(r, r.(grants := grants), tree, now)
  {
    hide Evolves, TokensFiled, OneMembershipEach, GrantsGrow;
    TablesEvolve(r, r.(grants := grants), tree, now);
  }

  lemma PurgeEvolves(r: Records, tree: Tree, olderThan: int, now: Instant)
    requires GoodRecords(r, tree, now)
    ensures Evolves(r, r.(sessions := Purged(r.sessions, olderThan, now)), tree, now)
  {
    hide Evolves, TokensFiled, OneMembershipEach;
    TablesEvolve(r, r.(sessions := Purged(r.sessions, olderThan, now)), tree, now);
  }

  lemma UsersEvolve(r: Records, tree: Tree, now: Instant, users: map<Uuid, Option<Instant>>)
    requires GoodRecords(r, tree, now) && UsersGrow(r.users, users)
    ensures Evolves(r, r.(users := users), tree, now)
  {
    hide Evolves, GoodRecords;
    TablesEvolve(r, r.(users := users), tree, now);
  }

  lemma SourceStamped(sessions: map<Uuid, RuntimeSession>, source: Uuid, now: Instant)
    requires TimelySessions(sessions, now)
    ensures SameSessions(sessions, WithoutSource(sessions, source, now))
    ensures TimelySessions(WithoutSource(sessions, source, now), now)
  {
  }

  lemma IdentityStamped(r: Records, org: Uuid, id: Uuid, now: Instant)
    requires TimelySessions(r.sessions, now)
    ensures SameSessions(r.sessions, WithoutIdentity(r, org, id, now))
    ensures TimelySessions(WithoutIdentity(r, org, id, now), now)
  {
  }

  lemma TokenRevokedEvolves(r: Records, tree: Tree, org: Uuid, id: Uuid, now: Instant)
    requires GoodRecords(r, tree, now) && TokenRevoked(r, org, id, now).Ok?
    ensures Evolves(r, TokenRevoked(r, org, id, now).value, tree, now)
  {
    hide Evolves, SameSessions, WithoutSource, TimelySessions, OneMembershipEach;
    SourceStamped(r.sessions, id, now);
    TablesEvolve(r, TokenRevoked(r, org, id, now).value, tree, now);
  }

  lemma IdentityDisabledEvolves(r: Records, tree: Tree, org: Uuid, id: Uuid, now: Instant)
    requires GoodRecords(r, tree, now) && IdentityDisabled(r, org, id, now).Ok?
    ensures Evolves(r, IdentityDisabled(r, org, id, now).value, tree, now)
  {
    hide Evolves, SameSessions, WithoutIdentity, TimelySessions, OneMembershipEach;
    IdentityStamped(r, org, id, now);
    TablesEvolve(r, IdentityDisabled(r, org, id, now).value, tree, now);
  }

  lemma MembershipRevokedEvolves(r: Records, tree: Tree, org: Uuid, id: Uuid, now: Instant)
    requires GoodRecords(r, tree, now) && MembershipRevoked(r, org, id, now).Ok?
    ensures Evolves(r, MembershipRevoked(r, org, id, now).value.0, tree, now)
  {
    hide Evolves, TokensFiled;
    TablesEvolve(r, MembershipRevoked(r, org, id, now).value.0, tree, now);
  }

  lemma OtherStepEvolves(w: World, step: Step)
    requires GoodRecords(w.db, w.tree, w.now) && !IsExchangeStep(step)
    ensures var v := Next(w, step);
      && Evolves(w.db, v.db, w.tree, v.now) && w.now <= v.now
      && v == w.(db := v.db, now := v.now)
  {
    hide GoodRecords, Evolves, Fresh, TokensFiled, Purged, WithoutLoginsOf, LoginsGrow;
    var r, tree, now := w.db, w.tree, w.now;
    NothingEvolves(r, tree, now, Next(w, step).now);
    if MayInsert(w, step) {
      match step
      case Tick(_) =>
      case CreateIdentity(id, identity) => FreshRow(w, id); IdentityInsertEvolves(r, tree, now, id, identity);
      case CreateToken(id, token) => FreshRow(w, id); NewTokenIsFiled(w, id, token); TokenInsertEvolves(r, tree, now, id, token);
      case CreateMembership(id, m) => FreshRow(w, id); MembershipInsertEvolves(r, tree, now, id, m);
      case CreateGrant(id, g) => FreshRow(w, id); GrantStampsPast(r, tree, now, id, g); GrantsEvolve(r, tree, now, r.grants[id := g]);
      case CreateUser(id) => FreshRow(w, id); UsersEvolve(r, tree, now, r.users[id := None]);
      case CreateLogin(id, l) => FreshRow(w, id); LoginStamps(r, tree, now, id, l); LoginsEvolve(r, tree, now, r.logins[id := l]);
      case RevokeToken(org, id) =>
        if TokenRevoked(r, org, id, now).Ok? { TokenRevokedEvolves(r, tree, org, id, now); }
      case DisableIdentity(org, id) =>
        if IdentityDisabled(r, org, id, now).Ok? { IdentityDisabledEvolves(r, tree, org, id, now); }
      case RevokeMembership(org, id) =>
        if MembershipRevoked(r, org, id, now).Ok? { MembershipRevokedEvolves(r, tree, org, id, now); }
      case RevokeGrant(org, id) =>
        if GrantRevoked(r, org, id, now).Ok? {
          GrantStampsPast(r, tree, now, id, GrantRevoked(r, org, id, now).value.grants[id]);
          GrantsEvolve(r, tree, now, GrantRevoked(r, org, id, now).value.grants);
        }
      case RevokeLogin(id) =>
        if id in r.logins {
          LoginStamps(r, tree, now, id, r.logins[id].(revokedAt := Stamped(r.logins[id].revokedAt, now)));
          LoginsEvolve(r, tree, now, r.logins[id := r.logins[id].(revokedAt := Stamped(r.logins[id].revokedAt, now))]);
        }
      case RevokeLoginsOf(userId) => LoginsStamped(r, tree, now, userId); LoginsEvolve(r, tree, now, WithoutLoginsOf(r.logins, userId, now));
      case Purge(olderThan) => PurgeEvolves(r, tree, olderThan, now);
    }
  }

  lemma FreshRow(w: World, id: Uuid)
    requires Fresh(w, id)
    ensures id !in w.db.identities && id !in w.db.tokens && id !in w.db.logins && id !in w.db.memberships && id !in w.db.grants && id !in w.db.users && id !in w.roots
  {
  }

  lemma NewTokenIsFiled(w: World, id: Uuid, token: Token)
    requires MayInsert(w, CreateToken(id, token))
    ensures TokensFiled(map[id := token], w.db.identities, w.tree)
  {
  }

  lemma GrantStampsPast(r: Records, tree: Tree, now: Instant, id: Uuid, g: GrantRow)
    requires GoodRecords(r, tree, now) && Past(g.grant.revokedAt, now)
    requires id in r.grants ==> SameGrant(r.grants[id], g) && Kept(r.grants[id].grant.revokedAt, g.grant.revokedAt)
    ensures GrantsGrow(r.grants, r.grants[id := g])
    ensures TimelyGrants(r.grants[id := g], now)
  {
    hide TokensFiled, OneMembershipEach;
  }

  lemma LoginStamps(r: Records, tree: Tree, now: Instant, id: Uuid, l: Login)
    requires GoodRecords(r, tree, now)
    requires Past(l.revokedAt, now) || (id in r.logins && l.revokedAt == r.logins[id].revokedAt)
    requires id in r.logins ==> SameLogin(r.logins[id], l) && Kept(r.logins[id].revokedAt, l.revokedAt)
    ensures LoginsGrow(r.logins, r.logins[id := l])
    ensures TimelyLogins(r.logins[id := l], now)
  {
    hide TokensFiled, OneMembershipEach;
  }

  lemma LoginsStamped(r: Records, tree: Tree, now: Instant, userId: Uuid)
    requires GoodRecords(r, tree, now)
    ensures var after := WithoutLoginsOf(r.logins, userId, now);
      LoginsGrow(r.logins, after) && TimelyLogins(after, now)
  {
    hide TokensFiled, OneMembershipEach;
  }

  // ---------------------------------------------------------------------------
  // Exchanges, and runs
  // ---------------------------------------------------------------------------

  lemma OtherStepKeepsDisjoint(w: World, step: Step)
    requires Sound(w) && !IsExchangeStep(step)
    ensures Disjoint(Next(w, step))
  {
    hide Rooted, Timely, TokensFiled, OneMembershipEach, Numbered, TokenRevoked, IdentityDisabled, MembershipRevoked, GrantRevoked, Purged, WithoutLoginsOf;
    var v := Next(w, step);
    KeysOf(w, step);
  }

  /** Only an insert adds a token or a login, and under a fresh identifier. */
  lemma KeysOf(w: World, step: Step)
    requires GoodRecords(w.db, w.tree, w.now) && !IsExchangeStep(step)
    ensures var v := Next(w, step);
      && v.roots == w.roots
      && (forall s | s in v.db.sessions :: s in w.db.sessions)
      && (forall t | t in v.db.tokens :: t in w.db.tokens || (step.CreateToken? && t == step.id && Fresh(w, t)))
      && (forall l | l in v.db.logins :: l in w.db.logins || (step.CreateLogin? && l == step.id && Fresh(w, l)))
      && (v.db.tokens.Keys == w.db.tokens.Keys || v.db.logins.Keys == w.db.logins.Keys)
  {
    hide Fresh, Stamped, GoodRecords, RecordsGrow, WithoutSource, WithoutIdentity, WithoutGrantsTo;
    OtherStepEvolves(w, step);
    assert MayInsert(w, step) ==> match step case CreateToken(id, _) => Fresh(w, id) case CreateLogin(id, _) => Fresh(w, id) case _ => true;
    hide MayInsert;
    match step
    case RevokeToken(_, _) =>
    case RevokeMembership(_, _) =>
    case RevokeLogin(_) =>
    case RevokeLoginsOf(_) =>
    case CreateToken(_, _) =>
    case CreateLogin(_, _) =>
    case _ =>
  }

  lemma OtherStepKeeps(w: World, step: Step)
    requires Sound(w) && !IsExchangeStep(step)
    ensures Sound(Next(w, step)) && Grows(w, Next(w, step))
  {
    hide Rooted, Timely, TokensFiled, OneMembershipEach, Next, RecordsGrow, SameSessions;
    var v := Next(w, step);
    OtherStepEvolves(w, step);
    OtherStepKeepsDisjoint(w, step);
    RootedSurvives(w, v);
  }

  /** The principal a credential authenticates as is the one its root fixes. */
  lemma PrincipalIsFixedByRoot(w: World, c: Credential, named: Named)
    requires Sound(w) && Resolve(w.db, w.tree, c, named, w.now).Ok?
    ensures var (p, scope) := Resolve(w.db, w.tree, c, named, w.now).value;
      GoodExchange(w, Exchange(p, scope, RootOf(w, c))) && p.credentialId == c.id
  {
    hide Timely, OneMembershipEach, Numbered, GetMembership;
    match c
    case MachineToken(id) =>
    case UserLogin(id) =>
    case Runtime(id) =>
      assert GoodSession(w, w.db.sessions[id], w.roots[id]);
  }

  lemma BeginKeeps(w: World, c: Credential, named: Named)
    requires Sound(w)
    ensures var v := Next(w, BeginExchange(c, named)); Sound(v) && Grows(w, v)
  {
    hide Timely, TokensFiled, OneMembershipEach, FixedByRoot, Resolve, RecordsGrow;
    NothingEvolves(w.db, w.tree, w.now, w.now);
    var v := Next(w, BeginExchange(c, named));
    if Resolve(w.db, w.tree, c, named, w.now).Ok? {
      PrincipalIsFixedByRoot(w, c, named);
      forall s | s in v.db.sessions ensures GoodSession(v, v.db.sessions[s], v.roots[s]) {
        assert GoodSession(w, w.db.sessions[s], w.roots[s]);
      }
      forall q | q in v.inflight ensures GoodExchange(v, v.inflight[q]) {
        assert q != w.requests ==> GoodExchange(w, w.inflight[q]);
      }
    }
  }

  lemma GoodSessionSurvives(w: World, v: World, s: RuntimeSession, root: Root)
    requires GoodSession(w, s, root) && Grows(w, v) && Disjoint(v)
    ensures GoodSession(v, s, root)
  {
    hide RecordsGrow, FixedByRoot, KnownSource;
    RootSurvives(w.db, v.db, w.tree, root, s.subjectType, s.subjectId, s.organizationId, s.scope);
    SourceSurvives(w, v, s.source, root);
  }

  lemma GoodExchangeSurvives(w: World, v: World, x: Exchange)
    requires GoodExchange(w, x) && Grows(w, v) && Disjoint(v)
    ensures GoodExchange(v, x)
  {
    hide RecordsGrow, FixedByRoot, KnownSource;
    RootSurvives(w.db, v.db, w.tree, x.root, x.principal.kind, x.principal.id, x.principal.organizationId, x.scope);
    SourceSurvives(w, v, x.principal.credentialId, x.root);
  }

  lemma FinishGrows(w: World, request: nat, id: Uuid)
    requires Sound(w)
    ensures Grows(w, Next(w, FinishExchange(request, id)))
  {
    hide Rooted, Timely, TokensFiled, OneMembershipEach, IdentitiesGrow, TokensGrow, LoginsGrow, MembershipsGrow, GrantsGrow, UsersGrow;
    NothingEvolves(w.db, w.tree, w.now, w.now);
  }

  lemma FinishKeepsRoots(w: World, request: nat, id: Uuid)
    requires Sound(w) && request in w.inflight && Fresh(w, id)
    ensures Rooted(Next(w, FinishExchange(request, id)))
  {
    hide Timely, TokensFiled, OneMembershipEach, GoodSession, GoodExchange, Grows;
    FinishGrows(w, request, id);
    var v := Next(w, FinishExchange(request, id));
    MintedIsGood(w, w.inflight[request]);
    forall s | s in v.db.sessions ensures GoodSession(v, v.db.sessions[s], v.roots[s]) {
      GoodSessionSurvives(w, v, v.db.sessions[s], v.roots[s]);
    }
    forall q | q in v.inflight ensures GoodExchange(v, v.inflight[q]) {
      GoodExchangeSurvives(w, v, w.inflight[q]);
    }
  }

  lemma FinishKeeps(w: World, request: nat, id: Uuid)
    requires Sound(w)
    ensures var v := Next(w, FinishExchange(request, id)); Sound(v) && Grows(w, v)
  {
    hide TokensFiled, OneMembershipEach, Rooted, Grows, TimelyIdentities, TimelyTokens, TimelyLogins, TimelyMemberships, TimelyGrants;
    FinishGrows(w, request, id);
    if request in w.inflight && Fresh(w, id) {
      FinishKeepsRoots(w, request, id);
    }
  }

  lemma MintedIsGood(w: World, x: Exchange)
    requires GoodExchange(w, x)
    ensures GoodSession(w, Minted(x.principal, x.scope, w.now, w.ttl), x.root)
  {
    hide FixedByRoot, KnownSource;
  }

  lemma StepKeeps(w: World, step: Step)
    requires Sound(w)
    ensures Sound(Next(w, step)) && Grows(w, Next(w, step))
  {
    hide Sound, Grows, Next;
    match step
    case BeginExchange(c, named) => BeginKeeps(w, c, named);
    case FinishExchange(request, id) => FinishKeeps(w, request, id);
    case _ => OtherStepKeeps(w, step);
  }

  lemma GrowsIsReflexive(w: World)
    requires Sound(w)
    ensures Grows(w, w)
  {
    hide Rooted, TokensFiled, OneMembershipEach;
    NothingEvolves(w.db, w.tree, w.now, w.now);
  }

  lemma {:induction false} RunKeeps(w: World, steps: seq<Step>)
    requires Sound(w)
    ensures Sound(Run(w, steps)) && Grows(w, Run(w, steps))
    decreases |steps|
  {
    hide Sound, Grows, Next;
    if steps == [] {
      GrowsIsReflexive(w);
    } else {
      StepKeeps(w, steps[0]);
      RunKeeps(Next(w, steps[0]), steps[1..]);
      GrowsIsTransitive(w, Next(w, steps[0]), Run(w, steps));
    }
  }
}
