/** internal/store/machines.go, internal/identity and internal/httpapi/runtime.go:
    machine tokens, the runtime sessions exchanged for them, logins, memberships and
    grants, and how each stops working. A presented credential is named by the row it
    was minted for; the secret half always verifies. */
module Machines {
  import opened Outcomes
  import opened Domain
  import Authz

  // ---------------------------------------------------------------------------
  // Rows
  // ---------------------------------------------------------------------------

  datatype Identity = Identity(organizationId: Uuid, disabledAt: Option<Instant>, expiresAt: Option<Instant>)

  datatype Token = Token(
    identityId: Uuid, organizationId: Uuid, scope: Scope, expiresAt: Option<Instant>, revokedAt: Option<Instant>)
  {
    predicate Active(now: Instant) {
      !Reached(revokedAt, now) && !Reached(expiresAt, now)
    }
  }

  datatype RuntimeSession = RuntimeSession(
    organizationId: Uuid, subjectType: SubjectType, subjectId: Uuid, scope: Scope,
    source: Uuid, expiresAt: Instant, revokedAt: Option<Instant>)

  datatype Login = Login(
    userId: Uuid, organizationId: Uuid, kind: SessionKind, expiresAt: Instant, revokedAt: Option<Instant>)

  datatype Membership = Membership(
    organizationId: Uuid, userId: Uuid, role: Role, expiresAt: Option<Instant>, revokedAt: Option<Instant>)
  {
    predicate Active(now: Instant) {
      !Reached(revokedAt, now) && !Reached(expiresAt, now)
    }
  }

  datatype GrantRow = GrantRow(organizationId: Uuid, subjectType: SubjectType, subjectId: Uuid, grant: Grant)

  datatype Records = Records(
    identities: map<Uuid, Identity>,
    tokens: map<Uuid, Token>,
    sessions: map<Uuid, RuntimeSession>,
    logins: map<Uuid, Login>,
    memberships: map<Uuid, Membership>,
    grants: map<Uuid, GrantRow>,
    users: map<Uuid, Option<Instant>>)

  // Which project an environment is in, and which organization a project is in.
  datatype Tree = Tree(projects: map<Uuid, Uuid>, environments: map<Uuid, Uuid>)
  {
    predicate HasProject(organizationId: Uuid, projectId: Uuid) {
      projectId in projects && projects[projectId] == organizationId
    }

    predicate HasEnvironment(organizationId: Uuid, environmentId: Uuid) {
      environmentId in environments && HasProject(organizationId, environments[environmentId])
    }
  }

  datatype StoreError = NotFound

  // ---------------------------------------------------------------------------
  // Statements
  // ---------------------------------------------------------------------------

  /** UPDATE ... SET revoked_at = now() WHERE revoked_at IS NULL. */
  function Stamped(at: Option<Instant>, now: Instant): Option<Instant> {
    if at.None? then Some(now) else at
  }

  function WithoutSource(sessions: map<Uuid, RuntimeSession>, source: Uuid, now: Instant): map<Uuid, RuntimeSession> {
    map s | s in sessions ::
      if sessions[s].source == source then sessions[s].(revokedAt := Stamped(sessions[s].revokedAt, now)) else sessions[s]
  }

  predicate IsTokenOf(tokens: map<Uuid, Token>, source: Uuid, identityId: Uuid) {
    source in tokens && tokens[source].identityId == identityId
  }

  function WithoutIdentity(r: Records, organizationId: Uuid, identityId: Uuid, now: Instant): map<Uuid, RuntimeSession> {
    map s | s in r.sessions ::
      if r.sessions[s].organizationId == organizationId && IsTokenOf(r.tokens, r.sessions[s].source, identityId)
      then r.sessions[s].(revokedAt := Stamped(r.sessions[s].revokedAt, now)) else r.sessions[s]
  }

  function TokenRevoked(r: Records, organizationId: Uuid, id: Uuid, now: Instant): Result<Records, StoreError> {
    if id in r.tokens && r.tokens[id].organizationId == organizationId && r.tokens[id].revokedAt.None? then
      Ok(r.(tokens := r.tokens[id := r.tokens[id].(revokedAt := Some(now))],
            sessions := WithoutSource(r.sessions, id, now)))
    else Err(NotFound)
  }

  function IdentityDisabled(r: Records, organizationId: Uuid, id: Uuid, now: Instant): Result<Records, StoreError> {
    if id in r.identities && r.identities[id].organizationId == organizationId && r.identities[id].disabledAt.None? then
      Ok(r.(identities := r.identities[id := r.identities[id].(disabledAt := Some(now))],
            sessions := WithoutIdentity(r, organizationId, id, now)))
    else Err(NotFound)
  }

  function Purged(sessions: map<Uuid, RuntimeSession>, olderThan: int, now: Instant): map<Uuid, RuntimeSession> {
    map s | s in sessions && !(sessions[s].expiresAt < now - olderThan) :: sessions[s]
  }

  function WithoutGrantsTo(grants: map<Uuid, GrantRow>, organizationId: Uuid, userId: Uuid, now: Instant): map<Uuid, GrantRow> {
    map g | g in grants ::
      if grants[g].organizationId == organizationId && grants[g].subjectType == User && grants[g].subjectId == userId
      then grants[g].(grant := grants[g].grant.(revokedAt := Stamped(grants[g].grant.revokedAt, now))) else grants[g]
  }

  function WithoutLoginsOf(logins: map<Uuid, Login>, userId: Uuid, now: Instant): map<Uuid, Login> {
    map l | l in logins ::
      if logins[l].userId == userId then logins[l].(revokedAt := Stamped(logins[l].revokedAt, now)) else logins[l]
  }

  function MembershipRevoked(r: Records, organizationId: Uuid, id: Uuid, now: Instant): Result<(Records, Uuid), StoreError> {
    if id in r.memberships && r.memberships[id].organizationId == organizationId && r.memberships[id].revokedAt.None? then
      var userId := r.memberships[id].userId;
      Ok((r.(memberships := r.memberships[id := r.memberships[id].(revokedAt := Some(now))],
             grants := WithoutGrantsTo(r.grants, organizationId, userId, now),
             logins := WithoutLoginsOf(r.logins, userId, now)), userId))
    else Err(NotFound)
  }

  function GrantRevoked(r: Records, organizationId: Uuid, id: Uuid, now: Instant): Result<Records, StoreError> {
    if id in r.grants && r.grants[id].organizationId == organizationId && r.grants[id].grant.revokedAt.None? then
      Ok(r.(grants := r.grants[id := r.grants[id].(grant := r.grants[id].grant.(revokedAt := Some(now)))]))
    else Err(NotFound)
  }

  /** The repositories, one transaction a method. */
  class Repo {
    var db: Records

    constructor (db: Records)
      ensures this.db == db
    {
      this.db := db;
    }

    method RevokeToken(organizationId: Uuid, id: Uuid, now: Instant) returns (r: Result<(), StoreError>)
      modifies this
      ensures var spec := TokenRevoked(old(db), organizationId, id, now);
        if spec.Ok? then r == Ok(()) && db == spec.value else r == Err(NotFound) && db == old(db)
    {
      if id !in db.tokens || db.tokens[id].organizationId != organizationId || db.tokens[id].revokedAt.Some? {
        return Err(NotFound);
      }
      db := db.(tokens := db.tokens[id := db.tokens[id].(revokedAt := Some(now))]);
      db := db.(sessions := WithoutSource(db.sessions, id, now));
      r := Ok(());
    }

    method DisableIdentity(organizationId: Uuid, id: Uuid, now: Instant) returns (r: Result<(), StoreError>)
      modifies this
      ensures var spec := IdentityDisabled(old(db), organizationId, id, now);
        if spec.Ok? then r == Ok(()) && db == spec.value else r == Err(NotFound) && db == old(db)
    {
      if id !in db.identities || db.identities[id].organizationId != organizationId || db.identities[id].disabledAt.Some? {
        return Err(NotFound);
      }
      db := db.(identities := db.identities[id := db.identities[id].(disabledAt := Some(now))]);
      db := db.(sessions := WithoutIdentity(db, organizationId, id, now));
      r := Ok(());
    }

    method PurgeExpiredRuntimeSessions(olderThan: int, now: Instant) returns (removed: nat)
      modifies this
      ensures db == old(db).(sessions := Purged(old(db).sessions, olderThan, now))
      ensures removed == |old(db).sessions| - |db.sessions|
    {
      var kept := Purged(db.sessions, olderThan, now);
      FewerRows(kept.Keys, db.sessions.Keys);
      removed := |db.sessions| - |kept|;
      db := db.(sessions := kept);
    }

    /** Three things go, not one. */
    method RevokeMembership(organizationId: Uuid, id: Uuid, now: Instant) returns (r: Result<Uuid, StoreError>)
      modifies this
      ensures var spec := MembershipRevoked(old(db), organizationId, id, now);
        if spec.Ok? then r == Ok(spec.value.1) && db == spec.value.0 else r == Err(NotFound) && db == old(db)
    {
      if id !in db.memberships || db.memberships[id].organizationId != organizationId || db.memberships[id].revokedAt.Some? {
        return Err(NotFound);
      }
      var userId := db.memberships[id].userId;
      db := db.(memberships := db.memberships[id := db.memberships[id].(revokedAt := Some(now))]);
      db := db.(grants := WithoutGrantsTo(db.grants, organizationId, userId, now));
      db := db.(logins := WithoutLoginsOf(db.logins, userId, now));
      r := Ok(userId);
    }
  }

  lemma FewerRows(a: set<Uuid>, b: set<Uuid>)
    requires a <= b
    ensures |a| <= |b|
  {
    assert b == a + (b - a);
  }

  // ---------------------------------------------------------------------------
  // Authentication
  // ---------------------------------------------------------------------------

  datatype Credential = MachineToken(id: Uuid) | Runtime(id: Uuid) | UserLogin(id: Uuid)

  /** MachineTokenProvider.Authenticate: the token and the identity behind it. */
  function AuthenticateToken(r: Records, id: Uuid, now: Instant): Option<Principal> {
    if id !in r.tokens || r.tokens[id].identityId !in r.identities then None
    else
      var t := r.tokens[id];
      var identity := r.identities[t.identityId];
      if !t.Active(now) then None
      else if Reached(identity.disabledAt, now) then None
      else if Reached(identity.expiresAt, now) then None
      else Some(Principal(Machine, t.identityId, t.organizationId, Some(t.scope), id, NoRole, NotASession))
  }

  /** RuntimeSessionProvider.Authenticate: the session's own record, and nothing else. */
  function AuthenticateRuntime(sessions: map<Uuid, RuntimeSession>, id: Uuid, now: Instant): Option<Principal> {
    if id !in sessions then None
    else
      var s := sessions[id];
      if Reached(s.revokedAt, now) || s.expiresAt <= now then None
      else Some(Principal(s.subjectType, s.subjectId, s.organizationId, Some(s.scope), id, NoRole, NotASession))
  }

  predicate IsMembership(ms: map<Uuid, Membership>, organizationId: Uuid, userId: Uuid, id: Uuid) {
    id in ms && ms[id].organizationId == organizationId && ms[id].userId == userId
  }

  ghost function GetMembership(ms: map<Uuid, Membership>, organizationId: Uuid, userId: Uuid): Option<Membership> {
    if exists id :: IsMembership(ms, organizationId, userId, id)
    then var id :| IsMembership(ms, organizationId, userId, id); Some(ms[id])
    else None
  }

  /** UserSessionProvider.Authenticate: the membership is read again every time. */
  ghost function AuthenticateLogin(r: Records, id: Uuid, allowed: set<SessionKind>, now: Instant): Option<Principal> {
    if id !in r.logins || r.logins[id].kind !in allowed then None
    else
      var l := r.logins[id];
      if Reached(l.revokedAt, now) || l.expiresAt <= now then None
      else
        var m := if l.organizationId == NIL then None else GetMembership(r.memberships, l.organizationId, l.userId);
        if l.organizationId != NIL && (m.None? || !m.value.Active(now)) then None
        else if l.userId !in r.users || Reached(r.users[l.userId], now) then None
        else Some(Principal(User, l.userId, l.organizationId, None, id, if m.Some? then m.value.role else NoRole, l.kind))
  }

  /** The chain in front of the runtime endpoints. */
  ghost function AuthenticateRuntimeApi(r: Records, c: Credential, now: Instant): Option<Principal> {
    match c
    case MachineToken(id) => AuthenticateToken(r, id, now)
    case Runtime(id) => AuthenticateRuntime(r.sessions, id, now)
    case UserLogin(id) => AuthenticateLogin(r, id, {Cli}, now)
  }

  /** GrantsForSubject: the subject's rows that are neither revoked nor expired. */
  ghost predicate IsGrantsFor(r: Records, organizationId: Uuid, subjectType: SubjectType, subjectId: Uuid, now: Instant, out: seq<Grant>) {
    forall g :: g in out <==> exists id :: Holds(r, organizationId, subjectType, subjectId, now, id) && r.grants[id].grant == g
  }

  predicate Holds(r: Records, organizationId: Uuid, subjectType: SubjectType, subjectId: Uuid, now: Instant, id: Uuid) {
    && id in r.grants
    && r.grants[id].organizationId == organizationId
    && r.grants[id].subjectType == subjectType
    && r.grants[id].subjectId == subjectId
    && r.grants[id].grant.revokedAt.None?
    && (r.grants[id].grant.expiresAt.None? || r.grants[id].grant.expiresAt.value > now)
  }

  // ---------------------------------------------------------------------------
  // The exchange
  // ---------------------------------------------------------------------------

  // The project and environment a request names, as its slugs resolve.
  datatype Named = Unnamed | Unresolvable | Resolves(environmentId: Uuid)

  datatype ExchangeError = Unauthorized | Validation | ScopeNotFound | Forbidden

  /** The ceiling of the session about to be minted: the presented credential's own,
      or, for a login, USE_SECRET in one environment of the caller's organization. */
  function ResolveRuntimeScope(tree: Tree, p: Principal, named: Named): Result<Scope, ExchangeError> {
    match p.scope
    case Some(scope) =>
      (match named
       case Unnamed => Ok(scope)
       case Unresolvable => Err(ScopeNotFound)
       case Resolves(env) =>
         if !tree.HasEnvironment(p.organizationId, env) then Err(ScopeNotFound)
         else if tree.environments[env] != scope.projectId || env != scope.environmentId then Err(Forbidden)
         else Ok(scope))
    case None =>
      (match named
       case Unnamed => Err(Validation)
       case Unresolvable => Err(ScopeNotFound)
       case Resolves(env) =>
         if !tree.HasEnvironment(p.organizationId, env) then Err(ScopeNotFound)
         else Ok(Scope(tree.environments[env], env, [UseSecret], [])))
  }

  /** handleRuntimeAuth up to the insert: who asks, and under what ceiling. */
  ghost function Resolve(r: Records, tree: Tree, c: Credential, named: Named, now: Instant): Result<(Principal, Scope), ExchangeError> {
    var p := AuthenticateRuntimeApi(r, c, now);
    if p.None? then Err(Unauthorized)
    else
      var scope := ResolveRuntimeScope(tree, p.value, named);
      if scope.Err? then Err(scope.error)
      else if !tree.HasProject(p.value.organizationId, scope.value.projectId) then Err(ScopeNotFound)
      else if !tree.HasEnvironment(p.value.organizationId, scope.value.environmentId) then Err(ScopeNotFound)
      else Ok((p.value, scope.value))
  }

  function Minted(p: Principal, scope: Scope, now: Instant, ttl: int): RuntimeSession {
    RuntimeSession(p.organizationId, p.kind, p.id, scope, p.credentialId, now + ttl, None)
  }

  // ---------------------------------------------------------------------------
  // Runs
  // ---------------------------------------------------------------------------

  // The first credential of a chain of exchanges.
  datatype Root = TokenRoot(id: Uuid) | LoginRoot(id: Uuid)

  // A request that has authenticated and not yet inserted.
  datatype Exchange = Exchange(principal: Principal, scope: Scope, root: Root)

  // `roots` and `minted` are history: the root of every session ever inserted, and
  // the request that inserted it. Requests are numbered as they begin.
  datatype World = World(
    now: Instant,
    ttl: int,
    tree: Tree,
    db: Records,
    inflight: map<nat, Exchange>,
    requests: nat,
    roots: map<Uuid, Root>,
    minted: map<Uuid, nat>)

  datatype Step =
    | Tick(to: Instant)
    | CreateIdentity(id: Uuid, identity: Identity)
    | CreateToken(id: Uuid, token: Token)
    | CreateMembership(id: Uuid, membership: Membership)
    | CreateGrant(id: Uuid, grant: GrantRow)
    | CreateUser(id: Uuid)
    | CreateLogin(id: Uuid, login: Login)
    | BeginExchange(credential: Credential, named: Named)
    | FinishExchange(request: nat, id: Uuid)
    | RevokeToken(organizationId: Uuid, id: Uuid)
    | DisableIdentity(organizationId: Uuid, id: Uuid)
    | RevokeMembership(organizationId: Uuid, id: Uuid)
    | RevokeGrant(organizationId: Uuid, id: Uuid)
    | RevokeLogin(id: Uuid)
    | RevokeLoginsOf(userId: Uuid)
    | Purge(olderThan: int)

  /** Random identifiers never repeat, across tables and across time. */
  predicate Fresh(w: World, id: Uuid) {
    && id !in w.db.identities && id !in w.db.tokens && id !in w.db.logins && id !in w.db.sessions
    && id !in w.db.memberships && id !in w.db.grants && id !in w.db.users && id !in w.roots
  }

  function RootOf(w: World, c: Credential): Root {
    match c
    case MachineToken(id) => TokenRoot(id)
    case UserLogin(id) => LoginRoot(id)
    case Runtime(id) => if id in w.roots then w.roots[id] else TokenRoot(NIL)
  }

  function Applied(w: World, r: Result<Records, StoreError>): World {
    if r.Ok? then w.(db := r.value) else w
  }

  predicate MayInsert(w: World, step: Step) {
    match step
    case CreateIdentity(id, identity) => Fresh(w, id) && identity.disabledAt.None?
    case CreateToken(id, token) =>
      && Fresh(w, id) && token.revokedAt.None?
      && token.identityId in w.db.identities && w.db.identities[token.identityId].organizationId == token.organizationId
      && w.tree.HasEnvironment(token.organizationId, token.scope.environmentId)
      && w.tree.environments[token.scope.environmentId] == token.scope.projectId
    case CreateMembership(id, m) =>
      && Fresh(w, id) && m.revokedAt.None?
      && (forall x | x in w.db.memberships :: !IsMembership(w.db.memberships, m.organizationId, m.userId, x))
    case CreateGrant(id, g) => Fresh(w, id) && g.grant.revokedAt.None?
    case CreateUser(id) => Fresh(w, id)
    case CreateLogin(id, l) => Fresh(w, id) && l.revokedAt.None? && l.kind in {Browser, Cli}
    case _ => true
  }

  ghost function Next(w: World, step: Step): World {
    if !MayInsert(w, step) then w
    else
      match step
      case Tick(to) => if w.now <= to then w.(now := to) else w
      case CreateIdentity(id, identity) => w.(db := w.db.(identities := w.db.identities[id := identity]))
      case CreateToken(id, token) => w.(db := w.db.(tokens := w.db.tokens[id := token]))
      case CreateMembership(id, m) => w.(db := w.db.(memberships := w.db.memberships[id := m]))
      case CreateGrant(id, g) => w.(db := w.db.(grants := w.db.grants[id := g]))
      case CreateUser(id) => w.(db := w.db.(users := w.db.users[id := None]))
      case CreateLogin(id, l) => w.(db := w.db.(logins := w.db.logins[id := l]))
      case BeginExchange(c, named) =>
        var r := Resolve(w.db, w.tree, c, named, w.now);
        if r.Ok? then
          w.(inflight := w.inflight[w.requests := Exchange(r.value.0, r.value.1, RootOf(w, c))], requests := w.requests + 1)
        else w
      case FinishExchange(request, id) =>
        if request in w.inflight && Fresh(w, id) then
          var x := w.inflight[request];
          w.(db := w.db.(sessions := w.db.sessions[id := Minted(x.principal, x.scope, w.now, w.ttl)]),
             inflight := w.inflight - {request},
             roots := w.roots[id := x.root],
             minted := w.minted[id := request])
        else w
      case RevokeToken(org, id) => Applied(w, TokenRevoked(w.db, org, id, w.now))
      case DisableIdentity(org, id) => Applied(w, IdentityDisabled(w.db, org, id, w.now))
      case RevokeMembership(org, id) =>
        var r := MembershipRevoked(w.db, org, id, w.now);
        if r.Ok? then w.(db := r.value.0) else w
      case RevokeGrant(org, id) => Applied(w, GrantRevoked(w.db, org, id, w.now))
      case RevokeLogin(id) =>
        if id in w.db.logins then
          w.(db := w.db.(logins := w.db.logins[id := w.db.logins[id].(revokedAt := Stamped(w.db.logins[id].revokedAt, w.now))]))
        else w
      case RevokeLoginsOf(userId) => w.(db := w.db.(logins := WithoutLoginsOf(w.db.logins, userId, w.now)))
      case Purge(olderThan) => w.(db := w.db.(sessions := Purged(w.db.sessions, olderThan, w.now)))
  }

  ghost function Run(w: World, steps: seq<Step>): World
    decreases |steps|
  {
    if steps == [] then w else Run(Next(w, steps[0]), steps[1..])
  }
}
