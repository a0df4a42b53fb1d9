/** internal/authz/engine.go: the one place that decides whether an identity may
    do something to a resource. */
module Authz {
  import opened Outcomes
  import opened Domain

  datatype Request = Request(
    principal: Principal,
    capability: Capability,
    organizationId: Uuid,
    projectId: Uuid,
    environmentId: Uuid,
    secretId: Uuid,
    secretKey: string)

  datatype DenyCode =
    | UnknownCapability | MalformedEvaluation | CrossOrganization | CredentialScope
    | CrossProject | CrossEnvironment | SecretKeyScope | NoGrant

  datatype Decision = Allow(grantId: Option<Uuid>, viaRole: bool) | Deny(code: DenyCode)

  // What GrantsForSubject answered. Failing to load is not an absence of grants.
  datatype GrantsRead = Loaded(grants: seq<Grant>) | LoadFailed

  datatype Error = GrantsUnavailable

  // ---------------------------------------------------------------------------
  // The declarative specification
  // ---------------------------------------------------------------------------

  /** A named level covers only a request that names the same resource. */
  predicate LevelCovers(granted: Option<Uuid>, requested: Uuid) {
    granted.Some? ==> requested != NIL && granted.value == requested
  }

  predicate Covers(g: Grant, req: Request) {
    && LevelCovers(g.projectId, req.projectId)
    && LevelCovers(g.environmentId, req.environmentId)
    && LevelCovers(g.secretId, req.secretId)
  }

  predicate Confers(g: Grant, now: Instant, req: Request) {
    g.Active(now) && req.capability in g.capabilities && Covers(g, req)
  }

  predicate WellFormed(req: Request) {
    && ValidCapability(req.capability)
    && req.organizationId != NIL
    && req.principal.id != NIL
    && req.principal.organizationId == req.organizationId
  }

  predicate ScopeAdmits(scope: Option<Scope>, req: Request) {
    scope.Some? ==>
      && scope.value.Allows(req.capability)
      && req.projectId != NIL && scope.value.projectId == req.projectId
      && req.environmentId != NIL && scope.value.environmentId == req.environmentId
      && (req.secretKey == "" || scope.value.AllowsKey(req.secretKey))
  }

  predicate RoleConfers(req: Request) {
    && !IsSecretPlane(req.capability)
    && req.principal.kind == User
    && req.capability in CapabilitiesForRole(req.principal.role)
  }

  function Held(grants: seq<Grant>): set<Grant> {
    set g | g in grants
  }

  /** What the engine promises, as one formula over the set of grants held. */
  predicate Permits(grants: set<Grant>, now: Instant, req: Request) {
    && WellFormed(req)
    && ScopeAdmits(req.principal.scope, req)
    && (RoleConfers(req) || exists g :: g in grants && Confers(g, now, req))
  }

  // ---------------------------------------------------------------------------
  // The decision procedure, as a function of what was read
  // ---------------------------------------------------------------------------

  /** The ceiling of the presented credential, in the order its checks run. */
  function CheckScope(req: Request): (refusal: Option<DenyCode>)
    ensures refusal.None? <==> ScopeAdmits(req.principal.scope, req)
  {
    match req.principal.scope
    case None => None
    case Some(scope) =>
      if !scope.Allows(req.capability) then Some(CredentialScope)
      else if req.projectId == NIL || scope.projectId != req.projectId then Some(CrossProject)
      else if req.environmentId == NIL || scope.environmentId != req.environmentId then Some(CrossEnvironment)
      else if req.secretKey != "" && !scope.AllowsKey(req.secretKey) then Some(SecretKeyScope)
      else None
  }

  /** Every check that runs before a role or a grant is consulted. */
  function Gate(req: Request): (refusal: Option<DenyCode>)
    ensures refusal.None? <==> WellFormed(req) && ScopeAdmits(req.principal.scope, req)
  {
    if !ValidCapability(req.capability) then Some(UnknownCapability)
    else if req.organizationId == NIL || req.principal.id == NIL then Some(MalformedEvaluation)
    else if req.principal.organizationId != req.organizationId then Some(CrossOrganization)
    else CheckScope(req)
  }

  /** The gates let it through, and no role confers it. */
  predicate NeedsGrants(req: Request) {
    Gate(req).None? && !RoleConfers(req)
  }

  function FirstConferring(grants: seq<Grant>, now: Instant, req: Request): (i: nat)
    ensures i <= |grants|
    ensures i < |grants| ==> Confers(grants[i], now, req)
    ensures forall j | 0 <= j < i :: !Confers(grants[j], now, req)
  {
    if grants == [] || Confers(grants[0], now, req) then 0
    else 1 + FirstConferring(grants[1..], now, req)
  }

  function Decide(source: GrantsRead, now: Instant, req: Request): (r: Result<Decision, Error>)
  {
    if Gate(req).Some? then Ok(Deny(Gate(req).value))
    else if RoleConfers(req) then Ok(Allow(None, true))
    else
      match source
      case LoadFailed => Err(GrantsUnavailable)
      case Loaded(grants) =>
        var i := FirstConferring(grants, now, req);
        if i < |grants| then Ok(Allow(Some(grants[i].id), false)) else Ok(Deny(NoGrant))
  }

  /** Engine.Authorize: the gates in order, then the role, then a scan of the
      grants that stops at the first one conferring the capability. */
  method Authorize(source: GrantsRead, now: Instant, req: Request) returns (r: Result<Decision, Error>)
    ensures r == Decide(source, now, req)
    ensures r.Err? <==> source.LoadFailed? && NeedsGrants(req)
    ensures source.Loaded? ==>
      (r.Ok? && (r.value.Allow? <==> Permits(Held(source.grants), now, req)))
  {
    if !ValidCapability(req.capability) {
      return Ok(Deny(UnknownCapability));
    }
    if req.organizationId == NIL || req.principal.id == NIL {
      return Ok(Deny(MalformedEvaluation));
    }
    if req.principal.organizationId != req.organizationId {
      return Ok(Deny(CrossOrganization));
    }
    var refusal := CheckScope(req);
    if refusal.Some? {
      return Ok(Deny(refusal.value));
    }
    if !IsSecretPlane(req.capability) && req.principal.kind == User {
      if req.capability in CapabilitiesForRole(req.principal.role) {
        return Ok(Allow(None, true));
      }
    }
    if source.LoadFailed? {
      return Err(GrantsUnavailable);
    }
    var grants := source.grants;
    for i := 0 to |grants|
      invariant forall j | 0 <= j < i :: !Confers(grants[j], now, req)
    {
      if !grants[i].Active(now) {
        continue;
      }
      if req.capability !in grants[i].capabilities {
        continue;
      }
      if !Covers(grants[i], req) {
        continue;
      }
      assert Confers(grants[i], now, req) && grants[i] in Held(grants);
      return Ok(Allow(Some(grants[i].id), false));
    }
    return Ok(Deny(NoGrant));
  }

  /** What a probe for one capability finds. */
  predicate Holds(grants: seq<Grant>, now: Instant, req: Request, c: Capability) {
    Permits(Held(grants), now, req.(capability := c))
  }

  lemma EachCapabilityIsListedOnce()
    ensures forall i, j | 0 <= i < j < |ALL_CAPABILITIES| :: ALL_CAPABILITIES[i] != ALL_CAPABILITIES[j]
  {
  }

  /** What a probe can find with no grant read. */
  predicate WouldHoldByRole(req: Request, c: Capability) {
    var probe := req.(capability := c);
    WellFormed(probe) && ScopeAdmits(probe.principal.scope, probe) && RoleConfers(probe)
  }

  lemma ProbeFinds(source: GrantsRead, now: Instant, req: Request, c: Capability)
    ensures source.Loaded? && c in ALL_CAPABILITIES ==> Decide(source, now, req.(capability := c)).Ok?
    ensures Decide(source, now, req.(capability := c)).Ok? ==>
      (Decide(source, now, req.(capability := c)).value.Allow? <==>
       if source.Loaded? then Holds(source.grants, now, req, c) else WouldHoldByRole(req, c))
    ensures (if source.Loaded? then Holds(source.grants, now, req, c) else WouldHoldByRole(req, c)) ==> c in ALL_CAPABILITIES
  {
    DecideMeetsSpecification(source, now, req.(capability := c));
  }

  lemma ProbeFails(source: GrantsRead, now: Instant, req: Request, c: Capability)
    requires source.LoadFailed?
    ensures Decide(source, now, req.(capability := c)).Err? <==> NeedsGrants(req.(capability := c))
  {
  }

  /** Engine.EffectiveCapabilities: one probe per capability, in declaration order. It
      fails exactly when the grants cannot be loaded and some probe needs them. */
  method EffectiveCapabilities(source: GrantsRead, now: Instant, req: Request) returns (r: Result<seq<Capability>, Error>)
    ensures r.Err? <==> source.LoadFailed? && exists c :: c in ALL_CAPABILITIES && NeedsGrants(req.(capability := c))
    ensures r.Ok? && source.Loaded? ==> forall c :: c in r.value <==> Holds(source.grants, now, req, c)
    ensures r.Ok? && source.LoadFailed? ==> forall c :: c in r.value <==> WouldHoldByRole(req, c)
    ensures r.Ok? ==> forall i, j | 0 <= i < j < |r.value| :: r.value[i] != r.value[j]
  {
    hide Permits, Gate, RoleConfers, WouldHoldByRole, NeedsGrants;
    EachCapabilityIsListedOnce();
    var all := ALL_CAPABILITIES;
    var held: seq<Capability> := [];
    for i := 0 to |all|
      invariant forall c | c in all[..i] :: Decide(source, now, req.(capability := c)).Ok?
      invariant forall c :: c in held <==> c in all[..i] && Decide(source, now, req.(capability := c)).value.Allow?
      invariant forall j, k | 0 <= j < k < |held| :: held[j] != held[k]
    {
      var c := all[i];
      assert all[..i + 1] == all[..i] + [c];
      assert c !in all[..i];
      var d := Authorize(source, now, req.(capability := c));
      if d.Err? {
        assert c in all;
        return Err(d.error);
      }
      if d.value.Allow? {
        held := held + [c];
      }
    }
    assert all[..|all|] == all;
    forall c ensures c in held <==> if source.Loaded? then Holds(source.grants, now, req, c) else WouldHoldByRole(req, c) {
      ProbeFinds(source, now, req, c);
    }
    forall c | c in ALL_CAPABILITIES && source.LoadFailed? ensures !NeedsGrants(req.(capability := c)) {
      ProbeFails(source, now, req, c);
    }
    r := Ok(held);
  }

  // ---------------------------------------------------------------------------
  // Consequences
  // ---------------------------------------------------------------------------

  /** The procedure decides exactly what the specification says, and a refusal by
      a gate does not depend on any grant having been read. */
  lemma DecideMeetsSpecification(source: GrantsRead, now: Instant, req: Request)
    ensures source.Loaded? ==>
      Decide(source, now, req).Ok? &&
      (Decide(source, now, req).value.Allow? <==> Permits(Held(source.grants), now, req))
    ensures Decide(source, now, req).Ok? && Decide(source, now, req).value.Allow? && Decide(source, now, req).value.grantId.Some? ==>
      exists g :: source.Loaded? && g in source.grants && g.id == Decide(source, now, req).value.grantId.value && Confers(g, now, req)
  {
  }

  /** Only which grants are held matters, never their order or repetition. */
  lemma OrderOfGrantsIsIrrelevant(a: seq<Grant>, b: seq<Grant>, now: Instant, req: Request)
    requires Held(a) == Held(b)
    ensures Decide(Loaded(a), now, req).value.Allow? <==> Decide(Loaded(b), now, req).value.Allow?
  {
    DecideMeetsSpecification(Loaded(a), now, req);
    DecideMeetsSpecification(Loaded(b), now, req);
  }

  /** The order on credential ceilings. No scope is the top; within one environment
      a scope grows with its capabilities, and the empty key list is the top of the
      key component. */
  predicate ScopeBelow(narrow: Option<Scope>, wide: Option<Scope>) {
    wide.Some? ==>
      && narrow.Some?
      && narrow.value.projectId == wide.value.projectId
      && narrow.value.environmentId == wide.value.environmentId
      && (forall c :: c in narrow.value.capabilities ==> c in wide.value.capabilities)
      && (wide.value.secretKeys != [] ==>
            narrow.value.secretKeys != [] &&
            forall k :: k in narrow.value.secretKeys ==> k in wide.value.secretKeys)
  }

  /** More grants and a wider ceiling never turn an allowance into a refusal. */
  lemma AuthorityIsMonotone(fewer: set<Grant>, more: set<Grant>, wide: Option<Scope>, now: Instant, req: Request)
    requires fewer <= more
    requires ScopeBelow(req.principal.scope, wide)
    requires Permits(fewer, now, req)
    ensures Permits(more, now, req.(principal := req.principal.(scope := wide)))
  {
  }

  /** Effective authority is the intersection of the identity's own authority with
      the ceiling of the credential: a token narrows and never widens. */
  lemma ScopeIsAnIntersection(grants: set<Grant>, now: Instant, req: Request)
    ensures Permits(grants, now, req) <==>
      && ScopeAdmits(req.principal.scope, req)
      && Permits(grants, now, req.(principal := req.principal.(scope := None)))
  {
  }

  /** `narrow` asks about the same resource as `broad`, or something inside it. */
  predicate Within(narrow: Request, broad: Request) {
    && narrow.principal == broad.principal
    && narrow.capability == broad.capability
    && narrow.organizationId == broad.organizationId
    && (broad.projectId != NIL ==> narrow.projectId == broad.projectId)
    && (broad.environmentId != NIL ==> narrow.environmentId == broad.environmentId)
    && (broad.secretId != NIL ==> narrow.secretId == broad.secretId)
  }

  /** Authority over a resource extends to everything inside it exactly when the
      ceiling admits the narrower request; without a ceiling it always does. */
  lemma AuthorityDescends(grants: set<Grant>, now: Instant, broad: Request, narrow: Request)
    requires Within(narrow, broad)
    requires Permits(grants, now, broad)
    ensures Permits(grants, now, narrow) <==> ScopeAdmits(narrow.principal.scope, narrow)
    ensures narrow.principal.scope.None? ==> Permits(grants, now, narrow)
  {
  }

  /** A plaintext-bearing capability comes only from an active grant that covers the
      resource, whatever role the caller holds. */
  lemma SecretPlaneNeedsAGrant(grants: set<Grant>, now: Instant, req: Request)
    requires IsSecretPlane(req.capability)
    ensures Permits(grants, now, req) ==> exists g :: g in grants && Confers(g, now, req)
    ensures forall role: Role :: Permits(grants, now, req) <==>
      Permits(grants, now, req.(principal := req.principal.(role := role)))
    ensures forall role: Role :: UseSecret !in CapabilitiesForRole(role) && ReadSecret !in CapabilitiesForRole(role)
  {
  }

  // ---------------------------------------------------------------------------
  // The decision, read off the fields
  // ---------------------------------------------------------------------------

  /** Owners stand above admins, and those above everybody else who is a member. */
  function Rank(r: Role): nat {
    match r
    case Owner => 3
    case Admin => 2
    case Developer => 1
    case Viewer => 1
    case NoRole => 0
  }

  /** The lowest rank that carries a capability; no rank carries one of the secret plane. */
  function LeastRank(c: Capability): nat {
    match c
    case ReadMetadata => 1
    case CreateSecret => 2
    case RotateSecret => 2
    case RevokeSecret => 2
    case ManageAccess => 2
    case ReadAudit => 2
    case ManageProject => 2
    case ManageOrganization => 3
    case UseSecret => 4
    case ReadSecret => 4
    case Unrecognized(_) => 4
  }

  lemma RolesAreRanked(r: Role, c: Capability)
    ensures c in CapabilitiesForRole(r) <==> Rank(r) >= LeastRank(c)
  {
  }

  /** A request is allowed exactly when it is complete and stays in its organization; the
      presented scope, if there is one, names its project and environment and contains its
      capability and key; and either a user's rank suffices, or a grant that is held, neither
      revoked nor expired, has the capability and names no other resource at any level. */
  lemma AllowedExactlyWhen(grants: seq<Grant>, now: Instant, req: Request)
    ensures var r := Decide(Loaded(grants), now, req);
      r.Ok? && (r.value.Allow? <==>
        && !req.capability.Unrecognized?
        && req.organizationId != NIL && req.principal.id != NIL && req.principal.organizationId == req.organizationId
        && (req.principal.scope.Some? ==>
              var scope := req.principal.scope.value;
              && scope.projectId == req.projectId != NIL && scope.environmentId == req.environmentId != NIL
              && req.capability in scope.capabilities
              && (req.secretKey == "" || scope.secretKeys == [] || req.secretKey in scope.secretKeys))
        && ((req.principal.kind == User && Rank(req.principal.role) >= LeastRank(req.capability)) ||
            exists g :: g in grants
              && req.capability in g.capabilities
              && (g.revokedAt.None? || now < g.revokedAt.value) && (g.expiresAt.None? || now < g.expiresAt.value)
              && (g.projectId.None? || g.projectId.value == req.projectId != NIL)
              && (g.environmentId.None? || g.environmentId.value == req.environmentId != NIL)
              && (g.secretId.None? || g.secretId.value == req.secretId != NIL)))
  {
    hide CapabilitiesForRole, FirstConferring;
    RolesAreRanked(req.principal.role, req.capability);
    DecideMeetsSpecification(Loaded(grants), now, req);
    assert ValidCapability(req.capability) <==> !req.capability.Unrecognized?;
  }

  /** A refusal names the first check that failed, in this order. */
  lemma RefusalNamesTheFirstFailure(source: GrantsRead, now: Instant, req: Request, code: DenyCode)
    requires Decide(source, now, req) == Ok(Deny(code))
    ensures code == UnknownCapability <==> req.capability.Unrecognized?
    ensures var known := !req.capability.Unrecognized?;
      var complete := req.organizationId != NIL && req.principal.id != NIL;
      var within := req.principal.organizationId == req.organizationId;
      && (code == MalformedEvaluation <==> known && !complete)
      && (code == CrossOrganization <==> known && complete && !within)
      && (code in [CredentialScope, CrossProject, CrossEnvironment, SecretKeyScope] ==> known && complete && within && req.principal.scope.Some?)
    ensures req.principal.scope.Some? && code in [CredentialScope, CrossProject, CrossEnvironment, SecretKeyScope] ==>
      var scope := req.principal.scope.value;
      var able := req.capability in scope.capabilities;
      var project := scope.projectId == req.projectId != NIL;
      var environment := scope.environmentId == req.environmentId != NIL;
      && (code == CredentialScope <==> !able)
      && (code == CrossProject <==> able && !project)
      && (code == CrossEnvironment <==> able && project && !environment)
      && (code == SecretKeyScope ==> able && project && environment && scope.secretKeys != [] && req.secretKey !in scope.secretKeys)
    ensures code == NoGrant ==> source.Loaded? && !(req.principal.kind == User && Rank(req.principal.role) >= LeastRank(req.capability))
  {
    hide CapabilitiesForRole, FirstConferring;
    RolesAreRanked(req.principal.role, req.capability);
    assert ValidCapability(req.capability) <==> !req.capability.Unrecognized?;
  }

  /** An allowance says whether a role or a grant gave it. */
  lemma AllowanceNamesItsSource(source: GrantsRead, now: Instant, req: Request)
    requires Decide(source, now, req).Ok? && Decide(source, now, req).value.Allow?
    ensures var d := Decide(source, now, req).value;
      && (d.viaRole <==> req.principal.kind == User && Rank(req.principal.role) >= LeastRank(req.capability))
      && (d.viaRole <==> d.grantId.None?)
      && (d.grantId.Some? ==> source.Loaded? && exists g :: g in source.grants && g.id == d.grantId.value && req.capability in g.capabilities)
  {
    hide CapabilitiesForRole;
    RolesAreRanked(req.principal.role, req.capability);
    DecideMeetsSpecification(source, now, req);
  }

  /** A secret can be used or read only under a grant that names neither another project,
      nor another environment, nor another secret. */
  lemma OneSecretsGrantOpensNoOther(grants: seq<Grant>, now: Instant, req: Request)
    requires IsSecretPlane(req.capability)
    requires forall g | g in grants ::
      || (g.projectId.Some? && g.projectId.value != req.projectId)
      || (g.environmentId.Some? && g.environmentId.value != req.environmentId)
      || (g.secretId.Some? && g.secretId.value != req.secretId)
    ensures Decide(Loaded(grants), now, req).Ok? && Decide(Loaded(grants), now, req).value.Deny?
  {
    hide Decide;
    AllowedExactlyWhen(grants, now, req);
  }
}
