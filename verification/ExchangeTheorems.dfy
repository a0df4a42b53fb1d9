/** What a credential obtained by exchange may do, however long the chain. */
module ExchangeTheorems {
  import opened Outcomes
  import opened Domain
  import opened Machines
  import opened MachineTheorems
  import opened SecretStore
  import opened Envelope
  import opened Delivery
  import opened DeliveryTheorems
  import Authz
  import Revocation

  // ---------------------------------------------------------------------------
  // Ceilings
  // ---------------------------------------------------------------------------

  /** On every run, a session rooted in a token carries exactly that token's subject,
      organization, project, environment, capabilities and keys; one rooted in a login
      carries USE_SECRET alone, in one environment of the login's own organization. */
  lemma ExchangeNeverWidens(w: World, steps: seq<Step>, s: Uuid)
    requires Sound(w) && s in Run(w, steps).db.sessions
    ensures var v := Run(w, steps);
      var x := v.db.sessions[s];
      && s in v.roots
      && match v.roots[s]
         case TokenRoot(t) =>
           && t in v.db.tokens && x.scope == v.db.tokens[t].scope
           && x.subjectType == Machine && x.subjectId == v.db.tokens[t].identityId
           && x.organizationId == v.db.tokens[t].organizationId
         case LoginRoot(l) =>
           && l in v.db.logins && v.db.logins[l].kind == Cli
           && x.scope.capabilities == [UseSecret] && x.scope.secretKeys == []
           && x.subjectType == User && x.subjectId == v.db.logins[l].userId
           && x.organizationId == v.db.logins[l].organizationId
           && v.tree.HasEnvironment(x.organizationId, x.scope.environmentId)
           && v.tree.environments[x.scope.environmentId] == x.scope.projectId
  {
    hide Run, Timely, TokensFiled, OneMembershipEach, Numbered;
    RunKeeps(w, steps);
    assert GoodSession(Run(w, steps), Run(w, steps).db.sessions[s], Run(w, steps).roots[s]);
  }

  /** The root of a session is settled when it is minted. */
  lemma RootsNeverChange(w: World, steps: seq<Step>, s: Uuid)
    requires Sound(w) && s in w.roots
    ensures s in Run(w, steps).roots && Run(w, steps).roots[s] == w.roots[s]
  {
    hide Run, Sound;
    RunKeeps(w, steps);
  }

  function As(req: Authz.Request, p: Principal): Authz.Request {
    req.(principal := p)
  }

  /** What the token itself authenticates as. */
  function TokenPrincipal(r: Records, t: Uuid): Principal
    requires t in r.tokens
  {
    Principal(Machine, r.tokens[t].identityId, r.tokens[t].organizationId, Some(r.tokens[t].scope), t, NoRole, NotASession)
  }

  /** A session at any depth of a token's chain is allowed exactly what the token is,
      which is what the identity's grants allow, inside the token's scope. */
  lemma TokenChainHasTheTokensAuthority(w: World, s: Uuid, p: Principal, grants: set<Grant>, now: Instant, req: Authz.Request)
    requires Sound(w) && AuthenticateRuntime(w.db.sessions, s, w.now) == Some(p) && w.roots[s].TokenRoot?
    ensures var t := w.roots[s].id;
      && t in w.db.tokens
      && (Authz.Permits(grants, now, As(req, p)) <==> Authz.Permits(grants, now, As(req, TokenPrincipal(w.db, t))))
      && (Authz.Permits(grants, now, As(req, p)) <==>
            Authz.ScopeAdmits(Some(w.db.tokens[t].scope), req) &&
            Authz.Permits(grants, now, As(req, TokenPrincipal(w.db, t).(scope := None))))
  {
    hide Timely, TokensFiled, OneMembershipEach, Numbered;
    assert GoodSession(w, w.db.sessions[s], w.roots[s]);
    var t := w.roots[s].id;
    var q := TokenPrincipal(w.db, t);
    assert p == q.(credentialId := s);
    SameAuthority(grants, now, As(req, p), As(req, q));
    Authz.ScopeIsAnIntersection(grants, now, As(req, q));
  }

  lemma SameAuthority(grants: set<Grant>, now: Instant, a: Authz.Request, b: Authz.Request)
    requires a == b.(principal := b.principal.(credentialId := a.principal.credentialId))
    ensures Authz.Permits(grants, now, a) <==> Authz.Permits(grants, now, b)
  {
    assert forall g :: Authz.Confers(g, now, a) <==> Authz.Confers(g, now, b);
  }

  /** A session at any depth of a login's chain may only USE_SECRET, in its one
      environment, and only where the user's own grants confer it. */
  lemma LoginChainMayOnlyUse(w: World, s: Uuid, p: Principal, grants: set<Grant>, now: Instant, req: Authz.Request)
    requires Sound(w) && AuthenticateRuntime(w.db.sessions, s, w.now) == Some(p) && w.roots[s].LoginRoot?
    ensures Authz.Permits(grants, now, As(req, p)) ==>
      && req.capability == UseSecret
      && req.environmentId == w.db.sessions[s].scope.environmentId
      && w.tree.HasEnvironment(w.db.logins[w.roots[s].id].organizationId, req.environmentId)
      && req.projectId == w.tree.environments[req.environmentId]
      && req.organizationId == w.db.logins[w.roots[s].id].organizationId
      && exists g :: g in grants && Authz.Confers(g, now, As(req, p))
  {
    hide Timely, TokensFiled, OneMembershipEach, Numbered;
    assert GoodSession(w, w.db.sessions[s], w.roots[s]);
    if Authz.Permits(grants, now, As(req, p)) {
      assert p.scope.value.capabilities == [UseSecret];
      Authz.SecretPlaneNeedsAGrant(grants, now, As(req, p));
    }
  }

  /** One exchange: the minted ceiling is the presented one, or, from a login, lies
      below the unlimited one. */
  lemma OneExchangeNarrows(tree: Tree, p: Principal, named: Named)
    requires ResolveRuntimeScope(tree, p, named).Ok?
    ensures Authz.ScopeBelow(Some(ResolveRuntimeScope(tree, p, named).value), p.scope)
    ensures p.scope.Some? ==> ResolveRuntimeScope(tree, p, named).value == p.scope.value
    ensures p.scope.Some? && named.Resolves? ==> named.environmentId == p.scope.value.environmentId
    ensures p.scope.None? ==> named.Resolves? && ResolveRuntimeScope(tree, p, named).value.capabilities == [UseSecret]
  {
  }

  // ---------------------------------------------------------------------------
  // A removed member is delivered nothing
  // ---------------------------------------------------------------------------

  /** Every grant list the policy worked from was read somewhere on a run after the
      removal, with no grant to the member in between. */
  ghost predicate ReadAfterRemoval(w: World, org: Uuid, userId: Uuid, policy: Policy) {
    forall c | policy(c).Loaded? ::
      exists steps ::
        && Revocation.NoLaterGrant(steps, org, userId)
        && IsGrantsFor(Run(w, steps).db, org, User, userId, Run(w, steps).now, policy(c).grants)
  }

  /** A delivery after the removal hands over nothing, even where the credential was
      authenticated before it, and even where its runtime session still is valid. */
  lemma RemovedMemberIsDeliveredNothing(
    w: World, org: Uuid, id: Uuid, t: Tables, ring: Keyring, ask: Ask, policy: Policy, tr: Trace, d: Delivery)
    requires Sound(w) && MembershipRevoked(w.db, org, id, w.now).Ok? && org != NIL
    requires ask.principal.kind == User && ask.principal.organizationId == org
    requires ask.principal.id == MembershipRevoked(w.db, org, id, w.now).value.1
    requires ReadAfterRemoval(Next(w, RevokeMembership(org, id)), org, ask.principal.id, policy)
    requires Finished(t, ring, ask, policy, tr, d)
    ensures d.values == map[] && tr.loads == []
  {
    hide Sound, Next, Run, Judge, IsResolution, LoadsOf, KeysIn, MembershipRevoked;
    forall i | 0 <= i < |tr.verdicts| ensures !Reads(tr.verdicts[i]) {
      NothingToRead(w, org, id, t.material, ring, ask, policy, tr.candidates[i]);
    }
    NoReadsNoLoads(tr.candidates, tr.verdicts);
  }

  lemma NothingToRead(w: World, org: Uuid, id: Uuid, material: map<Uuid, EncryptedSecret>, ring: Keyring, ask: Ask, policy: Policy, c: Summary)
    requires Sound(w) && MembershipRevoked(w.db, org, id, w.now).Ok? && org != NIL
    requires ask.principal.kind == User && ask.principal.organizationId == org
    requires ask.principal.id == MembershipRevoked(w.db, org, id, w.now).value.1
    requires ReadAfterRemoval(Next(w, RevokeMembership(org, id)), org, ask.principal.id, policy)
    ensures !Reads(Judge(material, ring, ask, policy, c))
  {
    hide Sound, Next, Run, Judge, MembershipRevoked, IsGrantsFor, Authz.Permits;
    ReadsMeansAllowed(material, ring, ask, policy, c);
    if policy(c.id).Loaded? {
      var steps :| Revocation.NoLaterGrant(steps, org, ask.principal.id) &&
        IsGrantsFor(Run(Next(w, RevokeMembership(org, id)), steps).db, org, User, ask.principal.id,
          Run(Next(w, RevokeMembership(org, id)), steps).now, policy(c.id).grants);
      Revocation.RemovedMemberMayUseNothing(w, org, id, steps, policy(c.id).grants, UseRequest(ask, c), ask.now);
    } else {
      NoRoleConfersUse(policy(c.id), ask.now, UseRequest(ask, c));
    }
  }

  lemma NoRoleConfersUse(source: Authz.GrantsRead, now: Instant, req: Authz.Request)
    requires source.LoadFailed? && IsSecretPlane(req.capability)
    ensures Authz.Decide(source, now, req).Err? || Authz.Decide(source, now, req).value.Deny?
  {
  }

  lemma {:induction false} NoReadsNoLoads(cs: seq<Summary>, vs: seq<Verdict>)
    requires |vs| <= |cs| && forall i | 0 <= i < |vs| :: !Reads(vs[i])
    ensures LoadsOf(cs, vs) == [] && ValuesIn(cs, vs) == map[]
  {
    if vs != [] {
      NoReadsNoLoads(cs, vs[..|vs| - 1]);
    }
  }
}
