/** internal/store/recoveries.go and internal/httpapi/handlers_admin_recovery.go:
    owner-issued links that let somebody back into an account, once. */
module RecoveryLinks {
  import opened Outcomes
  import opened Domain
  import M = Machines

  datatype Link = Link(
    userId: Uuid, organizationId: Uuid, issuedBy: Uuid, expiresAt: Instant,
    usedAt: Option<Instant>, revokedAt: Option<Instant>)
  {
    predicate Pending(now: Instant) {
      usedAt.None? && revokedAt.None? && expiresAt > now
    }

    // What the unique index covers. Expiry plays no part in it.
    predicate IsOpen() {
      usedAt.None? && revokedAt.None?
    }
  }

  type Links = map<Uuid, Link>

  // ---------------------------------------------------------------------------
  // Statements
  // ---------------------------------------------------------------------------

  /** A second issue supersedes the first. */
  function Superseded(links: Links, userId: Uuid, now: Instant): Links {
    map l | l in links :: if links[l].userId == userId && links[l].IsOpen() then links[l].(revokedAt := Some(now)) else links[l]
  }

  function Issued(links: Links, id: Uuid, userId: Uuid, organizationId: Uuid, issuedBy: Uuid, expiresAt: Instant, now: Instant): Links {
    Superseded(links, userId, now)[id := Link(userId, organizationId, issuedBy, expiresAt, None, None)]
  }

  function Used(links: Links, id: Uuid, now: Instant): Option<Links> {
    if id in links && links[id].Pending(now) then Some(links[id := links[id].(usedAt := Some(now))]) else None
  }

  class AccountRepo {
    var links: Links

    constructor (links: Links)
      ensures this.links == links
    {
      this.links := links;
    }

    method CreateAccountRecovery(id: Uuid, userId: Uuid, organizationId: Uuid, issuedBy: Uuid, expiresAt: Instant, now: Instant)
      requires id !in links
      modifies this
      ensures links == Issued(old(links), id, userId, organizationId, issuedBy, expiresAt, now)
      ensures forall l | l in links && links[l].userId == userId && links[l].IsOpen() :: l == id
    {
      links := Superseded(links, userId, now);
      links := links[id := Link(userId, organizationId, issuedBy, expiresAt, None, None)];
    }

    method MarkAccountRecoveryUsed(id: Uuid, now: Instant) returns (ok: bool)
      modifies this
      ensures ok <==> Used(old(links), id, now).Some?
      ensures links == if ok then Used(old(links), id, now).value else old(links)
    {
      ok := id in links && links[id].usedAt.None? && links[id].revokedAt.None? && links[id].expiresAt > now;
      if ok {
        links := links[id := links[id].(usedAt := Some(now))];
      }
    }
  }

  // ---------------------------------------------------------------------------
  // Runs
  // ---------------------------------------------------------------------------

  // An issuer who has been authorized, and the member the link is to be for.
  datatype Voucher = Voucher(organizationId: Uuid, issuedBy: Uuid, userId: Uuid)

  // `redeemed` is history: the request that spent each link. Requests are numbered.
  datatype World = World(
    now: Instant, links: Links, memberships: map<Uuid, M.Membership>, vouching: map<nat, Voucher>,
    inflight: map<nat, Uuid>, requests: nat, redeemed: map<Uuid, nat>)

  // Memberships are inserted and stamped. No statement of the service removes one.
  datatype Step =
    | Tick(to: Instant)
    | Vouch(organizationId: Uuid, issuer: Uuid, membershipId: Uuid)
    | Issue(request: nat, id: Uuid, expiresAt: Instant, audited: bool)
    | Present(id: Uuid)
    | Redeem(request: nat)
    | Join(id: Uuid, membership: M.Membership)
    | EndMembership(id: Uuid)

  predicate HasRow(ms: map<Uuid, M.Membership>, organizationId: Uuid, userId: Uuid) {
    exists m :: M.IsMembership(ms, organizationId, userId, m)
  }

  /** An active member. Only such a caller resolves to a principal of the organization,
      whether its role or a grant then carries MANAGE_ORGANIZATION. */
  predicate Stands(ms: map<Uuid, M.Membership>, organizationId: Uuid, userId: Uuid, now: Instant) {
    exists m :: M.IsMembership(ms, organizationId, userId, m) && ms[m].Active(now)
  }

  /** What a presented link is checked for before it is spent: that it is pending, and
      that its issuer has a membership row in the organization. */
  predicate MayPresent(w: World, id: Uuid) {
    && id in w.links && w.links[id].Pending(w.now)
    && HasRow(w.memberships, w.links[id].organizationId, w.links[id].issuedBy)
  }

  /** The checks of handleIssueAccountRecovery, before its transaction. */
  predicate MayVouch(w: World, organizationId: Uuid, issuer: Uuid, membershipId: Uuid) {
    && Stands(w.memberships, organizationId, issuer, w.now)
    && membershipId in w.memberships && w.memberships[membershipId].organizationId == organizationId
    && w.memberships[membershipId].userId != issuer
  }

  function Next(w: World, step: Step): World {
    match step
    case Tick(to) => if w.now <= to then w.(now := to) else w
    case Vouch(org, issuer, membershipId) =>
      if MayVouch(w, org, issuer, membershipId) then
        w.(vouching := w.vouching[w.requests := Voucher(org, issuer, w.memberships[membershipId].userId)], requests := w.requests + 1)
      else w
    case Issue(request, id, expiresAt, audited) =>
      if request in w.vouching && id !in w.links && audited then
        var x := w.vouching[request];
        w.(links := Issued(w.links, id, x.userId, x.organizationId, x.issuedBy, expiresAt, w.now), vouching := w.vouching - {request})
      else w
    case Present(id) =>
      if MayPresent(w, id) then w.(inflight := w.inflight[w.requests := id], requests := w.requests + 1) else w
    case Redeem(request) =>
      if request in w.inflight then
        var links := Used(w.links, w.inflight[request], w.now);
        if links.Some? then
          w.(links := links.value, inflight := w.inflight - {request}, redeemed := w.redeemed[w.inflight[request] := request])
        else w.(inflight := w.inflight - {request})
      else w
    case Join(id, m) =>
      if id !in w.memberships && m.revokedAt.None? && !HasRow(w.memberships, m.organizationId, m.userId)
      then w.(memberships := w.memberships[id := m]) else w
    case EndMembership(id) =>
      if id in w.memberships
      then w.(memberships := w.memberships[id := w.memberships[id].(revokedAt := M.Stamped(w.memberships[id].revokedAt, w.now))])
      else w
  }

  function Run(w: World, steps: seq<Step>): World
    decreases |steps|
  {
    if steps == [] then w else Run(Next(w, steps[0]), steps[1..])
  }

  ghost predicate OneOpenEach(links: Links) {
    forall a, b | a in links && b in links && links[a].userId == links[b].userId && links[a].IsOpen() && links[b].IsOpen() :: a == b
  }

  ghost predicate Accounted(links: Links, redeemed: map<Uuid, nat>) {
    && (forall l | l in links :: links[l].usedAt.Some? ==> links[l].revokedAt.None? && links[l].usedAt.value < links[l].expiresAt)
    && (forall l | l in links :: links[l].usedAt.Some? <==> l in redeemed)
    && (forall l | l in redeemed :: l in links)
  }

  /** A request spends at most one link, and is then over. */
  ghost predicate Numbered(inflight: map<nat, Uuid>, requests: nat, redeemed: map<Uuid, nat>) {
    && (forall q | q in inflight :: q < requests)
    && (forall l | l in redeemed :: redeemed[l] < requests && redeemed[l] !in inflight)
    && (forall a, b | a in redeemed && b in redeemed && redeemed[a] == redeemed[b] :: a == b)
  }

  /** Every link, issued or about to be, names an issuer with a membership row. */
  ghost predicate Vouched(links: Links, vouching: map<nat, Voucher>, ms: map<Uuid, M.Membership>) {
    && (forall l | l in links :: HasRow(ms, links[l].organizationId, links[l].issuedBy))
    && (forall q | q in vouching :: HasRow(ms, vouching[q].organizationId, vouching[q].issuedBy))
  }

  ghost predicate Inv(w: World) {
    OneOpenEach(w.links) && Accounted(w.links, w.redeemed) && Numbered(w.inflight, w.requests, w.redeemed) &&
    Vouched(w.links, w.vouching, w.memberships)
  }

  ghost predicate Grows(w: World, v: World) {
    && (forall l | l in w.links :: l in v.links && v.links[l].expiresAt == w.links[l].expiresAt)
    && (forall l | l in w.links && !w.links[l].IsOpen() :: v.links[l] == w.links[l])
    && (forall l | l in w.redeemed :: l in v.redeemed && v.redeemed[l] == w.redeemed[l])
  }

  lemma EmptySatisfiesInv(now: Instant)
    ensures Inv(World(now, map[], map[], map[], map[], 0, map[]))
  {
  }

  lemma IssuedLeavesOneOpen(links: Links, id: Uuid, u: Uuid, org: Uuid, issuer: Uuid, expiresAt: Instant, now: Instant)
    requires OneOpenEach(links) && id !in links
    ensures OneOpenEach(Issued(links, id, u, org, issuer, expiresAt, now))
  {
  }

  lemma IssuedIsAccounted(links: Links, redeemed: map<Uuid, nat>, id: Uuid, u: Uuid, org: Uuid, issuer: Uuid, expiresAt: Instant, now: Instant)
    requires Accounted(links, redeemed) && id !in links
    ensures Accounted(Issued(links, id, u, org, issuer, expiresAt, now), redeemed)
    ensures forall l | l in links && !links[l].IsOpen() :: Issued(links, id, u, org, issuer, expiresAt, now)[l] == links[l]
  {
  }

  lemma IssueKeeps(w: World, q: nat, id: Uuid, expiresAt: Instant, audited: bool)
    requires Inv(w)
    ensures var v := Next(w, Issue(q, id, expiresAt, audited)); Inv(v) && Grows(w, v)
  {
    hide OneOpenEach, Accounted, HasRow, Numbered;
    if q in w.vouching && id !in w.links && audited {
      var x := w.vouching[q];
      IssuedLeavesOneOpen(w.links, id, x.userId, x.organizationId, x.issuedBy, expiresAt, w.now);
      IssuedIsAccounted(w.links, w.redeemed, id, x.userId, x.organizationId, x.issuedBy, expiresAt, w.now);
    }
  }

  lemma UsedKeepsLinks(links: Links, redeemed: map<Uuid, nat>, id: Uuid, q: nat, now: Instant)
    requires OneOpenEach(links) && Accounted(links, redeemed) && Used(links, id, now).Some?
    ensures OneOpenEach(Used(links, id, now).value) && Accounted(Used(links, id, now).value, redeemed[id := q])
    ensures id !in redeemed
    ensures forall l | l in links && !links[l].IsOpen() :: l in Used(links, id, now).value && Used(links, id, now).value[l] == links[l]
  {
  }

  lemma RedeemKeeps(w: World, q: nat)
    requires Inv(w)
    ensures Inv(Next(w, Redeem(q))) && Grows(w, Next(w, Redeem(q)))
  {
    hide OneOpenEach, Accounted, HasRow;
    if q in w.inflight && Used(w.links, w.inflight[q], w.now).Some? {
      UsedKeepsLinks(w.links, w.redeemed, w.inflight[q], q, w.now);
    }
  }

  lemma RowsSurvive(a: map<Uuid, M.Membership>, b: map<Uuid, M.Membership>, links: Links, vouching: map<nat, Voucher>)
    requires Vouched(links, vouching, a)
    requires forall m | m in a :: m in b && b[m].organizationId == a[m].organizationId && b[m].userId == a[m].userId
    ensures Vouched(links, vouching, b)
  {
    forall org, u | HasRow(a, org, u) ensures HasRow(b, org, u) {
      var m :| M.IsMembership(a, org, u, m);
      assert M.IsMembership(b, org, u, m);
    }
  }

  lemma MembershipStepKeeps(w: World, step: Step)
    requires Inv(w) && (step.Join? || step.EndMembership?)
    ensures Inv(Next(w, step)) && Grows(w, Next(w, step))
  {
    hide OneOpenEach, Accounted, HasRow, Vouched, Numbered, MayPresent, MayVouch, Used, Issued;
    RowsSurvive(w.memberships, Next(w, step).memberships, w.links, w.vouching);
  }

  lemma OtherStepKeeps(w: World, step: Step)
    requires Inv(w) && (step.Tick? || step.Present? || step.Vouch?)
    ensures Inv(Next(w, step)) && Grows(w, Next(w, step))
  {
    hide MayPresent, OneOpenEach, Accounted;
  }

  lemma StepKeeps(w: World, step: Step)
    requires Inv(w)
    ensures Inv(Next(w, step)) && Grows(w, Next(w, step))
  {
    hide Inv, Grows, Next;
    match step
    case Issue(q, id, expiresAt, audited) => IssueKeeps(w, q, id, expiresAt, audited);
    case Redeem(q) => RedeemKeeps(w, q);
    case Join(_, _) => MembershipStepKeeps(w, step);
    case EndMembership(_) => MembershipStepKeeps(w, step);
    case _ => OtherStepKeeps(w, step);
  }

  /** Under any interleaving: each account has at most one open link; no link is used
      once revoked or expired; a used link was spent by exactly one request, and that request
      spent no other; and a link that is closed stays exactly as it is. */
  lemma {:induction false} RunKeeps(w: World, steps: seq<Step>)
    requires Inv(w)
    ensures Inv(Run(w, steps)) && Grows(w, Run(w, steps))
    decreases |steps|
  {
    hide Inv, Next;
    if steps != [] {
      StepKeeps(w, steps[0]);
      RunKeeps(Next(w, steps[0]), steps[1..]);
    }
  }

  /** A request that has been let through spends the link exactly when the link is
      still pending at that moment. */
  lemma RedeemsExactlyWhenPending(w: World, q: nat)
    requires Inv(w) && q in w.inflight
    ensures var id, v := w.inflight[q], Next(w, Redeem(q));
      && ((id in v.redeemed && v.redeemed[id] == q) <==>
            (id in w.links && w.links[id].usedAt.None? && w.links[id].revokedAt.None? && w.now < w.links[id].expiresAt))
      && v.links == (if id in v.redeemed && v.redeemed[id] == q then w.links[id := w.links[id].(usedAt := Some(w.now))] else w.links)
  {
  }

  /** Once a link has been used or superseded, it is never accepted again, however
      early a request was let through with it. */
  lemma ClosedStaysClosed(w: World, steps: seq<Step>, id: Uuid)
    requires Inv(w) && id in w.links && !w.links[id].IsOpen()
    ensures Used(Run(w, steps).links, id, Run(w, steps).now).None? && !MayPresent(Run(w, steps), id)
  {
    hide Run, Inv;
    RunKeeps(w, steps);
  }

  /** Once a link's expiry has come, on every later run it is not let through and nobody
      spends it, however early a request was let through with it. */
  lemma ExpiredStaysClosed(w: World, steps: seq<Step>, id: Uuid)
    requires Inv(w) && id in w.links && w.links[id].expiresAt <= w.now
    ensures var v := Run(w, steps);
      && Next(v, Present(id)) == v
      && forall q | q in v.inflight && v.inflight[q] == id :: Next(v, Redeem(q)).links == v.links
  {
    hide Run, Inv;
    RunKeeps(w, steps);
    ClockMovesOn(w, steps);
  }

  lemma {:induction false} ClockMovesOn(w: World, steps: seq<Step>)
    ensures w.now <= Run(w, steps).now
    decreases |steps|
  {
    if steps != [] {
      ClockMovesOn(Next(w, steps[0]), steps[1..]);
    }
  }

  /** Issuing leaves the new link, revokes exactly the account's open ones, and changes no
      other. */
  lemma IssuedExactly(w: World, q: nat, id: Uuid, expiresAt: Instant, audited: bool)
    requires q in w.vouching && id !in w.links
    ensures var v, x := Next(w, Issue(q, id, expiresAt, audited)), w.vouching[q];
      && (!audited ==> v == w)
      && (audited ==> v == w.(links := v.links, vouching := w.vouching - {q}) && v.links.Keys == w.links.Keys + {id})
      && (audited ==> v.links[id] == Link(x.userId, x.organizationId, x.issuedBy, expiresAt, None, None))
      && (forall l | audited && l in w.links :: v.links[l] == Closing(w.links[l], x.userId, w.now))
  {
  }

  function Closing(link: Link, userId: Uuid, now: Instant): Link {
    if link.userId == userId && link.usedAt.None? && link.revokedAt.None? then link.(revokedAt := Some(now)) else link
  }

  /** A link is vouched for exactly by an active member of the organization, for another
      member's account. */
  lemma VouchedExactlyWhen(w: World, org: Uuid, issuer: Uuid, membershipId: Uuid)
    ensures var v := Next(w, Vouch(org, issuer, membershipId));
      var vouched := membershipId in w.memberships && w.memberships[membershipId].organizationId == org &&
        w.memberships[membershipId].userId != issuer &&
        exists m :: m in w.memberships && w.memberships[m].organizationId == org && w.memberships[m].userId == issuer && LastsAt(w.memberships[m], w.now);
      v == if vouched
        then w.(vouching := w.vouching[w.requests := Voucher(org, issuer, w.memberships[membershipId].userId)], requests := w.requests + 1) else w
  {
    assert forall m :: M.IsMembership(w.memberships, org, issuer, m) && w.memberships[m].Active(w.now) <==>
      m in w.memberships && w.memberships[m].organizationId == org && w.memberships[m].userId == issuer && LastsAt(w.memberships[m], w.now);
    hide LastsAt;
  }

  /** Neither ended nor lapsed. */
  predicate LastsAt(m: M.Membership, now: Instant) {
    (m.revokedAt.None? || now < m.revokedAt.value) && (m.expiresAt.None? || now < m.expiresAt.value)
  }

  /** On any tables: a link is let through exactly when it is unused, unrevoked and
      unexpired and its issuer has some membership row in its organization. */
  lemma LetThroughExactlyWhen(w: World, id: Uuid)
    ensures var v := Next(w, Present(id));
      v == if id in w.links && w.links[id].usedAt.None? && w.links[id].revokedAt.None? && w.now < w.links[id].expiresAt &&
          exists m :: m in w.memberships && w.memberships[m].organizationId == w.links[id].organizationId &&
                      w.memberships[m].userId == w.links[id].issuedBy
        then w.(inflight := w.inflight[w.requests := id], requests := w.requests + 1) else w
  {
    if id in w.links {
      var org, issuer := w.links[id].organizationId, w.links[id].issuedBy;
      assert forall m :: M.IsMembership(w.memberships, org, issuer, m) <==>
        m in w.memberships && w.memberships[m].organizationId == org && w.memberships[m].userId == issuer;
    }
  }

  /** The issuer's standing is a membership row in any state: it makes no difference
      whether that membership has been revoked or has lapsed. */
  lemma StandingIgnoresRevocation(w: World, id: Uuid, m: Uuid, at: Option<Instant>)
    requires m in w.memberships
    ensures MayPresent(w, id) <==> MayPresent(w.(memberships := w.memberships[m := w.memberships[m].(revokedAt := at)]), id)
  {
    var v := w.(memberships := w.memberships[m := w.memberships[m].(revokedAt := at)]);
    if id in w.links {
      var org, issuer := w.links[id].organizationId, w.links[id].issuedBy;
      assert forall x :: M.IsMembership(w.memberships, org, issuer, x) <==> M.IsMembership(v.memberships, org, issuer, x);
    }
  }

  /** What is promised of a link whose issuer has left: that it is refused. */
  ghost predicate RefusedOnceIssuerLeft(w: World, id: Uuid)
    requires id in w.links
  {
    !Stands(w.memberships, w.links[id].organizationId, w.links[id].issuedBy, w.now) ==> !MayPresent(w, id)
  }

  /** On every run, the check of the issuer refuses nothing: a link is let through
      exactly when it is pending. So the promise is kept exactly for the links that are
      not pending, and for those whose issuer is still an active member. */
  lemma RefusedOnceIssuerLeftExactlyWhen(w: World, steps: seq<Step>, id: Uuid)
    requires Inv(w) && id in Run(w, steps).links
    ensures var v := Run(w, steps); var link := v.links[id];
      var pending := link.usedAt.None? && link.revokedAt.None? && v.now < link.expiresAt;
      && (MayPresent(v, id) <==> pending)
      && (RefusedOnceIssuerLeft(v, id) <==>
            !pending || Stands(v.memberships, link.organizationId, link.issuedBy, v.now))
  {
    hide Run, OneOpenEach, Accounted, HasRow, Stands;
    RunKeeps(w, steps);
  }

  lemma RunFirst(w: World, step: Step, rest: seq<Step>)
    ensures Run(w, [step] + rest) == Run(Next(w, step), rest)
  {
    assert ([step] + rest)[1..] == rest;
  }

  const DEPARTED := M.Membership(1, 2, Owner, None, None)
  const MEMBER := M.Membership(1, 3, Developer, None, None)
  const LINK := Link(3, 1, 2, 20, None, None)

  /** An owner vouches for a member, issues a link and is removed. */
  lemma OwnerIssuesAndLeaves()
    ensures Run(World(10, map[], map[], map[], map[], 0, map[]),
        [Join(7, DEPARTED), Join(8, MEMBER), Vouch(1, 2, 8), Issue(0, 4, 20, true), EndMembership(7)]) ==
      World(10, map[4 := LINK], map[7 := DEPARTED.(revokedAt := Some(10)), 8 := MEMBER], map[], map[], 1, map[])
  {
    hide Next;
    var w0 := World(10, map[], map[], map[], map[], 0, map[]);
    RunFirst(w0, Join(7, DEPARTED), [Join(8, MEMBER), Vouch(1, 2, 8), Issue(0, 4, 20, true), EndMembership(7)]);
    var w2 := Next(Next(w0, Join(7, DEPARTED)), Join(8, MEMBER));
    RunFirst(Next(w0, Join(7, DEPARTED)), Join(8, MEMBER), [Vouch(1, 2, 8), Issue(0, 4, 20, true), EndMembership(7)]);
    BothJoin();
    RunFirst(w2, Vouch(1, 2, 8), [Issue(0, 4, 20, true), EndMembership(7)]);
    RunFirst(Next(w2, Vouch(1, 2, 8)), Issue(0, 4, 20, true), [EndMembership(7)]);
    RunFirst(Next(Next(w2, Vouch(1, 2, 8)), Issue(0, 4, 20, true)), EndMembership(7), []);
    LinkIsIssued();
  }

  lemma BothJoin()
    ensures Next(Next(World(10, map[], map[], map[], map[], 0, map[]), Join(7, DEPARTED)), Join(8, MEMBER)) ==
      World(10, map[], map[7 := DEPARTED, 8 := MEMBER], map[], map[], 0, map[])
  {
  }

  lemma LinkIsIssued()
    ensures var w := World(10, map[], map[7 := DEPARTED, 8 := MEMBER], map[], map[], 0, map[]);
      Next(Next(Next(w, Vouch(1, 2, 8)), Issue(0, 4, 20, true)), EndMembership(7)) ==
      World(10, map[4 := LINK], map[7 := DEPARTED.(revokedAt := Some(10)), 8 := MEMBER], map[], map[], 1, map[])
  {
    var w := World(10, map[], map[7 := DEPARTED, 8 := MEMBER], map[], map[], 0, map[]);
    assert M.IsMembership(w.memberships, 1, 2, 7) && w.memberships[7].Active(10);
    var v := Next(w, Vouch(1, 2, 8));
    assert v == w.(vouching := map[0 := Voucher(1, 2, 3)], requests := 1);
    assert Next(v, Issue(0, 4, 20, true)) == w.(links := map[4 := LINK], requests := 1);
  }

  /** A run from nothing that breaks the promise: the link of an owner who has been
      removed is let through and spent. */
  lemma DepartedIssuerIsHonoured()
    ensures
      var v := Run(World(10, map[], map[], map[], map[], 0, map[]),
        [Join(7, DEPARTED), Join(8, MEMBER), Vouch(1, 2, 8), Issue(0, 4, 20, true), EndMembership(7)]);
      && 4 in v.links && !RefusedOnceIssuerLeft(v, 4) && 4 in Run(v, [Present(4), Redeem(1)]).redeemed
  {
    OwnerIssuesAndLeaves();
    var v := World(10, map[4 := LINK], map[7 := DEPARTED.(revokedAt := Some(10)), 8 := MEMBER], map[], map[], 1, map[]);
    assert M.IsMembership(v.memberships, 1, 2, 7);
    var u := Next(v, Present(4));
    assert u == v.(inflight := map[1 := 4], requests := 2);
    RunFirst(v, Present(4), [Redeem(1)]);
    RunFirst(u, Redeem(1), []);
  }
}
