/** internal/store/invitations.go and the acceptance transaction of
    internal/httpapi/handlers_invitations.go, under racing requests. */
module Invitations {
  import opened Outcomes
  import opened Domain
  import M = Machines

  datatype InvitationStatus = ACCEPTED | REVOKED | EXPIRED | PENDING

  datatype Invitation = Invitation(
    organizationId: Uuid, email: string, role: Role, membershipExpiresAt: Option<Instant>,
    expiresAt: Instant, acceptedAt: Option<Instant>, acceptedUser: Option<Uuid>, revokedAt: Option<Instant>)
  {
    predicate Pending(now: Instant) {
      acceptedAt.None? && revokedAt.None? && expiresAt > now
    }

    function Status(now: Instant): (s: InvitationStatus)
      ensures s == PENDING <==> Pending(now)
    {
      if acceptedAt.Some? then ACCEPTED
      else if revokedAt.Some? then REVOKED
      else if expiresAt <= now then EXPIRED
      else PENDING
    }
  }

  datatype Tables = Tables(users: map<Uuid, string>, memberships: map<Uuid, M.Membership>, invitations: map<Uuid, Invitation>)

  datatype Failure = NotFound | Conflict | AuditFailed

  // ASCII only.
  function Lower(s: string): string {
    seq(|s|, i requires 0 <= i < |s| => if 'A' <= s[i] <= 'Z' then (s[i] as int + 32) as char else s[i])
  }

  /** An invitation that is being accepted: the row as it was read, and who claims it,
      if anybody is signed in. */
  datatype Acceptance = Acceptance(id: Uuid, invitation: Invitation, claimant: Option<Uuid>)

  // ---------------------------------------------------------------------------
  // Statements
  // ---------------------------------------------------------------------------

  predicate EmailTaken(users: map<Uuid, string>, email: string) {
    exists u :: u in users && Lower(users[u]) == Lower(email)
  }

  predicate IsMember(ms: map<Uuid, M.Membership>, organizationId: Uuid, userId: Uuid) {
    exists m :: M.IsMembership(ms, organizationId, userId, m)
  }

  /** What the unique index on open invitations compares. */
  predicate OpenFor(i: Invitation, organizationId: Uuid, email: string) {
    i.acceptedAt.None? && i.revokedAt.None? && i.organizationId == organizationId && Lower(i.email) == Lower(email)
  }

  function InvitationRevoked(t: Tables, organizationId: Uuid, id: Uuid, now: Instant): Result<Tables, Failure> {
    if id in t.invitations && t.invitations[id].organizationId == organizationId &&
       t.invitations[id].acceptedAt.None? && t.invitations[id].revokedAt.None?
    then Ok(t.(invitations := t.invitations[id := t.invitations[id].(revokedAt := Some(now))]))
    else Err(NotFound)
  }

  function UserFor(t: Tables, x: Acceptance, newUser: Uuid): Result<(Tables, Uuid), Failure> {
    match x.claimant
    case Some(u) => if u in t.users then Ok((t, u)) else Err(NotFound)
    case None =>
      if EmailTaken(t.users, x.invitation.email) || newUser in t.users then Err(Conflict)
      else Ok((t.(users := t.users[newUser := Lower(x.invitation.email)]), newUser))
  }

  function MarkedAccepted(t: Tables, id: Uuid, userId: Uuid, now: Instant): Result<Tables, Failure> {
    if id in t.invitations && t.invitations[id].Pending(now)
    then Ok(t.(invitations := t.invitations[id := t.invitations[id].(acceptedAt := Some(now), acceptedUser := Some(userId))]))
    else Err(NotFound)
  }

  function MembershipCreated(t: Tables, id: Uuid, m: M.Membership): Result<Tables, Failure> {
    if id in t.memberships || IsMember(t.memberships, m.organizationId, m.userId) then Err(Conflict)
    else Ok(t.(memberships := t.memberships[id := m]))
  }

  /** The transaction of handleAcceptInvitation. Address and role come from the row
      that was read, never from the request. */
  function Accepted(t: Tables, x: Acceptance, newUser: Uuid, membershipId: Uuid, audited: bool, now: Instant): Result<(Tables, Uuid), Failure> {
    var u := UserFor(t, x, newUser);
    if u.Err? then Err(u.error)
    else
      var marked := MarkedAccepted(u.value.0, x.id, u.value.1, now);
      if marked.Err? then Err(marked.error)
      else
        var m := M.Membership(x.invitation.organizationId, u.value.1, x.invitation.role, x.invitation.membershipExpiresAt, None);
        var created := MembershipCreated(marked.value, membershipId, m);
        if created.Err? then Err(created.error)
        else if !audited then Err(AuditFailed)
        else Ok((created.value, u.value.1))
  }

  class AccountRepo {
    var t: Tables

    constructor (t: Tables)
      ensures this.t == t
    {
      this.t := t;
    }

    method RevokeInvitation(organizationId: Uuid, id: Uuid, now: Instant) returns (r: Result<(), Failure>)
      modifies this
      ensures var spec := InvitationRevoked(old(t), organizationId, id, now);
        if spec.Ok? then r == Ok(()) && t == spec.value else r == Err(NotFound) && t == old(t)
    {
      if id !in t.invitations {
        return Err(NotFound);
      }
      var i := t.invitations[id];
      if i.organizationId != organizationId || i.acceptedAt.Some? || i.revokedAt.Some? {
        return Err(NotFound);
      }
      t := t.(invitations := t.invitations[id := i.(revokedAt := Some(now))]);
      r := Ok(());
    }

    /** Statement by statement; any failure rolls the whole of it back. */
    method AcceptInvitation(x: Acceptance, newUser: Uuid, membershipId: Uuid, audited: bool, now: Instant)
      returns (r: Result<Uuid, Failure>)
      modifies this
      ensures var spec := Accepted(old(t), x, newUser, membershipId, audited, now);
        if spec.Ok? then r == Ok(spec.value.1) && t == spec.value.0 else r == Err(spec.error) && t == old(t)
    {
      hide EmailTaken, IsMember;
      var before := t;
      var user := newUser;
      if x.claimant.Some? {
        user := x.claimant.value;
        if user !in t.users {
          return Err(NotFound);
        }
      } else {
        if EmailTaken(t.users, x.invitation.email) || newUser in t.users {
          return Err(Conflict);
        }
        t := t.(users := t.users[newUser := Lower(x.invitation.email)]);
      }
      var marked := MarkedAccepted(t, x.id, user, now);
      if marked.Err? {
        t := before;
        return Err(marked.error);
      }
      t := marked.value;
      var m := M.Membership(x.invitation.organizationId, user, x.invitation.role, x.invitation.membershipExpiresAt, None);
      var created := MembershipCreated(t, membershipId, m);
      if created.Err? {
        t := before;
        return Err(created.error);
      }
      t := created.value;
      if !audited {
        t := before;
        return Err(AuditFailed);
      }
      r := Ok(user);
    }
  }

  // ---------------------------------------------------------------------------
  // Runs
  // ---------------------------------------------------------------------------

  // `joined` is history: the membership each acceptance created.
  datatype World = World(now: Instant, t: Tables, inflight: map<nat, Acceptance>, requests: nat, joined: map<Uuid, Uuid>)

  datatype Step =
    | Tick(to: Instant)
    | Invite(id: Uuid, invitation: Invitation)
    | Withdraw(organizationId: Uuid, id: Uuid)
    | OpenInvitation(id: Uuid, claimant: Option<Uuid>)
    | Accept(request: nat, newUser: Uuid, membershipId: Uuid, audited: bool)
    | SignUp(id: Uuid, email: string)
    | Found(id: Uuid, membership: M.Membership)
    | EndMembership(id: Uuid)

  /** What a request finds before it begins the transaction: an open invitation, and
      either the account it names or no account of that address. */
  predicate MayOpen(t: Tables, id: Uuid, claimant: Option<Uuid>, now: Instant) {
    && id in t.invitations && t.invitations[id].Pending(now)
    && match claimant
       case Some(u) => u in t.users && Lower(t.users[u]) == Lower(t.invitations[id].email)
       case None => !EmailTaken(t.users, t.invitations[id].email)
  }

  predicate MayInvite(w: World, id: Uuid, i: Invitation) {
    && id !in w.t.invitations && id !in w.joined
    && i.acceptedAt.None? && i.revokedAt.None? && i.acceptedUser.None?
    && (forall x | x in w.t.invitations :: !OpenFor(w.t.invitations[x], i.organizationId, i.email))
  }

  function Next(w: World, step: Step): World {
    match step
    case Tick(to) => if w.now <= to then w.(now := to) else w
    case Invite(id, i) =>
      if MayInvite(w, id, i) then w.(t := w.t.(invitations := w.t.invitations[id := i.(email := Lower(i.email))])) else w
    case Withdraw(org, id) =>
      var r := InvitationRevoked(w.t, org, id, w.now);
      if r.Ok? then w.(t := r.value) else w
    case OpenInvitation(id, claimant) =>
      if MayOpen(w.t, id, claimant, w.now)
      then w.(inflight := w.inflight[w.requests := Acceptance(id, w.t.invitations[id], claimant)], requests := w.requests + 1) else w
    case Accept(request, newUser, membershipId, audited) =>
      if request in w.inflight then
        var x := w.inflight[request];
        var r := Accepted(w.t, x, newUser, membershipId, audited, w.now);
        if r.Ok? then w.(t := r.value.0, inflight := w.inflight - {request}, joined := w.joined[x.id := membershipId])
        else w.(inflight := w.inflight - {request})
      else w
    case SignUp(id, email) =>
      if id !in w.t.users && !EmailTaken(w.t.users, email) then w.(t := w.t.(users := w.t.users[id := Lower(email)])) else w
    case Found(id, m) =>
      var r := MembershipCreated(w.t, id, m);
      if r.Ok? && m.userId in w.t.users then w.(t := r.value) else w
    case EndMembership(id) =>
      if id in w.t.memberships then
        w.(t := w.t.(memberships := w.t.memberships[id := w.t.memberships[id].(revokedAt := M.Stamped(w.t.memberships[id].revokedAt, w.now))]))
      else w
  }

  function Run(w: World, steps: seq<Step>): World
    decreases |steps|
  {
    if steps == [] then w else Run(Next(w, steps[0]), steps[1..])
  }

  // ---------------------------------------------------------------------------
  // Conservation
  // ---------------------------------------------------------------------------

  lemma LowerIsIdempotent(s: string)
    ensures Lower(Lower(s)) == Lower(s)
  {
  }

  predicate SameOffer(a: Invitation, b: Invitation) {
    a.organizationId == b.organizationId && a.email == b.email && a.role == b.role &&
    a.membershipExpiresAt == b.membershipExpiresAt && a.expiresAt == b.expiresAt
  }

  /** The membership is the one this invitation offered, to the address it named. */
  ghost predicate Honours(t: Tables, i: Invitation, membershipId: Uuid) {
    && membershipId in t.memberships
    && var m := t.memberships[membershipId];
       && m.organizationId == i.organizationId && m.role == i.role && m.expiresAt == i.membershipExpiresAt
       && i.acceptedUser == Some(m.userId)
       && m.userId in t.users && Lower(t.users[m.userId]) == Lower(i.email)
  }

  ghost predicate InTime(i: Invitation) {
    i.acceptedAt.Some? ==> i.acceptedAt.value < i.expiresAt && i.revokedAt.None?
  }

  /** No invitation is accepted after it is revoked or has expired, and the accepted ones
      are in one-to-one correspondence with the memberships they created. */
  ghost predicate Conserved(w: World) {
    && (forall i | i in w.t.invitations :: InTime(w.t.invitations[i]))
    && (forall i | i in w.t.invitations :: w.t.invitations[i].acceptedAt.Some? <==> i in w.joined)
    && (forall i | i in w.joined :: i in w.t.invitations && Honours(w.t, w.t.invitations[i], w.joined[i]))
    && (forall i, j | i in w.joined && j in w.joined && w.joined[i] == w.joined[j] :: i == j)
  }

  ghost predicate EmailsUnique(users: map<Uuid, string>) {
    forall a, b | a in users && b in users && Lower(users[a]) == Lower(users[b]) :: a == b
  }

  ghost predicate MembersUnique(ms: map<Uuid, M.Membership>) {
    forall a, b | a in ms && b in ms && ms[a].organizationId == ms[b].organizationId && ms[a].userId == ms[b].userId :: a == b
  }

  ghost predicate OneOpenEach(invitations: map<Uuid, Invitation>) {
    forall a, b | a in invitations && b in invitations && a != b ::
      !OpenFor(invitations[a], invitations[a].organizationId, invitations[a].email) ||
      !OpenFor(invitations[b], invitations[a].organizationId, invitations[a].email)
  }

  /** A request in flight still holds the row's own offer, and its claimant is that address. */
  ghost predicate Faithful(w: World, x: Acceptance) {
    && x.id in w.t.invitations && SameOffer(x.invitation, w.t.invitations[x.id])
    && (x.claimant.Some? ==> x.claimant.value in w.t.users && Lower(w.t.users[x.claimant.value]) == Lower(x.invitation.email))
  }

  ghost predicate Inv(w: World) {
    && Conserved(w)
    && EmailsUnique(w.t.users)
    && MembersUnique(w.t.memberships)
    && OneOpenEach(w.t.invitations)
    && AllFaithful(w)
  }

  lemma EmptySatisfiesInv(now: Instant)
    ensures Inv(World(now, Tables(map[], map[], map[]), map[], 0, map[]))
  {
  }

  /** A membership row is never removed, and its revocation never lifted. */
  ghost predicate OnlyStamped(a: map<Uuid, M.Membership>, b: map<Uuid, M.Membership>) {
    forall m | m in a :: m in b && a[m] == b[m].(revokedAt := a[m].revokedAt) && (a[m].revokedAt.Some? ==> b[m] == a[m])
  }

  lemma NoneStamped(ms: map<Uuid, M.Membership>)
    ensures OnlyStamped(ms, ms)
  {
  }

  /** What no step takes back. */
  ghost predicate Grows(w: World, v: World) {
    && w.now <= v.now
    && (forall u | u in w.t.users :: u in v.t.users && v.t.users[u] == w.t.users[u])
    && (forall i | i in w.t.invitations :: i in v.t.invitations && SameOffer(w.t.invitations[i], v.t.invitations[i])
          && (w.t.invitations[i].acceptedAt.Some? ==> v.t.invitations[i] == w.t.invitations[i])
          && (w.t.invitations[i].revokedAt.Some? ==> v.t.invitations[i] == w.t.invitations[i]))
    && (forall i | i in w.joined :: i in v.joined && v.joined[i] == w.joined[i])
    && OnlyStamped(w.t.memberships, v.t.memberships)
  }

  lemma GrowsIsTransitive(u: World, v: World, w: World)
    requires Grows(u, v) && Grows(v, w)
    ensures Grows(u, w)
  {
  }

  lemma FaithfulSurvives(w: World, v: World, x: Acceptance)
    requires Faithful(w, x) && Grows(w, v)
    ensures Faithful(v, x)
  {
  }

  ghost predicate AllFaithful(w: World) {
    forall q | q in w.inflight :: Faithful(w, w.inflight[q])
  }

  lemma AllFaithfulSurvive(w: World, v: World)
    requires AllFaithful(w) && Grows(w, v)
    requires forall q | q in v.inflight :: q in w.inflight && v.inflight[q] == w.inflight[q]
    ensures AllFaithful(v)
  {
    hide Faithful, Grows;
    forall q | q in v.inflight ensures Faithful(v, v.inflight[q]) {
      FaithfulSurvives(w, v, w.inflight[q]);
    }
  }

  lemma OneOpenAfterInvite(invitations: map<Uuid, Invitation>, id: Uuid, i: Invitation)
    requires OneOpenEach(invitations) && id !in invitations
    requires forall x | x in invitations :: !OpenFor(invitations[x], i.organizationId, i.email)
    ensures OneOpenEach(invitations[id := i])
  {
    hide Lower;
  }

  lemma OneOpenAfterWithdrawal(invitations: map<Uuid, Invitation>, id: Uuid, now: Instant)
    requires OneOpenEach(invitations) && id in invitations
    ensures OneOpenEach(invitations[id := invitations[id].(revokedAt := Some(now))])
  {
    hide Lower;
  }

  lemma UniqueAfterSignUp(users: map<Uuid, string>, id: Uuid, email: string)
    requires EmailsUnique(users) && id !in users && !EmailTaken(users, email)
    ensures EmailsUnique(users[id := Lower(email)])
  {
    hide Lower;
    LowerIsIdempotent(email);
  }

  lemma SameIndexKey(i: Invitation)
    ensures forall x: Invitation :: OpenFor(x, i.organizationId, Lower(i.email)) <==> OpenFor(x, i.organizationId, i.email)
  {
    hide Lower;
    LowerIsIdempotent(i.email);
  }

  lemma InviteKeeps(w: World, id: Uuid, i: Invitation)
    requires Inv(w)
    ensures Inv(Next(w, Invite(id, i))) && Grows(w, Next(w, Invite(id, i)))
  {
    hide OnlyStamped, Lower, AllFaithful, MembersUnique, EmailsUnique, OneOpenEach, OpenFor;
    var v := Next(w, Invite(id, i));
    var stored := i.(email := Lower(i.email));
    if MayInvite(w, id, i) {
      SameIndexKey(i);
      OneOpenAfterInvite(w.t.invitations, id, stored);
    }
    NoneStamped(w.t.memberships);
    assert Grows(w, v);
    AllFaithfulSurvive(w, v);
  }

  lemma WithdrawKeeps(w: World, org: Uuid, id: Uuid)
    requires Inv(w)
    ensures Inv(Next(w, Withdraw(org, id))) && Grows(w, Next(w, Withdraw(org, id)))
  {
    hide OnlyStamped, Lower, AllFaithful, MembersUnique, EmailsUnique, OneOpenEach;
    var v := Next(w, Withdraw(org, id));
    if InvitationRevoked(w.t, org, id, w.now).Ok? {
      OneOpenAfterWithdrawal(w.t.invitations, id, w.now);
    }
    NoneStamped(w.t.memberships);
    assert Grows(w, v);
    AllFaithfulSurvive(w, v);
  }

  lemma OpenKeeps(w: World, id: Uuid, claimant: Option<Uuid>)
    requires Inv(w)
    ensures Inv(Next(w, OpenInvitation(id, claimant))) && Grows(w, Next(w, OpenInvitation(id, claimant)))
  {
    hide OnlyStamped, Lower, OneOpenEach, MembersUnique, EmailsUnique, EmailTaken;
    var v := Next(w, OpenInvitation(id, claimant));
    NoneStamped(w.t.memberships);
    assert Grows(w, v);
    forall q | q in v.inflight ensures Faithful(v, v.inflight[q]) {
      assert q != w.requests ==> Faithful(w, w.inflight[q]);
    }
  }

  lemma SignUpKeeps(w: World, id: Uuid, email: string)
    requires Inv(w)
    ensures Inv(Next(w, SignUp(id, email))) && Grows(w, Next(w, SignUp(id, email)))
  {
    hide OnlyStamped, Lower, OneOpenEach, MembersUnique, AllFaithful, EmailsUnique, EmailTaken;
    var v := Next(w, SignUp(id, email));
    if id !in w.t.users && !EmailTaken(w.t.users, email) {
      UniqueAfterSignUp(w.t.users, id, email);
    }
    NoneStamped(w.t.memberships);
    assert Grows(w, v);
    AllFaithfulSurvive(w, v);
  }

  /** Membership rows inserted or stamped leave every acceptance honoured. */
  lemma MembershipsConserve(w: World, v: World)
    requires Conserved(w) && OnlyStamped(w.t.memberships, v.t.memberships)
    requires v == w.(t := w.t.(memberships := v.t.memberships))
    ensures Conserved(v) && Grows(w, v)
  {
    hide Lower;
  }

  lemma MembershipAdded(ms: map<Uuid, M.Membership>, id: Uuid, m: M.Membership)
    requires MembersUnique(ms) && id !in ms && !IsMember(ms, m.organizationId, m.userId)
    ensures MembersUnique(ms[id := m]) && OnlyStamped(ms, ms[id := m])
  {
    assert forall a | a in ms :: !M.IsMembership(ms, m.organizationId, m.userId, a);
  }

  lemma FoundKeeps(w: World, id: Uuid, m: M.Membership)
    requires Inv(w)
    ensures Inv(Next(w, Found(id, m))) && Grows(w, Next(w, Found(id, m)))
  {
    hide Lower, OneOpenEach, EmailsUnique, EmailTaken, AllFaithful, Conserved, MembersUnique, OnlyStamped, IsMember, Grows;
    var v := Next(w, Found(id, m));
    NoneStamped(w.t.memberships);
    if id !in w.t.memberships && !IsMember(w.t.memberships, m.organizationId, m.userId) {
      MembershipAdded(w.t.memberships, id, m);
    }
    MembershipsConserve(w, v);
    AllFaithfulSurvive(w, v);
  }

  lemma MembershipEnded(ms: map<Uuid, M.Membership>, id: Uuid, now: Instant)
    requires MembersUnique(ms) && id in ms
    ensures var after := ms[id := ms[id].(revokedAt := M.Stamped(ms[id].revokedAt, now))];
      MembersUnique(after) && OnlyStamped(ms, after)
  {
  }

  lemma EndKeeps(w: World, id: Uuid)
    requires Inv(w)
    ensures Inv(Next(w, EndMembership(id))) && Grows(w, Next(w, EndMembership(id)))
  {
    hide Lower, OneOpenEach, EmailsUnique, EmailTaken, AllFaithful, Conserved, MembersUnique, OnlyStamped, Grows;
    var v := Next(w, EndMembership(id));
    NoneStamped(w.t.memberships);
    if id in w.t.memberships {
      MembershipEnded(w.t.memberships, id, w.now);
    }
    MembershipsConserve(w, v);
    AllFaithfulSurvive(w, v);
  }

  lemma TickKeeps(w: World, to: Instant)
    requires Inv(w)
    ensures Inv(Next(w, Tick(to))) && Grows(w, Next(w, Tick(to)))
  {
    hide OnlyStamped, Lower, OneOpenEach, EmailsUnique, MembersUnique, AllFaithful;
    var v := Next(w, Tick(to));
    NoneStamped(w.t.memberships);
    assert Grows(w, v);
    AllFaithfulSurvive(w, v);
  }

  /** The pieces of an acceptance that commits. */
  lemma AcceptedParts(t: Tables, x: Acceptance, newUser: Uuid, membershipId: Uuid, audited: bool, now: Instant)
    requires Accepted(t, x, newUser, membershipId, audited, now).Ok?
    ensures var (v, u) := Accepted(t, x, newUser, membershipId, audited, now).value;
      && x.id in t.invitations && t.invitations[x.id].Pending(now) && audited
      && v.invitations == t.invitations[x.id := t.invitations[x.id].(acceptedAt := Some(now), acceptedUser := Some(u))]
      && membershipId !in t.memberships && !IsMember(t.memberships, x.invitation.organizationId, u)
      && v.memberships == t.memberships[membershipId :=
           M.Membership(x.invitation.organizationId, u, x.invitation.role, x.invitation.membershipExpiresAt, None)]
      && (x.claimant.Some? ==> u == x.claimant.value && u in t.users && v.users == t.users)
      && (x.claimant.None? ==> u == newUser && u !in t.users && !EmailTaken(t.users, x.invitation.email))
      && (x.claimant.None? ==> v.users == t.users[u := Lower(x.invitation.email)])
  {
    hide Lower, EmailTaken, IsMember;
  }

  lemma AddingStampsNone(a: map<Uuid, M.Membership>, b: map<Uuid, M.Membership>, id: Uuid)
    requires id !in a && id in b && b == a[id := b[id]]
    ensures OnlyStamped(a, b)
  {
  }

  lemma AcceptGrows(w: World, q: nat, newUser: Uuid, membershipId: Uuid, audited: bool)
    requires Inv(w) && q in w.inflight && Accepted(w.t, w.inflight[q], newUser, membershipId, audited, w.now).Ok?
    ensures Grows(w, Next(w, Accept(q, newUser, membershipId, audited)))
  {
    hide OnlyStamped, AllFaithful, Lower, Accepted, OneOpenEach, EmailsUnique, MembersUnique, EmailTaken, IsMember;
    AcceptedParts(w.t, w.inflight[q], newUser, membershipId, audited, w.now);
    AddingStampsNone(w.t.memberships, Next(w, Accept(q, newUser, membershipId, audited)).t.memberships, membershipId);
  }

  lemma AcceptConserves(w: World, q: nat, newUser: Uuid, membershipId: Uuid, audited: bool)
    requires Inv(w) && q in w.inflight && Accepted(w.t, w.inflight[q], newUser, membershipId, audited, w.now).Ok?
    ensures Conserved(Next(w, Accept(q, newUser, membershipId, audited)))
  {
    hide OnlyStamped, Lower, Accepted, OneOpenEach, EmailsUnique, MembersUnique, EmailTaken, IsMember;
    AcceptedParts(w.t, w.inflight[q], newUser, membershipId, audited, w.now);
    var x := w.inflight[q];
    assert Faithful(w, x);
    LowerIsIdempotent(x.invitation.email);
    var v := Next(w, Accept(q, newUser, membershipId, audited));
    forall i | i in v.joined ensures Honours(v.t, v.t.invitations[i], v.joined[i]) {
      assert i != x.id ==> Honours(w.t, w.t.invitations[i], w.joined[i]);
    }
  }

  lemma AcceptKeepsTables(w: World, q: nat, newUser: Uuid, membershipId: Uuid, audited: bool)
    requires Inv(w) && q in w.inflight && Accepted(w.t, w.inflight[q], newUser, membershipId, audited, w.now).Ok?
    ensures var v := Next(w, Accept(q, newUser, membershipId, audited));
      EmailsUnique(v.t.users) && MembersUnique(v.t.memberships) && OneOpenEach(v.t.invitations)
  {
    hide Lower, Accepted, Conserved;
    var x := w.inflight[q];
    AcceptedParts(w.t, x, newUser, membershipId, audited, w.now);
    LowerIsIdempotent(x.invitation.email);
    var v := Next(w, Accept(q, newUser, membershipId, audited));
    var m := v.t.memberships[membershipId];
    assert forall a | a in w.t.memberships :: !M.IsMembership(w.t.memberships, m.organizationId, m.userId, a);
  }

  lemma AcceptKeeps(w: World, q: nat, newUser: Uuid, membershipId: Uuid, audited: bool)
    requires Inv(w)
    ensures var v := Next(w, Accept(q, newUser, membershipId, audited)); Inv(v) && Grows(w, v)
  {
    hide Accepted, OneOpenEach, EmailsUnique, MembersUnique, Grows, AllFaithful, Conserved;
    var v := Next(w, Accept(q, newUser, membershipId, audited));
    if q in w.inflight && Accepted(w.t, w.inflight[q], newUser, membershipId, audited, w.now).Ok? {
      AcceptGrows(w, q, newUser, membershipId, audited);
      AcceptConserves(w, q, newUser, membershipId, audited);
      AcceptKeepsTables(w, q, newUser, membershipId, audited);
    } else {
      FewerRequests(w, v);
    }
    AllFaithfulSurvive(w, v);
  }

  lemma FewerRequests(w: World, v: World)
    requires Conserved(w) && v == w.(inflight := v.inflight)
    ensures Grows(w, v) && Conserved(v)
  {
  }

  lemma StepKeeps(w: World, step: Step)
    requires Inv(w)
    ensures Inv(Next(w, step)) && Grows(w, Next(w, step))
  {
    hide Inv, Grows, Next;
    match step
    case Invite(id, i) => InviteKeeps(w, id, i);
    case Withdraw(org, id) => WithdrawKeeps(w, org, id);
    case OpenInvitation(id, claimant) => OpenKeeps(w, id, claimant);
    case Accept(q, newUser, membershipId, audited) => AcceptKeeps(w, q, newUser, membershipId, audited);
    case SignUp(id, email) => SignUpKeeps(w, id, email);
    case Found(id, m) => FoundKeeps(w, id, m);
    case EndMembership(id) => EndKeeps(w, id);
    case Tick(to) => TickKeeps(w, to);
  }

  /** Under any interleaving: no invitation is accepted once revoked or expired; the
      accepted ones are in bijection with the memberships their transactions created,
      each with the invitation's own organization, role and address; at most one
      invitation per address is open; and none of this is ever taken back. */
  lemma {:induction false} RunConserves(w: World, steps: seq<Step>)
    requires Inv(w)
    ensures Inv(Run(w, steps))
    ensures Grows(w, Run(w, steps))
    decreases |steps|
  {
    hide Inv, Next;
    if steps != [] {
      StepKeeps(w, steps[0]);
      RunConserves(Next(w, steps[0]), steps[1..]);
      GrowsIsTransitive(w, Next(w, steps[0]), Run(w, steps));
    }
  }

  /** A transaction commits exactly when the invitation is open at that moment, the
      account can be had, nobody of that account is a member, and the audit succeeds. */
  lemma AcceptanceCommitsExactlyWhen(t: Tables, x: Acceptance, newUser: Uuid, membershipId: Uuid, audited: bool, now: Instant)
    ensures Accepted(t, x, newUser, membershipId, audited, now).Ok? <==>
      var u := if x.claimant.Some? then x.claimant.value else newUser;
      && audited && x.id in t.invitations && t.invitations[x.id].acceptedAt.None? && t.invitations[x.id].revokedAt.None?
      && now < t.invitations[x.id].expiresAt
      && (if x.claimant.Some? then u in t.users else u !in t.users && !EmailTaken(t.users, x.invitation.email))
      && membershipId !in t.memberships && !IsMember(t.memberships, x.invitation.organizationId, u)
  {
    hide Lower, EmailTaken, IsMember;
  }

  /** What a committed acceptance writes, and that it writes nothing else: the stamp, the
      membership on the invitation's own terms, and the account where there was none. */
  lemma AcceptanceWrites(t: Tables, x: Acceptance, newUser: Uuid, membershipId: Uuid, audited: bool, now: Instant)
    requires Accepted(t, x, newUser, membershipId, audited, now).Ok?
    ensures var (v, u) := Accepted(t, x, newUser, membershipId, audited, now).value;
      && u == (if x.claimant.Some? then x.claimant.value else newUser)
      && v.invitations == t.invitations[x.id := t.invitations[x.id].(acceptedAt := Some(now), acceptedUser := Some(u))]
      && v.memberships == t.memberships[membershipId :=
           M.Membership(x.invitation.organizationId, u, x.invitation.role, x.invitation.membershipExpiresAt, None)]
      && (x.claimant.Some? ==> v.users == t.users)
      && (x.claimant.None? ==> v.users == t.users[newUser := Lower(x.invitation.email)])
  {
    hide Accepted, Lower;
    AcceptedParts(t, x, newUser, membershipId, audited, now);
  }

  /** A request is let through exactly when the invitation is open and unexpired and it
      comes either from an account of that address, or from nobody where there is none;
      case plays no part in an address. */
  lemma OpensExactlyWhen(w: World, id: Uuid, claimant: Option<Uuid>)
    ensures var v := Next(w, OpenInvitation(id, claimant));
      var through := id in w.t.invitations && w.t.invitations[id].acceptedAt.None? && w.t.invitations[id].revokedAt.None? &&
        w.now < w.t.invitations[id].expiresAt &&
        (if claimant.Some? then claimant.value in w.t.users && SameAddress(w.t.users[claimant.value], w.t.invitations[id].email)
         else forall u | u in w.t.users :: !SameAddress(w.t.users[u], w.t.invitations[id].email));
      v == if through
        then w.(inflight := w.inflight[w.requests := Acceptance(id, w.t.invitations[id], claimant)], requests := w.requests + 1) else w
  {
    forall a: string, b: string ensures Lower(a) == Lower(b) <==> SameAddress(a, b) {
      LowerForgetsCase(a, b);
    }
    hide Lower, SameAddress;
  }

  /** Equal but for the case of ASCII letters. */
  predicate SameAddress(a: string, b: string) {
    |a| == |b| && forall k | 0 <= k < |a| :: a[k] == b[k] || IsCaseOf(a[k], b[k]) || IsCaseOf(b[k], a[k])
  }

  predicate IsCaseOf(upper: char, lower: char) {
    'A' <= upper <= 'Z' && lower as int == upper as int - 'A' as int + 'a' as int
  }

  lemma LowerForgetsCase(a: string, b: string)
    ensures Lower(a) == Lower(b) <==> SameAddress(a, b)
  {
    if Lower(a) == Lower(b) {
      assert |a| == |Lower(a)| && |b| == |Lower(b)|;
      forall k | 0 <= k < |a| ensures a[k] == b[k] || IsCaseOf(a[k], b[k]) || IsCaseOf(b[k], a[k]) {
        assert Lower(a)[k] == Lower(b)[k];
      }
    }
  }

  /** An invitation comes in exactly when no open one of its organization has its address;
      it is withdrawn exactly while it is open, by its own organization. */
  lemma InvitedExactlyWhen(w: World, id: Uuid, i: Invitation)
    requires id !in w.t.invitations && id !in w.joined && i.acceptedAt.None? && i.revokedAt.None? && i.acceptedUser.None?
    ensures var v := Next(w, Invite(id, i));
      v == if exists x :: x in w.t.invitations && SameOpening(w.t.invitations[x], i)
        then w else w.(t := w.t.(invitations := w.t.invitations[id := i.(email := Lower(i.email))]))
  {
    forall a: string, b: string ensures Lower(a) == Lower(b) <==> SameAddress(a, b) {
      LowerForgetsCase(a, b);
    }
    hide Lower, SameAddress;
    assert forall x | x in w.t.invitations :: OpenFor(w.t.invitations[x], i.organizationId, i.email) <==> SameOpening(w.t.invitations[x], i);
  }

  /** Open, of the same organization, and to the same address. */
  predicate SameOpening(x: Invitation, i: Invitation) {
    x.acceptedAt.None? && x.revokedAt.None? && x.organizationId == i.organizationId && SameAddress(x.email, i.email)
  }

  lemma WithdrawnExactlyWhen(w: World, org: Uuid, id: Uuid)
    ensures Next(w, Withdraw(org, id)) ==
      if id in w.t.invitations && w.t.invitations[id].organizationId == org &&
         w.t.invitations[id].acceptedAt.None? && w.t.invitations[id].revokedAt.None?
      then w.(t := w.t.(invitations := w.t.invitations[id := w.t.invitations[id].(revokedAt := Some(w.now))])) else w
  {
  }

  /** Once an invitation's expiry has come, on every later run nobody is let through with
      it, and no transaction for it commits, however early its request was. */
  lemma ExpiredIsNeverAccepted(w: World, steps: seq<Step>, x: Acceptance, newUser: Uuid, membershipId: Uuid, audited: bool)
    requires Inv(w) && x.id in w.t.invitations && w.t.invitations[x.id].expiresAt <= w.now
    ensures var v := Run(w, steps);
      && Accepted(v.t, x, newUser, membershipId, audited, v.now).Err?
      && forall claimant :: Next(v, OpenInvitation(x.id, claimant)) == v
  {
    hide Run, Inv, Accepted, SameAddress, EmailTaken, IsMember, Next;
    RunConserves(w, steps);
    var v := Run(w, steps);
    AcceptanceCommitsExactlyWhen(v.t, x, newUser, membershipId, audited, v.now);
    forall claimant ensures Next(v, OpenInvitation(x.id, claimant)) == v {
      OpensExactlyWhen(v, x.id, claimant);
    }
  }

  lemma StatusReadsOff(i: Invitation, now: Instant)
    ensures i.Status(now) == ACCEPTED <==> i.acceptedAt.Some?
    ensures i.Status(now) == REVOKED <==> i.acceptedAt.None? && i.revokedAt.Some?
    ensures i.Status(now) == EXPIRED <==> i.acceptedAt.None? && i.revokedAt.None? && i.expiresAt <= now
    ensures i.Status(now) == PENDING <==> i.acceptedAt.None? && i.revokedAt.None? && now < i.expiresAt
  {
  }

  /** Racing acceptances: once an invitation has been accepted or withdrawn, no
      transaction for it ever commits again, however early its request opened it. */
  lemma LoserNeverCommits(w: World, steps: seq<Step>, x: Acceptance, newUser: Uuid, membershipId: Uuid, audited: bool)
    requires Inv(w) && x.id in w.t.invitations
    requires w.t.invitations[x.id].acceptedAt.Some? || w.t.invitations[x.id].revokedAt.Some?
    ensures Accepted(Run(w, steps).t, x, newUser, membershipId, audited, Run(w, steps).now).Err?
  {
    hide Run, Inv, Accepted, Lower, EmailTaken, IsMember;
    RunConserves(w, steps);
    AcceptanceCommitsExactlyWhen(Run(w, steps).t, x, newUser, membershipId, audited, Run(w, steps).now);
  }

  /** One membership a user and organization, and rows that are never removed: once
      somebody has been removed from an organization, no acceptance brings them back.
      On every later run their one row there is the revoked one, and a transaction that
      would admit their account, however early its request opened the invitation, fails. */
  lemma RemovedMemberIsNeverReadmitted(w: World, steps: seq<Step>, m: Uuid)
    requires Inv(w) && m in w.t.memberships && Reached(w.t.memberships[m].revokedAt, w.now)
    ensures var v, org, u := Run(w, steps), w.t.memberships[m].organizationId, w.t.memberships[m].userId;
      && (forall x :: M.IsMembership(v.t.memberships, org, u, x) <==> x == m)
      && m in v.t.memberships && v.t.memberships[m] == w.t.memberships[m] && !v.t.memberships[m].Active(v.now)
      && (forall q, newUser, membershipId, audited | q in v.inflight && v.inflight[q].invitation.organizationId == org &&
            (if v.inflight[q].claimant.Some? then v.inflight[q].claimant.value else newUser) == u ::
            Accepted(v.t, v.inflight[q], newUser, membershipId, audited, v.now).Err?)
  {
    hide Run, Conserved, EmailsUnique, OneOpenEach, AllFaithful, Accepted, Lower, EmailTaken;
    RunConserves(w, steps);
    var v, org, u := Run(w, steps), w.t.memberships[m].organizationId, w.t.memberships[m].userId;
    assert M.IsMembership(v.t.memberships, org, u, m);
    forall q, newUser, membershipId, audited | q in v.inflight && v.inflight[q].invitation.organizationId == org &&
      (if v.inflight[q].claimant.Some? then v.inflight[q].claimant.value else newUser) == u
      ensures Accepted(v.t, v.inflight[q], newUser, membershipId, audited, v.now).Err?
    {
      AcceptanceCommitsExactlyWhen(v.t, v.inflight[q], newUser, membershipId, audited, v.now);
    }
  }
}
