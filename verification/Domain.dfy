/** Failure-carrying results shared by every component. */
module Outcomes {
  datatype Option<+T> = None | Some(value: T)

  datatype Result<+T, +E> = Ok(value: T) | Err(error: E)
}

/** The vocabulary of internal/domain: identities, credential scopes, grants and
    the tables that say which role carries which capability. */
module Domain {
  import opened Outcomes

  // A 128-bit identifier. Zero is uuid.Nil.
  type Uuid = n: nat | n < 0x1_0000_0000_0000_0000_0000_0000_0000_0000
  const NIL: Uuid := 0

  // Nanoseconds on one clock, shared by the service and the database.
  type Instant = int

  /** A nullable timestamp that has been reached: the test behind every Active method. */
  predicate Reached(t: Option<Instant>, now: Instant) {
    t.Some? && t.value <= now
  }

  datatype Capability =
    | ReadMetadata | UseSecret | ReadSecret | CreateSecret | RotateSecret
    | RevokeSecret | ManageAccess | ReadAudit | ManageProject | ManageOrganization
    | Unrecognized(name: string)

  const ALL_CAPABILITIES: seq<Capability> := [
    ReadMetadata, UseSecret, ReadSecret, CreateSecret, RotateSecret,
    RevokeSecret, ManageAccess, ReadAudit, ManageProject, ManageOrganization]

  predicate ValidCapability(c: Capability) {
    c in ALL_CAPABILITIES
  }

  predicate IsSecretPlane(c: Capability) {
    c in [UseSecret, ReadSecret]
  }

  datatype Role = Owner | Admin | Developer | Viewer | NoRole

  function CapabilitiesForRole(r: Role): seq<Capability> {
    match r
    case Owner =>
      [ReadMetadata, CreateSecret, RotateSecret, RevokeSecret, ManageAccess,
       ReadAudit, ManageProject, ManageOrganization]
    case Admin =>
      [ReadMetadata, CreateSecret, RotateSecret, RevokeSecret, ManageAccess, ReadAudit, ManageProject]
    case Developer => [ReadMetadata]
    case Viewer => [ReadMetadata]
    case NoRole => []
  }

  datatype Scope = Scope(projectId: Uuid, environmentId: Uuid, capabilities: seq<Capability>, secretKeys: seq<string>)
  {
    predicate Allows(c: Capability) {
      c in capabilities
    }

    // An empty key list carries no key-level restriction.
    predicate AllowsKey(key: string) {
      secretKeys == [] || key in secretKeys
    }
  }

  datatype SubjectType = User | Machine

  datatype SessionKind = Browser | Cli | NotASession

  datatype Principal = Principal(
    kind: SubjectType,
    id: Uuid,
    organizationId: Uuid,
    scope: Option<Scope>,
    credentialId: Uuid,
    role: Role,
    sessionKind: SessionKind)

  // A level that is None is a wildcard over that level.
  datatype Grant = Grant(
    id: Uuid,
    projectId: Option<Uuid>,
    environmentId: Option<Uuid>,
    secretId: Option<Uuid>,
    capabilities: seq<Capability>,
    expiresAt: Option<Instant>,
    revokedAt: Option<Instant>)
  {
    predicate Active(now: Instant) {
      !Reached(revokedAt, now) && !Reached(expiresAt, now)
    }
  }
}
