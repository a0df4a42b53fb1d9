/** internal/secrets/service.go, the writing half: creation in batches and
    rotation, each sealing a value inside the transaction that stores it. */
module SecretService {
  import opened Outcomes
  import opened Domain
  import opened CanonicalContext
  import opened Envelope
  import opened SecretStore
  import Authz

  const MAX_SECRET_BYTES := 512 * 1024

  datatype ServiceError =
    | Store(cause: StoreError) | CryptoFailed | ConcurrentRotation | AuditFailed
    | ValueTooLarge | NotAuthorized | PolicyFailed

  // Identifiers and randomness are what the database and the random source drew;
  // `audited` says whether the audit row of the same transaction could be written.
  datatype CreateRequest = CreateRequest(
    organizationId: Uuid, projectId: Uuid, environmentId: Uuid, key: string, value: Bytes, expiresAt: Option<Instant>,
    secretId: Uuid, versionId: Uuid, rnd: Randomness, audited: bool)

  function CreateInTx(t: Tables, ring: Keyring, req: CreateRequest): Result<Tables, ServiceError> {
    match SecretInserted(t, req.environmentId, req.key, req.secretId)
    case Err(e) => Err(Store(e))
    case Ok(t1) =>
      match Encrypt(ring, req.value, FirstContext(req), req.rnd)
      case Err(_) => Err(CryptoFailed)
      case Ok(enc) =>
        match VersionInserted(t1, req.secretId, enc, req.expiresAt, req.versionId)
        case Err(e) => Err(Store(e))
        case Ok((t2, _)) => if req.audited then Ok(t2) else Err(AuditFailed)
  }

  // A secret that has just been inserted can only be on its first version.
  function FirstContext(req: CreateRequest): EncryptionContext {
    EncryptionContext(req.organizationId, req.projectId, req.environmentId, req.secretId, 1)
  }

  function CreateAll(t: Tables, ring: Keyring, reqs: seq<CreateRequest>): Result<Tables, ServiceError>
    decreases |reqs|
  {
    if reqs == [] then Ok(t)
    else
      match CreateInTx(t, ring, reqs[0])
      case Err(e) => Err(e)
      case Ok(next) => CreateAll(next, ring, reqs[1..])
  }

  // What a rotator learned before its transaction began.
  datatype Reading = Reading(
    organizationId: Uuid, projectId: Uuid, environmentId: Uuid, secretId: Uuid, readVersion: nat)

  function NextContext(rd: Reading): EncryptionContext {
    EncryptionContext(rd.organizationId, rd.projectId, rd.environmentId, rd.secretId, rd.readVersion + 1)
  }

  // What a rotator brings to its transaction.
  datatype Rotation = Rotation(
    value: Bytes, expiresAt: Option<Instant>, versionId: Uuid, rnd: Randomness, audited: bool)

  function RotateInTx(t: Tables, ring: Keyring, rd: Reading, rot: Rotation): Result<Tables, ServiceError> {
    match Encrypt(ring, rot.value, NextContext(rd), rot.rnd)
    case Err(_) => Err(CryptoFailed)
    case Ok(enc) =>
      match VersionInserted(t, rd.secretId, enc, rot.expiresAt, rot.versionId)
      case Err(e) => Err(Store(e))
      case Ok((t', n)) =>
        if n != rd.readVersion + 1 then Err(ConcurrentRotation)
        else if !rot.audited then Err(AuditFailed)
        else Ok(t')
  }

  function AuthzRequest(p: Principal, c: Capability, organizationId: Uuid, projectId: Uuid, environmentId: Uuid, secretId: Uuid, key: string)
    : Authz.Request
  {
    Authz.Request(p, c, organizationId, projectId, environmentId, secretId, key)
  }

  /** Every request of a batch stands on its own before anything is written. */
  function Refusal(p: Principal, source: Authz.GrantsRead, now: Instant, req: CreateRequest): Option<ServiceError> {
    if |req.value| > MAX_SECRET_BYTES then Some(ValueTooLarge)
    else
      match Authz.Decide(source, now,
        AuthzRequest(p, CreateSecret, req.organizationId, req.projectId, req.environmentId, NIL, ""))
      case Err(_) => Some(PolicyFailed)
      case Ok(Deny(_)) => Some(NotAuthorized)
      case Ok(Allow(_, _)) => None
  }

  class Service {
    const repo: SecretRepo

    constructor (repo: SecretRepo)
      ensures this.repo == repo
    {
      this.repo := repo;
    }

    /** One transaction for the whole batch: either every secret lands or none does,
        and one refused request is enough to stop them all. */
    method CreateMany(ring: Keyring, p: Principal, source: Authz.GrantsRead, now: Instant, reqs: seq<CreateRequest>)
      returns (r: Result<(), ServiceError>)
      modifies repo
      ensures (exists i :: 0 <= i < |reqs| && Refusal(p, source, now, reqs[i]).Some?) ==>
        r.Err? && repo.Snapshot() == old(repo.Snapshot())
      ensures (forall i | 0 <= i < |reqs| :: Refusal(p, source, now, reqs[i]).None?) ==>
        var spec := CreateAll(old(repo.Snapshot()), ring, reqs);
        && (r.Ok? <==> spec.Ok?)
        && repo.Snapshot() == InTx(old(repo.Snapshot()), spec)
    {
      hide CreateInTx, Authz.Decide, Authz.NeedsGrants, Authz.Permits;
      for i := 0 to |reqs|
        invariant forall j | 0 <= j < i :: Refusal(p, source, now, reqs[j]).None?
        invariant repo.Snapshot() == old(repo.Snapshot())
      {
        if |reqs[i].value| > MAX_SECRET_BYTES {
          return Err(ValueTooLarge);
        }
        var d := Authz.Authorize(source, now, AuthzRequest(
          p, CreateSecret, reqs[i].organizationId, reqs[i].projectId, reqs[i].environmentId, NIL, ""));
        if d.Err? {
          return Err(PolicyFailed);
        }
        if d.value.Deny? {
          return Err(NotAuthorized);
        }
      }
      var begin := repo.Snapshot();
      for i := 0 to |reqs|
        invariant CreateAll(begin, ring, reqs) == CreateAll(repo.Snapshot(), ring, reqs[i..])
      {
        var made := CreateOne(ring, reqs[i]);
        assert reqs[i..][0] == reqs[i] && reqs[i..][1..] == reqs[i + 1..];
        if made.Err? {
          repo.Rollback(begin);
          return made;
        }
      }
      return Ok(());
    }

    /** createInTx, inside the caller's transaction. */
    method CreateOne(ring: Keyring, req: CreateRequest) returns (r: Result<(), ServiceError>)
      modifies repo
      ensures var spec := CreateInTx(old(repo.Snapshot()), ring, req);
        if spec.Ok? then r.Ok? && repo.Snapshot() == spec.value else r == Err(spec.error)
    {
      var inserted := repo.CreateSecret(req.environmentId, req.key, req.secretId);
      if inserted.Err? {
        return Err(Store(inserted.error));
      }
      var enc := Encrypt(ring, req.value,
        EncryptionContext(req.organizationId, req.projectId, req.environmentId, req.secretId, 1), req.rnd);
      if enc.Err? {
        return Err(CryptoFailed);
      }
      var version := repo.CreateVersion(req.secretId, enc.value, req.expiresAt, req.versionId);
      if version.Err? {
        return Err(Store(version.error));
      }
      if !req.audited {
        return Err(AuditFailed);
      }
      return Ok(());
    }

    /** The transaction of Rotate, on a summary read earlier: the number the database
        assigned must be the one already bound into the ciphertext. */
    method CommitRotation(ring: Keyring, rd: Reading, rot: Rotation) returns (r: Result<(), ServiceError>)
      modifies repo
      ensures var spec := RotateInTx(old(repo.Snapshot()), ring, rd, rot);
        && (r.Ok? <==> spec.Ok?)
        && (r.Err? ==> r.error == spec.error)
        && repo.Snapshot() == InTx(old(repo.Snapshot()), spec)
    {
      var begin := repo.Snapshot();
      var enc := Encrypt(ring, rot.value, NextContext(rd), rot.rnd);
      if enc.Err? {
        return Err(CryptoFailed);
      }
      var version := repo.CreateVersion(rd.secretId, enc.value, rot.expiresAt, rot.versionId);
      r := if version.Err? then Err(Store(version.error))
      else if version.value != rd.readVersion + 1 then Err(ConcurrentRotation)
      else if !rot.audited then Err(AuditFailed)
      else Ok(());
      if r.Err? {
        repo.Rollback(begin);
      }
    }

    /** handleRollbackVersion's transaction: a version that is revoked, unknown or
        another secret's leaves the history exactly as it was. */
    method RollBackTo(secretId: Uuid, versionId: Uuid, audited: bool) returns (r: Result<(), ServiceError>)
      modifies repo
      ensures r.Ok? <==> audited && CanActivate(old(repo.versions), secretId, versionId)
      ensures r.Err? ==> repo.Snapshot() == old(repo.Snapshot())
      ensures r.Ok? ==> repo.Snapshot() == Activated(old(repo.Snapshot()), secretId, versionId).value
    {
      var begin := repo.Snapshot();
      var done := repo.ActivateVersion(secretId, versionId);
      r := if done.Err? then Err(Store(done.error)) else if !audited then Err(AuditFailed) else Ok(());
      if r.Err? {
        repo.Rollback(begin);
      }
    }
  }
}
