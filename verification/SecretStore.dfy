/** internal/store/secrets.go: secrets, their versions and the sealed material,
    with the statements that change them. */
module SecretStore {
  import opened Outcomes
  import opened Domain
  import opened Envelope

  datatype Status = Active | Superseded | Revoked

  datatype SecretRow = SecretRow(environmentId: Uuid, key: string, deleted: bool)

  datatype VersionRow = VersionRow(
    secretId: Uuid, version: nat, status: Status, expiresAt: Option<Instant>, revokedAt: Option<Instant>, keyId: string)

  type Versions = map<Uuid, VersionRow>

  datatype Tables = Tables(secrets: map<Uuid, SecretRow>, versions: Versions, material: map<Uuid, EncryptedSecret>)

  datatype StoreError = NotFound | Conflict

  // ---------------------------------------------------------------------------
  // Reading
  // ---------------------------------------------------------------------------

  function NumbersOf(vs: Versions, secretId: Uuid): set<nat> {
    set id | id in vs && vs[id].secretId == secretId :: vs[id].version
  }

  predicate IsMax(m: nat, s: set<nat>) {
    m in s && forall x | x in s :: x <= m
  }

  lemma {:induction false} MaxExists(s: set<nat>) returns (m: nat)
    requires s != {}
    ensures IsMax(m, s)
  {
    m :| m in s;
    if s != {m} {
      var first := m;
      var rest := MaxExists(s - {first});
      assert forall x | x in s && x != first :: x in s - {first};
      if rest > first {
        m := rest;
      }
    }
  }

  lemma MaxIsDefined(s: set<nat>)
    requires s != {}
    ensures exists m :: m in s && IsMax(m, s)
  {
    var m := MaxExists(s);
  }

  /** COALESCE(max(version), 0) over one secret. */
  function HighestVersion(vs: Versions, secretId: Uuid): (n: nat)
    ensures forall id | id in vs && vs[id].secretId == secretId :: vs[id].version <= n
    ensures n > 0 ==> exists id :: id in vs && vs[id].secretId == secretId && vs[id].version == n
  {
    var numbers := NumbersOf(vs, secretId);
    assert forall id | id in vs && vs[id].secretId == secretId :: vs[id].version in numbers;
    if numbers == {} then 0
    else
      MaxIsDefined(numbers);
      var m :| m in numbers && IsMax(m, numbers);
      m
  }

  predicate IsActiveVersion(vs: Versions, secretId: Uuid, id: Uuid) {
    id in vs && vs[id].secretId == secretId && vs[id].status == Active
  }

  // ---------------------------------------------------------------------------
  // What each statement does to the tables
  // ---------------------------------------------------------------------------

  function LiveWithKey(secrets: map<Uuid, SecretRow>, environmentId: Uuid, key: string): set<Uuid> {
    set id | id in secrets && secrets[id].environmentId == environmentId && secrets[id].key == key && !secrets[id].deleted
  }

  function SecretInserted(t: Tables, environmentId: Uuid, key: string, id: Uuid): Result<Tables, StoreError> {
    if id in t.secrets || LiveWithKey(t.secrets, environmentId, key) != {} then Err(Conflict)
    else Ok(t.(secrets := t.secrets[id := SecretRow(environmentId, key, false)]))
  }

  function SupersededRow(row: VersionRow, secretId: Uuid): VersionRow {
    if row.secretId == secretId && row.status == Active then row.(status := Superseded) else row
  }

  function SupersedeActive(vs: Versions, secretId: Uuid): Versions {
    map id | id in vs :: SupersededRow(vs[id], secretId)
  }

  function VersionInserted(t: Tables, secretId: Uuid, enc: EncryptedSecret, expiresAt: Option<Instant>, id: Uuid)
    : Result<(Tables, nat), StoreError>
  {
    if id in t.versions || id in t.material then Err(Conflict)
    else if secretId !in t.secrets then Err(NotFound)
    else
      var n := HighestVersion(t.versions, secretId) + 1;
      var row := VersionRow(secretId, n, Active, expiresAt, None, enc.keyId);
      Ok((t.(versions := SupersedeActive(t.versions, secretId)[id := row], material := t.material[id := enc]), n))
  }

  /** A version may be rolled back to unless it is foreign, unknown or revoked. */
  predicate CanActivate(vs: Versions, secretId: Uuid, id: Uuid) {
    id in vs && vs[id].secretId == secretId && vs[id].revokedAt.None? && vs[id].status != Revoked
  }

  function Activated(t: Tables, secretId: Uuid, id: Uuid): Result<Tables, StoreError> {
    if !CanActivate(t.versions, secretId, id) then Err(NotFound)
    else Ok(t.(versions := SupersedeActive(t.versions, secretId)[id := t.versions[id].(status := Active)]))
  }

  function Withdrawn(t: Tables, secretId: Uuid, id: Uuid, now: Instant): Result<Tables, StoreError> {
    if id !in t.versions || t.versions[id].secretId != secretId || t.versions[id].revokedAt.Some? then Err(NotFound)
    else Ok(t.(versions := t.versions[id := t.versions[id].(status := Revoked, revokedAt := Some(now))]))
  }

  function ExpirySet(t: Tables, secretId: Uuid, id: Uuid, expiresAt: Option<Instant>): Result<Tables, StoreError> {
    if id !in t.versions || t.versions[id].secretId != secretId then Err(NotFound)
    else Ok(t.(versions := t.versions[id := t.versions[id].(expiresAt := expiresAt)]))
  }

  // DeleteSecret's scoping to an organization is the caller's `owned`.
  function SoftDeleted(t: Tables, id: Uuid, owned: bool): Result<Tables, StoreError> {
    if id !in t.secrets || !owned || t.secrets[id].deleted then Err(NotFound)
    else Ok(t.(secrets := t.secrets[id := t.secrets[id].(deleted := true)]))
  }

  /** common.go's InTx: the transaction's tables when it commits, the old ones otherwise. */
  function InTx<E>(before: Tables, r: Result<Tables, E>): Tables {
    if r.Ok? then r.value else before
  }

  /** Each statement's failure leaves whatever it had already written, so callers
      run it inside a transaction and restore the snapshot on failure. */
  class SecretRepo {
    var secrets: map<Uuid, SecretRow>
    var versions: Versions
    var material: map<Uuid, EncryptedSecret>

    constructor ()
      ensures Snapshot() == Tables(map[], map[], map[])
    {
      secrets, versions, material := map[], map[], map[];
    }

    function Snapshot(): Tables
      reads this
    {
      Tables(secrets, versions, material)
    }

    method Rollback(t: Tables)
      modifies this
      ensures Snapshot() == t
    {
      secrets, versions, material := t.secrets, t.versions, t.material;
    }

    method CreateSecret(environmentId: Uuid, key: string, id: Uuid) returns (r: Result<(), StoreError>)
      modifies this`secrets
      ensures var spec := SecretInserted(old(Snapshot()), environmentId, key, id);
        if spec.Ok? then r.Ok? && Snapshot() == spec.value else r == Err(spec.error) && Snapshot() == old(Snapshot())
    {
      var clash := set other | other in secrets && secrets[other].environmentId == environmentId &&
        secrets[other].key == key && !secrets[other].deleted;
      if id in secrets || |clash| > 0 {
        assert LiveWithKey(secrets, environmentId, key) == clash;
        return Err(Conflict);
      }
      assert LiveWithKey(secrets, environmentId, key) == clash;
      secrets := secrets[id := SecretRow(environmentId, key, false)];
      return Ok(());
    }

    method Supersede(secretId: Uuid)
      modifies this`versions
      ensures versions == SupersedeActive(old(versions), secretId)
    {
      versions := map id | id in versions ::
        if versions[id].secretId == secretId && versions[id].status == Active
        then versions[id].(status := Superseded) else versions[id];
    }

    method CreateVersion(secretId: Uuid, enc: EncryptedSecret, expiresAt: Option<Instant>, id: Uuid)
      returns (r: Result<nat, StoreError>)
      modifies this`versions, this`material
      ensures var spec := VersionInserted(old(Snapshot()), secretId, enc, expiresAt, id);
        if spec.Ok? then r == Ok(spec.value.1) && Snapshot() == spec.value.0 else r == Err(spec.error)
    {
      var before := versions;
      Supersede(secretId);
      SupersedingKeepsNumbers(before, secretId);
      var n := HighestVersion(versions, secretId) + 1;
      if id in versions {
        return Err(Conflict);
      }
      if id in material {
        return Err(Conflict);
      }
      if secretId !in secrets {
        return Err(NotFound);
      }
      versions := versions[id := VersionRow(secretId, n, Active, expiresAt, None, enc.keyId)];
      material := material[id := enc];
      return Ok(n);
    }

    method ActivateVersion(secretId: Uuid, id: Uuid) returns (r: Result<(), StoreError>)
      modifies this`versions
      ensures var spec := Activated(old(Snapshot()), secretId, id);
        if spec.Ok? then r.Ok? && Snapshot() == spec.value else r == Err(spec.error)
    {
      Supersede(secretId);
      if id in versions && versions[id].secretId == secretId && versions[id].revokedAt.None? && versions[id].status != Revoked {
        versions := versions[id := versions[id].(status := Active)];
        return Ok(());
      }
      return Err(NotFound);
    }

    method RevokeVersion(secretId: Uuid, id: Uuid, now: Instant) returns (r: Result<(), StoreError>)
      modifies this`versions
      ensures var spec := Withdrawn(old(Snapshot()), secretId, id, now);
        if spec.Ok? then r.Ok? && Snapshot() == spec.value else r == Err(spec.error) && Snapshot() == old(Snapshot())
    {
      if id in versions && versions[id].secretId == secretId && versions[id].revokedAt.None? {
        versions := versions[id := versions[id].(status := Revoked, revokedAt := Some(now))];
        return Ok(());
      }
      return Err(NotFound);
    }

    method SetVersionExpiry(secretId: Uuid, id: Uuid, expiresAt: Option<Instant>) returns (r: Result<(), StoreError>)
      modifies this`versions
      ensures var spec := ExpirySet(old(Snapshot()), secretId, id, expiresAt);
        if spec.Ok? then r.Ok? && Snapshot() == spec.value else r == Err(spec.error) && Snapshot() == old(Snapshot())
    {
      if id in versions && versions[id].secretId == secretId {
        versions := versions[id := versions[id].(expiresAt := expiresAt)];
        return Ok(());
      }
      return Err(NotFound);
    }
  }

  lemma SupersedingKeepsNumbers(vs: Versions, secretId: Uuid)
    ensures HighestVersion(SupersedeActive(vs, secretId), secretId) == HighestVersion(vs, secretId)
  {
    var after := SupersedeActive(vs, secretId);
    assert forall id | id in vs :: after[id].secretId == vs[id].secretId && after[id].version == vs[id].version;
  }

  // ---------------------------------------------------------------------------
  // The version history of every secret
  // ---------------------------------------------------------------------------

  ghost predicate OneActive(vs: Versions) {
    forall a, b, s | IsActiveVersion(vs, s, a) && IsActiveVersion(vs, s, b) :: a == b
  }

  ghost predicate RevocationAgrees(vs: Versions) {
    forall id | id in vs :: vs[id].status == Revoked <==> vs[id].revokedAt.Some?
  }

  ghost predicate DistinctNumbers(vs: Versions) {
    forall a, b | a in vs && b in vs && vs[a].secretId == vs[b].secretId && vs[a].version == vs[b].version :: a == b
  }

  predicate Counted(i: nat, n: nat) {
    1 <= i <= n
  }

  function UpTo(n: nat): set<nat> {
    set i | 0 <= i <= n && Counted(i, n)
  }

  /** The numbers of one secret are exactly 1 up to the highest. */
  ghost predicate Contiguous(vs: Versions) {
    forall s :: NumbersOf(vs, s) == UpTo(HighestVersion(vs, s))
  }

  ghost predicate GoodHistory(vs: Versions) {
    OneActive(vs) && RevocationAgrees(vs) && DistinctNumbers(vs) && Contiguous(vs)
  }

  /** The columns that name a version, which no statement ever updates. */
  ghost predicate SameIdentity(a: Versions, b: Versions) {
    && a.Keys == b.Keys
    && forall id | id in a :: a[id].secretId == b[id].secretId && a[id].version == b[id].version
  }

  lemma IdentityFixesNumbers(a: Versions, b: Versions)
    requires SameIdentity(a, b)
    ensures forall s :: NumbersOf(a, s) == NumbersOf(b, s) && HighestVersion(a, s) == HighestVersion(b, s)
    ensures DistinctNumbers(a) ==> DistinctNumbers(b)
    ensures Contiguous(a) ==> Contiguous(b)
  {
    forall s ensures NumbersOf(a, s) == NumbersOf(b, s) {
      assert forall n :: n in NumbersOf(a, s) <==> n in NumbersOf(b, s);
    }
  }

  lemma SupersedeKeepsHistory(vs: Versions, secretId: Uuid)
    requires GoodHistory(vs)
    ensures var after := SupersedeActive(vs, secretId);
      SameIdentity(vs, after) && GoodHistory(after) && forall id :: !IsActiveVersion(after, secretId, id)
  {
    IdentityFixesNumbers(vs, SupersedeActive(vs, secretId));
    forall a, b, s | IsActiveVersion(SupersedeActive(vs, secretId), s, a) && IsActiveVersion(SupersedeActive(vs, secretId), s, b)
      ensures a == b
    {
      assert IsActiveVersion(vs, s, a) && IsActiveVersion(vs, s, b);
    }
  }

  lemma InsertedNumbers(t: Tables, secretId: Uuid, enc: EncryptedSecret, expiresAt: Option<Instant>, id: Uuid)
    requires VersionInserted(t, secretId, enc, expiresAt, id).Ok?
    ensures var (after, n) := VersionInserted(t, secretId, enc, expiresAt, id).value;
      && NumbersOf(after.versions, secretId) == NumbersOf(t.versions, secretId) + {n}
      && (forall s | s != secretId :: NumbersOf(after.versions, s) == NumbersOf(t.versions, s))
      && HighestVersion(after.versions, secretId) == n
  {
    var mid := SupersedeActive(t.versions, secretId);
    var (after, n) := VersionInserted(t, secretId, enc, expiresAt, id).value;
    var vs := after.versions;
    IdentityFixesNumbers(t.versions, mid);
    assert vs == mid[id := vs[id]];
    InsertAddsANumber(mid, id, vs[id]);
    assert n in NumbersOf(vs, secretId);
    assert HighestVersion(vs, secretId) in NumbersOf(vs, secretId);
  }

  lemma InsertAddsANumber(vs: Versions, id: Uuid, row: VersionRow)
    requires id !in vs
    ensures NumbersOf(vs[id := row], row.secretId) == NumbersOf(vs, row.secretId) + {row.version}
    ensures forall s | s != row.secretId :: NumbersOf(vs[id := row], s) == NumbersOf(vs, s)
  {
    var after := vs[id := row];
    assert after[id] == row && forall x | x in vs :: after[x] == vs[x];
    forall n: nat ensures n in NumbersOf(after, row.secretId) <==> n in NumbersOf(vs, row.secretId) + {row.version} {
      if n in NumbersOf(vs, row.secretId) {
        var x :| x in vs && vs[x].secretId == row.secretId && vs[x].version == n;
        assert x in after && after[x].version == n;
      }
    }
    forall s | s != row.secretId ensures NumbersOf(after, s) == NumbersOf(vs, s) {
      forall n: nat ensures n in NumbersOf(after, s) <==> n in NumbersOf(vs, s) {
        if n in NumbersOf(vs, s) {
          var x :| x in vs && vs[x].secretId == s && vs[x].version == n;
          assert x in after && after[x].version == n;
        }
      }
    }
  }

  lemma InsertKeepsNumbering(vs: Versions, id: Uuid, row: VersionRow)
    requires DistinctNumbers(vs) && Contiguous(vs)
    requires id !in vs && row.version == HighestVersion(vs, row.secretId) + 1
    requires HighestVersion(vs[id := row], row.secretId) == row.version
    ensures DistinctNumbers(vs[id := row]) && Contiguous(vs[id := row])
  {
    var after := vs[id := row];
    InsertAddsANumber(vs, id, row);
    forall s ensures NumbersOf(after, s) == UpTo(HighestVersion(after, s)) {
      if s != row.secretId {
        HighestDependsOnNumbers(after, vs, s);
      } else {
        assert UpTo(row.version) == UpTo(row.version - 1) + {row.version};
      }
    }
  }

  lemma VersionInsertedKeepsHistory(t: Tables, secretId: Uuid, enc: EncryptedSecret, expiresAt: Option<Instant>, id: Uuid)
    requires GoodHistory(t.versions)
    requires VersionInserted(t, secretId, enc, expiresAt, id).Ok?
    ensures GoodHistory(VersionInserted(t, secretId, enc, expiresAt, id).value.0.versions)
  {
    var mid := SupersedeActive(t.versions, secretId);
    var (after, n) := VersionInserted(t, secretId, enc, expiresAt, id).value;
    var vs := after.versions;
    var row := vs[id];
    assert vs == mid[id := row];
    SupersedeKeepsHistory(t.versions, secretId);
    IdentityFixesNumbers(t.versions, mid);
    InsertedNumbers(t, secretId, enc, expiresAt, id);
    InsertKeepsNumbering(mid, id, row);
    NewActiveIsAlone(mid, id, row);
  }

  lemma NewActiveIsAlone(vs: Versions, id: Uuid, row: VersionRow)
    requires OneActive(vs) && forall x :: !IsActiveVersion(vs, row.secretId, x)
    ensures OneActive(vs[id := row])
  {
    var after := vs[id := row];
    forall a, b, s | IsActiveVersion(after, s, a) && IsActiveVersion(after, s, b) ensures a == b {
      assert a != id ==> IsActiveVersion(vs, s, a);
      assert b != id ==> IsActiveVersion(vs, s, b);
    }
  }

  lemma HighestDependsOnNumbers(a: Versions, b: Versions, s: Uuid)
    requires NumbersOf(a, s) == NumbersOf(b, s)
    ensures HighestVersion(a, s) == HighestVersion(b, s)
  {
  }

  lemma ActivatedKeepsHistory(t: Tables, secretId: Uuid, id: Uuid)
    requires GoodHistory(t.versions)
    requires Activated(t, secretId, id).Ok?
    ensures SameIdentity(t.versions, Activated(t, secretId, id).value.versions)
    ensures GoodHistory(Activated(t, secretId, id).value.versions)
  {
    var mid := SupersedeActive(t.versions, secretId);
    var vs := Activated(t, secretId, id).value.versions;
    SupersedeKeepsHistory(t.versions, secretId);
    IdentityFixesNumbers(t.versions, vs);
    NewActiveIsAlone(mid, id, vs[id]);
  }

  lemma WithdrawnKeepsHistory(t: Tables, secretId: Uuid, id: Uuid, now: Instant)
    requires GoodHistory(t.versions)
    requires Withdrawn(t, secretId, id, now).Ok?
    ensures SameIdentity(t.versions, Withdrawn(t, secretId, id, now).value.versions)
    ensures GoodHistory(Withdrawn(t, secretId, id, now).value.versions)
  {
    var vs := Withdrawn(t, secretId, id, now).value.versions;
    IdentityFixesNumbers(t.versions, vs);
    forall a, b, s | IsActiveVersion(vs, s, a) && IsActiveVersion(vs, s, b) ensures a == b {
      assert IsActiveVersion(t.versions, s, a) && IsActiveVersion(t.versions, s, b);
    }
  }

  lemma ExpirySetKeepsHistory(t: Tables, secretId: Uuid, id: Uuid, expiresAt: Option<Instant>)
    requires GoodHistory(t.versions)
    requires ExpirySet(t, secretId, id, expiresAt).Ok?
    ensures SameIdentity(t.versions, ExpirySet(t, secretId, id, expiresAt).value.versions)
    ensures GoodHistory(ExpirySet(t, secretId, id, expiresAt).value.versions)
  {
    var vs := ExpirySet(t, secretId, id, expiresAt).value.versions;
    IdentityFixesNumbers(t.versions, vs);
    forall a, b, s | IsActiveVersion(vs, s, a) && IsActiveVersion(vs, s, b) ensures a == b {
      assert IsActiveVersion(t.versions, s, a) && IsActiveVersion(t.versions, s, b);
    }
  }
}
