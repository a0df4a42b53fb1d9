/** Whole runs of the secret store: any number of rotators interleaved with
    creation, rollback, revocation, expiry changes, deletion and keyring changes.
    Permission checks are left out of the steps, so every run the policy allows is
    among the runs quantified over here. */
module SecretRuns {
  import opened Outcomes
  import opened Domain
  import opened CanonicalContext
  import opened Envelope
  import opened SecretStore
  import opened SecretService

  // An environment's place in the tree. Places never change.
  datatype Place = Place(projectId: Uuid, organizationId: Uuid)

  // A rotation that committed: which version was read, which row it produced.
  datatype Commit = Commit(secretId: Uuid, readVersion: nat, versionId: Uuid)

  // `committed` and `commits` are history: the plaintext each version row was
  // created from, and the rotations that got through.
  datatype World = World(
    tree: map<Uuid, Place>,
    ring: Keyring,
    tables: Tables,
    committed: map<Uuid, Bytes>,
    rotators: map<nat, Reading>,
    commits: seq<Commit>)

  datatype Step =
    | Create(reqs: seq<CreateRequest>)
    | RotateRead(rotator: nat, organizationId: Uuid, secretId: Uuid)
    | RotateCommit(rotator: nat, rotation: Rotation)
    | RollBack(secretId: Uuid, versionId: Uuid, audited: bool)
    | Revoke(secretId: Uuid, versionId: Uuid, now: Instant, audited: bool)
    | SetExpiry(secretId: Uuid, versionId: Uuid, expiresAt: Option<Instant>, audited: bool)
    | Delete(secretId: Uuid, organizationId: Uuid)
    | ChangeKeyring(ring: Keyring)

  /** GetSecret's join: a live secret of the organization, with the place it is in. */
  predicate Visible(w: World, organizationId: Uuid, secretId: Uuid) {
    && secretId in w.tables.secrets
    && !w.tables.secrets[secretId].deleted
    && w.tables.secrets[secretId].environmentId in w.tree
    && w.tree[w.tables.secrets[secretId].environmentId].organizationId == organizationId
  }

  /** The handlers fill a request's place from the environment row. */
  predicate InPlace(w: World, req: CreateRequest) {
    req.environmentId in w.tree && w.tree[req.environmentId] == Place(req.projectId, req.organizationId)
  }

  function Plaintexts(committed: map<Uuid, Bytes>, reqs: seq<CreateRequest>): map<Uuid, Bytes>
    decreases |reqs|
  {
    if reqs == [] then committed else Plaintexts(committed[reqs[0].versionId := reqs[0].value], reqs[1..])
  }

  function WithAudit(r: Result<Tables, StoreError>, audited: bool): Result<Tables, ServiceError> {
    if r.Err? then Err(Store(r.error)) else if audited then Ok(r.value) else Err(AuditFailed)
  }

  /** The version number a rotator's summary carries: what GetSecret's join yields, or 0
      where it yields NULL. */
  ghost function VersionRead(vs: Versions, secretId: Uuid): nat {
    if exists id :: IsActiveVersion(vs, secretId, id)
    then var id :| IsActiveVersion(vs, secretId, id); vs[id].version
    else 0
  }

  ghost function Next(w: World, step: Step): World {
    match step
    case Create(reqs) =>
      if forall i | 0 <= i < |reqs| :: InPlace(w, reqs[i]) then
        var r := CreateAll(w.tables, w.ring, reqs);
        if r.Ok? then w.(tables := r.value, committed := Plaintexts(w.committed, reqs)) else w
      else w
    case RotateRead(rotator, organizationId, secretId) =>
      if Visible(w, organizationId, secretId) then
        var env := w.tables.secrets[secretId].environmentId;
        w.(rotators := w.rotators[rotator :=
             Reading(organizationId, w.tree[env].projectId, env, secretId, VersionRead(w.tables.versions, secretId))])
      else w
    case RotateCommit(rotator, rot) =>
      if rotator in w.rotators then
        var rd := w.rotators[rotator];
        var r := RotateInTx(w.tables, w.ring, rd, rot);
        if r.Ok? then
          w.(tables := r.value,
             committed := w.committed[rot.versionId := rot.value],
             rotators := w.rotators - {rotator},
             commits := w.commits + [Commit(rd.secretId, rd.readVersion, rot.versionId)])
        else w.(rotators := w.rotators - {rotator})
      else w
    case RollBack(secretId, versionId, audited) =>
      w.(tables := InTx(w.tables, WithAudit(Activated(w.tables, secretId, versionId), audited)))
    case Revoke(secretId, versionId, now, audited) =>
      w.(tables := InTx(w.tables, WithAudit(Withdrawn(w.tables, secretId, versionId, now), audited)))
    case SetExpiry(secretId, versionId, expiresAt, audited) =>
      w.(tables := InTx(w.tables, WithAudit(ExpirySet(w.tables, secretId, versionId, expiresAt), audited)))
    case Delete(secretId, organizationId) =>
      w.(tables := InTx(w.tables, SoftDeleted(w.tables, secretId, Visible(w, organizationId, secretId))))
    case ChangeKeyring(ring) =>
      if Extends(ring, w.ring) && ring.activeKeyId in ring.keys then w.(ring := ring) else w
  }

  ghost function Run(w: World, steps: seq<Step>): World
    decreases |steps|
  {
    if steps == [] then w else Run(Next(w, steps[0]), steps[1..])
  }

  // ---------------------------------------------------------------------------
  // The invariant
  // ---------------------------------------------------------------------------

  /** The location a version's ciphertext must be bound to: its own organization,
      project, environment, secret and row number. */
  ghost function ContextOf(w: World, id: Uuid): EncryptionContext
    requires id in w.tables.versions && w.tables.versions[id].secretId in w.tables.secrets
    requires w.tables.secrets[w.tables.versions[id].secretId].environmentId in w.tree
  {
    var row := w.tables.versions[id];
    var env := w.tables.secrets[row.secretId].environmentId;
    EncryptionContext(w.tree[env].organizationId, w.tree[env].projectId, env, row.secretId, row.version)
  }

  ghost predicate Filed(w: World) {
    && (forall id | id in w.tables.versions ::
          id in w.tables.material && id in w.committed && w.tables.versions[id].secretId in w.tables.secrets)
    && (forall id | id in w.committed :: id in w.tables.versions)
    && (forall s | s in w.tables.secrets :: w.tables.secrets[s].environmentId in w.tree)
  }

  /** Version `id` opens, in its own place, to the plaintext it was committed with. */
  ghost predicate Opens(w: World, id: Uuid)
    requires Filed(w) && id in w.tables.versions
  {
    Decrypt(w.ring, w.tables.material[id], ContextOf(w, id)) == Ok(w.committed[id])
  }

  ghost predicate Bound(w: World) {
    Filed(w) && forall id | id in w.tables.versions :: Opens(w, id)
  }

  ghost predicate KeysUnique(secrets: map<Uuid, SecretRow>) {
    forall a, b | a in secrets && b in secrets && !secrets[a].deleted && !secrets[b].deleted &&
      secrets[a].environmentId == secrets[b].environmentId && secrets[a].key == secrets[b].key :: a == b
  }

  ghost predicate EverySecretHasAVersion(t: Tables) {
    forall s | s in t.secrets :: HighestVersion(t.versions, s) >= 1
  }

  ghost predicate GoodReading(w: World, rd: Reading) {
    && rd.secretId in w.tables.secrets
    && rd.environmentId == w.tables.secrets[rd.secretId].environmentId
    && rd.environmentId in w.tree
    && w.tree[rd.environmentId] == Place(rd.projectId, rd.organizationId)
    && rd.readVersion <= HighestVersion(w.tables.versions, rd.secretId)
  }

  ghost predicate GoodCommit(w: World, c: Commit) {
    && c.versionId in w.tables.versions
    && w.tables.versions[c.versionId].secretId == c.secretId
    && w.tables.versions[c.versionId].version == c.readVersion + 1
  }

  /** Readings name existing secrets in their true places; each commit made its own
      row, numbered one past the version that was read. */
  ghost predicate Rotations(w: World) {
    && (forall k | k in w.rotators :: GoodReading(w, w.rotators[k]))
    && (forall i | 0 <= i < |w.commits| :: GoodCommit(w, w.commits[i]))
    && (forall i, j | 0 <= i < j < |w.commits| :: w.commits[i].versionId != w.commits[j].versionId)
  }

  ghost predicate Inv(w: World) {
    && w.ring.activeKeyId in w.ring.keys
    && Bound(w)
    && GoodHistory(w.tables.versions)
    && KeysUnique(w.tables.secrets)
    && EverySecretHasAVersion(w.tables)
    && Rotations(w)
  }

  // ---------------------------------------------------------------------------
  // What no step ever takes back
  // ---------------------------------------------------------------------------

  ghost predicate SecretsGrow(a: map<Uuid, SecretRow>, b: map<Uuid, SecretRow>) {
    forall s | s in a :: s in b && b[s].environmentId == a[s].environmentId && b[s].key == a[s].key
  }

  ghost predicate VersionsGrow(a: Versions, b: Versions) {
    forall id | id in a ::
      && id in b
      && b[id].secretId == a[id].secretId
      && b[id].version == a[id].version
      && (a[id].revokedAt.Some? ==> b[id].revokedAt == a[id].revokedAt)
      && (a[id].status == Revoked ==> b[id].status == Revoked)
  }

  ghost predicate MapGrows<V>(a: map<Uuid, V>, b: map<Uuid, V>) {
    forall id | id in a :: id in b && b[id] == a[id]
  }

  ghost predicate Grows(w: World, v: World) {
    && v.tree == w.tree
    && Extends(v.ring, w.ring)
    && SecretsGrow(w.tables.secrets, v.tables.secrets)
    && VersionsGrow(w.tables.versions, v.tables.versions)
    && MapGrows(w.tables.material, v.tables.material)
    && MapGrows(w.committed, v.committed)
  }

  lemma GrowsIsTransitive(u: World, v: World, w: World)
    requires Grows(u, v) && Grows(v, w)
    ensures Grows(u, w)
  {
  }

  lemma HighestGrows(a: Versions, b: Versions, s: Uuid)
    requires VersionsGrow(a, b)
    ensures HighestVersion(a, s) <= HighestVersion(b, s)
  {
    hide HighestVersion;
    var n := HighestVersion(a, s);
    if n > 0 {
      var id :| id in a && a[id].secretId == s && a[id].version == n;
      assert b[id].secretId == s && b[id].version == n;
    }
  }

  lemma GoodReadingSurvives(w: World, v: World, rd: Reading)
    requires GoodReading(w, rd) && Grows(w, v)
    ensures GoodReading(v, rd)
  {
    hide HighestVersion;
    HighestGrows(w.tables.versions, v.tables.versions, rd.secretId);
  }

  /** Readings and commits survive any growth. */
  lemma RotationsSurvive(w: World, v: World)
    requires Rotations(w) && Grows(w, v) && v.rotators == w.rotators && v.commits == w.commits
    ensures Rotations(v)
  {
    hide GoodReading, HighestVersion;
    forall k | k in w.rotators ensures GoodReading(v, w.rotators[k]) {
      GoodReadingSurvives(w, v, w.rotators[k]);
    }
    forall i | 0 <= i < |w.commits| ensures GoodCommit(v, w.commits[i]) {
      assert GoodCommit(w, w.commits[i]);
    }
  }

  lemma PlaceSurvives(w: World, v: World, id: Uuid)
    requires Filed(w) && Filed(v) && Grows(w, v) && id in w.tables.versions
    ensures ContextOf(v, id) == ContextOf(w, id)
  {
  }

  lemma OpensSurvives(w: World, v: World, id: Uuid)
    requires Filed(w) && Filed(v) && Grows(w, v) && id in w.tables.versions && Opens(w, id)
    ensures Opens(v, id)
  {
    hide Canonical;
    PlaceSurvives(w, v, id);
    OpenedStaysOpen(w.ring, v.ring, w.tables.material[id], ContextOf(w, id));
  }

  /** Growth that adds no version keeps every ciphertext bound where it was. */
  lemma BoundSurvives(w: World, v: World)
    requires Bound(w) && Grows(w, v) && Filed(v)
    requires v.tables.versions.Keys == w.tables.versions.Keys
    ensures Bound(v)
  {
    hide Opens;
    forall id | id in v.tables.versions ensures Opens(v, id) {
      assert id in w.tables.versions.Keys;
      OpensSurvives(w, v, id);
    }
  }

  lemma SecretsKeepAVersion(w: World, v: World)
    requires EverySecretHasAVersion(w.tables) && Grows(w, v)
    requires v.tables.secrets.Keys == w.tables.secrets.Keys
    ensures EverySecretHasAVersion(v.tables)
  {
    hide HighestVersion;
    forall s | s in v.tables.secrets ensures HighestVersion(v.tables.versions, s) >= 1 {
      assert s in w.tables.secrets.Keys;
      HighestGrows(w.tables.versions, v.tables.versions, s);
    }
  }

  // ---------------------------------------------------------------------------
  // Steps that change only status columns
  // ---------------------------------------------------------------------------

  lemma RestylingGrows(a: Versions, b: Versions)
    requires SameIdentity(a, b) && RevocationAgrees(a) && RevocationAgrees(b)
    requires forall id | id in b :: a[id].revokedAt.Some? ==> b[id].revokedAt == a[id].revokedAt
    ensures VersionsGrow(a, b)
  {
    assert forall id :: id in a <==> id in b;
  }

  lemma VersionsRestyled(w: World, vs: Versions)
    requires Inv(w)
    requires SameIdentity(w.tables.versions, vs) && GoodHistory(vs)
    requires forall id | id in vs :: w.tables.versions[id].revokedAt.Some? ==> vs[id].revokedAt == w.tables.versions[id].revokedAt
    ensures var v := w.(tables := w.tables.(versions := vs)); Inv(v) && Grows(w, v)
  {
    hide Opens, HighestVersion, OneActive, DistinctNumbers, Contiguous, EverySecretHasAVersion, Rotations, KeysUnique;
    var v := w.(tables := w.tables.(versions := vs));
    RestylingGrows(w.tables.versions, vs);
    assert Grows(w, v) && Filed(v);
    BoundSurvives(w, v);
    SecretsKeepAVersion(w, v);
    RotationsSurvive(w, v);
  }

  lemma StatusStepKeeps(w: World, step: Step)
    requires Inv(w)
    requires step.RollBack? || step.Revoke? || step.SetExpiry?
    ensures Inv(Next(w, step)) && Grows(w, Next(w, step))
  {
    hide Bound, GoodHistory, KeysUnique, EverySecretHasAVersion, Rotations;
    var v := Next(w, step);
    if v.tables == w.tables {
      assert v == w;
    } else {
      match step
      case RollBack(secretId, versionId, audited) =>
        ActivatedKeepsHistory(w.tables, secretId, versionId);
        VersionsRestyled(w, v.tables.versions);
      case Revoke(secretId, versionId, now, audited) =>
        WithdrawnKeepsHistory(w.tables, secretId, versionId, now);
        VersionsRestyled(w, v.tables.versions);
      case SetExpiry(secretId, versionId, expiresAt, audited) =>
        ExpirySetKeepsHistory(w.tables, secretId, versionId, expiresAt);
        VersionsRestyled(w, v.tables.versions);
    }
  }

  // ---------------------------------------------------------------------------
  // Steps that add a version
  // ---------------------------------------------------------------------------

  lemma VersionInsertedGrows(t: Tables, secretId: Uuid, enc: EncryptedSecret, expiresAt: Option<Instant>, id: Uuid)
    requires VersionInserted(t, secretId, enc, expiresAt, id).Ok?
    ensures var t' := VersionInserted(t, secretId, enc, expiresAt, id).value.0;
      && VersionsGrow(t.versions, t'.versions)
      && MapGrows(t.material, t'.material)
      && t'.secrets == t.secrets
      && (forall x :: x in t'.versions <==> x in t.versions || x == id)
      && id !in t.versions
      && t'.versions[id].secretId == secretId
      && t'.versions[id].version == HighestVersion(t.versions, secretId) + 1
      && id in t'.material && t'.material[id] == enc
      && secretId in t.secrets
  {
    hide HighestVersion;
  }

  /** Storing a version whose material opens in the place and under the number the
      row ends up with. */
  lemma VersionAdded(w: World, secretId: Uuid, enc: EncryptedSecret, expiresAt: Option<Instant>, id: Uuid, value: Bytes)
    requires Bound(w) && VersionInserted(w.tables, secretId, enc, expiresAt, id).Ok?
    requires var env := w.tables.secrets[secretId].environmentId;
      Decrypt(w.ring, enc, EncryptionContext(w.tree[env].organizationId, w.tree[env].projectId, env, secretId,
        HighestVersion(w.tables.versions, secretId) + 1)) == Ok(value)
    ensures var t := VersionInserted(w.tables, secretId, enc, expiresAt, id).value.0;
      var v := w.(tables := t, committed := w.committed[id := value]);
      Bound(v) && Grows(w, v)
  {
    hide HighestVersion, VersionInserted, Decrypt, Opens;
    var t := VersionInserted(w.tables, secretId, enc, expiresAt, id).value.0;
    var v := w.(tables := t, committed := w.committed[id := value]);
    VersionInsertedGrows(w.tables, secretId, enc, expiresAt, id);
    assert Grows(w, v) && Filed(v);
    forall x | x in t.versions ensures Opens(v, x) {
      if x == id {
        NewVersionOpens(v, id);
      } else {
        OpensSurvives(w, v, x);
      }
    }
  }

  lemma NewVersionOpens(v: World, id: Uuid)
    requires Filed(v) && id in v.tables.versions
    requires Decrypt(v.ring, v.tables.material[id], ContextOf(v, id)) == Ok(v.committed[id])
    ensures Opens(v, id)
  {
    hide Decrypt;
  }

  lemma OpensIgnoresHistory(u: World, v: World, id: Uuid)
    requires v.tree == u.tree && v.ring == u.ring && v.tables == u.tables && v.committed == u.committed
    requires Filed(u) && Filed(v) && id in u.tables.versions && Opens(u, id)
    ensures Opens(v, id)
  {
    hide Decrypt;
    assert ContextOf(v, id) == ContextOf(u, id);
  }

  lemma BoundIgnoresHistory(u: World, v: World)
    requires v.tree == u.tree && v.ring == u.ring && v.tables == u.tables && v.committed == u.committed
    requires Bound(u)
    ensures Bound(v)
  {
    hide Opens;
    assert Filed(v);
    forall id | id in v.tables.versions ensures Opens(v, id) {
      OpensIgnoresHistory(u, v, id);
    }
  }

  lemma GoodReadingIgnoresHistory(u: World, v: World, rd: Reading)
    requires v.tree == u.tree && v.tables == u.tables
    ensures GoodReading(u, rd) <==> GoodReading(v, rd)
  {
  }

  /** The rotator is done, and if it got through, its commit joins the history. */
  lemma RotationsAfterCommit(u: World, rotator: nat, commits: seq<Commit>)
    requires Rotations(u)
    requires commits == u.commits ||
      (exists c :: commits == u.commits + [c] && GoodCommit(u, c) &&
        forall i | 0 <= i < |u.commits| :: u.commits[i].versionId != c.versionId)
    ensures Rotations(u.(rotators := u.rotators - {rotator}, commits := commits))
  {
    hide GoodReading;
    var v := u.(rotators := u.rotators - {rotator}, commits := commits);
    forall k | k in v.rotators ensures GoodReading(v, v.rotators[k]) {
      GoodReadingIgnoresHistory(u, v, v.rotators[k]);
    }
    forall i | 0 <= i < |v.commits| ensures GoodCommit(v, v.commits[i]) {
      assert i < |u.commits| ==> GoodCommit(u, u.commits[i]);
    }
  }

  lemma CommitKeeps(w: World, rotator: nat, rot: Rotation)
    requires Inv(w) && rotator in w.rotators
    ensures var v := Next(w, RotateCommit(rotator, rot)); Inv(v) && Grows(w, v)
  {
    hide Bound, GoodHistory, Rotations, KeysUnique, EverySecretHasAVersion;
    var v := Next(w, RotateCommit(rotator, rot));
    var rd := w.rotators[rotator];
    if RotateInTx(w.tables, w.ring, rd, rot).Ok? {
      RotationStores(w, rotator, rot);
      var u := w.(tables := v.tables, committed := v.committed);
      SecretsKeepAVersion(w, u);
      RotationsSurvive(w, u);
      CommitIsNew(w, u, rd, rot);
      RotationsAfterCommit(u, rotator, v.commits);
      BoundIgnoresHistory(u, v);
    } else {
      RotationsAfterCommit(w, rotator, w.commits);
      BoundIgnoresHistory(w, v);
    }
  }

  lemma CommitIsNew(w: World, u: World, rd: Reading, rot: Rotation)
    requires Rotations(w) && RotateInTx(w.tables, w.ring, rd, rot).Ok?
    requires u == w.(tables := RotateInTx(w.tables, w.ring, rd, rot).value, committed := u.committed)
    ensures GoodCommit(u, Commit(rd.secretId, rd.readVersion, rot.versionId))
    ensures forall i | 0 <= i < |w.commits| :: w.commits[i].versionId != rot.versionId
  {
    hide Encrypt, HighestVersion, GoodReading;
    var enc := Encrypt(w.ring, rot.value, NextContext(rd), rot.rnd).value;
    VersionInsertedGrows(w.tables, rd.secretId, enc, rot.expiresAt, rot.versionId);
    forall i | 0 <= i < |w.commits| ensures w.commits[i].versionId != rot.versionId {
      assert GoodCommit(w, w.commits[i]);
    }
  }

  /** What a rotation stores is bound to the place it was read from and to the
      number the database assigned. */
  lemma RotationStores(w: World, rotator: nat, rot: Rotation)
    requires Inv(w) && rotator in w.rotators
    requires RotateInTx(w.tables, w.ring, w.rotators[rotator], rot).Ok?
    ensures var t := RotateInTx(w.tables, w.ring, w.rotators[rotator], rot).value;
      var u := w.(tables := t, committed := w.committed[rot.versionId := rot.value]);
      Bound(u) && Grows(w, u) && GoodHistory(t.versions) && t.secrets == w.tables.secrets
  {
    hide Encrypt, Decrypt, HighestVersion, Bound, VersionInserted, GoodHistory, KeysUnique, EverySecretHasAVersion;
    var rd := w.rotators[rotator];
    assert GoodReading(w, rd);
    var enc := Encrypt(w.ring, rot.value, NextContext(rd), rot.rnd).value;
    DecryptAfterEncrypt(w.ring, w.ring, rot.value, NextContext(rd), NextContext(rd), rot.rnd);
    VersionInsertedGrows(w.tables, rd.secretId, enc, rot.expiresAt, rot.versionId);
    AssignedNumber(w.tables, rd.secretId, enc, rot.expiresAt, rot.versionId);
    VersionAdded(w, rd.secretId, enc, rot.expiresAt, rot.versionId, rot.value);
    VersionInsertedKeepsHistory(w.tables, rd.secretId, enc, rot.expiresAt, rot.versionId);
  }

  lemma AssignedNumber(t: Tables, secretId: Uuid, enc: EncryptedSecret, expiresAt: Option<Instant>, id: Uuid)
    requires VersionInserted(t, secretId, enc, expiresAt, id).Ok?
    ensures VersionInserted(t, secretId, enc, expiresAt, id).value.1 == HighestVersion(t.versions, secretId) + 1
  {
  }

  function AfterOne(w: World, t: Tables, req: CreateRequest): World {
    w.(tables := t, committed := w.committed[req.versionId := req.value])
  }

  /** A secret that has just appeared has no versions, so its first one is number 1,
      as its ciphertext assumes. */
  lemma FreshSecretHasNoVersions(w: World, secretId: Uuid)
    requires Filed(w) && secretId !in w.tables.secrets
    ensures HighestVersion(w.tables.versions, secretId) == 0
  {
  }

  lemma KeysStayUnique(secrets: map<Uuid, SecretRow>, environmentId: Uuid, key: string, id: Uuid)
    requires KeysUnique(secrets) && id !in secrets && LiveWithKey(secrets, environmentId, key) == {}
    ensures KeysUnique(secrets[id := SecretRow(environmentId, key, false)])
  {
    var after := secrets[id := SecretRow(environmentId, key, false)];
    assert forall s | s in secrets && !secrets[s].deleted ::
      !(secrets[s].environmentId == environmentId && secrets[s].key == key) || s in LiveWithKey(secrets, environmentId, key);
  }

  lemma SecretAdded(w: World, req: CreateRequest)
    requires Bound(w) && KeysUnique(w.tables.secrets) && InPlace(w, req)
    requires SecretInserted(w.tables, req.environmentId, req.key, req.secretId).Ok?
    ensures var u := w.(tables := SecretInserted(w.tables, req.environmentId, req.key, req.secretId).value);
      && Bound(u) && Grows(w, u) && KeysUnique(u.tables.secrets)
      && u.tables.versions == w.tables.versions && u.tables.material == w.tables.material
      && u.tables.secrets == w.tables.secrets[req.secretId := SecretRow(req.environmentId, req.key, false)]
      && HighestVersion(w.tables.versions, req.secretId) == 0
  {
    hide Opens;
    var u := w.(tables := SecretInserted(w.tables, req.environmentId, req.key, req.secretId).value);
    FreshSecretHasNoVersions(w, req.secretId);
    KeysStayUnique(w.tables.secrets, req.environmentId, req.key, req.secretId);
    assert Filed(u) && Grows(w, u);
    BoundSurvives(w, u);
  }

  lemma CreatedSecretIsStored(w: World, req: CreateRequest)
    requires Inv(w) && InPlace(w, req) && CreateInTx(w.tables, w.ring, req).Ok?
    ensures var v := AfterOne(w, CreateInTx(w.tables, w.ring, req).value, req);
      && Bound(v) && Grows(w, v) && KeysUnique(v.tables.secrets) && GoodHistory(v.tables.versions)
      && v.tables.secrets == w.tables.secrets[req.secretId := SecretRow(req.environmentId, req.key, false)]
      && req.versionId in v.tables.versions
      && v.tables.versions[req.versionId].secretId == req.secretId
      && v.tables.versions[req.versionId].version == 1
  {
    hide Encrypt, Decrypt, HighestVersion, Bound, VersionInserted, SecretInserted, GoodHistory, KeysUnique, EverySecretHasAVersion, Rotations;
    var t1 := SecretInserted(w.tables, req.environmentId, req.key, req.secretId).value;
    var u := w.(tables := t1);
    SecretAdded(w, req);
    var enc := Encrypt(w.ring, req.value, FirstContext(req), req.rnd).value;
    DecryptAfterEncrypt(w.ring, w.ring, req.value, FirstContext(req), FirstContext(req), req.rnd);
    VersionInsertedGrows(t1, req.secretId, enc, req.expiresAt, req.versionId);
    VersionAdded(u, req.secretId, enc, req.expiresAt, req.versionId, req.value);
    VersionInsertedKeepsHistory(t1, req.secretId, enc, req.expiresAt, req.versionId);
    GrowsIsTransitive(w, u, AfterOne(w, CreateInTx(w.tables, w.ring, req).value, req));
  }

  lemma CreateOneKeeps(w: World, req: CreateRequest)
    requires Inv(w) && InPlace(w, req) && CreateInTx(w.tables, w.ring, req).Ok?
    ensures var v := AfterOne(w, CreateInTx(w.tables, w.ring, req).value, req); Inv(v) && Grows(w, v)
  {
    hide CreateInTx, HighestVersion, Bound, GoodHistory, KeysUnique, Rotations;
    var v := AfterOne(w, CreateInTx(w.tables, w.ring, req).value, req);
    CreatedSecretIsStored(w, req);
    forall s | s in v.tables.secrets ensures HighestVersion(v.tables.versions, s) >= 1 {
      if s != req.secretId {
        HighestGrows(w.tables.versions, v.tables.versions, s);
      }
    }
    RotationsSurvive(w, v);
  }

  lemma {:induction false} CreateAllKeeps(w: World, reqs: seq<CreateRequest>)
    requires Inv(w) && forall i | 0 <= i < |reqs| :: InPlace(w, reqs[i])
    requires CreateAll(w.tables, w.ring, reqs).Ok?
    ensures var v := w.(tables := CreateAll(w.tables, w.ring, reqs).value, committed := Plaintexts(w.committed, reqs));
      Inv(v) && Grows(w, v)
    decreases |reqs|
  {
    hide Inv, CreateInTx;
    if reqs == [] {
      assert w == w.(tables := CreateAll(w.tables, w.ring, reqs).value, committed := Plaintexts(w.committed, reqs));
    } else {
      var t := CreateInTx(w.tables, w.ring, reqs[0]).value;
      var u := AfterOne(w, t, reqs[0]);
      CreateOneKeeps(w, reqs[0]);
      forall i | 0 <= i < |reqs[1..]| ensures InPlace(u, reqs[1..][i]) {
        assert InPlace(w, reqs[i + 1]);
      }
      CreateAllKeeps(u, reqs[1..]);
      GrowsIsTransitive(w, u, w.(tables := CreateAll(w.tables, w.ring, reqs).value, committed := Plaintexts(w.committed, reqs)));
    }
  }

  // ---------------------------------------------------------------------------
  // The remaining steps, and runs
  // ---------------------------------------------------------------------------

  lemma VersionReadIsReal(vs: Versions, secretId: Uuid)
    ensures (exists id :: IsActiveVersion(vs, secretId, id) && vs[id].version == VersionRead(vs, secretId)) ||
      (VersionRead(vs, secretId) == 0 && forall id :: !IsActiveVersion(vs, secretId, id))
    ensures VersionRead(vs, secretId) <= HighestVersion(vs, secretId)
  {
  }

  lemma ReadKeeps(w: World, rotator: nat, organizationId: Uuid, secretId: Uuid)
    requires Inv(w)
    ensures var v := Next(w, RotateRead(rotator, organizationId, secretId)); Inv(v) && Grows(w, v)
  {
    hide Bound, GoodHistory, KeysUnique, EverySecretHasAVersion, HighestVersion, VersionRead;
    var v := Next(w, RotateRead(rotator, organizationId, secretId));
    VersionReadIsReal(w.tables.versions, secretId);
    BoundIgnoresHistory(w, v);
    forall k | k in v.rotators ensures GoodReading(v, v.rotators[k]) {
      if k in w.rotators && v.rotators[k] == w.rotators[k] {
        GoodReadingIgnoresHistory(w, v, w.rotators[k]);
      }
    }
    forall i | 0 <= i < |v.commits| ensures GoodCommit(v, v.commits[i]) {
      assert GoodCommit(w, w.commits[i]);
    }
  }

  lemma DeleteKeeps(w: World, secretId: Uuid, organizationId: Uuid)
    requires Inv(w)
    ensures var v := Next(w, Delete(secretId, organizationId)); Inv(v) && Grows(w, v)
  {
    hide Opens, GoodHistory, EverySecretHasAVersion, Rotations;
    var v := Next(w, Delete(secretId, organizationId));
    assert Grows(w, v) && Filed(v);
    BoundSurvives(w, v);
    SecretsKeepAVersion(w, v);
    RotationsSurvive(w, v);
  }

  lemma KeyringKeeps(w: World, ring: Keyring)
    requires Inv(w)
    ensures var v := Next(w, ChangeKeyring(ring)); Inv(v) && Grows(w, v)
  {
    hide Opens, GoodHistory, KeysUnique, EverySecretHasAVersion, Rotations;
    var v := Next(w, ChangeKeyring(ring));
    assert Grows(w, v) && Filed(v);
    BoundSurvives(w, v);
    RotationsSurvive(w, v);
  }

  lemma StepKeeps(w: World, step: Step)
    requires Inv(w)
    ensures Inv(Next(w, step)) && Grows(w, Next(w, step))
  {
    hide Inv, Bound, CreateAll, RotateInTx;
    match step
    case Create(reqs) =>
      if (forall i | 0 <= i < |reqs| :: InPlace(w, reqs[i])) && CreateAll(w.tables, w.ring, reqs).Ok? {
        CreateAllKeeps(w, reqs);
      }
    case RotateRead(rotator, organizationId, secretId) => ReadKeeps(w, rotator, organizationId, secretId);
    case RotateCommit(rotator, rot) =>
      if rotator in w.rotators {
        CommitKeeps(w, rotator, rot);
      }
    case RollBack(_, _, _) => StatusStepKeeps(w, step);
    case Revoke(_, _, _, _) => StatusStepKeeps(w, step);
    case SetExpiry(_, _, _, _) => StatusStepKeeps(w, step);
    case Delete(secretId, organizationId) => DeleteKeeps(w, secretId, organizationId);
    case ChangeKeyring(ring) => KeyringKeeps(w, ring);
  }

  /** On every run, in every interleaving: each version's material is bound to
      exactly its own organization, project, environment, secret and number, and
      opens to the plaintext it was committed with; each history has at most one
      active version, is numbered 1..n, and is revoked exactly where it is stamped.
      No row is lost, renumbered or un-revoked, and no material is replaced. */
  lemma {:induction false} RunKeeps(w: World, steps: seq<Step>)
    requires Inv(w)
    ensures Inv(Run(w, steps)) && Grows(w, Run(w, steps))
    decreases |steps|
  {
    hide Inv, Next;
    if steps != [] {
      StepKeeps(w, steps[0]);
      RunKeeps(Next(w, steps[0]), steps[1..]);
      GrowsIsTransitive(w, Next(w, steps[0]), Run(w, steps));
    }
  }

  /** A deployment starts with a usable keyring and no secrets. */
  lemma EmptyStoreSatisfiesInv(tree: map<Uuid, Place>, ring: Keyring)
    requires ring.activeKeyId in ring.keys
    ensures Inv(World(tree, ring, Tables(map[], map[], map[]), map[], map[], []))
  {
    var vs: Versions := map[];
    forall s ensures NumbersOf(vs, s) == UpTo(HighestVersion(vs, s)) {
      assert NumbersOf(vs, s) == {};
    }
  }
}
