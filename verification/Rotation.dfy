/** Exactly when a rotation gets through, over every interleaving of rotators and
    every other change to the store. */
module RotationTheorems {
  import opened Outcomes
  import opened Domain
  import opened CanonicalContext
  import opened Envelope
  import opened SecretStore
  import opened SecretService
  import opened SecretRuns

  /** What a rotator brings causes no error of its own: the row identifier is new
      and the audit row can be written. */
  predicate Unhindered(w: World, rot: Rotation) {
    rot.versionId !in w.tables.versions && rot.versionId !in w.tables.material && rot.audited
  }

  predicate Commits(w: World, rotator: nat, rot: Rotation)
    requires rotator in w.rotators
  {
    RotateInTx(w.tables, w.ring, w.rotators[rotator], rot).Ok?
  }

  lemma DecryptedContextIsValid(ring: Keyring, enc: EncryptedSecret, ec: EncryptionContext)
    requires Decrypt(ring, enc, ec).Ok?
    ensures ec.Valid()
  {
  }

  lemma OpensImpliesValid(w: World, id: Uuid)
    requires Filed(w) && id in w.tables.versions && Opens(w, id)
    ensures ContextOf(w, id).Valid()
  {
    hide Decrypt;
    DecryptedContextIsValid(w.ring, w.tables.material[id], ContextOf(w, id));
  }

  /** A reading of a stored secret always names a place that can be sealed under. */
  lemma ReadingIsSealable(w: World, rd: Reading)
    requires Inv(w) && GoodReading(w, rd)
    ensures NextContext(rd).Valid()
  {
    hide Opens, HighestVersion, GoodHistory, KeysUnique, Rotations;
    assert HighestVersion(w.tables.versions, rd.secretId) >= 1;
    var id :| id in w.tables.versions && w.tables.versions[id].secretId == rd.secretId &&
      w.tables.versions[id].version == HighestVersion(w.tables.versions, rd.secretId);
    OpensImpliesValid(w, id);
  }

  /** Absent other errors, a rotation commits exactly when the version number it read
      is the secret's highest at the moment of its transaction. */
  lemma CommitsExactlyWhenNewest(w: World, rotator: nat, rot: Rotation)
    requires Inv(w) && rotator in w.rotators && Unhindered(w, rot)
    ensures Commits(w, rotator, rot) <==>
      w.rotators[rotator].readVersion == HighestVersion(w.tables.versions, w.rotators[rotator].secretId)
  {
    hide HighestVersion, Encrypt, Bound, GoodHistory, KeysUnique, EverySecretHasAVersion, GoodCommit;
    var rd := w.rotators[rotator];
    assert GoodReading(w, rd);
    ReadingIsSealable(w, rd);
    var enc := Encrypt(w.ring, rot.value, NextContext(rd), rot.rnd);
    assert enc.Ok?;
  }

  /** In any run, no two rotations that read the same version of a secret both commit. */
  lemma OneCommitPerVersionRead(w: World, steps: seq<Step>, i: nat, j: nat)
    requires Inv(w)
    requires i < j < |Run(w, steps).commits|
    ensures var c, d := Run(w, steps).commits[i], Run(w, steps).commits[j];
      c.secretId != d.secretId || c.readVersion != d.readVersion
  {
    hide Bound, OneActive, Contiguous, KeysUnique, EverySecretHasAVersion, GoodReading, Run;
    RunKeeps(w, steps);
    var v := Run(w, steps);
    assert GoodCommit(v, v.commits[i]) && GoodCommit(v, v.commits[j]);
  }

  lemma VersionReadIsActive(vs: Versions, secretId: Uuid, id: Uuid)
    requires OneActive(vs) && IsActiveVersion(vs, secretId, id)
    ensures VersionRead(vs, secretId) == vs[id].version
  {
  }

  /** A rotator reads a secret exactly when it is there, not deleted, and of its own
      organization. What it takes with it is the place the secret is in and the number of
      the active version, or 0 where none is. */
  lemma ReadsExactlyWhen(w: World, rotator: nat, organizationId: Uuid, s: Uuid)
    requires Inv(w)
    ensures var v := Next(w, RotateRead(rotator, organizationId, s));
      var there := s in w.tables.secrets && !w.tables.secrets[s].deleted &&
        w.tree[w.tables.secrets[s].environmentId].organizationId == organizationId;
      && v == (if there then w.(rotators := w.rotators[rotator := v.rotators[rotator]]) else w)
      && (there ==>
            var rd, env := v.rotators[rotator], w.tables.secrets[s].environmentId;
            && rd.organizationId == organizationId && rd.environmentId == env && rd.secretId == s
            && rd.projectId == w.tree[env].projectId
            && (forall id | IsActiveVersion(w.tables.versions, s, id) :: rd.readVersion == w.tables.versions[id].version)
            && ((forall id :: !IsActiveVersion(w.tables.versions, s, id)) ==> rd.readVersion == 0))
  {
    hide VersionRead, Contiguous, DistinctNumbers, RevocationAgrees, KeysUnique, EverySecretHasAVersion, Rotations, Opens;
    var vs := w.tables.versions;
    VersionReadIsReal(vs, s);
    if id :| IsActiveVersion(vs, s, id) {
      VersionReadIsActive(vs, s, id);
    }
  }

  /** A rotation nobody interferes with commits exactly when the active version is
      the newest one; after a rollback, or with nothing active, it aborts. */
  lemma UncontendedRotation(w: World, rotator: nat, organizationId: Uuid, secretId: Uuid, rot: Rotation)
    requires Inv(w) && Visible(w, organizationId, secretId) && Unhindered(w, rot)
    ensures var u := Next(w, RotateRead(rotator, organizationId, secretId));
      rotator in u.rotators &&
      (Commits(u, rotator, rot) <==>
        exists id :: IsActiveVersion(w.tables.versions, secretId, id) &&
          w.tables.versions[id].version == HighestVersion(w.tables.versions, secretId))
  {
    hide HighestVersion, Bound, KeysUnique, VersionRead, RotateInTx;
    var u := Next(w, RotateRead(rotator, organizationId, secretId));
    var vs := w.tables.versions;
    StepKeeps(w, RotateRead(rotator, organizationId, secretId));
    CommitsExactlyWhenNewest(u, rotator, rot);
    VersionReadIsReal(vs, secretId);
    assert HighestVersion(vs, secretId) >= 1;
    if id :| IsActiveVersion(vs, secretId, id) {
      VersionReadIsActive(vs, secretId, id);
    }
  }

  // ---------------------------------------------------------------------------
  // Secrets that can no longer be rotated
  // ---------------------------------------------------------------------------

  /** No rotator in flight read the newest version of this secret. */
  ghost predicate NoFreshReader(w: World, s: Uuid) {
    forall k | k in w.rotators && w.rotators[k].secretId == s ::
      w.rotators[k].readVersion != HighestVersion(w.tables.versions, s)
  }

  /** The rows of one secret, as seen by everything that reads them. */
  ghost predicate SameRows(a: Versions, b: Versions, s: Uuid) {
    && (forall id | id in a && a[id].secretId == s :: id in b && b[id] == a[id])
    && (forall id | id in b && b[id].secretId == s :: id in a && a[id].secretId == s)
  }

  lemma SameRowsSameNumbers(a: Versions, b: Versions, s: Uuid)
    requires SameRows(a, b, s)
    ensures NumbersOf(a, s) == NumbersOf(b, s) && HighestVersion(a, s) == HighestVersion(b, s)
  {
    forall n: nat ensures n in NumbersOf(a, s) <==> n in NumbersOf(b, s) {
      if n in NumbersOf(a, s) {
        var id :| id in a && a[id].secretId == s && a[id].version == n;
        assert id in b && b[id].version == n;
      }
      if n in NumbersOf(b, s) {
        var id :| id in b && b[id].secretId == s && b[id].version == n;
        assert id in a && a[id].version == n;
      }
    }
  }

  lemma InsertLeavesOtherRows(t: Tables, secretId: Uuid, enc: EncryptedSecret, expiresAt: Option<Instant>, id: Uuid, s: Uuid)
    requires VersionInserted(t, secretId, enc, expiresAt, id).Ok? && s != secretId
    ensures SameRows(t.versions, VersionInserted(t, secretId, enc, expiresAt, id).value.0.versions, s)
  {
    hide HighestVersion;
  }

  lemma {:induction false} CreateLeavesOtherRows(t: Tables, ring: Keyring, reqs: seq<CreateRequest>, s: Uuid)
    requires s in t.secrets && CreateAll(t, ring, reqs).Ok?
    ensures SameRows(t.versions, CreateAll(t, ring, reqs).value.versions, s)
    decreases |reqs|
  {
    hide VersionInserted, Encrypt;
    if reqs != [] {
      var req := reqs[0];
      var t1 := SecretInserted(t, req.environmentId, req.key, req.secretId).value;
      var enc := Encrypt(ring, req.value, FirstContext(req), req.rnd).value;
      InsertLeavesOtherRows(t1, req.secretId, enc, req.expiresAt, req.versionId, s);
      VersionInsertedGrows(t1, req.secretId, enc, req.expiresAt, req.versionId);
      CreateLeavesOtherRows(CreateInTx(t, ring, req).value, ring, reqs[1..], s);
    }
  }

  lemma StatusStepKeepsNumbers(w: World, step: Step, s: Uuid)
    requires Inv(w)
    requires step.RollBack? || step.Revoke? || step.SetExpiry?
    ensures SameIdentity(w.tables.versions, Next(w, step).tables.versions)
    ensures HighestVersion(Next(w, step).tables.versions, s) == HighestVersion(w.tables.versions, s)
    ensures Next(w, step).rotators == w.rotators
  {
    hide HighestVersion, Bound, GoodHistory, KeysUnique, EverySecretHasAVersion, Rotations;
    var v := Next(w, step);
    if v.tables != w.tables {
      match step
      case RollBack(secretId, versionId, _) => ActivatedKeepsHistory(w.tables, secretId, versionId);
      case Revoke(secretId, versionId, now, _) => WithdrawnKeepsHistory(w.tables, secretId, versionId, now);
      case SetExpiry(secretId, versionId, expiresAt, _) => ExpirySetKeepsHistory(w.tables, secretId, versionId, expiresAt);
    }
    IdentityFixesNumbers(w.tables.versions, v.tables.versions);
  }

  /** A rotator that did not read the newest version changes nothing about it. */
  lemma StaleCommitLeavesRows(w: World, rotator: nat, rot: Rotation, s: Uuid)
    requires Inv(w) && rotator in w.rotators && NoFreshReader(w, s)
    ensures SameRows(w.tables.versions, Next(w, RotateCommit(rotator, rot)).tables.versions, s)
  {
    hide HighestVersion, Encrypt, Bound, GoodHistory, KeysUnique, EverySecretHasAVersion, Rotations;
    var rd := w.rotators[rotator];
    if RotateInTx(w.tables, w.ring, rd, rot).Ok? {
      var enc := Encrypt(w.ring, rot.value, NextContext(rd), rot.rnd).value;
      assert rd.secretId != s;
      InsertLeavesOtherRows(w.tables, rd.secretId, enc, rot.expiresAt, rot.versionId, s);
    }
  }

  /** No version of `s` appears while nobody in flight has read its newest one. */
  lemma NoNewVersion(w: World, step: Step, s: Uuid)
    requires Inv(w) && s in w.tables.secrets && NoFreshReader(w, s)
    ensures HighestVersion(Next(w, step).tables.versions, s) == HighestVersion(w.tables.versions, s)
  {
    hide HighestVersion, Inv, CreateAll, RotateInTx, NoFreshReader, VersionRead;
    var v := Next(w, step);
    match step
    case Create(reqs) =>
      if v.tables != w.tables {
        CreateLeavesOtherRows(w.tables, w.ring, reqs, s);
        SameRowsSameNumbers(w.tables.versions, v.tables.versions, s);
      }
    case RotateCommit(rotator, rot) =>
      if rotator in w.rotators {
        StaleCommitLeavesRows(w, rotator, rot, s);
        SameRowsSameNumbers(w.tables.versions, v.tables.versions, s);
      }
    case RollBack(_, _, _) => StatusStepKeepsNumbers(w, step, s);
    case Revoke(_, _, _, _) => StatusStepKeepsNumbers(w, step, s);
    case SetExpiry(_, _, _, _) => StatusStepKeepsNumbers(w, step, s);
    case RotateRead(_, _, _) =>
    case Delete(_, _) =>
    case ChangeKeyring(_) =>
  }

  /** The newest version of `s` is number n, it has been revoked, and nobody in
      flight read it while it could still be read. */
  ghost predicate NewestIsRevoked(w: World, s: Uuid, n: nat) {
    && s in w.tables.secrets
    && HighestVersion(w.tables.versions, s) == n
    && (exists id :: id in w.tables.versions && w.tables.versions[id].secretId == s &&
          w.tables.versions[id].version == n && w.tables.versions[id].status == Revoked)
    && NoFreshReader(w, s)
  }

  lemma RevokedNewestIsNeverRead(vs: Versions, s: Uuid, id: Uuid)
    requires GoodHistory(vs)
    requires id in vs && vs[id].secretId == s && vs[id].version == HighestVersion(vs, s) && vs[id].status == Revoked
    ensures VersionRead(vs, s) != HighestVersion(vs, s)
  {
    hide HighestVersion;
    assert HighestVersion(vs, s) in NumbersOf(vs, s);
    assert HighestVersion(vs, s) >= 1;
    VersionReadIsReal(vs, s);
  }

  lemma RotatorsAfterStep(w: World, step: Step)
    ensures forall k | k in Next(w, step).rotators ::
      || (k in w.rotators && Next(w, step).rotators[k] == w.rotators[k])
      || (step.RotateRead? && step.rotator == k &&
          Next(w, step).rotators[k].secretId == step.secretId &&
          Next(w, step).rotators[k].readVersion == VersionRead(w.tables.versions, step.secretId))
  {
    hide CreateAll, RotateInTx, VersionRead, Activated, Withdrawn, ExpirySet, SoftDeleted;
  }

  lemma NewestRevokedStep(w: World, step: Step, s: Uuid, n: nat)
    requires Inv(w) && NewestIsRevoked(w, s, n)
    ensures NewestIsRevoked(Next(w, step), s, n)
  {
    hide HighestVersion, Next, Bound, GoodHistory, KeysUnique, EverySecretHasAVersion, Rotations, VersionRead;
    var v := Next(w, step);
    var id :| id in w.tables.versions && w.tables.versions[id].secretId == s &&
      w.tables.versions[id].version == n && w.tables.versions[id].status == Revoked;
    StepKeeps(w, step);
    NoNewVersion(w, step, s);
    RotatorsAfterStep(w, step);
    RevokedNewestIsNeverRead(w.tables.versions, s, id);
    assert v.tables.versions[id].status == Revoked;
  }

  /** Once a secret's newest version is revoked it can never be rotated again: on
      every later run, whatever is rolled back to or retried, its newest version is
      still the revoked one and no rotation of it commits. */
  lemma {:induction false} RevokedNewestIsFinal(w: World, steps: seq<Step>, s: Uuid, n: nat)
    requires Inv(w) && NewestIsRevoked(w, s, n)
    ensures NewestIsRevoked(Run(w, steps), s, n)
    ensures forall k, rot | k in Run(w, steps).rotators && Run(w, steps).rotators[k].secretId == s && Unhindered(Run(w, steps), rot) ::
      !Commits(Run(w, steps), k, rot)
    decreases |steps|
  {
    hide Inv, Next, HighestVersion, Commits;
    if steps != [] {
      StepKeeps(w, steps[0]);
      NewestRevokedStep(w, steps[0], s, n);
      RevokedNewestIsFinal(Next(w, steps[0]), steps[1..], s, n);
    } else {
      forall k, rot | k in w.rotators && w.rotators[k].secretId == s && Unhindered(w, rot) ensures !Commits(w, k, rot) {
        CommitsExactlyWhenNewest(w, k, rot);
      }
    }
  }

  /** Some older version is active, or none is, and nobody in flight read the newest. */
  ghost predicate Stale(w: World, s: Uuid) {
    && s in w.tables.secrets
    && VersionRead(w.tables.versions, s) < HighestVersion(w.tables.versions, s)
    && NoFreshReader(w, s)
  }

  lemma SameRowsSameRead(a: Versions, b: Versions, s: Uuid)
    requires OneActive(a) && OneActive(b) && SameRows(a, b, s)
    ensures VersionRead(a, s) == VersionRead(b, s)
  {
    hide VersionRead;
    assert forall id :: IsActiveVersion(a, s, id) <==> IsActiveVersion(b, s, id);
    if id :| IsActiveVersion(a, s, id) {
      VersionReadIsActive(a, s, id);
      VersionReadIsActive(b, s, id);
    } else {
      VersionReadIsReal(a, s);
      VersionReadIsReal(b, s);
    }
  }

  lemma RotateStepLeavesRows(w: World, step: Step, s: Uuid)
    requires Inv(w) && Stale(w, s) && (step.RotateRead? || step.RotateCommit?)
    ensures SameRows(w.tables.versions, Next(w, step).tables.versions, s)
    ensures Stale(Next(w, step), s)
  {
    hide HighestVersion, VersionRead, Bound, KeysUnique, EverySecretHasAVersion, Rotations, RotateInTx;
    var v := Next(w, step);
    if step.RotateCommit? && step.rotator in w.rotators {
      StaleCommitLeavesRows(w, step.rotator, step.rotation, s);
    }
    StepKeeps(w, step);
    RotatorsAfterStep(w, step);
    SameRowsSameNumbers(w.tables.versions, v.tables.versions, s);
    SameRowsSameRead(w.tables.versions, v.tables.versions, s);
    assert s in v.tables.secrets;
  }

  /** After a rollback to an older version, or a revocation of the active one, no
      amount of retrying by any number of rotators changes a single row of the secret. */
  lemma {:induction false} RetryingDoesNotHelp(w: World, steps: seq<Step>, s: Uuid)
    requires Inv(w) && Stale(w, s)
    requires forall i | 0 <= i < |steps| :: steps[i].RotateRead? || steps[i].RotateCommit?
    ensures SameRows(w.tables.versions, Run(w, steps).tables.versions, s) && Stale(Run(w, steps), s)
    decreases |steps|
  {
    hide Inv, Next, Stale;
    if steps != [] {
      StepKeeps(w, steps[0]);
      RotateStepLeavesRows(w, steps[0], s);
      RetryingDoesNotHelp(Next(w, steps[0]), steps[1..], s);
    }
  }

  /** A rollback makes the named version the one active version when that version is
      the secret's own and was never revoked; otherwise, or when its audit record cannot
      be written, it leaves everything as it was. */
  lemma RollBackTakesEffectExactlyWhen(w: World, secretId: Uuid, versionId: Uuid, audited: bool)
    ensures var v := Next(w, RollBack(secretId, versionId, audited));
      if CanActivate(w.tables.versions, secretId, versionId) && audited
      then forall id :: IsActiveVersion(v.tables.versions, secretId, id) <==> id == versionId
      else v == w
  {
  }
}
