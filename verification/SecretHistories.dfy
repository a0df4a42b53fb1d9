/** What the tables hold, told from the requests that committed and nothing else. */
module SecretHistories {
  import opened Outcomes
  import opened Domain
  import opened CanonicalContext
  import opened Envelope
  import opened SecretStore
  import opened SecretService
  import opened SecretRuns
  import Authz

  // A plain account of a store: where each secret was filed and whether it was deleted,
  // which version of it was last put in force, the expiry each version was last given, and
  // when it was revoked.
  datatype Account = Account(
    filed: map<Uuid, SecretRow>, inForce: map<Uuid, Uuid>, expiries: map<Uuid, Option<Instant>>, revocations: map<Uuid, Instant>)

  const NOTHING_YET := Account(map[], map[], map[], map[])

  function Created(a: Account, req: CreateRequest): Account {
    a.(filed := a.filed[req.secretId := SecretRow(req.environmentId, req.key, false)],
       inForce := a.inForce[req.secretId := req.versionId],
       expiries := a.expiries[req.versionId := req.expiresAt])
  }

  function AllCreated(a: Account, reqs: seq<CreateRequest>): Account
    decreases |reqs|
  {
    if reqs == [] then a else AllCreated(Created(a, reqs[0]), reqs[1..])
  }

  /** The account after one more step; a step that does not commit adds nothing to it. */
  ghost function Told(w: World, a: Account, step: Step): Account {
    match step
    case Create(reqs) =>
      if (forall i | 0 <= i < |reqs| :: InPlace(w, reqs[i])) && CreateAll(w.tables, w.ring, reqs).Ok? then AllCreated(a, reqs) else a
    case RotateCommit(rotator, rot) =>
      if rotator in w.rotators && RotateInTx(w.tables, w.ring, w.rotators[rotator], rot).Ok? then
        a.(inForce := a.inForce[w.rotators[rotator].secretId := rot.versionId], expiries := a.expiries[rot.versionId := rot.expiresAt])
      else a
    case RollBack(secretId, versionId, audited) =>
      if audited && versionId in w.tables.versions && w.tables.versions[versionId].secretId == secretId && versionId !in a.revocations
      then a.(inForce := a.inForce[secretId := versionId]) else a
    case Revoke(secretId, versionId, now, audited) =>
      if audited && versionId in w.tables.versions && w.tables.versions[versionId].secretId == secretId && versionId !in a.revocations then
        a.(revocations := a.revocations[versionId := now],
           inForce := if secretId in a.inForce && a.inForce[secretId] == versionId then a.inForce - {secretId} else a.inForce)
      else a
    case SetExpiry(secretId, versionId, expiresAt, audited) =>
      if audited && versionId in w.tables.versions && w.tables.versions[versionId].secretId == secretId
      then a.(expiries := a.expiries[versionId := expiresAt]) else a
    case Delete(secretId, organizationId) =>
      if secretId in a.filed && a.filed[secretId].environmentId in w.tree && w.tree[a.filed[secretId].environmentId].organizationId == organizationId
      then a.(filed := a.filed[secretId := a.filed[secretId].(deleted := true)]) else a
    case RotateRead(_, _, _) => a
    case ChangeKeyring(_) => a
  }

  ghost function ToldBy(w: World, a: Account, steps: seq<Step>): Account
    decreases |steps|
  {
    if steps == [] then a else ToldBy(Next(w, steps[0]), Told(w, a, steps[0]), steps[1..])
  }

  ghost predicate RowsAsTold(vs: Versions, a: Account) {
    && vs.Keys == a.expiries.Keys
    && (forall id | id in vs :: vs[id].expiresAt == a.expiries[id])
    && (forall id | id in vs :: vs[id].revokedAt == if id in a.revocations then Some(a.revocations[id]) else None)
    && (forall id | id in a.revocations :: id in vs)
  }

  ghost predicate ForceAsTold(vs: Versions, a: Account) {
    && (forall s, id :: IsActiveVersion(vs, s, id) <==> s in a.inForce && a.inForce[s] == id)
    && (forall id | id in vs :: vs[id].status == Revoked <==> id in a.revocations)
  }

  ghost predicate KeysAsSealed(t: Tables) {
    forall id | id in t.versions :: id in t.material && t.versions[id].keyId == t.material[id].keyId
  }

  /** The tables are as the account says, and each row names the key its material is under. */
  ghost predicate AsTold(t: Tables, a: Account) {
    t.secrets == a.filed && RowsAsTold(t.versions, a) && ForceAsTold(t.versions, a) && KeysAsSealed(t)
  }

  lemma NothingIsTold()
    ensures AsTold(Tables(map[], map[], map[]), NOTHING_YET)
  {
  }

  /** Where a version comes into force, the one that was steps back, and nothing else moves. */
  lemma ForceAfterActivation(vs: Versions, a: Account, id: Uuid, row: VersionRow, b: Account)
    requires ForceAsTold(vs, a) && row.status == Active && (id in vs ==> vs[id].secretId == row.secretId) && id !in a.revocations
    requires b == a.(inForce := a.inForce[row.secretId := id], expiries := b.expiries)
    ensures ForceAsTold(SupersedeActive(vs, row.secretId)[id := row], b)
  {
    var after := SupersedeActive(vs, row.secretId)[id := row];
    forall s, x ensures IsActiveVersion(after, s, x) <==> s in b.inForce && b.inForce[s] == x {
      assert IsActiveVersion(vs, s, x) <==> s in a.inForce && a.inForce[s] == x;
    }
  }

  lemma RowsAfterActivation(vs: Versions, a: Account, id: Uuid, row: VersionRow, b: Account)
    requires RowsAsTold(vs, a) && b == a.(inForce := b.inForce, expiries := a.expiries[id := row.expiresAt])
    requires row.revokedAt == if id in a.revocations then Some(a.revocations[id]) else None
    ensures RowsAsTold(SupersedeActive(vs, row.secretId)[id := row], b)
  {
    hide SupersededRow;
    var stepped := SupersedeActive(vs, row.secretId);
    forall x | x in vs ensures stepped[x].expiresAt == vs[x].expiresAt && stepped[x].revokedAt == vs[x].revokedAt {
      OnlyStatusChanges(vs[x], row.secretId);
    }
    RowsAfterInsertion(stepped, a, id, row, b);
  }

  lemma OnlyStatusChanges(row: VersionRow, secretId: Uuid)
    ensures SupersededRow(row, secretId) == row.(status := SupersededRow(row, secretId).status)
  {
  }

  lemma RowsAfterInsertion(vs: Versions, a: Account, id: Uuid, row: VersionRow, b: Account)
    requires RowsAsTold(vs, a) && b == a.(inForce := b.inForce, expiries := a.expiries[id := row.expiresAt])
    requires row.revokedAt == if id in a.revocations then Some(a.revocations[id]) else None
    ensures RowsAsTold(vs[id := row], b)
  {
    assert vs[id := row].Keys == b.expiries.Keys;
  }

  /** One version more: it is in force, with the expiry asked for. */
  lemma InsertionIsTold(t: Tables, a: Account, secretId: Uuid, enc: EncryptedSecret, expiresAt: Option<Instant>, id: Uuid)
    requires AsTold(t, a) && VersionInserted(t, secretId, enc, expiresAt, id).Ok?
    ensures AsTold(VersionInserted(t, secretId, enc, expiresAt, id).value.0,
      a.(inForce := a.inForce[secretId := id], expiries := a.expiries[id := expiresAt]))
  {
    hide HighestVersion, RowsAsTold, ForceAsTold;
    var row := VersionInserted(t, secretId, enc, expiresAt, id).value.0.versions[id];
    var b := a.(inForce := a.inForce[secretId := id], expiries := a.expiries[id := expiresAt]);
    assert id !in a.revocations by { NotRevoked(t.versions, a, id); }
    ForceAfterActivation(t.versions, a, id, row, b);
    RowsAfterActivation(t.versions, a, id, row, b);
  }

  lemma NotRevoked(vs: Versions, a: Account, id: Uuid)
    requires RowsAsTold(vs, a) && id !in vs
    ensures id !in a.revocations
  {
  }

  lemma FilingIsTold(t: Tables, a: Account, req: CreateRequest)
    requires AsTold(t, a) && SecretInserted(t, req.environmentId, req.key, req.secretId).Ok?
    ensures AsTold(SecretInserted(t, req.environmentId, req.key, req.secretId).value,
      a.(filed := a.filed[req.secretId := SecretRow(req.environmentId, req.key, false)]))
  {
    hide RowsAsTold, ForceAsTold;
    var v := SecretInserted(t, req.environmentId, req.key, req.secretId).value;
    assert v.versions == t.versions && v.material == t.material;
    SameColumnsSameAccount(t.versions, a, a.(filed := a.filed[req.secretId := SecretRow(req.environmentId, req.key, false)]));
  }

  lemma SameColumnsSameAccount(vs: Versions, a: Account, b: Account)
    requires b == a.(filed := b.filed)
    ensures RowsAsTold(vs, a) <==> RowsAsTold(vs, b)
    ensures ForceAsTold(vs, a) <==> ForceAsTold(vs, b)
  {
  }

  lemma CreationIsTold(t: Tables, ring: Keyring, a: Account, req: CreateRequest)
    requires AsTold(t, a) && CreateInTx(t, ring, req).Ok?
    ensures AsTold(CreateInTx(t, ring, req).value, Created(a, req))
  {
    hide AsTold, VersionInserted, SecretInserted, Encrypt;
    FilingIsTold(t, a, req);
    var t1 := SecretInserted(t, req.environmentId, req.key, req.secretId).value;
    var enc := Encrypt(ring, req.value,
      EncryptionContext(req.organizationId, req.projectId, req.environmentId, req.secretId, 1), req.rnd).value;
    InsertionIsTold(t1, a.(filed := a.filed[req.secretId := SecretRow(req.environmentId, req.key, false)]),
      req.secretId, enc, req.expiresAt, req.versionId);
  }

  lemma {:induction false} CreationsAreTold(t: Tables, ring: Keyring, a: Account, reqs: seq<CreateRequest>)
    requires AsTold(t, a) && CreateAll(t, ring, reqs).Ok?
    ensures AsTold(CreateAll(t, ring, reqs).value, AllCreated(a, reqs))
    decreases |reqs|
  {
    hide AsTold, CreateInTx;
    if reqs != [] {
      CreationIsTold(t, ring, a, reqs[0]);
      CreationsAreTold(CreateInTx(t, ring, reqs[0]).value, ring, Created(a, reqs[0]), reqs[1..]);
    }
  }

  lemma RotationIsTold(w: World, a: Account, rotator: nat, rot: Rotation)
    requires AsTold(w.tables, a)
    ensures AsTold(Next(w, RotateCommit(rotator, rot)).tables, Told(w, a, RotateCommit(rotator, rot)))
  {
    hide AsTold, VersionInserted, Encrypt;
    if rotator in w.rotators && RotateInTx(w.tables, w.ring, w.rotators[rotator], rot).Ok? {
      var rd := w.rotators[rotator];
      var enc := Encrypt(w.ring, rot.value,
        EncryptionContext(rd.organizationId, rd.projectId, rd.environmentId, rd.secretId, rd.readVersion + 1), rot.rnd).value;
      InsertionIsTold(w.tables, a, rd.secretId, enc, rot.expiresAt, rot.versionId);
    }
  }

  lemma RollBackIsTold(w: World, a: Account, secretId: Uuid, versionId: Uuid, audited: bool)
    requires AsTold(w.tables, a)
    ensures AsTold(Next(w, RollBack(secretId, versionId, audited)).tables, Told(w, a, RollBack(secretId, versionId, audited)))
  {
    hide ForceAsTold, RowsAsTold, SupersedeActive;
    var vs := w.tables.versions;
    if versionId in vs && vs[versionId].secretId == secretId {
      MayActivate(vs, a, versionId);
      if audited && versionId !in a.revocations {
        var row := vs[versionId].(status := Active);
        var b := a.(inForce := a.inForce[secretId := versionId]);
        ForceAfterActivation(vs, a, versionId, row, b);
        assert a.expiries[versionId := row.expiresAt] == a.expiries by { ExpiryIsThere(vs, a, versionId); }
        RowsAfterActivation(vs, a, versionId, row, b);
        assert KeysAsSealed(w.tables.(versions := SupersedeActive(vs, secretId)[versionId := row])) by {
          SupersedingKeepsKeys(w.tables, secretId, versionId, row);
        }
      }
    }
  }

  lemma MayActivate(vs: Versions, a: Account, id: Uuid)
    requires RowsAsTold(vs, a) && ForceAsTold(vs, a) && id in vs
    ensures vs[id].revokedAt.None? && vs[id].status != Revoked <==> id !in a.revocations
    ensures vs[id].revokedAt == if id in a.revocations then Some(a.revocations[id]) else None
  {
  }

  lemma ExpiryIsThere(vs: Versions, a: Account, id: Uuid)
    requires RowsAsTold(vs, a) && id in vs
    ensures id in a.expiries && a.expiries[id] == vs[id].expiresAt && a.expiries[id := vs[id].expiresAt] == a.expiries
  {
  }

  lemma SupersedingKeepsKeys(t: Tables, secretId: Uuid, id: Uuid, row: VersionRow)
    requires KeysAsSealed(t) && id in t.versions && row.keyId == t.versions[id].keyId
    ensures KeysAsSealed(t.(versions := SupersedeActive(t.versions, secretId)[id := row]))
  {
  }

  lemma ForceAfterRevocation(vs: Versions, a: Account, id: Uuid, row: VersionRow, now: Instant, b: Account)
    requires ForceAsTold(vs, a) && id in vs && row.status == Revoked && row.secretId == vs[id].secretId
    requires b == a.(revocations := a.revocations[id := now],
      inForce := if row.secretId in a.inForce && a.inForce[row.secretId] == id then a.inForce - {row.secretId} else a.inForce)
    ensures ForceAsTold(vs[id := row], b)
  {
    var after := vs[id := row];
    forall s, x ensures IsActiveVersion(after, s, x) <==> s in b.inForce && b.inForce[s] == x {
      assert IsActiveVersion(vs, s, x) <==> s in a.inForce && a.inForce[s] == x;
    }
  }

  lemma RowsAfterUpdate(vs: Versions, a: Account, id: Uuid, row: VersionRow, b: Account)
    requires RowsAsTold(vs, a) && id in vs && b.expiries == a.expiries[id := row.expiresAt]
    requires b.revocations == a.revocations || (id !in a.revocations && id in b.revocations && b.revocations == a.revocations[id := b.revocations[id]])
    requires row.revokedAt == if id in b.revocations then Some(b.revocations[id]) else None
    ensures RowsAsTold(vs[id := row], b)
  {
    var after := vs[id := row];
    assert after.Keys == b.expiries.Keys;
  }

  lemma SameKeysSealed(t: Tables, id: Uuid, row: VersionRow)
    requires KeysAsSealed(t) && id in t.versions && row.keyId == t.versions[id].keyId
    ensures KeysAsSealed(t.(versions := t.versions[id := row]))
  {
  }

  lemma RevocationIsTold(w: World, a: Account, secretId: Uuid, versionId: Uuid, now: Instant, audited: bool)
    requires AsTold(w.tables, a)
    ensures AsTold(Next(w, Revoke(secretId, versionId, now, audited)).tables, Told(w, a, Revoke(secretId, versionId, now, audited)))
  {
    hide ForceAsTold, RowsAsTold, KeysAsSealed;
    var vs := w.tables.versions;
    if versionId in vs {
      MayActivate(vs, a, versionId);
    }
    if audited && versionId in vs && vs[versionId].secretId == secretId && versionId !in a.revocations {
      var row := vs[versionId].(status := Revoked, revokedAt := Some(now));
      ExpiryIsThere(vs, a, versionId);
      SameKeysSealed(w.tables, versionId, row);
      RowsAfterUpdate(vs, a, versionId, row, Told(w, a, Revoke(secretId, versionId, now, audited)));
      ForceAfterRevocation(vs, a, versionId, row, now, Told(w, a, Revoke(secretId, versionId, now, audited)));
    }
  }

  lemma ForceIgnoresExpiry(vs: Versions, a: Account, id: Uuid, row: VersionRow, b: Account)
    requires ForceAsTold(vs, a) && id in vs && row == vs[id].(expiresAt := row.expiresAt) && b == a.(expiries := b.expiries)
    ensures ForceAsTold(vs[id := row], b)
  {
    var after := vs[id := row];
    forall s, x ensures IsActiveVersion(after, s, x) <==> s in b.inForce && b.inForce[s] == x {
      assert IsActiveVersion(vs, s, x) <==> s in a.inForce && a.inForce[s] == x;
    }
  }

  lemma ExpiryIsTold(w: World, a: Account, secretId: Uuid, versionId: Uuid, expiresAt: Option<Instant>, audited: bool)
    requires AsTold(w.tables, a)
    ensures AsTold(Next(w, SetExpiry(secretId, versionId, expiresAt, audited)).tables, Told(w, a, SetExpiry(secretId, versionId, expiresAt, audited)))
  {
    hide ForceAsTold, RowsAsTold, KeysAsSealed;
    var vs := w.tables.versions;
    if audited && versionId in vs && vs[versionId].secretId == secretId {
      var row := vs[versionId].(expiresAt := expiresAt);
      MayActivate(vs, a, versionId);
      SameKeysSealed(w.tables, versionId, row);
      RowsAfterUpdate(vs, a, versionId, row, Told(w, a, SetExpiry(secretId, versionId, expiresAt, audited)));
      ForceIgnoresExpiry(vs, a, versionId, row, Told(w, a, SetExpiry(secretId, versionId, expiresAt, audited)));
    }
  }

  lemma DeletionIsTold(w: World, a: Account, secretId: Uuid, organizationId: Uuid)
    requires AsTold(w.tables, a)
    ensures AsTold(Next(w, Delete(secretId, organizationId)).tables, Told(w, a, Delete(secretId, organizationId)))
  {
    hide RowsAsTold, ForceAsTold;
    SameColumnsSameAccount(w.tables.versions, a, Told(w, a, Delete(secretId, organizationId)));
    if secretId in a.filed && a.filed[secretId].deleted {
      assert a.filed[secretId := a.filed[secretId].(deleted := true)] == a.filed;
    }
  }

  lemma StepIsTold(w: World, a: Account, step: Step)
    requires AsTold(w.tables, a)
    ensures AsTold(Next(w, step).tables, Told(w, a, step))
  {
    hide AsTold, CreateAll, RotateInTx, Activated, Withdrawn, ExpirySet, SoftDeleted, VersionRead;
    match step
    case Create(reqs) =>
      if (forall i | 0 <= i < |reqs| :: InPlace(w, reqs[i])) && CreateAll(w.tables, w.ring, reqs).Ok? {
        CreationsAreTold(w.tables, w.ring, a, reqs);
      }
    case RotateCommit(rotator, rot) => RotationIsTold(w, a, rotator, rot);
    case RollBack(secretId, versionId, audited) => RollBackIsTold(w, a, secretId, versionId, audited);
    case Revoke(secretId, versionId, now, audited) => RevocationIsTold(w, a, secretId, versionId, now, audited);
    case SetExpiry(secretId, versionId, expiresAt, audited) => ExpiryIsTold(w, a, secretId, versionId, expiresAt, audited);
    case Delete(secretId, organizationId) => DeletionIsTold(w, a, secretId, organizationId);
    case RotateRead(_, _, _) =>
    case ChangeKeyring(_) =>
  }

  /** On every run, in every interleaving, the tables are what the committed requests say:
      each secret filed where it was created, deleted exactly if it was; the version in force
      the one last created, rotated in or rolled back to, unless it has been revoked since;
      each version's expiry the one last given to it, by its creation, its rotation or a
      later change; and its revocation stamped with the moment it was revoked. */
  lemma {:induction false} RunIsTold(w: World, a: Account, steps: seq<Step>)
    requires AsTold(w.tables, a)
    ensures AsTold(Run(w, steps).tables, ToldBy(w, a, steps))
    decreases |steps|
  {
    hide AsTold, Told, Next;
    if steps != [] {
      StepIsTold(w, a, steps[0]);
      RunIsTold(Next(w, steps[0]), Told(w, a, steps[0]), steps[1..]);
    }
  }

  /** On any tables: the new row is the next of its secret, in force, with the expiry the
      request asked for; any other row keeps its number, expiry and revocation, and steps
      back only if it is a version of that secret that was in force. */
  lemma InsertedRow(t: Tables, secretId: Uuid, enc: EncryptedSecret, expiresAt: Option<Instant>, id: Uuid)
    requires VersionInserted(t, secretId, enc, expiresAt, id).Ok?
    ensures var (v, n) := VersionInserted(t, secretId, enc, expiresAt, id).value;
      && v.secrets == t.secrets && v.material == t.material[id := enc] && id !in t.versions
      && v.versions.Keys == t.versions.Keys + {id}
      && v.versions[id] == VersionRow(secretId, n, Active, expiresAt, None, enc.keyId)
      && (forall x | x in t.versions && t.versions[x].secretId == secretId :: t.versions[x].version < n)
      && forall x | x in t.versions :: v.versions[x] ==
           if t.versions[x].secretId == secretId && t.versions[x].status == Active then t.versions[x].(status := Superseded) else t.versions[x]
  {
    hide HighestVersion;
  }

  lemma CreationWritesItsExpiry(t: Tables, ring: Keyring, req: CreateRequest)
    requires CreateInTx(t, ring, req).Ok?
    ensures var v := CreateInTx(t, ring, req).value;
      && v.secrets == t.secrets[req.secretId := SecretRow(req.environmentId, req.key, false)]
      && req.versionId in v.versions && v.versions[req.versionId].secretId == req.secretId
      && v.versions[req.versionId].expiresAt == req.expiresAt && v.versions[req.versionId].status == Active
      && forall x | x in t.versions :: x in v.versions && v.versions[x].expiresAt == t.versions[x].expiresAt
  {
    hide VersionInserted, Encrypt;
    var t1 := SecretInserted(t, req.environmentId, req.key, req.secretId).value;
    var enc := Encrypt(ring, req.value, FirstContext(req), req.rnd).value;
    InsertedRow(t1, req.secretId, enc, req.expiresAt, req.versionId);
  }

  lemma RotationWritesItsExpiry(t: Tables, ring: Keyring, rd: Reading, rot: Rotation)
    requires RotateInTx(t, ring, rd, rot).Ok?
    ensures var v := RotateInTx(t, ring, rd, rot).value;
      && v.secrets == t.secrets && rot.versionId in v.versions
      && v.versions[rot.versionId].secretId == rd.secretId && v.versions[rot.versionId].version == rd.readVersion + 1
      && v.versions[rot.versionId].expiresAt == rot.expiresAt && v.versions[rot.versionId].status == Active
      && forall x | x in t.versions :: x in v.versions && v.versions[x].expiresAt == t.versions[x].expiresAt
  {
    hide VersionInserted, Encrypt;
    var enc := Encrypt(ring, rot.value, NextContext(rd), rot.rnd).value;
    InsertedRow(t, rd.secretId, enc, rot.expiresAt, rot.versionId);
  }

  // ---------------------------------------------------------------------------
  // When a creation commits
  // ---------------------------------------------------------------------------

  /** A secret is created exactly when its identifiers are new, no live secret of the
      environment has its key, its place can be sealed under, the active key is there, and
      the audit record is written. */
  lemma CreatesExactlyWhen(t: Tables, ring: Keyring, req: CreateRequest)
    ensures CreateInTx(t, ring, req).Ok? <==>
      && req.secretId !in t.secrets && req.versionId !in t.versions && req.versionId !in t.material
      && (forall s | s in t.secrets && t.secrets[s].environmentId == req.environmentId && t.secrets[s].key == req.key :: t.secrets[s].deleted)
      && req.organizationId != NIL && req.projectId != NIL && req.environmentId != NIL && req.secretId != NIL
      && ring.activeKeyId in ring.keys && req.audited
  {
    hide HighestVersion, Canonical;
    assert forall s :: s in LiveWithKey(t.secrets, req.environmentId, req.key) <==>
      s in t.secrets && t.secrets[s].environmentId == req.environmentId && t.secrets[s].key == req.key && !t.secrets[s].deleted;
  }

  /** A caller may create a secret in an environment exactly when its value is at most half
      a mebibyte and the policy allows CREATE_SECRET there, of no secret in particular. */
  lemma RefusedExactlyWhen(p: Principal, source: Authz.GrantsRead, now: Instant, req: CreateRequest)
    ensures var r := Refusal(p, source, now, req);
      var d := Authz.Decide(source, now, Authz.Request(p, CreateSecret, req.organizationId, req.projectId, req.environmentId, NIL, ""));
      && (r == Some(ValueTooLarge) <==> |req.value| > 524288)
      && (r == Some(PolicyFailed) <==> |req.value| <= 524288 && d.Err?)
      && (r == Some(NotAuthorized) <==> |req.value| <= 524288 && d.Ok? && d.value.Deny?)
      && (r.None? <==> |req.value| <= 524288 && d.Ok? && d.value.Allow?)
  {
    hide Authz.Decide;
  }

  /** In the columns: the caller is an owner or admin of the organization, or holds a grant
      of CREATE_SECRET over the environment, its project or the whole organization, and the
      presented scope allows it there. */
  lemma MayCreateExactlyWhen(p: Principal, grants: seq<Grant>, now: Instant, req: CreateRequest)
    ensures Refusal(p, Authz.Loaded(grants), now, req).None? <==>
      && |req.value| <= 524288
      && req.organizationId != NIL && p.id != NIL && p.organizationId == req.organizationId
      && (p.scope.Some? ==>
            && CreateSecret in p.scope.value.capabilities
            && p.scope.value.projectId == req.projectId != NIL && p.scope.value.environmentId == req.environmentId != NIL)
      && ((p.kind == User && p.role in [Owner, Admin]) ||
          exists g :: g in grants
            && CreateSecret in g.capabilities && g.secretId.None?
            && (g.revokedAt.None? || now < g.revokedAt.value) && (g.expiresAt.None? || now < g.expiresAt.value)
            && (g.projectId.None? || g.projectId.value == req.projectId != NIL)
            && (g.environmentId.None? || g.environmentId.value == req.environmentId != NIL))
  {
    hide Authz.Decide, Refusal;
    RefusedExactlyWhen(p, Authz.Loaded(grants), now, req);
    Authz.AllowedExactlyWhen(grants, now, Authz.Request(p, CreateSecret, req.organizationId, req.projectId, req.environmentId, NIL, ""));
  }
}
