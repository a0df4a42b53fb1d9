/** What deliveries and reveals promise on every reachable store. */
module DeliveryTheorems {
  import opened Outcomes
  import opened Domain
  import opened CanonicalContext
  import opened Envelope
  import opened SecretStore
  import opened SecretService
  import opened SecretRuns
  import opened SecretHistories
  import opened Delivery
  import Authz

  // ---------------------------------------------------------------------------
  // Accounting
  // ---------------------------------------------------------------------------

  /** A finished delivery over the tables t. */
  ghost predicate Finished(t: Tables, ring: Keyring, ask: Ask, policy: Policy, tr: Trace, d: Delivery) {
    && IsResolution(t, ask.environmentId, ask.keys, tr.candidates)
    && Judged(t.material, ring, ask, policy, tr)
    && |tr.verdicts| == |tr.candidates|
    && Answers(ask, tr, d)
  }

  function Keys(s: seq<string>): set<string> {
    set k | k in s
  }

  function LiveKeys(t: Tables, environmentId: Uuid): set<string> {
    set id | id in t.secrets && t.secrets[id].environmentId == environmentId && !t.secrets[id].deleted :: t.secrets[id].key
  }

  lemma CandidateKeysAreDistinct(t: Tables, environmentId: Uuid, keys: seq<string>, cs: seq<Summary>)
    requires KeysUnique(t.secrets) && IsResolution(t, environmentId, keys, cs)
    ensures forall i, j | 0 <= i < j < |cs| :: cs[i].key != cs[j].key
  {
    forall i, j | 0 <= i < j < |cs| ensures cs[i].key != cs[j].key {
      assert IsCandidate(t, environmentId, keys, cs[i].id) && IsCandidate(t, environmentId, keys, cs[j].id);
    }
  }

  lemma FoundKeys(t: Tables, environmentId: Uuid, keys: seq<string>, cs: seq<Summary>, k: string)
    requires IsResolution(t, environmentId, keys, cs)
    ensures Found(cs, k) <==> k in LiveKeys(t, environmentId) && (keys == [] || k in keys)
  {
    if Found(cs, k) {
      var i :| 0 <= i < |cs| && cs[i].key == k;
      assert IsCandidate(t, environmentId, keys, cs[i].id) && IsCandidate(t, environmentId, [], cs[i].id);
    }
    if k in LiveKeys(t, environmentId) && (keys == [] || k in keys) {
      var id :| id in t.secrets && t.secrets[id].environmentId == environmentId && !t.secrets[id].deleted && t.secrets[id].key == k;
      assert IsCandidate(t, environmentId, keys, id);
      var i :| 0 <= i < |cs| && cs[i].id == id;
      assert Summarizes(t, cs[i]);
    }
  }

  /** Every requested key lands in exactly one column; with no keys named, every live
      key of the environment does. */
  lemma EveryKeyLandsOnce(t: Tables, ring: Keyring, ask: Ask, policy: Policy, tr: Trace, d: Delivery)
    requires KeysUnique(t.secrets) && Finished(t, ring, ask, policy, tr, d)
    ensures d.values.Keys !! Keys(d.denied) !! Keys(d.unavailable)
    ensures d.values.Keys + Keys(d.denied) + Keys(d.unavailable) ==
      if ask.keys == [] then LiveKeys(t, ask.environmentId) else Keys(ask.keys)
  {
    hide Judged, IsResolution, Answers, LiveKeys;
    CandidateKeysAreDistinct(t, ask.environmentId, ask.keys, tr.candidates);
    NoPolicyErrors(t.material, ring, ask, policy, tr);
    forall k
      ensures k in d.values || k in d.denied || k in d.unavailable <==>
        k in (if ask.keys == [] then LiveKeys(t, ask.environmentId) else Keys(ask.keys))
      ensures !(k in d.values && k in d.denied) && !(k in d.values && k in d.unavailable) && !(k in d.denied && k in d.unavailable)
    {
      FoundKeys(t, ask.environmentId, ask.keys, tr.candidates, k);
      OneColumn(ask, tr, d, k);
    }
  }

  lemma NoPolicyErrors(material: map<Uuid, EncryptedSecret>, ring: Keyring, ask: Ask, policy: Policy, tr: Trace)
    requires Judged(material, ring, ask, policy, tr)
    ensures forall i | 0 <= i < |tr.verdicts| :: !tr.verdicts[i].PolicyError?
  {
    hide Judge, LoadsOf;
  }

  lemma OneColumn(ask: Ask, tr: Trace, d: Delivery, k: string)
    requires |tr.verdicts| == |tr.candidates| && Answers(ask, tr, d)
    requires forall i | 0 <= i < |tr.verdicts| :: !tr.verdicts[i].PolicyError?
    requires forall i, j | 0 <= i < j < |tr.candidates| :: tr.candidates[i].key != tr.candidates[j].key
    ensures k in d.values || k in d.denied || k in d.unavailable <==> Found(tr.candidates, k) || k in ask.keys
    ensures !(k in d.values && k in d.denied) && !(k in d.values && k in d.unavailable) && !(k in d.denied && k in d.unavailable)
  {
    hide ValuesIn, KeysIn;
    if Found(tr.candidates, k) {
      var i :| 0 <= i < |tr.candidates| && tr.candidates[i].key == k;
      assert forall j | 0 <= j < |tr.candidates| && tr.candidates[j].key == k :: j == i;
      assert tr.verdicts[i].Delivered? || Lands(tr.verdicts[i], Denied) || Lands(tr.verdicts[i], Unavailable);
    }
  }

  /** Ciphertext is read only for a key this caller was allowed to use and whose
      version was deliverable, each as judged before the read. */
  lemma OnlyAuthorizedMaterialIsLoaded(t: Tables, ring: Keyring, ask: Ask, policy: Policy, tr: Trace, versionId: Uuid)
    requires Judged(t.material, ring, ask, policy, tr) && versionId in tr.loads
    ensures exists i :: 0 <= i < |tr.verdicts| && tr.candidates[i].Deliverable(ask.now) &&
                        tr.candidates[i].version.value.versionId == versionId &&
                        Allowed(ask, policy, tr.candidates[i])
  {
    hide Judge;
    var i := LoadedFor(tr.candidates, tr.verdicts, versionId);
    ReadsMeansAllowed(t.material, ring, ask, policy, tr.candidates[i]);
  }

  predicate Allowed(ask: Ask, policy: Policy, c: Summary) {
    var r := Authz.Decide(policy(c.id), ask.now, UseRequest(ask, c));
    r.Ok? && r.value.Allow?
  }

  lemma ReadsMeansAllowed(material: map<Uuid, EncryptedSecret>, ring: Keyring, ask: Ask, policy: Policy, c: Summary)
    ensures Reads(Judge(material, ring, ask, policy, c)) <==> Allowed(ask, policy, c) && c.Deliverable(ask.now)
  {
    hide Authz.Decide, Decrypt;
  }

  lemma {:induction false} LoadedFor(cs: seq<Summary>, vs: seq<Verdict>, versionId: Uuid) returns (i: nat)
    requires |vs| <= |cs| && forall j | 0 <= j < |vs| && Reads(vs[j]) :: cs[j].version.Some?
    requires versionId in LoadsOf(cs, vs)
    ensures i < |vs| && Reads(vs[i]) && cs[i].version.value.versionId == versionId
  {
    var n := |vs| - 1;
    if Reads(vs[n]) && cs[n].version.value.versionId == versionId {
      i := n;
    } else {
      i := LoadedFor(cs, vs[..n], versionId);
    }
  }

  /** One verdict, read off the decision, the summary's columns and the ciphertext. */
  lemma VerdictReadsOff(material: map<Uuid, EncryptedSecret>, ring: Keyring, ask: Ask, policy: Policy, c: Summary)
    ensures var v := Judge(material, ring, ask, policy, c);
      var r := Authz.Decide(policy(c.id), ask.now, Authz.Request(
        ask.principal, UseSecret, ask.principal.organizationId, ask.projectId, ask.environmentId, c.id, c.key));
      var deliverable := c.version.Some? && c.version.value.status == Active &&
        (c.version.value.revokedAt.None? || ask.now < c.version.value.revokedAt.value) &&
        (c.version.value.expiresAt.None? || ask.now < c.version.value.expiresAt.value);
      && (v.PolicyError? <==> r.Err?)
      && (forall code :: v == Refused(code) <==> r == Ok(Authz.Deny(code)))
      && (v.Undeliverable? <==> r.Ok? && r.value.Allow? && !deliverable)
      && (v.Delivered? || v.Undecryptable? <==> r.Ok? && r.value.Allow? && deliverable)
      && (forall value :: v == Delivered(value) <==>
            (r.Ok? && r.value.Allow? && deliverable && c.version.value.versionId in material &&
             Decrypt(ring, material[c.version.value.versionId], EncryptionContext(
               ask.principal.organizationId, ask.projectId, ask.environmentId, c.id, c.version.value.number)) == Ok(value)))
  {
    hide Authz.Decide, Decrypt;
  }

  /** The audit trail tells the outcome of each candidate, and names it. */
  lemma AuditTellsTheOutcome(material: map<Uuid, EncryptedSecret>, ring: Keyring, ask: Ask, policy: Policy, tr: Trace, i: nat)
    requires Judged(material, ring, ask, policy, tr) && i < |tr.verdicts|
    ensures i < |tr.audit|
    ensures var c, v, e := tr.candidates[i], tr.verdicts[i], tr.audit[i];
      && (v.Delivered? <==> e.SecretUsed?) && (e.SecretUsed? ==> c.version.Some? && e == SecretUsed(c.id, c.version.value.number))
      && (v.Undeliverable? <==> e == SecretUnavailable(c.id)) && (v.Undecryptable? <==> e == DecryptError(c.id))
      && (forall code :: v == Refused(code) <==> e == AccessDenied(c.id, code))
  {
    hide Judge, LoadsOf;
  }

  /** The columns of a finished delivery, from its verdicts. */
  lemma ColumnsTellTheVerdicts(t: Tables, ring: Keyring, ask: Ask, policy: Policy, tr: Trace, d: Delivery, k: string)
    requires Finished(t, ring, ask, policy, tr, d)
    ensures k in d.values <==> exists i :: 0 <= i < |tr.verdicts| && tr.candidates[i].key == k && tr.verdicts[i].Delivered?
    ensures k in d.unavailable <==>
      exists i :: 0 <= i < |tr.verdicts| && tr.candidates[i].key == k && (tr.verdicts[i].Undeliverable? || tr.verdicts[i].Undecryptable?)
    ensures k in d.denied <==>
      || (exists i :: 0 <= i < |tr.verdicts| && tr.candidates[i].key == k && tr.verdicts[i].Refused?)
      || (k in ask.keys && forall i | 0 <= i < |tr.candidates| :: tr.candidates[i].key != k)
  {
    hide Judge, LoadsOf, IsResolution, KeysIn, ValuesIn;
  }

  /** What a delivery considers: each live secret of the environment that was asked for, once. */
  lemma CandidatesReadOff(t: Tables, environmentId: Uuid, keys: seq<string>, cs: seq<Summary>, s: Uuid)
    requires IsResolution(t, environmentId, keys, cs)
    ensures (exists i :: 0 <= i < |cs| && cs[i].id == s) <==>
      s in t.secrets && t.secrets[s].environmentId == environmentId && !t.secrets[s].deleted && (keys == [] || t.secrets[s].key in keys)
    ensures forall i, j | 0 <= i < |cs| && 0 <= j < |cs| && cs[i].id == cs[j].id :: i == j
    ensures forall i | 0 <= i < |cs| && cs[i].id == s :: s in t.secrets && cs[i].key == t.secrets[s].key && cs[i].environmentId == environmentId
  {
    assert IsCandidate(t, environmentId, keys, s) <==>
      s in t.secrets && t.secrets[s].environmentId == environmentId && !t.secrets[s].deleted && (keys == [] || t.secrets[s].key in keys);
  }

  /** Where every grant held names another secret, nothing is delivered for this one, and
      its ciphertext is not read. */
  lemma OtherSecretsGrantsDeliverNothing(t: Tables, ring: Keyring, ask: Ask, policy: Policy, tr: Trace, d: Delivery, s: Uuid)
    requires KeysUnique(t.secrets) && Finished(t, ring, ask, policy, tr, d)
    requires policy(s).Loaded? ==> forall g | g in policy(s).grants :: g.secretId.Some? && g.secretId.value != s
    requires s in t.secrets && t.secrets[s].environmentId == ask.environmentId && !t.secrets[s].deleted
    ensures t.secrets[s].key !in d.values
    ensures forall i | 0 <= i < |tr.verdicts| && tr.candidates[i].id == s :: tr.verdicts[i].Refused?
  {
    hide Judge, LoadsOf, KeysIn, ValuesIn, Authz.Decide, IsResolution;
    forall i | 0 <= i < |tr.verdicts| && tr.candidates[i].id == s ensures tr.verdicts[i].Refused? {
      var c := tr.candidates[i];
      VerdictReadsOff(t.material, ring, ask, policy, c);
      OnlyByAGrantForIt(policy(s), ask.now, Authz.Request(
        ask.principal, UseSecret, ask.principal.organizationId, ask.projectId, ask.environmentId, c.id, c.key));
    }
    CandidateKeysAreDistinct(t, ask.environmentId, ask.keys, tr.candidates);
    ColumnsTellTheVerdicts(t, ring, ask, policy, tr, d, t.secrets[s].key);
    if i :| 0 <= i < |tr.verdicts| && tr.candidates[i].key == t.secrets[s].key && tr.verdicts[i].Delivered? {
      CandidatesReadOff(t, ask.environmentId, ask.keys, tr.candidates, tr.candidates[i].id);
    }
  }

  lemma OnlyByAGrantForIt(source: Authz.GrantsRead, now: Instant, req: Authz.Request)
    requires req.capability == UseSecret
    requires source.Loaded? ==> forall g | g in source.grants :: g.secretId.Some? && g.secretId.value != req.secretId
    ensures Authz.Decide(source, now, req).Err? || Authz.Decide(source, now, req).value.Deny?
  {
    if source.Loaded? {
      Authz.OneSecretsGrantOpensNoOther(source.grants, now, req);
    }
  }

  // ---------------------------------------------------------------------------
  // What a refusal reveals
  // ---------------------------------------------------------------------------

  /** The caller may use nothing here, whatever is stored. */
  ghost predicate AuthorizedForNothing(ask: Ask, policy: Policy) {
    forall c: Summary :: Authz.Decide(policy(c.id), ask.now, UseRequest(ask, c)).Ok? && !Allowed(ask, policy, c)
  }

  /** A caller authorized for nothing who names keys gets exactly those names back,
      whatever exists. One who names none gets every live key of the environment. */
  lemma RefusalsOfAnUnauthorizedCaller(t: Tables, ring: Keyring, ask: Ask, policy: Policy, tr: Trace, d: Delivery)
    requires KeysUnique(t.secrets) && Finished(t, ring, ask, policy, tr, d)
    requires AuthorizedForNothing(ask, policy)
    ensures d.values == map[] && d.unavailable == []
    ensures Keys(d.denied) == if ask.keys == [] then LiveKeys(t, ask.environmentId) else Keys(ask.keys)
  {
    hide Authz.Decide, Decrypt, IsResolution, LoadsOf;
    forall i | 0 <= i < |tr.verdicts| ensures tr.verdicts[i].Refused? {
      assert !Allowed(ask, policy, tr.candidates[i]);
    }
    NothingLands(tr.candidates, tr.verdicts);
    EveryKeyLandsOnce(t, ring, ask, policy, tr, d);
  }

  lemma {:induction false} NothingLands(cs: seq<Summary>, vs: seq<Verdict>)
    requires |vs| <= |cs| && forall i | 0 <= i < |vs| :: vs[i].Refused?
    ensures ValuesIn(cs, vs) == map[] && KeysIn(Unavailable, cs, vs) == []
  {
    if vs != [] {
      NothingLands(cs, vs[..|vs| - 1]);
    }
  }

  function EmptyStore(tree: map<Uuid, Place>, ring: Keyring): World {
    World(tree, ring, Tables(map[], map[], map[]), map[], map[], [])
  }

  /** A delivery that finished over the store some run led to. */
  ghost predicate FinishedAfter(
    tree: map<Uuid, Place>, ring: Keyring, steps: seq<Step>, ask: Ask, policy: Policy, tr: Trace, d: Delivery)
  {
    var w := Run(EmptyStore(tree, ring), steps);
    Finished(w.tables, w.ring, ask, policy, tr, d)
  }

  /** Whatever was ever stored, the caller is refused the same keys. */
  ghost predicate RefusalsHideExistence(tree: map<Uuid, Place>, ring: Keyring, ask: Ask, policy: Policy) {
    forall a, tr, d, a', tr', d' |
      FinishedAfter(tree, ring, a, ask, policy, tr, d) && FinishedAfter(tree, ring, a', ask, policy, tr', d') ::
      Keys(d.denied) == Keys(d'.denied)
  }

  // The environment exists. The database hands out no nil identifier.
  predicate RealPlace(tree: map<Uuid, Place>, environmentId: Uuid) {
    && environmentId in tree && environmentId != NIL
    && tree[environmentId].projectId != NIL && tree[environmentId].organizationId != NIL
  }

  /** Over all deliveries on all stores any runs lead to: the refusals of a caller
      authorized for nothing tell nothing about what the environment holds exactly when
      the request names at least one key. */
  lemma RefusalsHideExistenceExactlyWhenKeysAreNamed(tree: map<Uuid, Place>, ring: Keyring, ask: Ask, policy: Policy)
    requires ring.activeKeyId in ring.keys && RealPlace(tree, ask.environmentId) && AuthorizedForNothing(ask, policy)
    ensures ask.keys != [] <==> RefusalsHideExistence(tree, ring, ask, policy)
  {
    hide Run, Finished, AuthorizedForNothing, Inv;
    if ask.keys != [] {
      forall a, tr, d, a', tr', d' |
        FinishedAfter(tree, ring, a, ask, policy, tr, d) && FinishedAfter(tree, ring, a', ask, policy, tr', d')
        ensures Keys(d.denied) == Keys(d'.denied)
      {
        RefusedAfter(tree, ring, a, ask, policy, tr, d);
        RefusedAfter(tree, ring, a', ask, policy, tr', d');
      }
    } else {
      var steps := [Create([FirstRequest(tree, ask.environmentId)])];
      NothingStoredNothingRefused(tree, ring, ask, policy);
      var tr, d := OneStoredOneRefused(tree, ring, ask, policy);
      assert FinishedAfter(tree, ring, [], ask, policy, Trace([], [], [], []), Delivery(map[], [], []));
      assert FinishedAfter(tree, ring, steps, ask, policy, tr, d);
      assert "DATABASE_URL" in Keys(d.denied);
    }
  }

  lemma RefusedAfter(tree: map<Uuid, Place>, ring: Keyring, steps: seq<Step>, ask: Ask, policy: Policy, tr: Trace, d: Delivery)
    requires ring.activeKeyId in ring.keys && AuthorizedForNothing(ask, policy) && ask.keys != []
    requires FinishedAfter(tree, ring, steps, ask, policy, tr, d)
    ensures Keys(d.denied) == Keys(ask.keys)
  {
    hide Run, Finished, AuthorizedForNothing, Bound, GoodHistory, Rotations, EverySecretHasAVersion;
    EmptyStoreSatisfiesInv(tree, ring);
    RunKeeps(EmptyStore(tree, ring), steps);
    var w := Run(EmptyStore(tree, ring), steps);
    RefusalsOfAnUnauthorizedCaller(w.tables, w.ring, ask, policy, tr, d);
  }

  lemma NothingStoredNothingRefused(tree: map<Uuid, Place>, ring: Keyring, ask: Ask, policy: Policy)
    requires ask.keys == []
    ensures FinishedAfter(tree, ring, [], ask, policy, Trace([], [], [], []), Delivery(map[], [], []))
  {
    hide Judge;
  }

  function FirstRequest(tree: map<Uuid, Place>, environmentId: Uuid): CreateRequest
    requires environmentId in tree
  {
    var place := tree[environmentId];
    var key := seq(KEK_SIZE, i => '0');
    var nonce := seq(12, i => '0');
    CreateRequest(place.organizationId, place.projectId, environmentId, "DATABASE_URL", "", None, 1, 1, Randomness(key, nonce, nonce), true)
  }

  lemma FirstSecretIsStored(tree: map<Uuid, Place>, ring: Keyring, environmentId: Uuid)
    requires ring.activeKeyId in ring.keys && RealPlace(tree, environmentId)
    ensures var w := Run(EmptyStore(tree, ring), [Create([FirstRequest(tree, environmentId)])]);
      && w.tables.secrets == map[1 := SecretRow(environmentId, "DATABASE_URL", false)]
      && w.tables.versions.Keys == {1} && IsActiveVersion(w.tables.versions, 1, 1)
  {
    hide HighestVersion, Encrypt;
    var w, req := EmptyStore(tree, ring), FirstRequest(tree, environmentId);
    var steps := [Create([req])];
    assert LiveWithKey(w.tables.secrets, environmentId, req.key) == {};
    assert CreateAll(w.tables, ring, [req]) == CreateInTx(w.tables, ring, req) by { assert [req][1..] == []; }
    assert CreateInTx(w.tables, ring, req).Ok?;
    assert InPlace(w, req) && forall i | 0 <= i < |[req]| :: InPlace(w, [req][i]);
    assert Run(w, steps) == Next(w, Create([req])) by { assert steps[1..] == []; }
  }

  lemma OneRefusal(c: Summary, v: Verdict)
    requires v.Refused?
    ensures KeysIn(Denied, [c], [v]) == [c.key] && KeysIn(Unavailable, [c], [v]) == []
    ensures ValuesIn([c], [v]) == map[] && LoadsOf([c], [v]) == []
  {
    assert [v][..0] == [];
  }

  lemma OneStoredOneRefused(tree: map<Uuid, Place>, ring: Keyring, ask: Ask, policy: Policy) returns (tr: Trace, d: Delivery)
    requires ring.activeKeyId in ring.keys && RealPlace(tree, ask.environmentId) && AuthorizedForNothing(ask, policy) && ask.keys == []
    ensures FinishedAfter(tree, ring, [Create([FirstRequest(tree, ask.environmentId)])], ask, policy, tr, d)
    ensures d.denied == ["DATABASE_URL"]
  {
    hide Run, Authz.Decide, HighestVersion, Opened;
    var w := Run(EmptyStore(tree, ring), [Create([FirstRequest(tree, ask.environmentId)])]);
    FirstSecretIsStored(tree, ring, ask.environmentId);
    var c := Summary(1, ask.environmentId, "DATABASE_URL", Some(InfoOf(w.tables.versions, 1)));
    assert !Allowed(ask, policy, c);
    var v := Judge(w.tables.material, w.ring, ask, policy, c);
    assert v.Refused?;
    tr := Trace([c], [v], [], [AccessDenied(1, v.code)]);
    d := Delivery(map[], ["DATABASE_URL"], []);
    assert IsCandidate(w.tables, ask.environmentId, [], 1) && Summarizes(w.tables, c);
    assert IsResolution(w.tables, ask.environmentId, [], [c]) by {
      assert forall id | IsCandidate(w.tables, ask.environmentId, [], id) :: id == 1 && [c][0].id == id;
    }
    OneRefusal(c, v);
  }

  // ---------------------------------------------------------------------------
  // Delivery as a lookup
  // ---------------------------------------------------------------------------

  /** The caller's scope names the project and organization its environment is in. */
  predicate RightPlace(w: World, ask: Ask) {
    && ask.environmentId in w.tree
    && w.tree[ask.environmentId] == Place(ask.projectId, ask.principal.organizationId)
  }

  lemma CandidateContext(w: World, ask: Ask, c: Summary)
    requires Filed(w) && Summarizes(w.tables, c) && c.environmentId == ask.environmentId && c.version.Some?
    ensures var id := c.version.value.versionId;
      (DeliveryContext(ask, c) == ContextOf(w, id) <==> RightPlace(w, ask))
  {
  }

  /** In the right place, decryption of a summary's version never fails and yields the
      plaintext the version was committed with; in any other place it always fails. */
  lemma CandidateOpens(w: World, ask: Ask, c: Summary)
    requires Bound(w) && Summarizes(w.tables, c) && c.environmentId == ask.environmentId && c.version.Some?
    ensures var id := c.version.value.versionId;
      Opened(w.tables.material, w.ring, DeliveryContext(ask, c), id) ==
      if RightPlace(w, ask) then Some(w.committed[id]) else None
  {
    hide Decrypt;
    var id := c.version.value.versionId;
    assert Opens(w, id);
    CandidateContext(w, ask, c);
    if !RightPlace(w, ask) && Decrypt(w.ring, w.tables.material[id], DeliveryContext(ask, c)).Ok? {
      OpensInOnePlace(w.ring, w.ring, w.tables.material[id], DeliveryContext(ask, c), ContextOf(w, id));
    }
  }

  /** The version of secret s a runtime may be given now. */
  predicate Current(t: Tables, s: Uuid, id: Uuid, now: Instant) {
    && id in t.versions && t.versions[id].secretId == s && t.versions[id].status == Active
    && (t.versions[id].revokedAt.None? || now < t.versions[id].revokedAt.value)
    && (t.versions[id].expiresAt.None? || now < t.versions[id].expiresAt.value)
  }

  predicate MayUse(ask: Ask, policy: Policy, s: Uuid, key: string) {
    var r := Authz.Decide(policy(s), ask.now, Authz.Request(
      ask.principal, UseSecret, ask.principal.organizationId, ask.projectId, ask.environmentId, s, key));
    r.Ok? && r.value.Allow?
  }

  /** The plain map a delivery stands for: key k to plaintext v. */
  ghost predicate Entitled(w: World, ask: Ask, policy: Policy, k: string, v: Bytes) {
    exists s, id ::
      && s in w.tables.secrets && w.tables.secrets[s] == SecretRow(ask.environmentId, k, false)
      && (ask.keys == [] || k in ask.keys)
      && MayUse(ask, policy, s, k)
      && Current(w.tables, s, id, ask.now)
      && id in w.committed && w.committed[id] == v
  }

  lemma DeliverableMeansCurrent(t: Tables, c: Summary, now: Instant)
    requires OneActive(t.versions) && Summarizes(t, c)
    ensures c.Deliverable(now) <==> exists id :: Current(t, c.id, id, now)
    ensures c.Deliverable(now) ==> forall id :: Current(t, c.id, id, now) <==> id == c.version.value.versionId
  {
    assert forall id :: Current(t, c.id, id, now) ==> IsActiveVersion(t.versions, c.id, id);
    if c.Deliverable(now) {
      assert Current(t, c.id, c.version.value.versionId, now);
    }
  }

  /** One candidate's verdict, in the right place. */
  lemma JudgedAsLookup(w: World, ask: Ask, policy: Policy, c: Summary)
    requires Bound(w) && OneActive(w.tables.versions) && RightPlace(w, ask)
    requires Summarizes(w.tables, c) && c.environmentId == ask.environmentId
    ensures var v := Judge(w.tables.material, w.ring, ask, policy, c);
      && !v.Undecryptable?
      && (v.Delivered? <==> MayUse(ask, policy, c.id, c.key) && c.Deliverable(ask.now))
      && (v.Delivered? ==> c.version.value.versionId in w.committed && v.value == w.committed[c.version.value.versionId])
  {
    hide Authz.Decide, Opened, Opens;
    if c.Deliverable(ask.now) {
      CandidateOpens(w, ask, c);
    }
  }

  /** On every reachable store, a delivery in the right place is a lookup in a plain
      map: it returns for each key exactly the plaintext committed with the version
      that is active and unexpired now, and no decryption ever fails. */
  lemma DeliveryIsALookup(w: World, ask: Ask, policy: Policy, tr: Trace, d: Delivery)
    requires Inv(w) && RightPlace(w, ask)
    requires Finished(w.tables, w.ring, ask, policy, tr, d)
    ensures forall k, v :: k in d.values && d.values[k] == v <==> Entitled(w, ask, policy, k, v)
    ensures forall i | 0 <= i < |tr.verdicts| :: !tr.verdicts[i].Undecryptable?
  {
    hide Judge, LoadsOf, Authz.Decide, GoodHistory, MayUse, Opens, ValuesIn, KeysIn;
    var cs := tr.candidates;
    CandidateKeysAreDistinct(w.tables, ask.environmentId, ask.keys, cs);
    assert OneActive(w.tables.versions) by { HistoryHasOneActive(w.tables.versions); }
    forall i | 0 <= i < |cs| ensures !tr.verdicts[i].Undecryptable? {
      JudgedAsLookup(w, ask, policy, cs[i]);
    }
    forall k, v ensures k in d.values && d.values[k] == v <==> Entitled(w, ask, policy, k, v) {
      if k in d.values && d.values[k] == v {
        ValueIsEntitled(w, ask, policy, tr, d, k);
      }
      if Entitled(w, ask, policy, k, v) {
        EntitledIsValue(w, ask, policy, tr, d, k, v);
      }
    }
  }

  /** The same, from an empty store and for any run at all. */
  lemma DeliveryOnEveryRun(tree: map<Uuid, Place>, ring: Keyring, steps: seq<Step>, ask: Ask, policy: Policy, tr: Trace, d: Delivery)
    requires ring.activeKeyId in ring.keys
    requires var w := Run(EmptyStore(tree, ring), steps);
      RightPlace(w, ask) && Finished(w.tables, w.ring, ask, policy, tr, d)
    ensures var w := Run(EmptyStore(tree, ring), steps);
      forall k, v :: k in d.values && d.values[k] == v <==> Entitled(w, ask, policy, k, v)
    ensures forall i | 0 <= i < |tr.verdicts| :: !tr.verdicts[i].Undecryptable?
  {
    hide Inv, Run, Finished, Entitled, RightPlace;
    var empty := EmptyStore(tree, ring);
    EmptyStoreSatisfiesInv(tree, ring);
    RunKeeps(empty, steps);
    DeliveryIsALookup(Run(empty, steps), ask, policy, tr, d);
  }

  /** What a caller is owed, from the account of the store alone. */
  ghost predicate Owed(a: Account, committed: map<Uuid, Bytes>, ask: Ask, policy: Policy, k: string, v: Bytes) {
    exists s ::
      && s in a.filed && a.filed[s] == SecretRow(ask.environmentId, k, false)
      && (ask.keys == [] || k in ask.keys)
      && MayUse(ask, policy, s, k)
      && s in a.inForce && a.inForce[s] in a.expiries && a.inForce[s] in committed
      && (a.expiries[a.inForce[s]].None? || ask.now < a.expiries[a.inForce[s]].value)
      && committed[a.inForce[s]] == v
  }

  /** On every run of committed requests: a delivery hands over, for each key, exactly the
      plaintext of the version last put in force and not revoked since, unless the expiry it
      was last given has come. */
  lemma DeliveryTellsTheHistory(tree: map<Uuid, Place>, ring: Keyring, steps: seq<Step>, ask: Ask, policy: Policy, tr: Trace, d: Delivery)
    requires ring.activeKeyId in ring.keys
    requires var w := Run(EmptyStore(tree, ring), steps); RightPlace(w, ask) && Finished(w.tables, w.ring, ask, policy, tr, d)
    ensures var w, a := Run(EmptyStore(tree, ring), steps), ToldBy(EmptyStore(tree, ring), NOTHING_YET, steps);
      forall k, v :: k in d.values && d.values[k] == v <==> Owed(a, w.committed, ask, policy, k, v)
  {
    hide Inv, Run, Finished, Entitled, Owed, RightPlace, AsTold, ToldBy;
    var empty := EmptyStore(tree, ring);
    var w, a := Run(empty, steps), ToldBy(empty, NOTHING_YET, steps);
    DeliveryOnEveryRun(tree, ring, steps, ask, policy, tr, d);
    NothingIsTold();
    RunIsTold(empty, NOTHING_YET, steps);
    forall k, v ensures Entitled(w, ask, policy, k, v) <==> Owed(a, w.committed, ask, policy, k, v) {
      OwedIsEntitled(w, a, ask, policy, k, v);
    }
  }

  lemma OwedIsEntitled(w: World, a: Account, ask: Ask, policy: Policy, k: string, v: Bytes)
    requires AsTold(w.tables, a)
    ensures Entitled(w, ask, policy, k, v) <==> Owed(a, w.committed, ask, policy, k, v)
  {
    hide MayUse, KeysAsSealed;
    if Entitled(w, ask, policy, k, v) {
      var s, id :| s in w.tables.secrets && w.tables.secrets[s] == SecretRow(ask.environmentId, k, false) &&
        (ask.keys == [] || k in ask.keys) && MayUse(ask, policy, s, k) &&
        Current(w.tables, s, id, ask.now) && id in w.committed && w.committed[id] == v;
      assert IsActiveVersion(w.tables.versions, s, id);
    }
    if Owed(a, w.committed, ask, policy, k, v) {
      var s :| s in a.filed && a.filed[s] == SecretRow(ask.environmentId, k, false) && (ask.keys == [] || k in ask.keys) &&
        MayUse(ask, policy, s, k) && s in a.inForce && a.inForce[s] in a.expiries && a.inForce[s] in w.committed &&
        (a.expiries[a.inForce[s]].None? || ask.now < a.expiries[a.inForce[s]].value) && w.committed[a.inForce[s]] == v;
      assert IsActiveVersion(w.tables.versions, s, a.inForce[s]);
      assert Current(w.tables, s, a.inForce[s], ask.now);
    }
  }

  /** A version whose last expiry has come is not delivered: nothing is handed over for
      its secret's key. */
  lemma ExpiredIsNotDelivered(tree: map<Uuid, Place>, ring: Keyring, steps: seq<Step>, ask: Ask, policy: Policy, tr: Trace, d: Delivery, s: Uuid)
    requires ring.activeKeyId in ring.keys
    requires var w := Run(EmptyStore(tree, ring), steps); RightPlace(w, ask) && Finished(w.tables, w.ring, ask, policy, tr, d)
    requires var a := ToldBy(EmptyStore(tree, ring), NOTHING_YET, steps);
      && s in a.filed && a.filed[s].environmentId == ask.environmentId && !a.filed[s].deleted
      && (s in a.inForce ==> a.inForce[s] in a.expiries && a.expiries[a.inForce[s]].Some? && a.expiries[a.inForce[s]].value <= ask.now)
    ensures ToldBy(EmptyStore(tree, ring), NOTHING_YET, steps).filed[s].key !in d.values
  {
    hide Run, Finished, RightPlace, ToldBy, MayUse, AsTold, Bound, GoodHistory, Rotations, EverySecretHasAVersion, RowsAsTold, ForceAsTold, KeysAsSealed;
    var empty := EmptyStore(tree, ring);
    var w, a := Run(empty, steps), ToldBy(empty, NOTHING_YET, steps);
    DeliveryTellsTheHistory(tree, ring, steps, ask, policy, tr, d);
    NothingIsTold();
    RunIsTold(empty, NOTHING_YET, steps);
    EmptyStoreSatisfiesInv(tree, ring);
    RunKeeps(empty, steps);
    FiledAsTold(w.tables, a);
    var k := a.filed[s].key;
    assert k in d.values ==> Owed(a, w.committed, ask, policy, k, d.values[k]);
    ExpiredIsNotOwed(w, a, ask, policy, s);
  }

  lemma ExpiredIsNotOwed(w: World, a: Account, ask: Ask, policy: Policy, s: Uuid)
    requires KeysUnique(a.filed) && s in a.filed && a.filed[s].environmentId == ask.environmentId && !a.filed[s].deleted
    requires s in a.inForce ==> a.inForce[s] in a.expiries && a.expiries[a.inForce[s]].Some? && a.expiries[a.inForce[s]].value <= ask.now
    ensures forall v :: !Owed(a, w.committed, ask, policy, a.filed[s].key, v)
  {
    hide MayUse;
  }

  lemma FiledAsTold(t: Tables, a: Account)
    requires AsTold(t, a)
    ensures t.secrets == a.filed
  {
  }

  lemma HistoryHasOneActive(vs: Versions)
    requires GoodHistory(vs)
    ensures OneActive(vs)
  {
    hide Contiguous, DistinctNumbers, RevocationAgrees;
  }

  lemma ValueIsEntitled(w: World, ask: Ask, policy: Policy, tr: Trace, d: Delivery, k: string)
    requires Bound(w) && OneActive(w.tables.versions) && RightPlace(w, ask)
    requires Finished(w.tables, w.ring, ask, policy, tr, d)
    requires forall i, j | 0 <= i < j < |tr.candidates| :: tr.candidates[i].key != tr.candidates[j].key
    requires k in d.values
    ensures Entitled(w, ask, policy, k, d.values[k])
  {
    hide Judge, LoadsOf, Authz.Decide, MayUse, Opens, OneActive, KeysIn;
    var i :| 0 <= i < |tr.verdicts| && tr.candidates[i].key == k && tr.verdicts[i].Delivered?;
    var c := tr.candidates[i];
    JudgedAsLookup(w, ask, policy, c);
    ValueOfKey(tr.candidates, tr.verdicts, i);
    DeliverableMeansCurrent(w.tables, c, ask.now);
    assert IsCandidate(w.tables, ask.environmentId, ask.keys, c.id) && Current(w.tables, c.id, c.version.value.versionId, ask.now);
  }

  lemma EntitledIsValue(w: World, ask: Ask, policy: Policy, tr: Trace, d: Delivery, k: string, v: Bytes)
    requires Bound(w) && OneActive(w.tables.versions) && RightPlace(w, ask)
    requires Finished(w.tables, w.ring, ask, policy, tr, d)
    requires forall i, j | 0 <= i < j < |tr.candidates| :: tr.candidates[i].key != tr.candidates[j].key
    requires Entitled(w, ask, policy, k, v)
    ensures k in d.values && d.values[k] == v
  {
    hide Judge, LoadsOf, Authz.Decide, MayUse, Opens, OneActive, KeysIn, ValuesIn;
    var s, id :| s in w.tables.secrets && w.tables.secrets[s] == SecretRow(ask.environmentId, k, false) &&
      (ask.keys == [] || k in ask.keys) && MayUse(ask, policy, s, k) && Current(w.tables, s, id, ask.now) && id in w.committed && w.committed[id] == v;
    assert IsCandidate(w.tables, ask.environmentId, ask.keys, s);
    var i :| 0 <= i < |tr.candidates| && tr.candidates[i].id == s;
    var c := tr.candidates[i];
    assert Summarizes(w.tables, c);
    DeliverableMeansCurrent(w.tables, c, ask.now);
    JudgedAsLookup(w, ask, policy, c);
    ValueOfKey(tr.candidates, tr.verdicts, i);
  }

  lemma WrongPlaceIsNotDelivered(w: World, ask: Ask, policy: Policy, c: Summary)
    requires Bound(w) && !RightPlace(w, ask) && Summarizes(w.tables, c) && c.environmentId == ask.environmentId
    ensures !Judge(w.tables.material, w.ring, ask, policy, c).Delivered?
  {
    hide Authz.Decide, Opened, Opens, Summarizes, RightPlace;
    if c.version.Some? {
      CandidateOpens(w, ask, c);
    }
  }

  /** In a place that is not the environment's own, nothing is ever delivered. */
  lemma WrongPlaceDeliversNothing(w: World, ask: Ask, policy: Policy, tr: Trace, d: Delivery)
    requires Inv(w) && !RightPlace(w, ask)
    requires Finished(w.tables, w.ring, ask, policy, tr, d)
    ensures d.values == map[]
  {
    hide Judge, LoadsOf, Opens, GoodHistory, KeysUnique, EverySecretHasAVersion, Rotations, KeysIn, Summarizes;
    forall i | 0 <= i < |tr.verdicts| ensures !tr.verdicts[i].Delivered? {
      assert IsCandidate(w.tables, ask.environmentId, ask.keys, tr.candidates[i].id);
      SameEnvironment(w.tables, tr.candidates[i]);
      WrongPlaceIsNotDelivered(w, ask, policy, tr.candidates[i]);
    }
  }

  lemma SameEnvironment(t: Tables, c: Summary)
    requires Summarizes(t, c)
    ensures c.id in t.secrets && c.environmentId == t.secrets[c.id].environmentId
  {
  }

  /** Delivery is not one transaction. Whatever runs between resolving a key and
      loading its material, what is opened is still the plaintext committed with the
      version that was resolved. */
  lemma LoadingLaterChangesNothing(w: World, steps: seq<Step>, ask: Ask, c: Summary)
    requires Inv(w) && RightPlace(w, ask)
    requires Summarizes(w.tables, c) && c.environmentId == ask.environmentId && c.version.Some?
    ensures var v, id := Run(w, steps), c.version.value.versionId;
      Opened(v.tables.material, v.ring, DeliveryContext(ask, c), id) == Some(w.committed[id])
  {
    hide Decrypt, Run, GoodHistory, KeysUnique, EverySecretHasAVersion, Rotations;
    RunKeeps(w, steps);
    var v, id := Run(w, steps), c.version.value.versionId;
    assert Opens(w, id) && Opens(v, id);
    CandidateContext(w, ask, c);
    PlaceSurvives(w, v, id);
  }

  // ---------------------------------------------------------------------------
  // Human reveal
  // ---------------------------------------------------------------------------

  datatype RevealError = SecretNotFound | RevealPolicyError | RevealNotAuthorized | RevealUnavailable

  datatype RevealEvent = RevealRequested | RevealDenied(code: Authz.DenyCode) | Revealed(number: nat)

  function RevealAsk(p: Principal, projectId: Uuid, environmentId: Uuid, now: Instant): Ask {
    Ask(p, projectId, environmentId, [], now)
  }

  function ReadDecision(p: Principal, projectId: Uuid, environmentId: Uuid, c: Summary, source: Authz.GrantsRead, now: Instant)
    : Result<Authz.Decision, Authz.Error>
  {
    Authz.Decide(source, now, AuthzRequest(p, ReadSecret, p.organizationId, projectId, environmentId, c.id, c.key))
  }

  /** Service.Reveal, as handleRevealSecret calls it. The attempt is on record before
      the decision is taken, and a value is returned only behind READ_SECRET. */
  method Reveal(w: World, p: Principal, secretId: Uuid, source: Authz.GrantsRead, now: Instant)
    returns (r: Result<Bytes, RevealError>, audit: seq<RevealEvent>, c: Option<Summary>)
    requires Filed(w)
    ensures c.Some? <==>
      && secretId in w.tables.secrets && !w.tables.secrets[secretId].deleted
      && w.tree[w.tables.secrets[secretId].environmentId].organizationId == p.organizationId
    ensures c.None? ==> r == Err(SecretNotFound) && audit == []
    ensures c.Some? ==> Summarizes(w.tables, c.value) && c.value.id == secretId && |audit| >= 1 && audit[0] == RevealRequested
    ensures c.Some? ==>
      var place := w.tree[c.value.environmentId];
      var decision := ReadDecision(p, place.projectId, c.value.environmentId, c.value, source, now);
      && (decision.Err? ==> r == Err(RevealPolicyError) && audit == [RevealRequested])
      && (decision.Ok? && decision.value.Deny? ==>
            r == Err(RevealNotAuthorized) && audit == [RevealRequested, RevealDenied(decision.value.code)])
      && (r.Ok? ==> decision.Ok? && decision.value.Allow? && c.value.Deliverable(now))
      && (r.Ok? ==> audit == [RevealRequested, Revealed(c.value.version.value.number)])
      && (decision.Ok? && decision.value.Allow? && c.value.Deliverable(now) ==>
            var plain := Opened(w.tables.material, w.ring,
              DeliveryContext(RevealAsk(p, place.projectId, c.value.environmentId, now), c.value), c.value.version.value.versionId);
            r == if plain.Some? then Ok(plain.value) else Err(RevealUnavailable))
      && (decision.Ok? && decision.value.Allow? && !c.value.Deliverable(now) ==> r == Err(RevealUnavailable))
      && (r == Err(RevealUnavailable) ==> audit == [RevealRequested])
  {
    hide Authz.Decide, Opened;
    audit, c := [], None;
    if !Visible(w, p.organizationId, secretId) {
      return Err(SecretNotFound), audit, c;
    }
    var summary := Summarize(w.tables, secretId);
    c := Some(summary);
    var place := w.tree[summary.environmentId];
    audit := [RevealRequested];
    var decision := Authz.Authorize(source, now, AuthzRequest(
      p, ReadSecret, p.organizationId, place.projectId, summary.environmentId, secretId, summary.key));
    if decision.Err? {
      return Err(RevealPolicyError), audit, c;
    }
    if decision.value.Deny? {
      audit := audit + [RevealDenied(decision.value.code)];
      return Err(RevealNotAuthorized), audit, c;
    }
    if !summary.Deliverable(now) {
      return Err(RevealUnavailable), audit, c;
    }
    var value := Opened(w.tables.material, w.ring,
      DeliveryContext(RevealAsk(p, place.projectId, summary.environmentId, now), summary), summary.version.value.versionId);
    if value.None? {
      return Err(RevealUnavailable), audit, c;
    }
    audit := audit + [Revealed(summary.version.value.number)];
    r := Ok(value.value);
  }

  /** On a reachable store the last step of a reveal never fails: what it opens is the
      plaintext the active version was committed with. */
  lemma RevealOpensTheActiveVersion(w: World, p: Principal, c: Summary, now: Instant)
    requires Inv(w) && Summarizes(w.tables, c) && Visible(w, p.organizationId, c.id) && c.version.Some?
    ensures var id := c.version.value.versionId;
      Opened(w.tables.material, w.ring,
        DeliveryContext(RevealAsk(p, w.tree[c.environmentId].projectId, c.environmentId, now), c), id) == Some(w.committed[id])
  {
    hide Opened, Opens, GoodHistory, KeysUnique, EverySecretHasAVersion, Rotations;
    CandidateOpens(w, RevealAsk(p, w.tree[c.environmentId].projectId, c.environmentId, now), c);
  }

  /** A reveal asks for READ_SECRET of that secret, in its own environment: it is allowed
      only under a grant of it that names no other project, environment or secret. */
  lemma RevealNeedsReadSecret(p: Principal, projectId: Uuid, environmentId: Uuid, c: Summary, grants: seq<Grant>, now: Instant)
    requires var d := ReadDecision(p, projectId, environmentId, c, Authz.Loaded(grants), now); d.Ok? && d.value.Allow?
    ensures exists g ::
      && g in grants && ReadSecret in g.capabilities
      && (g.revokedAt.None? || now < g.revokedAt.value) && (g.expiresAt.None? || now < g.expiresAt.value)
      && (g.projectId.None? || g.projectId.value == projectId)
      && (g.environmentId.None? || g.environmentId.value == environmentId)
      && (g.secretId.None? || g.secretId.value == c.id)
    ensures p.scope.Some? ==> ReadSecret in p.scope.value.capabilities && p.scope.value.environmentId == environmentId
    ensures p.scope.Some? ==> c.key == "" || p.scope.value.secretKeys == [] || c.key in p.scope.value.secretKeys
  {
    hide Authz.Decide;
    Authz.AllowedExactlyWhen(grants, now, Authz.Request(p, ReadSecret, p.organizationId, projectId, environmentId, c.id, c.key));
  }
}
