/** internal/secrets/service.go, the reading half: runtime delivery and human
    reveal, in the order authorize, check, load, decrypt, audit. */
module Delivery {
  import opened Outcomes
  import opened Domain
  import opened CanonicalContext
  import opened Envelope
  import opened SecretStore
  import opened SecretService
  import opened SecretRuns
  import Authz

  datatype VersionInfo = VersionInfo(
    versionId: Uuid, number: nat, status: Status, expiresAt: Option<Instant>, revokedAt: Option<Instant>)

  // Metadata only: nothing here could become a value.
  datatype Summary = Summary(id: Uuid, environmentId: Uuid, key: string, version: Option<VersionInfo>)
  {
    predicate Deliverable(now: Instant) {
      && version.Some?
      && version.value.status == Active
      && !Reached(version.value.revokedAt, now)
      && !Reached(version.value.expiresAt, now)
    }
  }

  function InfoOf(vs: Versions, id: Uuid): VersionInfo
    requires id in vs
  {
    VersionInfo(id, vs[id].version, vs[id].status, vs[id].expiresAt, vs[id].revokedAt)
  }

  /** One row of the join of secrets with their ACTIVE version. */
  ghost predicate Summarizes(t: Tables, s: Summary) {
    && s.id in t.secrets
    && s.environmentId == t.secrets[s.id].environmentId
    && s.key == t.secrets[s.id].key
    && (s.version.Some? ==>
          IsActiveVersion(t.versions, s.id, s.version.value.versionId) &&
          s.version.value == InfoOf(t.versions, s.version.value.versionId))
    && (s.version.None? ==> forall id :: !IsActiveVersion(t.versions, s.id, id))
  }

  predicate IsCandidate(t: Tables, environmentId: Uuid, keys: seq<string>, id: Uuid) {
    && id in t.secrets
    && t.secrets[id].environmentId == environmentId
    && !t.secrets[id].deleted
    && (keys == [] || t.secrets[id].key in keys)
  }

  /** Every matching live secret once, in no particular order. */
  ghost predicate IsResolution(t: Tables, environmentId: Uuid, keys: seq<string>, out: seq<Summary>) {
    && (forall i | 0 <= i < |out| :: IsCandidate(t, environmentId, keys, out[i].id) && Summarizes(t, out[i]))
    && (forall id | IsCandidate(t, environmentId, keys, id) :: exists i :: 0 <= i < |out| && out[i].id == id)
    && (forall i, j | 0 <= i < j < |out| :: out[i].id != out[j].id)
  }

  method Summarize(t: Tables, id: Uuid) returns (s: Summary)
    requires id in t.secrets
    ensures Summarizes(t, s) && s.id == id
  {
    var active := set v | v in t.versions && t.versions[v].secretId == id && t.versions[v].status == Active;
    var version: Option<VersionInfo> := None;
    if active != {} {
      var v :| v in active;
      version := Some(InfoOf(t.versions, v));
    } else {
      assert forall v :: IsActiveVersion(t.versions, id, v) ==> v in active;
    }
    s := Summary(id, t.secrets[id].environmentId, t.secrets[id].key, version);
  }

  method ResolveForDelivery(t: Tables, environmentId: Uuid, keys: seq<string>) returns (out: seq<Summary>)
    ensures IsResolution(t, environmentId, keys, out)
  {
    var todo := set id | id in t.secrets && IsCandidate(t, environmentId, keys, id);
    out := [];
    while todo != {}
      invariant forall id | id in todo :: IsCandidate(t, environmentId, keys, id)
      invariant forall i | 0 <= i < |out| ::
        IsCandidate(t, environmentId, keys, out[i].id) && Summarizes(t, out[i]) && out[i].id !in todo
      invariant forall id | IsCandidate(t, environmentId, keys, id) ::
        id in todo || exists i :: 0 <= i < |out| && out[i].id == id
      invariant forall i, j | 0 <= i < j < |out| :: out[i].id != out[j].id
      decreases todo
    {
      var id :| id in todo;
      var s := Summarize(t, id);
      ghost var before, was := out, todo;
      out := out + [s];
      todo := todo - {id};
      forall x | IsCandidate(t, environmentId, keys, x)
        ensures x in todo || exists i :: 0 <= i < |out| && out[i].id == x
      {
        if x == id {
          assert out[|before|].id == x;
        } else if x !in was {
          var i :| 0 <= i < |before| && before[i].id == x;
          assert out[i].id == x;
        }
      }
    }
  }

  // ---------------------------------------------------------------------------
  // One key at a time
  // ---------------------------------------------------------------------------

  datatype Ask = Ask(principal: Principal, projectId: Uuid, environmentId: Uuid, keys: seq<string>, now: Instant)

  // What the policy engine read while deciding about one secret.
  type Policy = Uuid -> Authz.GrantsRead

  datatype Verdict =
    | PolicyError
    | Refused(code: Authz.DenyCode)
    | Undeliverable
    | Undecryptable
    | Delivered(value: Bytes)

  function UseRequest(ask: Ask, c: Summary): Authz.Request {
    AuthzRequest(ask.principal, UseSecret, ask.principal.organizationId, ask.projectId, ask.environmentId, c.id, c.key)
  }

  function DeliveryContext(ask: Ask, c: Summary): EncryptionContext
    requires c.version.Some?
  {
    EncryptionContext(ask.principal.organizationId, ask.projectId, ask.environmentId, c.id, c.version.value.number)
  }

  /** What opening one summary's material comes to. */
  function Opened(material: map<Uuid, EncryptedSecret>, ring: Keyring, ec: EncryptionContext, versionId: Uuid): Option<Bytes> {
    if versionId !in material then None
    else
      match Decrypt(ring, material[versionId], ec)
      case Ok(value) => Some(value)
      case Err(_) => None
  }

  function Judge(material: map<Uuid, EncryptedSecret>, ring: Keyring, ask: Ask, policy: Policy, c: Summary): Verdict {
    match Authz.Decide(policy(c.id), ask.now, UseRequest(ask, c))
    case Err(_) => PolicyError
    case Ok(Deny(code)) => Refused(code)
    case Ok(Allow(_, _)) =>
      if !c.Deliverable(ask.now) then Undeliverable
      else
        match Opened(material, ring, DeliveryContext(ask, c), c.version.value.versionId)
        case None => Undecryptable
        case Some(value) => Delivered(value)
  }

  datatype AuditEvent =
    | AccessDenied(secretId: Uuid, code: Authz.DenyCode)
    | SecretUnavailable(secretId: Uuid)
    | DecryptError(secretId: Uuid)
    | SecretUsed(secretId: Uuid, number: nat)

  datatype Delivery = Delivery(values: map<string, Bytes>, denied: seq<string>, unavailable: seq<string>)

  // What a delivery leaves behind besides its answer: the rows it considered, its
  // verdict on each, the version rows whose ciphertext it read, and its audit events.
  datatype Trace = Trace(candidates: seq<Summary>, verdicts: seq<Verdict>, loads: seq<Uuid>, audit: seq<AuditEvent>)

  datatype DeliveryError = PolicyUnavailable

  datatype Column = Denied | Unavailable

  predicate Lands(v: Verdict, column: Column) {
    match column
    case Denied => v.Refused?
    case Unavailable => v.Undeliverable? || v.Undecryptable?
  }

  /** The keys of one column, in candidate order. */
  function KeysIn(column: Column, cs: seq<Summary>, vs: seq<Verdict>): (keys: seq<string>)
    requires |vs| <= |cs|
    ensures forall k :: k in keys <==> exists i :: 0 <= i < |vs| && cs[i].key == k && Lands(vs[i], column)
  {
    if vs == [] then []
    else
      var n := |vs| - 1;
      KeysIn(column, cs, vs[..n]) + (if Lands(vs[n], column) then [cs[n].key] else [])
  }

  function ValuesIn(cs: seq<Summary>, vs: seq<Verdict>): (values: map<string, Bytes>)
    requires |vs| <= |cs|
    ensures forall k :: k in values <==> exists i :: 0 <= i < |vs| && cs[i].key == k && vs[i].Delivered?
  {
    if vs == [] then map[]
    else
      var n := |vs| - 1;
      var before := ValuesIn(cs, vs[..n]);
      if vs[n].Delivered? then before[cs[n].key := vs[n].value] else before
  }

  lemma {:induction false} ValueOfKey(cs: seq<Summary>, vs: seq<Verdict>, i: nat)
    requires |vs| <= |cs| && i < |vs| && vs[i].Delivered?
    requires forall i, j | 0 <= i < j < |cs| :: cs[i].key != cs[j].key
    ensures cs[i].key in ValuesIn(cs, vs) && ValuesIn(cs, vs)[cs[i].key] == vs[i].value
  {
    if i < |vs| - 1 {
      ValueOfKey(cs, vs[..|vs| - 1], i);
    }
  }

  lemma ColumnsOneMore(cs: seq<Summary>, vs: seq<Verdict>, v: Verdict)
    requires |vs| < |cs|
    ensures var c := cs[|vs|];
      && ValuesIn(cs, vs + [v]) == (if v.Delivered? then ValuesIn(cs, vs)[c.key := v.value] else ValuesIn(cs, vs))
      && (forall column :: KeysIn(column, cs, vs + [v]) ==
            KeysIn(column, cs, vs) + (if Lands(v, column) then [c.key] else []))
  {
    assert (vs + [v])[..|vs|] == vs;
  }

  /** Ciphertext is read exactly for the candidates that passed every check. */
  predicate Reads(v: Verdict) {
    v.Undecryptable? || v.Delivered?
  }

  function LoadsOf(cs: seq<Summary>, vs: seq<Verdict>): (loads: seq<Uuid>)
    requires |vs| <= |cs|
    requires forall i | 0 <= i < |vs| && Reads(vs[i]) :: cs[i].version.Some?
  {
    if vs == [] then []
    else
      var n := |vs| - 1;
      LoadsOf(cs, vs[..n]) + (if Reads(vs[n]) then [cs[n].version.value.versionId] else [])
  }

  function EventFor(c: Summary, v: Verdict): AuditEvent
    requires !v.PolicyError? && (Reads(v) ==> c.version.Some?)
  {
    match v
    case Refused(code) => AccessDenied(c.id, code)
    case Undeliverable => SecretUnavailable(c.id)
    case Undecryptable => DecryptError(c.id)
    case Delivered(_) => SecretUsed(c.id, c.version.value.number)
  }

  predicate Found(cs: seq<Summary>, key: string) {
    exists i :: 0 <= i < |cs| && cs[i].key == key
  }

  /** The verdicts are the policy's and the store's, candidate by candidate, and each
      one has left exactly one audit event and at most one load. */
  ghost predicate Judged(material: map<Uuid, EncryptedSecret>, ring: Keyring, ask: Ask, policy: Policy, tr: Trace) {
    && |tr.verdicts| <= |tr.candidates|
    && (forall i | 0 <= i < |tr.verdicts| ::
          && tr.verdicts[i] == Judge(material, ring, ask, policy, tr.candidates[i])
          && !tr.verdicts[i].PolicyError?
          && (Reads(tr.verdicts[i]) ==> tr.candidates[i].Deliverable(ask.now)))
    && |tr.audit| == |tr.verdicts|
    && (forall i | 0 <= i < |tr.verdicts| :: tr.audit[i] == EventFor(tr.candidates[i], tr.verdicts[i]))
    && tr.loads == LoadsOf(tr.candidates, tr.verdicts)
  }

  /** Authorize, check, and only then load and decrypt, for one candidate. */
  method JudgeCandidate(material: map<Uuid, EncryptedSecret>, ring: Keyring, ask: Ask, policy: Policy, c: Summary)
    returns (v: Verdict, loads: seq<Uuid>)
    ensures v == Judge(material, ring, ask, policy, c)
    ensures Reads(v) ==> c.Deliverable(ask.now)
    ensures loads == if Reads(v) then [c.version.value.versionId] else []
  {
    hide Authz.Decide, Decrypt;
    loads := [];
    var decision := Authz.Authorize(policy(c.id), ask.now, UseRequest(ask, c));
    if decision.Err? {
      return PolicyError, loads;
    }
    if decision.value.Deny? {
      return Refused(decision.value.code), loads;
    }
    if !c.Deliverable(ask.now) {
      return Undeliverable, loads;
    }
    var version := c.version.value;
    loads := [version.versionId];
    var value := Opened(material, ring, DeliveryContext(ask, c), version.versionId);
    v := if value.None? then Undecryptable else Delivered(value.value);
  }

  function Extended(tr: Trace, c: Summary, v: Verdict, loads: seq<Uuid>): Trace
    requires !v.PolicyError? && (Reads(v) ==> c.version.Some?)
  {
    tr.(verdicts := tr.verdicts + [v], loads := tr.loads + loads, audit := tr.audit + [EventFor(c, v)])
  }

  lemma JudgedOneMore(material: map<Uuid, EncryptedSecret>, ring: Keyring, ask: Ask, policy: Policy, tr: Trace, v: Verdict, loads: seq<Uuid>)
    requires Judged(material, ring, ask, policy, tr) && |tr.verdicts| < |tr.candidates|
    requires var c := tr.candidates[|tr.verdicts|];
      && v == Judge(material, ring, ask, policy, c)
      && !v.PolicyError?
      && (Reads(v) ==> c.Deliverable(ask.now))
      && loads == if Reads(v) then [c.version.value.versionId] else []
    ensures Judged(material, ring, ask, policy, Extended(tr, tr.candidates[|tr.verdicts|], v, loads))
  {
    hide Judge;
    var next := Extended(tr, tr.candidates[|tr.verdicts|], v, loads);
    assert next.verdicts[..|tr.verdicts|] == tr.verdicts;
  }

  /** Service.Deliver. */
  method Deliver(t: Tables, ring: Keyring, ask: Ask, policy: Policy)
    returns (r: Result<Delivery, DeliveryError>, tr: Trace)
    ensures IsResolution(t, ask.environmentId, ask.keys, tr.candidates)
    ensures Judged(t.material, ring, ask, policy, tr)
    ensures r.Err? ==>
      && |tr.verdicts| < |tr.candidates|
      && Judge(t.material, ring, ask, policy, tr.candidates[|tr.verdicts|]).PolicyError?
    ensures r.Ok? ==> |tr.verdicts| == |tr.candidates| && Answers(ask, tr, r.value)
  {
    hide Judge, IsResolution, Judged, LoadsOf, KeysIn, ValuesIn;
    var candidates := ResolveForDelivery(t, ask.environmentId, ask.keys);
    tr := Trace(candidates, [], [], []);
    assert Judged(t.material, ring, ask, policy, tr) by { NothingJudged(t.material, ring, ask, policy, candidates); }
    var d := Delivery(map[], [], []);
    assert d.values == ValuesIn(candidates, []) && forall column :: KeysIn(column, candidates, []) == [] by { NoVerdicts(candidates); }
    for i := 0 to |candidates|
      invariant tr.candidates == candidates && |tr.verdicts| == i
      invariant Judged(t.material, ring, ask, policy, tr)
      invariant d.values == ValuesIn(candidates, tr.verdicts)
      invariant d.denied == KeysIn(Denied, candidates, tr.verdicts)
      invariant d.unavailable == KeysIn(Unavailable, candidates, tr.verdicts)
    {
      var c := candidates[i];
      var v, loads := JudgeCandidate(t.material, ring, ask, policy, c);
      match v {
        case PolicyError =>
          return Err(PolicyUnavailable), tr;
        case Refused(_) =>
          d := d.(denied := d.denied + [c.key]);
        case Undeliverable =>
          d := d.(unavailable := d.unavailable + [c.key]);
        case Undecryptable =>
          d := d.(unavailable := d.unavailable + [c.key]);
        case Delivered(value) =>
          d := d.(values := d.values[c.key := value]);
      }
      JudgedOneMore(t.material, ring, ask, policy, tr, v, loads);
      ColumnsOneMore(candidates, tr.verdicts, v);
      tr := Extended(tr, c, v, loads);
    }
    var denied := DenyMissing(ask.keys, candidates, d.denied);
    r := Ok(d.(denied := denied));
  }

  lemma NoVerdicts(cs: seq<Summary>)
    ensures ValuesIn(cs, []) == map[]
    ensures forall column :: KeysIn(column, cs, []) == []
  {
  }

  /** A requested key that does not exist joins the denied ones. */
  method DenyMissing(keys: seq<string>, cs: seq<Summary>, refused: seq<string>) returns (denied: seq<string>)
    ensures forall k :: k in denied <==> k in refused || (k in keys && !Found(cs, k))
  {
    denied := refused;
    for i := 0 to |keys|
      invariant forall k :: k in denied <==> k in refused || (k in keys[..i] && !Found(cs, k))
    {
      if !Found(cs, keys[i]) {
        denied := denied + [keys[i]];
      }
    }
  }

  lemma NothingJudged(material: map<Uuid, EncryptedSecret>, ring: Keyring, ask: Ask, policy: Policy, cs: seq<Summary>)
    ensures Judged(material, ring, ask, policy, Trace(cs, [], [], []))
  {
    hide Judge;
  }

  /** The three columns of an answer, from the verdicts. A requested key nobody has is
      reported as denied. */
  ghost predicate Answers(ask: Ask, tr: Trace, d: Delivery)
    requires |tr.verdicts| == |tr.candidates|
  {
    && d.values == ValuesIn(tr.candidates, tr.verdicts)
    && d.unavailable == KeysIn(Unavailable, tr.candidates, tr.verdicts)
    && (forall k :: k in d.denied <==>
          k in KeysIn(Denied, tr.candidates, tr.verdicts) || (k in ask.keys && !Found(tr.candidates, k)))
  }
}
