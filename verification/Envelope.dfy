/** internal/crypto/localkeyring.go and envelope.go. The AEAD is a free
    constructor: a box opens only under the key, nonce and additional data it was
    sealed with, which is the interface of section 2 of RFC 5116. */
module Envelope {
  import opened Outcomes
  import opened Domain
  import opened CanonicalContext

  type Bytes = string
  type DataKey = b: Bytes | |b| == 32 witness "kkkkkkkkkkkkkkkkkkkkkkkkkkkkkkkk"
  type Nonce = b: Bytes | |b| == 12 witness "nnnnnnnnnnnn"

  datatype Box = Sealed(key: Bytes, nonce: Bytes, plaintext: Bytes, aad: Bytes) | Foreign(bytes: Bytes)

  function Open(key: Bytes, nonce: Bytes, box: Box, aad: Bytes): Option<Bytes> {
    if box.Sealed? && box.key == key && box.nonce == nonce && box.aad == aad then Some(box.plaintext) else None
  }

  // ---------------------------------------------------------------------------
  // The keyring
  // ---------------------------------------------------------------------------

  const LOCAL_KEY_PREFIX := "local:"
  const KEK_SIZE := 32

  datatype Keyring = Keyring(keys: map<string, Bytes>, activeKeyId: string)

  datatype KeyringError = EmptyKeyring | UnnamedVersion | WrongKeySize | ActiveVersionMissing

  function LocalKeyId(version: string): string {
    LOCAL_KEY_PREFIX + version
  }

  lemma LocalKeyIdIsInjective(a: string, b: string)
    ensures LocalKeyId(a) == LocalKeyId(b) <==> a == b
  {
    assert LocalKeyId(a)[6..] == a && LocalKeyId(b)[6..] == b;
  }

  /** NewLocalKeyringProvider, on versions visited in any order: it succeeds exactly
      on named keys of 32 bytes that include the active version, and loses or merges none. */
  method NewLocalKeyringProvider(keys: map<string, Bytes>, activeVersion: string)
    returns (r: Result<Keyring, KeyringError>)
    ensures r.Ok? <==> keys != map[] && (forall v | v in keys :: v != "" && |keys[v]| == 32) && activeVersion in keys
    ensures r.Ok? ==>
      && r.value.activeKeyId == LocalKeyId(activeVersion)
      && (forall v :: v in keys <==> LocalKeyId(v) in r.value.keys)
      && (forall v | v in keys :: r.value.keys[LocalKeyId(v)] == keys[v])
      && (forall id | id in r.value.keys :: exists v :: v in keys && id == LocalKeyId(v))
  {
    if keys == map[] {
      return Err(EmptyKeyring);
    }
    var loaded: map<string, Bytes> := map[];
    var todo := keys.Keys;
    while todo != {}
      invariant todo <= keys.Keys
      invariant forall v | v in keys && v !in todo ::
        v != "" && |keys[v]| == KEK_SIZE && LocalKeyId(v) in loaded && loaded[LocalKeyId(v)] == keys[v]
      invariant forall id | id in loaded :: exists v :: v in keys && v !in todo && id == LocalKeyId(v)
      decreases todo
    {
      var v :| v in todo;
      if v == "" {
        return Err(UnnamedVersion);
      }
      if |keys[v]| != KEK_SIZE {
        return Err(WrongKeySize);
      }
      forall w | w in keys && w !in todo ensures LocalKeyId(w) != LocalKeyId(v) {
        LocalKeyIdIsInjective(w, v);
      }
      loaded := loaded[LocalKeyId(v) := keys[v]];
      todo := todo - {v};
    }
    forall v ensures v in keys <==> LocalKeyId(v) in loaded {
      if LocalKeyId(v) in loaded {
        var w :| w in keys && LocalKeyId(v) == LocalKeyId(w);
        LocalKeyIdIsInjective(v, w);
      }
    }
    if LocalKeyId(activeVersion) !in loaded {
      return Err(ActiveVersionMissing);
    }
    return Ok(Keyring(loaded, LocalKeyId(activeVersion)));
  }

  /** `later` still holds every key of `earlier`, whichever key it writes under. */
  predicate Extends(later: Keyring, earlier: Keyring) {
    forall id | id in earlier.keys :: id in later.keys && later.keys[id] == earlier.keys[id]
  }

  // The stored form of a wrapped data key: a nonce followed by the box.
  datatype WrappedKey = Short | Wrapped(nonce: Nonce, box: Box)

  datatype CryptoError = InvalidContext | KeyUnavailable | DecryptionFailed

  function Wrap(ring: Keyring, keyId: string, dataKey: DataKey, aad: Bytes, nonce: Nonce): Result<WrappedKey, CryptoError> {
    if keyId !in ring.keys then Err(KeyUnavailable)
    else Ok(Wrapped(nonce, Sealed(ring.keys[keyId], nonce, dataKey, aad)))
  }

  function Unwrap(ring: Keyring, keyId: string, wrapped: WrappedKey, aad: Bytes): Result<Bytes, CryptoError> {
    if keyId !in ring.keys then Err(KeyUnavailable)
    else if wrapped.Short? then Err(DecryptionFailed)
    else
      match Open(ring.keys[keyId], wrapped.nonce, wrapped.box, aad)
      case None => Err(DecryptionFailed)
      case Some(dataKey) => Ok(dataKey)
  }

  // ---------------------------------------------------------------------------
  // The envelope
  // ---------------------------------------------------------------------------

  const ENVELOPE_SCHEME := 1
  const ALGORITHM_AES_GCM := "AES-256-GCM"

  datatype EncryptedSecret = EncryptedSecret(
    scheme: int, algorithm: string, keyId: string, wrappedDataKey: WrappedKey, nonce: Bytes, ciphertext: Box)

  // What the system's random source supplied for one encryption.
  datatype Randomness = Randomness(dataKey: DataKey, nonce: Nonce, wrapNonce: Nonce)

  function Encrypt(ring: Keyring, plaintext: Bytes, ec: EncryptionContext, rnd: Randomness): (r: Result<EncryptedSecret, CryptoError>)
    ensures r.Ok? <==> ec.Valid() && ring.activeKeyId in ring.keys
  {
    if !ec.Valid() then Err(InvalidContext)
    else
      var aad := Canonical(ec.Map());
      match Wrap(ring, ring.activeKeyId, rnd.dataKey, aad, rnd.wrapNonce)
      case Err(e) => Err(e)
      case Ok(wrapped) =>
        Ok(EncryptedSecret(ENVELOPE_SCHEME, ALGORITHM_AES_GCM, ring.activeKeyId, wrapped, rnd.nonce,
                           Sealed(rnd.dataKey, rnd.nonce, plaintext, aad)))
  }

  /** Every failure is the one error. */
  function Decrypt(ring: Keyring, enc: EncryptedSecret, ec: EncryptionContext): Result<Bytes, CryptoError> {
    if !ec.Valid() || enc.scheme != ENVELOPE_SCHEME || enc.algorithm != ALGORITHM_AES_GCM then Err(DecryptionFailed)
    else
      var aad := Canonical(ec.Map());
      match Unwrap(ring, enc.keyId, enc.wrappedDataKey, aad)
      case Err(_) => Err(DecryptionFailed)
      case Ok(dataKey) =>
        if |dataKey| != 32 || |enc.nonce| != 12 then Err(DecryptionFailed)
        else
          match Open(dataKey, enc.nonce, enc.ciphertext, aad)
          case None => Err(DecryptionFailed)
          case Some(plaintext) => Ok(plaintext)
  }

  /** An envelope opens to a plaintext exactly when it says this scheme and algorithm, its
      key is held and wraps a data key of the right size, and both boxes were sealed in
      this place, each under its own nonce, the inner one over that plaintext. */
  lemma DecryptsExactlyWhen(ring: Keyring, enc: EncryptedSecret, ec: EncryptionContext, plaintext: Bytes)
    ensures Decrypt(ring, enc, ec) == Ok(plaintext) <==>
      && ec.organizationId != NIL && ec.projectId != NIL && ec.environmentId != NIL && ec.secretId != NIL && ec.version > 0
      && enc.scheme == 1 && enc.algorithm == "AES-256-GCM" && |enc.nonce| == 12
      && enc.keyId in ring.keys && enc.wrappedDataKey.Wrapped? && enc.wrappedDataKey.box.Sealed?
      && var dataKey := enc.wrappedDataKey.box.plaintext;
         && |dataKey| == 32
         && enc.wrappedDataKey.box == Sealed(ring.keys[enc.keyId], enc.wrappedDataKey.nonce, dataKey, Canonical(ec.Map()))
         && enc.ciphertext == Sealed(dataKey, enc.nonce, plaintext, Canonical(ec.Map()))
  {
    hide Canonical;
  }

  /** What sealing writes, and under which key. */
  lemma EncryptsExactlyWhen(ring: Keyring, plaintext: Bytes, ec: EncryptionContext, rnd: Randomness)
    ensures var r := Encrypt(ring, plaintext, ec, rnd);
      var valid := ec.organizationId != NIL && ec.projectId != NIL && ec.environmentId != NIL && ec.secretId != NIL && ec.version > 0;
      && (r == Err(InvalidContext) <==> !valid)
      && (r == Err(KeyUnavailable) <==> valid && ring.activeKeyId !in ring.keys)
      && (valid && ring.activeKeyId in ring.keys ==>
            r == Ok(EncryptedSecret(1, "AES-256-GCM", ring.activeKeyId,
              Wrapped(rnd.wrapNonce, Sealed(ring.keys[ring.activeKeyId], rnd.wrapNonce, rnd.dataKey, Canonical(ec.Map()))),
              rnd.nonce, Sealed(rnd.dataKey, rnd.nonce, plaintext, Canonical(ec.Map())))))
  {
    hide Canonical;
  }

  /** The round trip: under any later keyring, whichever key is active there, the
      envelope opens to its plaintext exactly when all five components of the
      context agree, and otherwise opens to nothing. */
  lemma DecryptAfterEncrypt(ring: Keyring, later: Keyring, plaintext: Bytes, ec: EncryptionContext, presented: EncryptionContext, rnd: Randomness)
    requires Encrypt(ring, plaintext, ec, rnd).Ok?
    requires Extends(later, ring)
    ensures var r := Decrypt(later, Encrypt(ring, plaintext, ec, rnd).value, presented);
      r == if presented == ec then Ok(plaintext) else Err(DecryptionFailed)
  {
    if presented.Valid() {
      ContextBytesAreInjective(ec, presented);
    }
  }

  /** An envelope opens in at most one place, whoever wrote it: copied to another
      organization, project, environment, secret or version it opens to nothing. */
  lemma OpensInOnePlace(ring: Keyring, other: Keyring, enc: EncryptedSecret, a: EncryptionContext, b: EncryptionContext)
    requires Decrypt(ring, enc, a).Ok? && Decrypt(other, enc, b).Ok?
    ensures a == b
  {
    ContextBytesAreInjective(a, b);
  }

  lemma OpenedStaysOpen(earlier: Keyring, later: Keyring, enc: EncryptedSecret, ec: EncryptionContext)
    requires Extends(later, earlier)
    ensures enc.keyId in earlier.keys || Decrypt(earlier, enc, ec).Ok? ==> Decrypt(later, enc, ec) == Decrypt(earlier, enc, ec)
  {
  }

  /** Through any history of keyring changes that only add keys or move the active
      one, the answer for an envelope whose key was held at the start never changes. */
  lemma {:induction false} KeyringHistoryIsInvisible(rings: seq<Keyring>, enc: EncryptedSecret, ec: EncryptionContext)
    requires rings != []
    requires forall i | 0 < i < |rings| :: Extends(rings[i], rings[i - 1])
    ensures Extends(rings[|rings| - 1], rings[0])
    ensures enc.keyId in rings[0].keys || Decrypt(rings[0], enc, ec).Ok? ==>
      Decrypt(rings[|rings| - 1], enc, ec) == Decrypt(rings[0], enc, ec)
  {
    if |rings| > 1 {
      KeyringHistoryIsInvisible(rings[..|rings| - 1], enc, ec);
      OpenedStaysOpen(rings[|rings| - 2], rings[|rings| - 1], enc, ec);
    }
  }
}
