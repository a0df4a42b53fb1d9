# Warder, modelled and proved

Warder is a secret broker. People and machines authenticate, a policy engine decides what
they may do, and a service hands out secret values it keeps under envelope encryption. This
project models the parts of its backend whose comments promise something about more than one
function or more than one request, and proves those promises over every run of the model, or,
where the code falls short of one, the exact condition under which it is kept.

`dafny verify dfyconfig.toml` checks the whole project.

## What is modelled

- **Policy** (`Authz`, `Domain`): the ordered decision procedure, against one declarative
  formula over the set of grants held.
- **Encryption** (`Text`, `CanonicalContext`, `Envelope`): the length-prefixed context and
  the two-level envelope. Authenticated encryption is the constructor `Sealed(key, nonce,
  plaintext, aad)` of the datatype `Box`, in the sense of section 2 of RFC 5116; `Foreign`
  boxes open under nothing.
- **Secrets** (`SecretStore`, `SecretService`, `SecretRuns`, `SecretHistories`,
  `RotationTheorems`): version histories under create, rotate, rollback, revoke, set-expiry and
  delete, with any number of rotators between their read and their commit. `SecretHistories`
  tells the tables of every run from the committed requests alone.
- **Delivery and reveal** (`Delivery`, `DeliveryTheorems`): authorize, check, load, decrypt,
  audit, key by key; the main theorem is that a delivery is a lookup in a plain map.
- **Rate limiting** (`Limiter`, `LimiterTheorems`): the token bucket with its sweeper; the
  main theorem characterizes admission by the admission times alone.
- **Credentials that end** (`Machines`, `MachineTheorems`, `Lifetimes`, `Revocation`,
  `ExchangeTheorems`): tokens, runtime sessions, logins, memberships and grants, with exchanges
  in flight.
- **Signing in** (`SignIn`, `SignInFrames`, `SignInTheorems`, `SignInRows`, `SignInFlows`,
  `SignInPasswords`, `SignInConservation`): passwords, passkeys, recovery codes, resets and
  re-issue, one statement a step; `SignInFrames` says of every statement what it leaves alone,
  `SignInRows` what it does to the rows, and `SignInFlows` exactly when whole requests succeed.
- **Things used once** (`Invitations`, `RecoveryLinks`).
- **Migrations** (`Migrations`) and **encodings** (`Encodings`, `Credentials`,
  `RecoveryCodes`, `PasswordHashes`).

Repositories and services that change rows are classes whose methods are proved equal to a
function of the old tables. Runs are sequences of steps built from those same functions.

## Assumptions

- A transaction, and a statement outside one, is one atomic step. Reads a request makes
  before its transaction are steps of their own wherever another request could come between
  and the theorem is about that: rotations, exchanges, sign-in, invitations, recovery links.
- The service and the database share one clock, in whole nanoseconds, which does not run
  backwards.
- Random identifiers and keys are not drawn twice. A credential is named by its row: its
  public id is unique, although the schema indexes it without a uniqueness constraint, and
  its secret half verifies.
- Uniqueness is the schema's: one active version a secret and one live key an environment,
  one membership a user and organization, one open invitation an address and organization,
  one open recovery link a user, one hash a user's recovery code, one account an address
  (`migrations/*.sql`). Membership rows are inserted and stamped, never removed.
- A digest stands for what it was taken from, and a stored password hash for the password it
  verifies. Key derivation is any function with an output of the length asked for.
- A string is a sequence of bytes, one char each; case is folded in ASCII only.
- Tokens in the limiter are exact reals, where the source uses floating point.

## Where the code and its comments differ

The model follows the code.

- `Deliver` with no keys named answers a caller authorized for nothing with the names of all
  live keys of the environment, while the comment on `Denied` says it reveals nothing about
  what exists. It keeps that promise exactly when the request names a key
  (`RefusalsHideExistenceExactlyWhenKeysAreNamed`).
- A conflicting rotation asks its caller to retry. After a rollback to an older version, or a
  revocation of the active one, no retry succeeds (`RetryingDoesNotHelp`), and once the newest
  version is revoked none ever will (`RevokedNewestIsFinal`).
- `RevokeToken` and `DisableIdentity` are said to revoke every session derived from the
  token or tokens. They reach those whose direct source is such a token
  (`RevocationReachesTheWholeChainExactlyWhen`, `DisablingReachesTheWholeChainExactlyWhen`).
- A recovery link issued by somebody who has since left is said to be refused. The lookup
  takes a membership in any state, and so never refuses a pending link
  (`RefusedOnceIssuerLeftExactlyWhen`, `DepartedIssuerIsHonoured`).
- A save is said to leave one outstanding challenge per user and purpose. Its two statements
  are not one transaction, and it does so exactly when what other saves inserted between them
  is gone again (`SaveLeavesItsOwnExactlyWhen`, `InterleavedSavesLeaveTwo`).
- Upgrading a hash at sign-in is said to be transparent. It is an unconditional update, so a
  login accepted before a reset, under a hash that was due, can store the old password over
  the new one. A new password stays exactly when no such request is in flight
  (`NewPasswordStaysExactlyWhen`).
- `handleChangePassword` is said to check the current password. It loads the user without
  the stored hash, so the check always fails and no password is ever changed that way
  (`ChangingAPasswordAlwaysFails`).
- The wait in a rate-limit message is enough in every wording but "a minute"
  (`MessageSuffices`).

## Model

| member | source | states |
|---|---|---|
| Authz.Authorize | internal/authz/engine.go:108-171 | Allows exactly when the request is well formed, the credential's ceiling admits it, and the role or some active covering grant confers the capability; fails only where the grants were needed and could not be loaded |
| Authz.CheckScope | internal/authz/engine.go:174-204 | Refuses exactly the requests the presented scope does not admit |
| Authz.EffectiveCapabilities | internal/authz/engine.go:235-249 | Lists exactly the capabilities a probe would be allowed, each once; fails exactly when the grants cannot be loaded and some probe needs them |
| Authz.DecideMeetsSpecification | internal/authz/engine.go:108-171 | The ordered procedure decides the declarative formula, and the grant it names is one that was read and confers the capability |
| Authz.OrderOfGrantsIsIrrelevant | internal/authz/engine.go:140-170 | Two readings of the same grants, in any order or repetition, are decided alike |
| Authz.AuthorityIsMonotone | internal/authz/engine.go:174-229 | More grants and a wider ceiling never turn an allowance into a refusal; the empty key list is the top of the key component |
| Authz.ScopeIsAnIntersection | internal/authz/engine.go:174-204 | What a scoped credential may do is what the identity may do and the scope admits |
| Authz.AuthorityDescends | internal/authz/engine.go:212-229 | Authority over a resource extends to everything inside it, as far as the ceiling admits, and always without one |
| Authz.SecretPlaneNeedsAGrant | internal/domain/capability.go:70-133 | USE_SECRET and READ_SECRET come only from an active covering grant, whatever the role |
| Authz.AllowedExactlyWhen | internal/authz/engine.go:108-229 | In the columns alone: the decision allows exactly when the request is complete and within its organization, the presented scope names its project and environment and holds its capability and key, and the role's rank suffices or a grant is held that has the capability, is neither revoked nor expired, and names no other project, environment or secret |
| Authz.RolesAreRanked | internal/domain/capability.go:94-133 | A role carries a capability exactly when its rank reaches the capability's; no rank reaches USE_SECRET or READ_SECRET |
| Authz.RefusalNamesTheFirstFailure | internal/authz/engine.go:109-204 | A refusal's code names the first check that failed, in the order unknown capability, missing identifiers, other organization, then the scope's capability, project, environment and key |
| Authz.AllowanceNamesItsSource | internal/authz/engine.go:134-170 | An allowance says whether the role gave it, and otherwise names a grant that was read and has the capability |
| Authz.OneSecretsGrantOpensNoOther | internal/authz/engine.go:212-229 | A secret can be neither used nor read where every grant held names another project, environment or secret |
| CanonicalContext.CanonicalBytes | internal/crypto/context.go:73-85 | Sorting the keys and length-prefixing them in a loop produces the canonical form of the map, whatever order the keys came in |
| CanonicalContext.DecodeInvertsCanonical | internal/crypto/context.go:73-85 | A decoder recovers every string map from its canonical bytes, whatever bytes keys and values hold |
| CanonicalContext.CanonicalIsInjective | internal/crypto/context.go:66-85 | Different maps have different canonical bytes |
| CanonicalContext.ContextBytesAreInjective | internal/crypto/context.go:56-85 | Two contexts have the same bytes only if all five components agree |
| CanonicalContext.ContextBytes | internal/crypto/context.go:56-85 | The bytes in full: the entries env, org, project, secret and version in that order, each name and value preceded by its length |
| Text.BeforeByPositions | internal/crypto/context.go:78-78 | One string sorts before another exactly when it is a proper prefix of it, or has the smaller byte at the first place where they differ |
| Text.UuidStringReads | internal/crypto/context.go:56-64 | The text of an identifier is 36 characters, hyphens at four places and hexadecimal digits elsewhere, and reads back as its number |
| Envelope.NewLocalKeyringProvider | internal/crypto/localkeyring.go:43-66 | Succeeds exactly on non-empty 32-byte keys with a known active version, and then holds exactly those keys under their identifiers |
| Envelope.LocalKeyIdIsInjective | internal/crypto/localkeyring.go:43-66 | Versions never share a key identifier |
| Envelope.DecryptAfterEncrypt | internal/crypto/envelope.go:98-192 | Under any later keyring, whichever key is active there, decryption returns the plaintext exactly when the presented context is the one sealed under |
| Envelope.DecryptsExactlyWhen | internal/crypto/envelope.go:149-192 | An envelope opens to a plaintext exactly when scheme, algorithm and sizes are these, its key is held and wraps the data key in this context, and its ciphertext was sealed over that plaintext under that data key in this context |
| Envelope.OpensInOnePlace | internal/crypto/envelope.go:149-192 | An envelope opens in at most one context, whoever wrote it |
| Envelope.KeyringHistoryIsInvisible | internal/crypto/localkeyring.go:130-166 | Adding keys and moving the active key, any number of times, never changes what an existing envelope opens to |
| SecretStore.SecretRepo.CreateSecret | internal/store/secrets.go:86-101 | Inserts the secret, or reports a conflict where a live secret of the environment has the key |
| SecretStore.SecretRepo.CreateVersion | internal/store/secrets.go:203-247 | Supersedes the active version and inserts the next number with its material |
| SecretStore.SecretRepo.ActivateVersion | internal/store/secrets.go:305-323 | Moves the active version to the named one, unless it is foreign, unknown or revoked |
| SecretStore.SecretRepo.RevokeVersion | internal/store/secrets.go:283-297 | Marks one unrevoked version of the secret revoked, and stamps it |
| SecretStore.SecretRepo.SetVersionExpiry | internal/store/secrets.go:326-340 | Sets or clears the expiry of one version of the secret and nothing else |
| SecretStore.VersionInsertedKeepsHistory | internal/store/secrets.go:203-247 | A new version keeps the history good: at most one active, numbers exactly 1..n, REVOKED exactly where stamped |
| SecretStore.ActivatedKeepsHistory | internal/store/secrets.go:305-323 | So does a rollback |
| SecretStore.WithdrawnKeepsHistory | internal/store/secrets.go:283-297 | So does a revocation |
| SecretService.Service.CreateMany | internal/secrets/service.go:351-393 | Authorizes every item first, and then creates all of them or none |
| SecretService.Service.CommitRotation | internal/secrets/service.go:507-553 | The transaction of a rotation: the new version, or nothing at all, in particular when the database assigned another number than the sealed one |
| SecretService.Service.RollBackTo | internal/store/common.go:55-77 | A rollback and its audit record happen together or not at all |
| SecretHistories.MayCreateExactlyWhen | internal/secrets/service.go:360-377 | In the columns: the caller is an owner or admin, or holds a grant of CREATE_SECRET that names no secret and no other place, and the presented scope allows it there |
| SecretHistories.CreatesExactlyWhen | internal/secrets/service.go:401-447 | A secret is created exactly when its identifiers are new, no live secret of the environment has its key, its place is complete, the active key is held, and the audit record is written |
| SecretRuns.FreshSecretHasNoVersions | internal/secrets/service.go:401-425 | A secret that has just been inserted has no versions, so its first is number 1, as its ciphertext assumes |
| SecretRuns.RotationStores | internal/secrets/service.go:473-553 | What a committing rotation stores is bound to the place it was read from and to the number the database assigned |
| SecretRuns.StepKeeps | internal/store/secrets.go:203-340 | Each step of any request keeps the invariant, and takes back no row, number, revocation or material |
| SecretRuns.RunKeeps | internal/secrets/service.go:401-558 | Over every interleaving: each version's material is bound to exactly its own organization, project, environment, secret and number and opens to the plaintext it was committed with; at most one version is active, numbers are 1..n, revocation is absorbing |
| SecretHistories.CreationWritesItsExpiry | internal/store/secrets.go:203-247 | On any tables, the row a creation inserts is in force with the request's expiry, and no other row's expiry changes |
| SecretHistories.RotationWritesItsExpiry | internal/store/secrets.go:203-247 | The same of a rotation, whose row has the number after the one read |
| SecretHistories.RunIsTold | internal/store/secrets.go:203-340 | On every run and interleaving the tables are what the committed requests say: each version's expiry is the one last given to it by its creation, its rotation or a later change; the version in force is the one last created, rotated in or rolled back to and not revoked since; revocations carry their moment |
| RotationTheorems.CommitsExactlyWhenNewest | internal/secrets/service.go:491-537 | Absent other errors, a rotator commits exactly when the version number it read is the highest at commit |
| RotationTheorems.ReadsExactlyWhen | internal/secrets/service.go:473-490 | A rotator reads a secret exactly when it is there, not deleted and of its organization, and takes along the secret's place and the number of its active version |
| RotationTheorems.OneCommitPerVersionRead | internal/secrets/service.go:473-558 | Among rotators that read the same version of a secret, at most one ever commits |
| RotationTheorems.UncontendedRotation | internal/secrets/service.go:473-558 | Undisturbed, a rotation commits exactly when the active version is the newest one |
| RotationTheorems.RetryingDoesNotHelp | internal/secrets/service.go:520-537 | After a rollback to an older version or a revocation of the active one, no number of retries changes a row |
| RotationTheorems.RevokedNewestIsFinal | internal/store/secrets.go:203-323 | Once the newest version is revoked and no earlier reader is left, no rotation of the secret ever commits, on any later run |
| RotationTheorems.RollBackTakesEffectExactlyWhen | internal/store/secrets.go:299-323 | A rollback makes the named version the one active version exactly when it may be activated and is audited, and otherwise changes nothing |
| Delivery.ResolveForDelivery | internal/store/secrets.go:148-177 | Every live matching secret once, with its active version where there is one |
| Delivery.JudgeCandidate | internal/secrets/service.go:152-208 | Material is loaded only after the policy allowed the key and the version was found deliverable |
| Delivery.Deliver | internal/secrets/service.go:136-222 | The loop sorts each candidate into values, denied or unavailable by its verdict, leaves one audit event per candidate, stops on a policy error, and denies requested keys it did not find |
| DeliveryTheorems.EveryKeyLandsOnce | internal/secrets/service.go:136-222 | Every requested key lands in exactly one of values, denied and unavailable; with no keys named, every live key does |
| DeliveryTheorems.OnlyAuthorizedMaterialIsLoaded | internal/secrets/service.go:152-241 | Each ciphertext read belongs to a candidate that was authorized and deliverable |
| DeliveryTheorems.RefusalsOfAnUnauthorizedCaller | internal/secrets/service.go:106-117 | A caller authorized for nothing who names keys gets exactly those names back; one who names none gets every live key |
| DeliveryTheorems.RefusalsHideExistenceExactlyWhenKeysAreNamed | internal/secrets/service.go:106-117 | For a caller authorized for nothing: any two deliveries, over the stores any two runs lead to, refuse the same keys exactly when the request names at least one key |
| DeliveryTheorems.DeliveryIsALookup | internal/secrets/service.go:136-241 | On every reachable store, a delivery is a lookup in a plain map: for each key exactly the plaintext committed with the version that is active and unexpired now; no decryption fails |
| DeliveryTheorems.DeliveryOnEveryRun | internal/secrets/service.go:136-241 | The same from an empty store, for every run of create, rotate, rollback, revoke, set-expiry, delete and keyring steps |
| DeliveryTheorems.DeliveryTellsTheHistory | internal/secrets/service.go:136-241 | On every run, a delivery hands over for each key exactly the plaintext of the version last put in force and not revoked since, unless the expiry that version was last given has come |
| DeliveryTheorems.ExpiredIsNotDelivered | internal/store/secrets.go:203-247 | A secret whose version in force was last given an expiry that has come is delivered no value on any run |
| DeliveryTheorems.OtherSecretsGrantsDeliverNothing | internal/secrets/service.go:152-172 | Where every grant held names another secret, this secret's value is not delivered and its candidate is refused |
| DeliveryTheorems.VerdictReadsOff | internal/secrets/service.go:152-208 | One candidate's verdict from the decision, the columns of its active version and its ciphertext: refused, undeliverable, undecryptable or delivered, each exactly when |
| DeliveryTheorems.AuditTellsTheOutcome | internal/secrets/service.go:152-208 | The audit event of each candidate is that of its verdict and names its secret, and the version number where it was used |
| DeliveryTheorems.ColumnsTellTheVerdicts | internal/secrets/service.go:152-222 | A key is in a column exactly when its candidate's verdict puts it there, or, among the denied, when it was asked for and not found |
| DeliveryTheorems.WrongPlaceDeliversNothing | internal/secrets/service.go:224-241 | Under a scope that misplaces the environment nothing is delivered |
| DeliveryTheorems.LoadingLaterChangesNothing | internal/secrets/service.go:224-241 | Whatever runs between resolving a version and loading its material, what opens is still that version's plaintext |
| DeliveryTheorems.Reveal | internal/secrets/service.go:253-305 | The request is on record before the decision; a value comes back only behind READ_SECRET and a deliverable version; each failure has its own answer, and an unavailable version leaves no second record |
| DeliveryTheorems.RevealOpensTheActiveVersion | internal/secrets/service.go:253-305 | On a reachable store the decryption of a reveal never fails and yields the active version's plaintext |
| DeliveryTheorems.RevealNeedsReadSecret | internal/secrets/service.go:268-287 | A reveal is allowed only under a grant of READ_SECRET that lasts and names no other project, environment or secret |
| Limiter.InMemory.Allow | internal/ratelimit/limiter.go:122-144 | The answer and the new table are those of the refilled level: admitted with one token less, or refused with the truncated wait |
| Limiter.InMemory.Sweep | internal/ratelimit/limiter.go:177-192 | Exactly the idle, fully refilled buckets go, and are counted |
| Limiter.RefillComposes | internal/ratelimit/limiter.go:155-161 | Refilling to t and then to u is refilling to u |
| Limiter.SweepKeepsLevels | internal/ratelimit/limiter.go:163-192 | A sweep changes no key's allowance, now or later |
| Limiter.CallTakesAtMostOne | internal/ratelimit/limiter.go:122-144 | A call takes a token from its own key if admitted, and changes nothing otherwise |
| LimiterTheorems.LevelIsTheTightestWindow | internal/ratelimit/limiter.go:122-192 | The lazily refilled, capped and swept level is the tightest of all windows over the key's admissions |
| LimiterTheorems.AdmittedExactlyWhenEveryWindowAllows | internal/ratelimit/limiter.go:122-161 | A call is admitted exactly when that keeps every window of its key within the burst plus what the window restored |
| LimiterTheorems.WindowBound | internal/ratelimit/limiter.go:23-32 | Calls admitted for a key from one admission to another number at most burst + rate * T / period, in any interleaving of calls and sweeps |
| LimiterTheorems.AnyWindowBound | internal/ratelimit/limiter.go:23-32 | The same bound for any stretch of time, wherever it starts and ends |
| LimiterTheorems.SweepingIsInvisible | internal/ratelimit/limiter.go:163-192 | A limiter swept at arbitrary points gives every answer and wait one never swept gives |
| LimiterTheorems.KeysAreIndependentAndRefusalsAreFree | internal/ratelimit/limiter.go:122-144 | A key is answered as if its own admitted calls were all there had ever been |
| LimiterTheorems.RetrySucceedsExactlyAfterTheWait | internal/ratelimit/limiter.go:141-143 | After a refusal, with no other admission of the key, a retry is admitted exactly when the exact wait has passed, whatever was refused in between |
| LimiterTheorems.EarlyRetriesAreRefused | internal/ratelimit/limiter.go:141-143 | Every retry earlier than the exact wait is refused |
| LimiterTheorems.RetryAfterSuffices | internal/httpapi/middleware.go:234-240 | A call as many seconds later as the header says is admitted, despite both truncations |
| LimiterTheorems.MessageSuffices | internal/httpapi/errors.go:235-251 | Waiting as long as the message says is enough, except that "a minute" is enough exactly when the exact wait is at most sixty seconds |
| LimiterTheorems.MessageIsTight | internal/httpapi/errors.go:235-251 | The message asks for at most a second more than the exact wait below two minutes, and at most a minute more above; which wording is used is fixed by the exact wait |
| LimiterTheorems.AMinuteCanBeTooShort | internal/httpapi/errors.go:241-242 | A concrete run in which the message says "a minute" and a call sixty seconds later is refused |
| LimiterTheorems.ExactlyTheBurstGetsIn | internal/ratelimit/limiter.go:122-144 | From a fresh start, of any number of calls at one instant exactly the burst is admitted |
| Machines.Repo.RevokeToken | internal/store/machines.go:230-247 | Revokes the token and stamps every session whose direct source it is, together or not at all |
| Machines.Repo.DisableIdentity | internal/store/machines.go:79-100 | Disables the identity and stamps every session minted directly from one of its tokens |
| Machines.Repo.PurgeExpiredRuntimeSessions | internal/store/machines.go:326-334 | Deletes exactly the sessions expired for longer than the margin |
| Machines.Repo.RevokeMembership | internal/store/accounts.go:344-385 | Ends the membership, the user's grants in that organization and all the user's logins, together or not at all |
| MachineTheorems.RunKeeps | internal/httpapi/runtime.go:57-159 | Over every interleaving: stamps are never lifted, rows keep who and where they are for, and every session and in-flight exchange carries what its root fixes |
| MachineTheorems.PrincipalIsFixedByRoot | internal/identity/machinetoken.go:49-171 | What a credential authenticates as, and the ceiling it exchanges for, are those its root fixes |
| Lifetimes.TokenAuthenticatesExactlyWhen | internal/identity/machinetoken.go:49-100 | In the columns: a token authenticates exactly while its own and its identity's stamps and expiries are absent or ahead, and then as its identity, under its own scope |
| Lifetimes.LoginAuthenticatesExactlyWhen | internal/identity/usersession.go:64-139 | A login authenticates exactly while it is of an accepted kind, lasts, its user is not disabled and, in an organization, the user's membership there lasts, with that membership's role |
| Lifetimes.TokenLastsExactlyUntil | internal/identity/machinetoken.go:60-88 | On every later run a token authenticates exactly until the expiry it or its identity was made with, its revocation, or its identity's disabling |
| Lifetimes.ExpiredTokenStaysDead | internal/store/machines.go:125-135 | Once a token's or its identity's expiry has come, on every later run it does not authenticate and no exchange begins from it |
| Lifetimes.SessionLastsExactlyUntil | internal/store/machines.go:323-334 | On every later run a runtime session authenticates until the expiry it was minted with unless it is stamped; a purge takes it only after that |
| Lifetimes.LoginLastsExactlyUntil | internal/identity/usersession.go:64-139 | On every later run a login authenticates exactly until its expiry or sign-out, for a user not disabled, and while a membership of that user in its organization is neither ended nor lapsed |
| Lifetimes.LapsedLoginStaysDead | internal/identity/usersession.go:64-139 | Once a login's expiry has come, its user is disabled or the membership behind it has lapsed, on every later run it does not authenticate and no exchange begins from it |
| Lifetimes.GrantIsReadExactlyUntil | internal/store/grants.go:17-33 | On every later run a grant is read for exactly the subject and organization it was made for, until its revocation or the expiry it was made with |
| Lifetimes.ExchangeBeginsExactlyWhen | internal/httpapi/runtime.go:57-112 | An exchange begins exactly when the credential authenticates and the place asked for is in its organization: its own where it has a scope, a named one where it has none |
| Lifetimes.ExchangeInserts | internal/httpapi/runtime.go:96-130 | It inserts one session and nothing else: the caller's subject and organization, the caller's scope or USE_SECRET in the named environment, the presented credential as its source, and the configured lifetime |
| Lifetimes.TokenIsStampedExactlyBy | internal/store/machines.go:230-247 | Over all steps, a token is stamped exactly by its own revocation in its own organization, and nothing else in its row changes |
| Lifetimes.SessionIsStampedExactlyBy | internal/store/machines.go:79-100 | Over all steps, a runtime session is stamped exactly when its direct source is revoked or disabled, and removed exactly by a purge whose margin its expiry has passed |
| Lifetimes.LoginIsStampedExactlyBy | internal/store/accounts.go:344-385 | Over all steps, a login is stamped exactly by its own sign-out, a sign-out of all its user's, or the user's removal from any organization |
| Lifetimes.GrantIsStampedExactlyBy | internal/store/accounts.go:344-385 | Over all steps, a grant is stamped exactly by its own revocation, or its user's removal from its organization |
| Revocation.RevokedTokenStaysDead | internal/store/machines.go:224-247 | On every later run the token never authenticates, and a session minted directly from it does only if its exchange was already past authentication |
| Revocation.RevokedTokenStaysDeadWhenRequestsAreAtomic | internal/store/machines.go:224-247 | With one request as one step there is no exception |
| Revocation.DisabledIdentityStaysDead | internal/store/machines.go:70-100 | The same for every token of a disabled identity, later ones included, and their direct sessions |
| Revocation.RevocationReachesExactlyTheDirectSessions | internal/store/machines.go:242-244 | A session stops at a revocation exactly when its direct source is the token |
| Revocation.NeverAgainExactlyWhenNoneLeft | internal/identity/machinetoken.go:127-171 | Once a token or an identity is cut off, no credential rooted in it authenticates on any later run exactly when no live session of that root and no exchange of it in flight is left |
| Revocation.RevocationReachesTheWholeChainExactlyWhen | internal/store/machines.go:224-247 | On every later run nothing rooted in a revoked token authenticates again exactly when, at the revocation, no live session of that root had been minted from another session and no exchange of the chain was in flight |
| Revocation.DisablingReachesTheWholeChainExactlyWhen | internal/store/machines.go:70-100 | The same for all tokens of an identity that is disabled |
| Revocation.SessionOfASessionSurvives | internal/httpapi/runtime.go:113-113 | Whatever the world, a session minted from the token's session still authenticates right after the revocation |
| Revocation.PurgeIsInvisibleExactlyWhen | internal/store/machines.go:323-334 | A purge changes no authentication answer, now or later, on any table, exactly when its margin is at least -1 ns |
| Revocation.PurgingIsInvisible | internal/store/machines.go:323-334 | Over whole runs, leaving every purge out changes no authentication answer |
| Revocation.RemovedMemberHoldsNothing | internal/store/accounts.go:325-385 | After a removal, until a later grant: no grants are ever read for the user there, no login of theirs there authenticates, and no login they held does anywhere |
| Revocation.RemovedMemberMayUseNothing | internal/authz/engine.go:140-170 | No request of that user in that organization is allowed USE_SECRET or READ_SECRET, by any credential and under any ceiling |
| Revocation.RemovalLeavesRuntimeSessions | internal/store/accounts.go:344-385 | The removal itself leaves every runtime session's authentication as it was |
| ExchangeTheorems.ExchangeNeverWidens | internal/httpapi/runtime.go:96-116 | At any depth, a session rooted in a token has exactly the token's ceiling and subject; one rooted in a CLI login has USE_SECRET alone in one environment of its own organization |
| ExchangeTheorems.RootsNeverChange | internal/httpapi/runtime.go:96-116 | On every later run a session keeps the root it was minted with |
| ExchangeTheorems.TokenChainHasTheTokensAuthority | internal/httpapi/runtime.go:161-217 | A session at any depth is allowed exactly what the token is: what the identity's grants allow, inside the token's scope |
| ExchangeTheorems.LoginChainMayOnlyUse | internal/httpapi/runtime.go:200-217 | Anything such a session is allowed is USE_SECRET in its one environment, by a grant of the user's own |
| ExchangeTheorems.OneExchangeNarrows | internal/httpapi/runtime.go:181-217 | The minted ceiling is the presented one, or lies below the unlimited one; named places must agree |
| ExchangeTheorems.RemovedMemberIsDeliveredNothing | internal/secrets/service.go:152-172 | A delivery whose grants were read after the removal hands over no value and reads no ciphertext |
| SignIn.AccountRepo.SaveChallenge | internal/store/passkeys.go:106-123 | Undisturbed, the saved challenge is the only one of its user and purpose, and no other is touched |
| SignIn.AccountRepo.ConsumeChallenge | internal/store/passkeys.go:129-141 | Deletes and returns in one statement: what is returned is gone |
| SignIn.AccountRepo.TouchPasskey | internal/store/passkeys.go:81-87 | Raises the counter of that credential, and lowers none |
| SignIn.AccountRepo.ConsumeRecoveryCode | internal/store/recovery.go:39-55 | Spends the unused row of that code, and nothing is left to spend |
| SignIn.AccountRepo.ReplaceRecoveryCodes | internal/store/recovery.go:14-31 | The old set goes, used or not, and exactly the new one is unused |
| SignIn.AccountRepo.DeleteAllPasskeys | internal/store/passkeys.go:234-243 | Removes and counts every passkey of the account, and its pending sign-ins |
| SignInTheorems.SessionProvenanceSince | internal/httpapi/handlers_auth.go:132-157 | Over all interleavings and from any point on, every session made since comes from sign-up; a password accepted where no factor was then asked for; a password, a held pending token and one challenge answered or one code spent; an open challenge answered under the lockout guard; or re-issue of a live session of the same user and kind; each check passed since, or already passed at that point by the request in flight that made the session, or behind a pending token that was out |
| SignInTheorems.SessionProvenance | internal/httpapi/handlers_auth.go:132-157 | From a service without sessions or requests, every session there ever is has such an origin, with every check passed on the way |
| SignInTheorems.NothingAheadIsClaimed | internal/httpapi/handlers_passkeys.go:272-386 | What counts as already passed by a request in flight is of that request, its own user and the sign-in whose pending token it holds, and never a check it has still to pass |
| SignInTheorems.WhatOutlivesAReset | internal/httpapi/handlers_recovery.go:241-280 | On any run after a new password is set, a live session of that user was made since, and each check behind it was passed after the reset, except what a request in flight had passed by then or a pending token that was out had been issued for |
| SignInPasswords.PasswordsAfterAReset | internal/httpapi/handlers_recovery.go:241-280 | On every run after a reset in which nobody asks for another, an accepted password is the one just set, or one held by another reset or by a login with a due hash, in flight at the reset |
| SignInPasswords.NewPasswordStaysExactlyWhen | internal/httpapi/handlers_auth.go:111-126 | On all those runs the new password stays stored exactly when no such request in flight at the reset holds a different password for that account |
| SignInTheorems.StepGrounds | internal/httpapi/handlers_passkeys.go:272-386 | Each statement of each handler moves a request on only by a check that held when the statement ran |
| SignInTheorems.OpenAssertionPassed | internal/httpapi/handlers_passwordless.go:142-154 | A valid sign-in that names no account goes straight on exactly when the account has a second passkey, and otherwise to the count of unused codes |
| SignInFrames.RunKeeps | internal/store/passkeys.go:77-141 | Over any run of any requests: nothing consumed, spent or deleted comes back, histories only grow, counters only advance, and sessions keep their owners and their stamps |
| SignInConservation.NothingIsTakenTwice | internal/store/passkeys.go:125-141 | A consumed challenge is never there for another request; a code spent or replaced is never spendable again |
| SignInConservation.SessionsNeverOutnumberWhatWasTaken | internal/httpapi/handlers_passkeys.go:272-386 | Sessions obtained by passkey never outnumber consumed challenges, and those by code never outnumber spent codes |
| SignInConservation.CountersNeverDecrease | internal/store/passkeys.go:77-87 | Over any run, the stored counter of a passkey row never decreases |
| SignInConservation.SaveLeavesItsOwnExactlyWhen | internal/store/passkeys.go:106-123 | Whatever runs between its two statements, a save leaves exactly its own challenge outstanding if and only if every challenge other saves of that user and purpose inserted in between has been consumed or cleared |
| SignInConservation.InterleavedSavesLeaveTwo | internal/store/passkeys.go:106-123 | From any state, two saves whose statements interleave leave both of their challenges outstanding |
| SignInRows.PasswordIsEnoughExactlyWhen | internal/httpapi/handlers_auth.go:128-155 | A request past its password check goes on to a session on the password alone exactly when no passkey row has that user or passkeys are off; otherwise a factor is asked for |
| SignInFlows.PasswordAloneSignsInExactlyWhen | internal/httpapi/handlers_auth.go:88-157 | Run undisturbed, a sign-in by password makes a session exactly when the password is the account's, the account is not disabled and there is no passkey to ask for; all it leaves besides is a hash no longer due |
| SignInFlows.FactorIsAskedForExactlyWhen | internal/httpapi/handlers_auth.go:128-155 | It leaves a pending token of that account instead, and nothing else, exactly when there is a passkey and passkeys are on |
| SignInFlows.SecondPasskeySignsInExactlyWhen | internal/httpapi/handlers_passkeys.go:272-336 | An answer by passkey makes a session of the pending token's account exactly when the token and a challenge of that account last, passkeys are on, and the assertion is by a passkey of that account whose counter has moved on; token and challenges go, and the counter is stored |
| SignInFlows.RecoveryCodeSignsInExactlyWhen | internal/httpapi/handlers_passkeys.go:344-386 | An answer by code makes one exactly when the token lasts and one unused code of that account matches; code and token are then gone |
| SignInFlows.PasskeyAloneSignsInExactlyWhen | internal/httpapi/handlers_passwordless.go:74-169 | A passkey alone signs its own account in exactly when the challenge lasts, passkeys are on, the counter has moved on, and the account has a second passkey or an unused recovery code |
| SignInFlows.SessionIsReissuedExactlyWhen | internal/httpapi/handlers_organizations.go:186-232 | A session is exchanged for another of the same account and kind exactly while it lasts, and is then revoked if the revocation goes through |
| SignInFlows.CodeResetsExactlyWhen | internal/httpapi/handlers_recovery.go:163-280 | A code resets its account's password, and ends all its sessions, exactly when it is the one unused code that matches; the passkeys stay |
| SignInFlows.LinkResets | internal/httpapi/handlers_admin_recovery.go:180-207 | A redeemed link sets the password, ends all sessions, and takes exactly the account's passkeys and pending sign-ins |
| SignInFlows.PasskeyIsAddedExactlyWhen | internal/httpapi/handlers_passkeys.go:108-180 | A passkey is added to the account exactly when a registration challenge of it lasts, passkeys are on and no passkey has that credential |
| Invitations.Invitation.Status | internal/store/invitations.go:35-51 | Reports pending exactly when the invitation can be redeemed |
| Invitations.AccountRepo.AcceptInvitation | internal/httpapi/handlers_invitations.go:424-468 | Account, acceptance, membership and audit together or not at all, with organization, role, expiry and address from the row |
| Invitations.AccountRepo.RevokeInvitation | internal/store/invitations.go:106-121 | Withdraws one open invitation of the organization |
| Invitations.AcceptanceCommitsExactlyWhen | internal/httpapi/handlers_invitations.go:424-468 | Commits exactly when the invitation is open at that moment, the account can be had, it is no member yet, and the audit succeeds |
| Invitations.RunConserves | internal/store/invitations.go:151-171 | Over every interleaving: no invitation is accepted once revoked or expired; accepted invitations in bijection with the memberships they created, with their organization, role and address; one open invitation per address |
| Invitations.LoserNeverCommits | internal/store/invitations.go:151-171 | Once accepted or withdrawn, no racing acceptance ever commits, however early it opened the invitation |
| Invitations.AcceptanceWrites | internal/httpapi/handlers_invitations.go:424-468 | A committed acceptance writes the stamp, the membership on the invitation's own terms and, where nobody claimed it, the account under the invitation's address, and nothing else |
| Invitations.OpensExactlyWhen | internal/httpapi/handlers_invitations.go:234-283 | A request is let through exactly on an open, unexpired invitation, from an account of its address, or from nobody where there is none; case plays no part |
| Invitations.ExpiredIsNeverAccepted | internal/store/invitations.go:151-171 | Once an invitation has expired, on every later run nobody is let through with it and no transaction for it commits |
| Invitations.RemovedMemberIsNeverReadmitted | internal/store/accounts.go:107-122 | After a removal, on every later run the revoked row is the user's one membership there, and no acceptance that would admit that account commits |
| RecoveryLinks.AccountRepo.CreateAccountRecovery | internal/store/recoveries.go:33-50 | Supersedes the open link, so that the new one is the only open one |
| RecoveryLinks.AccountRepo.MarkAccountRecoveryUsed | internal/store/recoveries.go:73-85 | Spends the link exactly when it is unused, unrevoked and unexpired |
| RecoveryLinks.RunKeeps | internal/store/recoveries.go:29-85 | Over every interleaving: at most one open link per account, each used at most once, by one request that used no other, and never after being superseded or expiring |
| RecoveryLinks.LetThroughExactlyWhen | internal/httpapi/handlers_admin_recovery.go:144-170 | On any tables a link is let through exactly when it is unused, unrevoked and unexpired and its issuer has a membership row, in whatever state, in its organization |
| RecoveryLinks.RedeemsExactlyWhenPending | internal/httpapi/handlers_admin_recovery.go:178-199 | A request let through spends the link exactly when it is still pending |
| RecoveryLinks.ClosedStaysClosed | internal/store/recoveries.go:29-85 | A used or superseded link is never accepted again, however early a request was let through with it |
| RecoveryLinks.ExpiredStaysClosed | internal/store/recoveries.go:73-85 | Once a link has expired, on every later run it is not let through and nobody spends it |
| RecoveryLinks.RefusedOnceIssuerLeftExactlyWhen | internal/httpapi/handlers_admin_recovery.go:159-170 | On every run a link is let through exactly when it is pending; so the link of an issuer who has left is refused exactly when it is not pending, and the promise is kept exactly for those links and for the links of issuers who are still active members |
| RecoveryLinks.StandingIgnoresRevocation | internal/httpapi/handlers_admin_recovery.go:163-170 | Revoking the issuer's membership does not change whether the link is let through |
| RecoveryLinks.DepartedIssuerIsHonoured | internal/httpapi/handlers_admin_recovery.go:163-170 | A run from nothing in which an owner issues a link and is removed, and the link is let through and spent |
| Migrations.Database.Migrate | internal/store/migrate.go:70-133 | The loop records and reports exactly what the ordered walk does, whatever order the listing came in |
| Migrations.FailureLeavesAPrefix | internal/store/migrate.go:90-131 | However a run ends, the recorded set is the old one plus a prefix of the pending files in order; all of them if it ended well |
| Migrations.AppliedInOrder | internal/store/migrate.go:90-131 | Of two pending files whose names first differ at some place, the one with the smaller byte there is applied and reported first, and is recorded whenever the other is |
| Migrations.ErrorsAreExplained | internal/store/migrate.go:90-131 | The error of a run names a file for which that is what went wrong |
| Migrations.ResumingReachesTheSameState | internal/store/migrate.go:19-25 | Any series of runs followed by a success reaches the state one clean run reaches |
| Migrations.SuccessLeavesNothingToDo | internal/store/migrate.go:98-105 | A run after a success applies and records nothing |
| Migrations.WalkSucceedsExactlyWhen | internal/store/migrate.go:90-131 | A run succeeds exactly when no recorded file was edited, all can be read, and nothing goes wrong with a pending one |
| Migrations.EditedFileStopsTheRun | internal/store/migrate.go:98-104 | An edited recorded file stops the run before any later file is recorded |
| Encodings.DecodeInvertsEncode | internal/credential/token.go:58-66 | Unpadded base32 and base64 decode back to the bytes, for any bytes |
| Encodings.EncodeReadsOff | internal/credential/token.go:58-66 | Each symbol is the one whose place in the alphabet the next bits of the bytes spell, most significant first and zero past the end, as section 3 and 6 of RFC 4648 have it |
| Credentials.ParseReadsTheForm | internal/credential/token.go:133-152 | Parsing accepts exactly a known prefix with ten and fifty-two separator-free characters, and reads off its fields |
| Credentials.ParseInvertsMint | internal/credential/token.go:97-152 | Any minted credential parses back to its kind and public id |
| Credentials.MintedText | internal/credential/token.go:97-122 | A minted credential is its kind's prefix, ten symbols of six random bytes and fifty-two of thirty-two, joined by underscores |
| Credentials.MintIsInjective | internal/credential/token.go:97-160 | A credential verifies against a stored verifier exactly when kind and random bytes agree |
| Credentials.Choose | internal/identity/provider.go:79-87 | The search answers with a provider that handles the credential, or finds that none does |
| Credentials.ChainOrderIsIrrelevant | internal/identity/provider.go:65-87 | Which provider answers does not depend on their order |
| Credentials.MintedIsHandledByItsKind | internal/identity/provider.go:65-87 | A minted credential is handled by the provider of its kind and no other |
| RecoveryCodes.NewRecoveryCode | internal/credential/recovery.go:49-65 | The display form is the symbols of the random bytes in groups of five |
| RecoveryCodes.NormalizeRecoveryCode | internal/credential/recovery.go:71-79 | Keeps exactly the alphabet's symbols, in upper case |
| RecoveryCodes.NormalizingUndoesRetyping | internal/credential/recovery.go:67-79 | A string normalizes to a code exactly when it is the code's symbols in order, in either case, with anything else in between |
| RecoveryCodes.DisplayedCodeNormalizes | internal/credential/recovery.go:49-79 | A displayed code normalizes to its symbols; normalizing is idempotent |
| RecoveryCodes.DisplayedByPosition | internal/credential/recovery.go:49-65 | Place by place: every sixth character of a displayed code is a hyphen, the others are the alphabet's symbols for the random bytes in order |
| RecoveryCodes.SymbolsAreEquallyLikely | internal/credential/recovery.go:60-62 | Each symbol comes from exactly eight of the 256 byte values |
| PasswordHashes.DecodeInvertsEncoded | internal/credential/password.go:43-116 | Decoding a PHC string returns the parameters, salt and key it was written from |
| PasswordHashes.DecodesExactlyWhen | internal/credential/password.go:86-116 | A text decodes exactly when it has six fields, the algorithm and version are these, the parameters are positive and in range, and salt and a non-empty key are base64 |
| PasswordHashes.StoredHashText | internal/credential/password.go:43-56 | A fresh hash reads $argon2id$v=19$m=65536,t=3,p=2$ and then its salt and key |
| PasswordHashes.OlderHashVerifies | internal/credential/password.go:59-78 | Against a hash of any parameters an attempt verifies exactly when it derives the same key under them; it is due for an upgrade exactly when its memory or time is below today's |
| PasswordHashes.StoredHashVerifies | internal/credential/password.go:43-78 | An attempt verifies exactly when it derives the same key; a hash just made needs no upgrade |
| PasswordHashes.ChangingAPasswordAlwaysFails | internal/httpapi/handlers_recovery.go:96-147 | For every user and all passwords, a change of password changes nothing: an acceptable request for a known user ends in an internal error, whether or not the current password is right |

## Left out

- HTTP routing, JSON, headers, cookies, timeouts, logging and the dashboard: plumbing around the steps.
- Isolation below whole statements and transactions, deadlocks and lost connections, except a lost commit in `Migrations`.
- `Deliver` and `Reveal` as several transactions: their methods read one state of the tables; `LoadingLaterChangesNothing` and `RemovedMemberIsDeliveredNothing` say what interleaving does to them.
- Permission and size checks inside the runs of `SecretRuns`: its steps allow more than the handlers do, so the theorems cover every run the handlers allow.
- Sessions and tokens demanded before a challenge is saved, a passkey registered or removed, or codes replaced: the steps of `SignIn` allow more than the handlers do, so the theorems cover every run the handlers allow.
- Handlers as methods of their own: sign-in, the exchange and the recovery handlers are sequences of steps on values, because what is proved of them is about their interleavings; what they write is written by the repository methods above.
- The order of `ResolveForDelivery`'s rows, and `last_used_at` columns: nothing proved here depends on them.
- Wiping of keys and plaintext, constant-time comparison, equalized timing, failures of the random source.
- `ParseKeyring` and the environment variable it reads: parsing that only fills the map `NewLocalKeyringProvider` is given.
- Authenticating a login reads session, membership and user in three statements; `Machines` makes it one step.
- Projects and environments do not move or disappear in `Machines` and `SecretRuns`; the source has no statement that moves one.
- Which organization a session names, and audit events outside deliveries and reveals.
- The WebAuthn library: an assertion is a choice of passkey and counter, a registration one of identifier and counter; signature checks are not modelled.
- Erasing a whole organization, which an operator does in SQL outside the service.
- PasswordHashes.ScanNumber: does not skip the leading blanks or take the sign the scanner would, so it refuses some malformed hashes that the source reads.
- Credentials.Mint: the random source never fails here.
- Limiter.InMemory.Allow: does not model floating-point rounding or durations past 292 years.
- Cloud key services and future identity providers: stubs that always fail.
