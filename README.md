# SSO auth core in Dafny

A model of the credential pipeline of a Go single-sign-on service: the auth
service (`internal/service/auth/auth.go`), with its constructor `New`, the
login pipeline `Login` and `RegisterNewUser`, and the claims construction and
signing call of the token helper `NewToken` (`internal/lib/jwt/jwt.go`).

Files, one module each:

- `errors.dfy` (`Errors`): the storage sentinels `ErrUserExists`,
  `ErrUserNotFound`, `ErrAppNotFound` and the service's
  `ErrInvalidCredentials`, opaque collaborator errors, `%w` wrapping with an
  operation tag (`Wrap`), `errors.Is` (`Is`) and `Error()` (`Message`).
- `models.dfy` (`Models`): `User` (id, email, password hash) and `App` (id,
  secret). The Go string fields the code converts with `[]byte(...)` (the
  password, the app secret) are byte sequences; Go strings are byte strings,
  so that conversion is the identity.
- `bcrypt.dfy` (`Bcrypt`): bcrypt as a `Hasher`, two functions the model does
  not look inside. `hash(password, cost, salt)` stands for
  `GenerateFromPassword` and may fail. `matches(hash, password)` holds exactly
  when `CompareHashAndPassword` returns nil. The random salt is an argument.
  `DefaultCost` is 10.
- `storage.dfy` (`Storage`): one in-memory `Store` class stands for the three
  interfaces `UserSaver`, `UserProvider` and `AppProvider`. It holds a user
  table keyed by email, an app table keyed by id, the next id to assign, and a
  `fault`. While `fault` is set, every call fails with that error; this stands
  for store failures other than not-found and duplicate.
- `jwt.dfy` (`Jwt`): the claims map, `Time.Add(d).Unix()` as floor division
  of nanoseconds, and `NewToken` as a method that fills the map with four
  writes and then calls a signer given as an argument.
- `auth.dfy` (`AuthService`): class `Auth` with the collaborators and the
  token lifetime as constant fields. `Login` is a function that reads the
  stores, so it cannot write them. `RegisterNewUser` is a method that modifies
  the saver store. The file also holds the lemmas about both and three client
  methods: register-then-login, register-twice, and a concrete walk-through.

Where the code differs from what it evidently intends (a token returned on a
successful login), the model follows the code:

- `Login` has no `return` on its success path and never uses `app`, so the Go
  file does not compile. The model's success outcome is `Resolved(user, app)`.
  `Login` never calls `NewToken`, so the model issues no token on login.
- `Rejected(e)` stands for the Go return `("", e)`.
- A malformed stored hash and a wrong password both make
  `CompareHashAndPassword` return an error. The code maps both to
  `ErrInvalidCredentials`, and so does the model.
- A store error is wrapped with the operation tag and passed on. It is not
  turned into an "internal" error kind.
- An unknown app is the store's `ErrAppNotFound`, wrapped and passed on.

## Model

| member | source | states |
|---|---|---|
| `Errors.Wrap` | internal/service/auth/auth.go:102 | `fmt.Errorf("%s: %w", op, e)`: `errors.Is` recognises the wrapped error as exactly the kinds of `e`; the message is `op + ": "` + the message of `e`; the innermost error is unchanged |
| `Errors.IsMeansRootIs` | internal/service/auth/auth.go:99 | `errors.Is(e, k)` holds exactly when the innermost error of `e`'s wrap chain is the sentinel `k` |
| `Errors.Root` | internal/service/auth/auth.go:99 | repeated `errors.Unwrap`: the error it reaches is never itself a wrapper |
| `Errors.WrapAllKeepsKind` | internal/service/auth/auth.go:105 | wrapping an error in any number of tagged layers keeps every `errors.Is` answer the same |
| `Errors.SentinelsAreDistinct` | storage/storage.go:5-9 | a sentinel is recognised as itself and no other sentinel; distinct sentinels have distinct texts |
| `Storage.Store.constructor` | internal/service/auth/auth.go:23-38 | a new store has no users, the given apps, next id 1 and no fault, and is valid |
| `Storage.Store.SaveUser` | internal/service/auth/auth.go:23-29 | keeps the store valid; with a fault or a duplicate email it returns 0 and the fault or `ErrUserExists` and changes nothing; otherwise it adds the record under a fresh id and returns that id |
| `Storage.Store.LookupUser` | internal/service/auth/auth.go:31-32 | a found user is the record filed under the email; with no fault, a present email gives `Ok` of that record and an absent email gives `ErrUserNotFound`; a fault is returned as it is |
| `Storage.Store.LookupApp` | internal/service/auth/auth.go:36-38 | a found app is the one filed under the id; with no fault, a present id gives `Ok` of that app and an absent id gives `ErrAppNotFound`; a fault is returned as it is |
| `Storage.Store.LookupsAgreeWithKeys` | internal/service/auth/auth.go:31-38 | in a valid store a found user has the email it was looked up by, and a found app has the id it was looked up by |
| `AuthService.Auth.New` | internal/service/auth/auth.go:51-64 | the saver, both providers and the token lifetime are stored exactly as passed |
| `AuthService.Auth.Login` | internal/service/auth/auth.go:82-119 | resolves exactly when the user is found, the password matches the stored hash, and the app is found; the resolved pair is the stored user and app; every rejection is tagged `auth.Login`; as a function it leaves the stores unchanged |
| `AuthService.LoginUnknownUser` | internal/service/auth/auth.go:97-103 | a user lookup failing with `ErrUserNotFound` gives `"auth.Login"` wrapping `ErrInvalidCredentials`, no longer recognisable as not-found |
| `AuthService.LoginWrappedNotFound` | internal/service/auth/auth.go:97-102 | a store fault that is `ErrUserNotFound` under any number of wrapping layers still gives the invalid-credentials rejection |
| `AuthService.LoginUserLookupFails` | internal/service/auth/auth.go:104-105 | any other user-lookup error comes back wrapped, recognised as exactly the kinds of the store error |
| `AuthService.LoginWrongPassword` | internal/service/auth/auth.go:107-111 | a password that does not match the stored hash gives the same invalid-credentials error |
| `AuthService.LoginEnumerationSafety` | internal/service/auth/auth.go:97-111 | an unknown email and a known email with a wrong password give the identical outcome, with message `auth.Login: invalid credentials` |
| `AuthService.LoginShortCircuits` | internal/service/auth/auth.go:96-113 | when the credentials are not accepted, the outcome is a rejection and does not depend on the app store at all |
| `AuthService.LoginAppLookupFails` | internal/service/auth/auth.go:112-116 | after accepted credentials an app-lookup error comes back wrapped with its kinds kept; a missing app is recognised as `ErrAppNotFound` and never as `ErrInvalidCredentials` |
| `AuthService.Auth.RegisterNewUser` | internal/service/auth/auth.go:131-155 | a hashing failure returns 0 and the wrapped error before the store is called, leaving the store unchanged; a save failure (fault, or `ErrUserExists` on a duplicate) returns 0 and the wrapped store error, leaving the store unchanged; on success it returns the id `SaveUser` assigned, and the stored hash is the hasher's output |
| `AuthService.RegisterThenLogin` | internal/service/auth/auth.go:140-154 | if the hasher accepts its own hash, registering a fresh email and then logging in with the same password resolves the new user (with the next id) and the app |
| `AuthService.RegisterTwice` | internal/service/auth/auth.go:147-152 | a second registration of the same email returns 0 and an error recognised as `ErrUserExists`, and the first record is untouched |
| `AuthService.AliceScenario` | internal/service/auth/auth.go:82-155 | on a fresh store with app 7, alice is registered with id 1 and her login resolves her and app 7; a wrong password and an unregistered email get the identical rejection |
| `Jwt.UnixSeconds` | internal/lib/jwt/jwt.go:16 | `Unix()` of a nanosecond instant is the whole second at or before it |
| `Jwt.ClaimsForIsUnique` | internal/lib/jwt/jwt.go:11-17 | the four-key claims description fixes the map completely |
| `Jwt.ClaimsForExists` | internal/lib/jwt/jwt.go:11-17 | some claims map always meets the four-key description |
| `Jwt.NewToken` | internal/lib/jwt/jwt.go:10-25 | the token signed is an ES256 token whose claims are exactly `uid` = user id, `email` = user email, `exp` = Unix seconds of now + duration, and `app_id` = app id; it is signed with the given app's secret; a signing failure gives `("", err)`, a success gives the signed string and no error |
| `Jwt.ExpiryIsMonotone` | internal/lib/jwt/jwt.go:16 | a longer duration never gives an earlier `exp` |
| `Jwt.ExpiryNotBeforeNow` | internal/lib/jwt/jwt.go:16 | a non-negative duration gives an `exp` no earlier than now's second |
| `Jwt.ExpiryAddsWholeSeconds` | internal/lib/jwt/jwt.go:16 | a duration of whole seconds moves `exp` that many seconds past now's second |

## Left out

- `IsAdmin` (internal/service/auth/auth.go:158-160) is a `panic` stub with no behaviour. `UserProvider.IsAdmin`, which nothing in the core calls, is left out with it.
- Logging (`slog`) and `context.Context` are left out. The model has no cancellation.
- `time.Now()` is an argument of `NewToken`, in nanoseconds since the epoch. Go's `Time` keeps seconds in an int64, and overflow past that range is not modelled.
- Integers are unbounded. The model does not give the int64 user id or the nanosecond arithmetic a 64-bit limit.
- bcrypt's algorithm is not modelled. The salt, the cost check, the 72-byte password limit and the constant-time compare all sit inside the abstract `Hasher`.
- ES256 signing and the compact JWT serialisation (RFC 7519, RFC 7515) are not modelled. They are an uninterpreted signer that may fail. With golang-jwt, ES256 expects an ECDSA private key, and a byte-slice key such as this code passes is rejected. The model does not fix what signing returns.
- The real storage back end is not part of this model, and neither is `internal/domain/models`. The in-memory `Store` and the `User`/`App` fields are inferred from how the core uses them. The store error texts and tags of that back end are not modelled: `SaveUser` returns the bare sentinel.
- Configuration loading, the gRPC server and its `panic` stub handlers, and process start-up are not modelled. None of them is part of the core.
- `AuthService.Auth.tokenTTL` is stored but used nowhere, because the Go `Login` never issues a token.
