# docs-server core, modelled in Dafny

docs-server is an HTTP document store. Users register with an admin token. They log in for a 24-hour JWT session, upload documents (a file or a JSON payload) and read, list and delete them. The session and document services share one in-memory cache with expiring entries.

This project models the core of that server:

- **Cache** (`cache.dfy`): the expiring cache `MemoryCache` with `Set`, `Get` and `Delete`. One pass of the background cleanup is modelled as `Sweep(now)`. Expiry is checked lazily on read.
- **Store** (`store.dfy`): the users and documents tables as sequences of rows. The queries and updates the services issue are functions over these rows. Each table class carries an `available` flag that stands for a database error.
- **Namespaces** (`namespaces.dfy`): the cache key namespaces `auth_<login>`, `token_<token>`, `doc_<id>` and `docs_<userID>`, and the kinds of value stored under each.
- **Auth** (`auth.dfy`): registration and the login and password rules. It also models the session state machine over each user's stored `(token, expiry)` and the `auth_`/`token_` cache entries. `Authenticate`, `ValidateToken` and `Logout` are methods on `AuthService`. Each is proved equal to a specification function, and module `Sessions` states the session properties over those functions.
- **Documents** (`document.dfy`): upload, listing, read and delete, with their access decisions and cache invalidation. These are methods on `DocumentService`, each proved equal to a specification function. Module `DocumentProperties` states their properties.
- **Users** (`user.dfy`): lookups by id and by login, the login-only update, deletion after an existence check, and paged listing.

Things from outside the program are passed in as values:

- The clock is the parameter `now`, in nanoseconds, and durations are nanoseconds too.
- The JWT library is a pair of functions in `AuthConfig`. The bcrypt comparison is also a function there.
- The bcrypt hash, the generated UUIDs, the outcome of file-system writes and removals, and the MIME type looked up by file extension are parameters.
- The properties that rely on JWT signing being sound take `SoundJwt` as a hypothesis.

The model follows the code where it differs from the service's stated intent:

- `GetDocument` serves a cached document without an access check.
- Grants are never consulted.
- A second `Authenticate` within 24 hours returns the first token without checking the password.
- `Logout` leaves other cached tokens of the same user valid.
- An upload whose grant list names a login that no user has is refused. `CreateDocument` looks each grantee up inside its transaction and fails when one is missing, so nothing is stored. The upload tests in `cmd/tests/documents/upload_test.go` grant such logins and expect success.
- A token is refused from the instant its `exp` claim is reached. That claim is the session's end truncated to whole seconds, so it can come up to a second before the stored expiry.

Each of these is proved as a lemma about the code as written.

## Model

| member | source | states |
|---|---|---|
| Cache.MemoryCache.constructor | internal/cache/cache.go:18-24 | a new cache holds no entries |
| Cache.MemoryCache.Set | internal/cache/cache.go:27-34 | the entry under `key` becomes `(value, now + duration)`; every other entry is unchanged |
| Cache.MemoryCache.Get | internal/cache/cache.go:37-50 | returns the stored value exactly when the key is present and its expiration is not positive or not yet passed |
| Cache.MemoryCache.Delete | internal/cache/cache.go:53-57 | removes exactly `key`; a missing key is no error |
| Cache.MemoryCache.Sweep | internal/cache/cache.go:62-70 | the in-place loop removes exactly the entries expired at `now` and leaves the others as they were |
| Cache.Swept | internal/cache/cache.go:65-69 | a key survives a sweep iff it was present and not expired; surviving entries are unchanged |
| Cache.SetThenGet | internal/cache/cache.go:27-50 | after `Set(k, v, d)` at `t0`, `Get(k)` returns `v` at every instant up to `t0 + d` |
| Cache.GetAfterExpiry | internal/cache/cache.go:45-47 | once a positive expiration has passed, `Get` misses |
| Cache.NonPositiveExpirationNeverExpires | internal/cache/cache.go:45-47 | an entry with expiration ≤ 0 is returned at every instant and survives every sweep |
| Cache.SetKeepsOtherKeys | internal/cache/cache.go:29-32 | `Set` on one key does not change what `Get` reports for another |
| Cache.DeleteThenGet | internal/cache/cache.go:53-57 | after `Delete(k)`, `Get(k)` misses and other keys are unaffected |
| Cache.SweepPreservesLookup | internal/cache/cache.go:62-70 | a sweep at `now` never changes what `Get` reports at `now` |
| Namespaces.KeysFit | internal/service/document.go:143-181 | each key builder's key lies in its own namespace only, so `doc_` and `docs_` keys are never confused |
| Namespaces.KeysDistinct | internal/service/auth.go:103-139 | keys built in different namespaces never collide |
| Store.UserByIdAfterToken | internal/repository/user.go:186-195 | after `UpdateUserToken(id, t, e)` the user found by id is the old record with exactly `(t, e)` replaced |
| Store.UserByIdAfterTokenElsewhere | internal/repository/user.go:186-195 | `UpdateUserToken` on one id leaves the lookup of every other id unchanged |
| Store.UserByIdAfterLogin | internal/repository/user.go:91-100 | after `UpdateUser` the user found by id is the old record with only its login replaced |
| Store.UserByIdAfterLoginElsewhere | internal/repository/user.go:91-100 | `UpdateUser` on one id leaves the lookup of every other id unchanged |
| Store.UserByIdAfterDelete | internal/repository/user.go:102-110 | after `DeleteUser(id)` no user has that id |
| Store.DocByIdAfterDelete | internal/repository/document.go:261-264 | after `DeleteDocument(id)` that id is not found and every other document is kept |
| Store.UserById | internal/repository/user.go:36-48 | found iff some row has the id, and the result is such a row |
| Store.UserByLogin | internal/repository/user.go:50-89 | found iff some row has the login, and the result is such a row |
| Store.UserByToken | internal/repository/user.go:144-184 | found iff some row holds the token; the result is that row with an empty token, as the query does not select it |
| Store.WithToken | internal/repository/user.go:186-195 | every row with the id gets exactly the new token and expiry; no other row changes and the table keeps its size |
| Store.WithLogin | internal/repository/user.go:91-100 | every row with the id gets exactly the new login; no other row changes and the table keeps its size |
| Store.WithoutUser | internal/repository/user.go:102-110 | exactly the rows whose id differs remain, each as many times as it was stored; the table shrinks by the number of rows with the id |
| Store.DocById | internal/repository/document.go:103-155 | found iff some document has the id, and the result is such a document |
| Store.WithoutDoc | internal/repository/document.go:261-264 | exactly the documents whose id differs remain, each as many times as it was stored; the table shrinks by the number of documents with the id |
| Store.FilterMultiplicity | internal/repository/document.go:261-264 | a `WHERE` keeps every matching row exactly as often as it occurs and drops every other row |
| Store.MissingGrantee | internal/repository/document.go:83-88 | `None` iff every grantee login belongs to a user; otherwise a grantee with no user |
| Store.FilterLength | internal/repository/document.go:158-192 | a query returns each matching row once: as many rows as match |
| Store.DocsOwnedBy | internal/repository/document.go:157-201 | `min(limit, owned rows)` entries, entry `i` being the owner's `i`-th document in table order reduced to the selected columns; none missing when fewer than `limit` are returned |
| Store.UsersPage | internal/repository/user.go:112-130 | the page has `min(limit, rows past offset)` entries, entry `i` being row `offset + i` reduced to id and login |
| Auth.ValidateLogin | internal/service/auth.go:225-241 | passes iff the login is at least 8 bytes and only latin letters and digits; the length error comes first |
| Auth.AsciiUtf8Length | internal/service/auth.go:227 | for ASCII text the byte length `len` measures equals the character count |
| Auth.AcceptedLoginHasEightCharacters | internal/service/auth.go:225-241 | an accepted login has at least eight characters |
| Auth.ValidatePassword | internal/service/auth.go:243-283 | the flag loop's verdict is the rule verdict, and it passes iff the password is at least 8 bytes and has an upper-case letter, a lower-case letter, a digit and a special character |
| Auth.AsciiPasswordVerdict | internal/service/auth.go:243-283 | an ASCII password of 8+ characters holding one character of each class passes |
| Auth.TestLoginAccepted | cmd/docs-server/docs-server_test.go:311 | the test suite's login `testuser` is accepted |
| Auth.TestPasswordAccepted | cmd/docs-server/docs-server_test.go:312 | the test suite's password `Secur3P@ss` is accepted |
| Auth.ShortPasswordRefused | internal/service/auth.go:245-247 | every password under 8 bytes fails on length whatever it contains, and has fewer than 8 characters |
| Auth.PasswordNeedsCasesFirst | internal/service/auth.go:270-272 | every password of 8+ bytes with no upper-case letter, or no lower-case letter, fails on cases before the digit and special checks |
| Auth.PasswordNeedsDigitFirst | internal/service/auth.go:274-276 | every password of 8+ bytes with both cases and no digit fails on the digit, whether or not it has a special character |
| Auth.NumericDate | internal/service/auth.go:196-197 | the instant truncated to whole seconds: a multiple of a second, at most the instant and less than a second before it |
| Auth.Signed | internal/service/auth.go:192-201 | a signed token's claims keep the user id, login and issuer; its `exp` and `iat` are the given instants truncated to whole seconds, each less than a second earlier |
| Auth.AuthService.constructor | internal/service/auth.go:50-67 | the service keeps its configuration, users table and cache |
| Auth.AuthService.Register | internal/service/auth.go:69-96 | a wrong admin token fails before any validation; then the login and password errors in order; a user row with no session is appended iff every step succeeds, otherwise the table is unchanged |
| Auth.AuthService.Authenticate | internal/service/auth.go:98-136 | result and new cache and table equal `AuthenticateSpec` of the old state |
| Auth.AuthService.ValidateToken | internal/service/auth.go:137-174 | result and new cache equal `ValidateTokenSpec` of the old state; the table is unchanged |
| Auth.AuthService.Logout | internal/service/auth.go:175-189 | result and new cache and table equal `LogoutSpec` of the old state |
| Sessions.CachedLoginSkipsPasswordCheck | internal/service/auth.go:102-108 | a live `auth_<login>` token is returned whatever the password, and nothing changes |
| Sessions.FailedLoginsIndistinguishable | internal/service/auth.go:110-120 | on a miss, an unknown login and a wrong password both give "invalid credentials" and change nothing |
| Sessions.AuthenticateRecordsSession | internal/service/auth.go:122-135 | a successful login stores the new token with expiry now + 24h on the user's record and keeps `auth_<login>` live for 24h |
| Sessions.IssuedTokenValidates | internal/service/auth.go:98-174 | a token just issued validates at every instant before its `exp` claim, now + 24h truncated to seconds, and resolves to the user who logged in |
| Sessions.IssuedTokenExpires | internal/service/auth.go:146-150 | from its `exp` claim on, a token just issued and not cached is refused as invalid and nothing changes |
| Sessions.ExpiredTokenRefused | internal/service/auth.go:196 | a signed token does not parse from the instant its truncated `exp` is reached |
| Sessions.IssuedSession | internal/service/auth.go:122-135 | a successful login on a miss signs the user's claims with expiry now + 24h and records `auth_<login>` with that expiry |
| Sessions.RepeatAuthenticateReturnsSameToken | internal/service/auth.go:102-135 | within 24h a second login returns the same token, with any password, and changes nothing |
| Sessions.SupersededTokenRejected | internal/service/auth.go:162-164 | after a new login, an older uncached token of the same user is refused as a token mismatch |
| Sessions.ValidateTokenOnMiss | internal/service/auth.go:146-173 | on a miss, validation succeeds iff the stored token is this one and not expired; success caches the user until the stored expiry; failures change nothing |
| Sessions.LogoutEndsSession | internal/service/auth.go:175-189 | after logout both cache entries are gone, the stored session is ("", zero time), and the token never validates again |
| Sessions.LoggedOutUserFoundByEmptyToken | internal/repository/user.go:144-151 | after a logout the logged-out row stores `""`, so a lookup by the empty token finds a user |
| Sessions.LogoutKeepsOtherCachedSessions | internal/service/auth.go:184-188 | a user cached under another token is still returned by `ValidateToken` after logout |
| Sessions.SessionOperationsKeepCacheWellTyped | internal/service/auth.go:98-189 | each session operation keeps every cache entry of the kind its namespace promises |
| Documents.ResolveMime | internal/service/document.go:70-98 | never empty: the requested type, else the extension's type or `application/octet-stream` for a file, `application/json` otherwise |
| Documents.DocumentService.constructor | internal/service/document.go:26-38 | the service keeps its tables and cache |
| Documents.DocumentService.UploadDocument | internal/service/document.go:40-130 | result and new state equal `UploadSpec` of the old state |
| Documents.DocumentService.GetDocumentsList | internal/service/document.go:132-166 | result and new cache equal `ListSpec` of the old state |
| Documents.DocumentService.GetDocument | internal/service/document.go:168-199 | result and new cache equal `GetSpec` of the old state |
| Documents.DocumentService.DeleteDocument | internal/service/document.go:201-237 | result and new state equal `DeleteSpec` of the old state |
| Documents.CanRead | internal/service/document.go:191 | a public document is readable by anyone; a private one exactly by those who may delete it |
| DocumentProperties.ReadIgnoresGrant | internal/service/document.go:190-193 | read access is owner-or-public, and changing the grant list never changes it |
| DocumentProperties.DeleteOnlyByOwner | internal/service/document.go:211-218 | delete access is the owner's alone, whatever visibility and grants say |
| DocumentProperties.GrantDoesNotConferRead | internal/service/document.go:190-193 | a private document granted to "bob" is neither readable nor deletable by bob |
| DocumentProperties.MimeDefaults | internal/service/document.go:70-98 | the three MIME defaults of an upload |
| DocumentProperties.UnknownTokenChangesNothing | internal/service/document.go:40-237 | all four operations refuse a token of no user as unauthorized and change nothing |
| DocumentProperties.CachedDocumentSkipsAccessCheck | internal/service/document.go:178-182 | a live `doc_<id>` entry is returned to any authenticated caller without an access check |
| DocumentProperties.GetDocumentOnMiss | internal/service/document.go:184-198 | on a miss: not found, or forbidden iff the caller may not read; a permitted read is cached for 10 minutes |
| DocumentProperties.PrivateDocumentServedFromCache | internal/service/document.go:178-196 | after the owner reads a private document, any other user receives it within 10 minutes |
| DocumentProperties.DeleteOutcome | internal/service/document.go:211-236 | succeeds iff the caller owns the document and any file was removed; success removes the row and evicts `doc_<id>` and `docs_<userID>`; failure changes nothing |
| DocumentProperties.UploadOutcome | internal/service/document.go:99-129 | the stored document is the uploader's, with name, visibility and grants from the metadata, every grantee a user, `file` iff files were sent, and a resolved MIME type; only `docs_<userID>` is evicted |
| DocumentProperties.UploadRefusesUnregisteredGrantee | internal/repository/document.go:83-88 | an upload granting a login that no user has is refused and changes nothing |
| DocumentProperties.UploadNeedsName | internal/service/document.go:63-66 | an upload without a name is refused and changes nothing |
| DocumentProperties.ListCachedRegardlessOfLogin | internal/service/document.go:142-165 | a listing for another login returns and caches an empty list, which every listing request of the caller receives for 5 minutes |
| DocumentProperties.OwnListHoldsOwnDocuments | internal/service/document.go:148-152 | the caller's own listing holds `min(limit, their documents)` entries: their first documents in table order, each once, reduced to the selected columns |
| DocumentProperties.EvictionsKeepCacheWellTyped | internal/service/document.go:126-234 | upload and delete keep every cache entry of its namespace's kind |
| DocumentProperties.GetKeepsCacheWellTyped | internal/service/document.go:178-196 | `GetDocument` keeps every cache entry of its namespace's kind |
| DocumentProperties.ListKeepsCacheWellTyped | internal/service/document.go:142-163 | `GetDocumentsList` keeps every cache entry of its namespace's kind |
| DocumentProperties.WellTypedCacheCastsSucceed | internal/service/document.go:143-181 | in a well-typed cache the type assertions of `GetDocument` and `GetDocumentsList` never fail |
| Users.NormalizePage | internal/service/user.go:98-103 | the limit is positive, kept when positive and 10 otherwise; the offset is kept when non-negative and 0 otherwise |
| Users.UserService.constructor | internal/service/user.go:14-18 | the service keeps its users table |
| Users.UserService.GetUserByID | internal/service/user.go:21-35 | an empty id fails first; success iff a row has that id, and the result is that row |
| Users.UserService.GetUserByLogin | internal/service/user.go:38-52 | an empty login fails first; success iff a row has that login, and the result is that row |
| Users.UserService.UpdateUser | internal/service/user.go:55-76 | result and new rows equal `UpdateSpec` of the old rows |
| Users.UserService.DeleteUser | internal/service/user.go:79-94 | result and new rows equal `DeleteSpec` of the old rows |
| Users.UserService.ListUsers | internal/service/user.go:97-106 | the page the table returns for the normalised limit and offset; at most 10 users when no limit is given |
| UserProperties.NormalizePageIdempotent | internal/service/user.go:98-103 | normalising already-normalised paging values changes nothing |
| UserProperties.PageBounds | internal/service/user.go:97-105 | a page holds at most its limit, exactly the limit when enough rows follow the offset, 10 by default, and only ids and logins |
| UserProperties.PagesAreConsecutive | internal/repository/user.go:112-114 | for every table, size and offset, two consecutive pages of size n make up the page of size 2n, including pages cut short by the end of the table |
| UserProperties.UpdateChangesOnlyLogin | internal/service/user.go:63-75 | a successful update replaces only the stored login, and other ids find what they found before |
| UserProperties.UpdateIgnoresCredentials | internal/service/user.go:72-75 | the argument's password, token and expiry have no effect |
| UserProperties.UpdateOutcome | internal/service/user.go:55-76 | the update succeeds iff the argument is non-nil, has an id and names a stored user; failures change nothing |
| UserProperties.DeleteOutcome | internal/service/user.go:78-93 | the delete succeeds iff the id is non-empty and stored; afterwards the id is gone and every other user is kept |
| UserProperties.EmptyIdRefusedFirst | internal/service/user.go:55-82 | a nil user and an empty id are refused before the table is consulted |
| UserProperties.DeleteTwice | internal/service/user.go:84-93 | a second delete of the same id reports "user not found" and changes nothing |

## Left out

- Concurrency: the cache's `RWMutex` and the cleanup goroutine's ticker are not modelled. Operations are atomic steps, and `Sweep` is one tick of the cleanup.
- Clock: every operation reads the clock once, as `now`. The Go code calls `time.Now` several times within one operation, for example when building the token's claims and the stored expiry.
- JWT: HS256 signing and verification are the opaque functions `sign` and `parse`. The properties that need them to be sound take `SoundJwt` as a hypothesis. It includes the library's second-precision `exp` claim and its refusal of a token once the clock is not before `exp`. The per-process random secret, its generation, and the unused `GenerateToken`, `ParseToken` and `GenerateRandomSecret` helpers are not modelled.
- bcrypt: the hash is a parameter of `Register`, and the comparison is the opaque `passwordMatches`.
- UUID generation: the new id is a parameter, and a failure is `None`.
- The services pass string ids where the repository expects `uuid.UUID`. The model keeps every id as a string.
- File system: directory creation, the file write and the file removal are their outcomes, `savedPath` and `removed`. Only the first uploaded file is written. The files' names and contents matter to the model only through those outcomes and through their count.
- MIME: `mime.TypeByExtension` is its result, `extensionMime`. The `meta` JSON is parsed outside the model into `Meta`, and a parse error is `None`.
- SQL:
  - Tables are sequences searched in row order. `ORDER BY name, created_at` in `GetUserDocuments` and unique constraints are not modelled.
  - Storing the upload's grant logins as user ids in `document_grants` is not modelled. A document keeps the grant list it was uploaded with.
  - `DATETIME` second precision and the parsing of `NULL` columns are not modelled.
  - A negative `LIMIT`, which the database rejects, is a store failure.
  - A database error is the table's `available` flag, fixed for the whole operation, so a write that fails after a successful read within one operation is not modelled.
- Integer widths: instants and durations are unbounded integers, so `int64` nanosecond overflow is not modelled.
- Auth.ValidatePassword: characters are classified with ASCII ranges. Go's `unicode.IsUpper`, `IsLower`, `IsDigit` and `IsLetter` also accept non-ASCII letters and digits, which this model counts as special characters.
- Store.UserByToken: a user who has never logged in stores the token `""` in the model. `CreateUser` does not write the token column (internal/repository/user.go:138-140), so in the database it is presumably NULL, and `WHERE token = ?` never matches NULL. The model therefore finds such a user by the empty token, where the program reports no user. The table schema is not part of this model. After a logout the row does hold `""`, and `LoggedOutUserFoundByEmptyToken` states what follows.
- Store.UserById: for the same reason, `GetUserByID` scanning a NULL token or expiry into plain Go values (internal/repository/user.go:38-40) would fail for a user who never logged in. The model finds the row.
- Auth.ValidateLogin: `len` is modelled as the UTF-8 byte length of the login's characters. Invalid UTF-8 is not modelled.
- Documents.GetSpec: `BadCacheEntry` stands for the panic of the unchecked type assertion on a cached value, in `GetDocument` and `GetDocumentsList` alike. `WellTypedCacheCastsSucceed` shows it cannot happen in a well-typed cache.
- Documents.GetSpec: when the store has no document with the id, the Go code dereferences a nil pointer and panics. The model returns `DocumentNotFound` instead, and so does `DeleteSpec`.
- Documents.DocumentService.GetDocumentsList: the `key` and `value` filter arguments are unused by the service and are not parameters of the model.
- One shared cache: the session and document services are given the same `MemoryCache`, as the four-parameter `NewAuthService` expects. The application wiring calls it with three arguments and no cache, and that call is not modelled.
- `NewAuthService` panics on an empty JWT secret. The secret is not part of this model.
- Documents.UploadSpec: when a grantee has no user, the upload fails with its own error, `GranteeNotFound`. The rolled-back insert and the removal of the saved file are not modelled, since the table is never written.
- The HTTP controllers, middleware, configuration loading and the integration tests are not part of this model.
