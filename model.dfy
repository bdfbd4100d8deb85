/**
 * The records shared by the services (internal/model) and the error values
 * the services return. Instants and durations are integer nanoseconds, the
 * unit the cache stores.
 */
module Model {
  import opened Wrappers

  const Second: int := 1_000_000_000
  const Minute: int := 60 * Second
  const Hour: int := 60 * Minute

  /** The zero time.Time (January 1 of year 1, UTC) in Unix nanoseconds: the expiry Logout stores. */
  const ZeroTime: int := -62_135_596_800 * Second

  /** A row of the users table. `token` is "" and `tokenExpiry` is ZeroTime when no session was recorded. */
  datatype User = User(id: string, login: string, password: string, token: string, tokenExpiry: int)

  /** A stored document. `grant` lists the users it is shared with; `jsonData` is the raw JSON payload, if any. */
  datatype Document = Document(
    id: string,
    name: string,
    mime: string,
    file: bool,
    public: bool,
    created: int,
    grant: seq<string>,
    filePath: string,
    jsonData: Option<string>,
    owner: string)

  /** A file received with an upload request. */
  datatype UploadedFile = UploadedFile(filename: string, data: seq<bv8>)

  /**
   * The error values of the services: one per distinct error the Go code
   * returns, and BadCacheEntry for a failed type assertion on a cached
   * value, where the Go code panics.
   */
  datatype Error =
    | InvalidAdminToken
    | LoginTooShort
    | LoginNotAlphanumeric
    | PasswordTooShort
    | PasswordNeedsBothCases
    | PasswordNeedsDigit
    | PasswordNeedsSpecial
    | HashFailure
    | IdFailure
    | SigningFailure
    | InvalidCredentials
    | InvalidToken
    | UserNotFound
    | TokenMismatch
    | TokenExpired
    | StoreFailure
    | Unauthorized
    | Forbidden
    | InvalidMeta
    | GranteeNotFound
    | NameRequired
    | FileFailure
    | DocumentNotFound
    | BadCacheEntry
    | EmptyUserId
    | EmptyLogin
    | NilUser
}
