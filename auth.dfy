/**
 * The credential and session manager (internal/service/auth.go): account
 * registration gated by the admin token, the login and password rules, and
 * the session state machine over each user's stored (token, expiry) and the
 * shared cache's `auth_<login>` and `token_<token>` entries.
 *
 * JWT signing and parsing and the bcrypt comparison are opaque functions
 * held in the service's configuration; the bcrypt hash and the generated
 * user ID are supplied to Register as parameters.
 */
module Auth {
  import opened Wrappers
  import opened Model
  import opened Store
  import opened Namespaces
  import Cache

  /** Session lifetime (auth.go:64): the token's exp claim, the stored expiry and the auth_ entry's TTL. */
  const TokenLifetime: int := 24 * Hour
  const Issuer: string := "docs-server"

  /** What a session token carries. */
  datatype Claims = Claims(userId: string, login: string, issuedAt: int, expiresAt: int, issuer: string)

  /**
   * HS256 signing and verification under the service's secret. `parse(t, now)`
   * is None when the signature, the algorithm or the exp claim (checked
   * against `now`) is rejected.
   */
  datatype Jwt = Jwt(sign: Claims -> Option<string>, parse: (string, int) -> Option<Claims>)

  /**
   * A JWT NumericDate: an instant truncated to whole seconds, as the library
   * stores the exp and iat claims.
   */
  function NumericDate(t: int): (r: int)
    ensures r <= t < r + Second
    ensures r % Second == 0
  {
    t - t % Second
  }

  /** The claims a signed token carries: its instants at second precision. */
  function Signed(c: Claims): (r: Claims)
    ensures r.userId == c.userId && r.login == c.login && r.issuer == c.issuer
    ensures r.expiresAt == NumericDate(c.expiresAt) && r.issuedAt == NumericDate(c.issuedAt)
    ensures r.expiresAt <= c.expiresAt < r.expiresAt + Second
    ensures r.issuedAt <= c.issuedAt < r.issuedAt + Second
  {
    c.(issuedAt := NumericDate(c.issuedAt), expiresAt := NumericDate(c.expiresAt))
  }

  /**
   * What a correct HS256 implementation with the library's exp validation
   * guarantees: the empty string is not a token, a token's claims do not
   * depend on when it is read, a token is refused from the instant its
   * (whole-second) exp claim is reached, and a signed token parses back to
   * its claims, truncated to seconds, strictly before that instant. Lemmas
   * that need these facts take them as a hypothesis.
   */
  ghost predicate SoundJwt(jwt: Jwt) {
    && (forall t, now :: jwt.parse(t, now).Some? ==> t != "")
    && (forall t, n1, n2 :: jwt.parse(t, n1).Some? && jwt.parse(t, n2).Some? ==> jwt.parse(t, n1) == jwt.parse(t, n2))
    && (forall t, now :: jwt.parse(t, now).Some? ==> now < jwt.parse(t, now).value.expiresAt)
    && (forall c, now :: jwt.sign(c).Some? && now < NumericDate(c.expiresAt) ==> jwt.parse(jwt.sign(c).value, now) == Some(Signed(c)))
  }

  /** The service's fixed configuration; `passwordMatches(hash, password)` is bcrypt.CompareHashAndPassword succeeding. */
  datatype AuthConfig = AuthConfig(adminToken: string, jwt: Jwt, passwordMatches: (string, string) -> bool)

  /** Everything the session operations read or write: the shared cache and the users table. */
  datatype AuthState = AuthState(cache: Entries, rows: seq<User>, available: bool)

  // ---------------------------------------------------------------------
  // Login and password rules
  // ---------------------------------------------------------------------

  /** Bytes in the UTF-8 encoding of `c`: Go's len counts bytes, not characters. */
  function Utf8Width(c: char): nat {
    if c as int < 0x80 then 1 else if c as int < 0x800 then 2 else if c as int < 0x10000 then 3 else 4
  }

  function Utf8Length(s: string): (n: nat)
    ensures |s| <= n <= 4 * |s|
  {
    if s == [] then 0 else Utf8Width(s[0]) + Utf8Length(s[1..])
  }

  predicate IsAsciiAlnum(c: char) {
    'a' <= c <= 'z' || 'A' <= c <= 'Z' || '0' <= c <= '9'
  }

  /** The regular expression ^[a-zA-Z0-9]+$. */
  predicate MatchesAlnum(s: string) {
    |s| > 0 && forall i :: 0 <= i < |s| ==> IsAsciiAlnum(s[i])
  }

  /** validateLogin: at least 8 bytes long, then only latin letters and digits, checked in that order. */
  function ValidateLogin(login: string): (r: Outcome<Error>)
    ensures r.Pass? <==> Utf8Length(login) >= 8 && forall i :: 0 <= i < |login| ==> IsAsciiAlnum(login[i])
    ensures r == Fail(LoginTooShort) <==> Utf8Length(login) < 8
    ensures r.Fail? ==> r.error in {LoginTooShort, LoginNotAlphanumeric}
  {
    if Utf8Length(login) < 8 then Fail(LoginTooShort)
    else if !MatchesAlnum(login) then Fail(LoginNotAlphanumeric)
    else Pass
  }

  /** For ASCII text the byte length is the character count. */
  lemma {:induction false} AsciiUtf8Length(s: string)
    requires forall i :: 0 <= i < |s| ==> s[i] as int < 0x80
    ensures Utf8Length(s) == |s|
  {
    if s != [] {
      AsciiUtf8Length(s[1..]);
    }
  }

  /** An accepted login has at least eight characters, all of them latin letters or digits. */
  lemma AcceptedLoginHasEightCharacters(login: string)
    requires ValidateLogin(login).Pass?
    ensures |login| >= 8
  {
    AsciiUtf8Length(login);
  }

  /**
   * The character classes of validatePassword's switch, in its order (ASCII
   * classification). Unclassified stands for the switch's fall-through, a
   * letter that is neither upper- nor lower-case; Go's unicode classes have
   * such letters, the ASCII ranges here do not, so Classify never yields it.
   */
  datatype CharClass = Upper | Lower | Digit | Special | Unclassified

  predicate IsUpper(c: char) { 'A' <= c <= 'Z' }
  predicate IsLower(c: char) { 'a' <= c <= 'z' }
  predicate IsDigit(c: char) { '0' <= c <= '9' }
  predicate IsLetter(c: char) { IsUpper(c) || IsLower(c) }

  /** The first case of the switch that a character matches. */
  function Classify(c: char): CharClass {
    if IsUpper(c) then Upper
    else if IsLower(c) then Lower
    else if IsDigit(c) then Digit
    else if !IsLetter(c) && !IsDigit(c) then Special
    else Unclassified
  }

  predicate Has(password: string, k: CharClass) {
    exists i :: 0 <= i < |password| && Classify(password[i]) == k
  }

  /** validatePassword's verdict: length, then both cases, then a digit, then a special character. */
  function PasswordVerdict(password: string): Outcome<Error> {
    if Utf8Length(password) < 8 then Fail(PasswordTooShort)
    else if !Has(password, Upper) || !Has(password, Lower) then Fail(PasswordNeedsBothCases)
    else if !Has(password, Digit) then Fail(PasswordNeedsDigit)
    else if !Has(password, Special) then Fail(PasswordNeedsSpecial)
    else Pass
  }

  /** validatePassword: one pass over the characters, setting four flags. */
  method ValidatePassword(password: string) returns (r: Outcome<Error>)
    ensures r == PasswordVerdict(password)
    ensures r.Pass? <==> Utf8Length(password) >= 8 && Has(password, Upper) && Has(password, Lower)
                          && Has(password, Digit) && Has(password, Special)
  {
    if Utf8Length(password) < 8 {
      return Fail(PasswordTooShort);
    }
    var hasUpper, hasLower, hasDigit, hasSpecial := false, false, false, false;
    for i := 0 to |password|
      invariant hasUpper <==> exists j :: 0 <= j < i && Classify(password[j]) == Upper
      invariant hasLower <==> exists j :: 0 <= j < i && Classify(password[j]) == Lower
      invariant hasDigit <==> exists j :: 0 <= j < i && Classify(password[j]) == Digit
      invariant hasSpecial <==> exists j :: 0 <= j < i && Classify(password[j]) == Special
    {
      var c := password[i];
      if IsUpper(c) {
        hasUpper := true;
      } else if IsLower(c) {
        hasLower := true;
      } else if IsDigit(c) {
        hasDigit := true;
      } else if !IsLetter(c) && !IsDigit(c) {
        hasSpecial := true;
      }
    }
    if !hasUpper || !hasLower {
      return Fail(PasswordNeedsBothCases);
    }
    if !hasDigit {
      return Fail(PasswordNeedsDigit);
    }
    if !hasSpecial {
      return Fail(PasswordNeedsSpecial);
    }
    return Pass;
  }

  /** An ASCII password of at least eight characters is judged by the classes of its characters alone. */
  lemma AsciiPasswordVerdict(password: string, upper: nat, lower: nat, digit: nat, special: nat)
    requires |password| >= 8 && forall i :: 0 <= i < |password| ==> password[i] as int < 0x80
    requires upper < |password| && Classify(password[upper]) == Upper
    requires lower < |password| && Classify(password[lower]) == Lower
    requires digit < |password| && Classify(password[digit]) == Digit
    requires special < |password| && Classify(password[special]) == Special
    ensures PasswordVerdict(password) == Pass
  {
    AsciiUtf8Length(password);
  }

  /** The login of the test suites, "testuser", is accepted. */
  lemma TestLoginAccepted()
    ensures ValidateLogin("testuser").Pass?
  {
    var l := "testuser";
    AsciiUtf8Length(l);
    assert MatchesAlnum(l);
  }

  /** The password of the test suites, "Secur3P@ss", is accepted. */
  lemma TestPasswordAccepted()
    ensures PasswordVerdict("Secur3P@ss") == Pass
  {
    var p := "Secur3P@ss";
    assert forall i :: 0 <= i < |p| ==> p[i] as int < 0x80;
    AsciiPasswordVerdict(p, 0, 1, 5, 7);
  }

  /**
   * A password shorter than eight bytes is refused for its length whatever
   * it contains; it then has fewer than eight characters.
   */
  lemma ShortPasswordRefused(password: string)
    requires Utf8Length(password) < 8
    ensures PasswordVerdict(password) == Fail(PasswordTooShort)
    ensures |password| < 8
  {
  }

  /**
   * A long enough password in which no character is an upper-case letter, or
   * none is a lower-case letter, is refused for the cases, before the digit
   * and special checks, whatever else it contains.
   */
  lemma PasswordNeedsCasesFirst(password: string)
    requires Utf8Length(password) >= 8
    requires (forall i :: 0 <= i < |password| ==> !IsUpper(password[i])) ||
             (forall i :: 0 <= i < |password| ==> !IsLower(password[i]))
    ensures PasswordVerdict(password) == Fail(PasswordNeedsBothCases)
  {
    if forall i :: 0 <= i < |password| ==> !IsUpper(password[i]) {
      assert !Has(password, Upper);
    } else {
      assert !Has(password, Lower);
    }
  }

  /**
   * A long enough password with both cases but no digit character is refused
   * for the digit, before the special character is checked.
   */
  lemma PasswordNeedsDigitFirst(password: string)
    requires Utf8Length(password) >= 8
    requires Has(password, Upper) && Has(password, Lower)
    requires forall i :: 0 <= i < |password| ==> !IsDigit(password[i])
    ensures PasswordVerdict(password) == Fail(PasswordNeedsDigit)
  {
    assert !Has(password, Digit);
  }

  // ---------------------------------------------------------------------
  // The session operations as functions of the state they read
  // ---------------------------------------------------------------------

  /** Authenticate (auth.go:98-136). */
  function AuthenticateSpec(config: AuthConfig, s: AuthState, login: string, password: string, now: int)
    : (Result<string, Error>, AuthState)
  {
    var hit := Cache.Lookup(s.cache, AuthKey(login), now);
    if hit.Some? && hit.value.TokenValue? then (Ok(hit.value.token), s)
    else if !s.available then (Err(StoreFailure), s)
    else match UserByLogin(s.rows, login)
      case None => (Err(InvalidCredentials), s)
      case Some(u) =>
        if !config.passwordMatches(u.password, password) then (Err(InvalidCredentials), s)
        else
          var expiry := now + TokenLifetime;
          match config.jwt.sign(Claims(u.id, u.login, now, expiry, Issuer))
          case None => (Err(SigningFailure), s)
          case Some(t) =>
            (Ok(t), AuthState(s.cache[AuthKey(login) := Cache.Item(TokenValue(t), expiry)],
                              WithToken(s.rows, u.id, t, expiry), s.available))
  }

  /** ValidateToken (auth.go:137-174). The cached user expires exactly when the stored session does. */
  function ValidateTokenSpec(config: AuthConfig, s: AuthState, token: string, now: int)
    : (Result<User, Error>, AuthState)
  {
    var hit := Cache.Lookup(s.cache, TokenKey(token), now);
    if hit.Some? && hit.value.UserValue? then (Ok(hit.value.user), s)
    else match config.jwt.parse(token, now)
      case None => (Err(InvalidToken), s)
      case Some(c) =>
        if !s.available then (Err(StoreFailure), s)
        else match UserById(s.rows, c.userId)
          case None => (Err(UserNotFound), s)
          case Some(u) =>
            if u.token != token then (Err(TokenMismatch), s)
            else if now > u.tokenExpiry then (Err(TokenExpired), s)
            else (Ok(u), s.(cache := s.cache[TokenKey(token) := Cache.Item(UserValue(u), u.tokenExpiry)]))
  }

  /** Logout (auth.go:175-189): the cache entries are evicted before the store is written. */
  function LogoutSpec(config: AuthConfig, s: AuthState, token: string, now: int): (Outcome<Error>, AuthState) {
    match config.jwt.parse(token, now)
    case None => (Fail(InvalidToken), s)
    case Some(c) =>
      var evicted := s.cache - {AuthKey(c.login)} - {TokenKey(token)};
      if !s.available then (Fail(StoreFailure), s.(cache := evicted))
      else (Pass, AuthState(evicted, WithToken(s.rows, c.userId, "", ZeroTime), s.available))
  }

  // ---------------------------------------------------------------------
  // The service object
  // ---------------------------------------------------------------------

  class AuthService {
    const config: AuthConfig
    const users: UserStore
    const cache: Cache.MemoryCache<CacheValue>

    constructor (config: AuthConfig, users: UserStore, cache: Cache.MemoryCache<CacheValue>)
      ensures this.config == config && this.users == users && this.cache == cache
    {
      this.config := config;
      this.users := users;
      this.cache := cache;
    }

    function State(): AuthState
      reads users, cache
    {
      AuthState(cache.items, users.rows, users.available)
    }

    /**
     * Register (auth.go:69-96). `hashed` is bcrypt's result and `newId` the
     * generated UUIDv7, None when those calls fail. The new row has no session.
     */
    method Register(adminToken: string, login: string, password: string, hashed: Option<string>, newId: Option<string>)
      returns (r: Outcome<Error>)
      modifies users
      ensures adminToken != config.adminToken ==> r == Fail(InvalidAdminToken)
      ensures adminToken == config.adminToken && ValidateLogin(login).Fail? ==> r == ValidateLogin(login)
      ensures adminToken == config.adminToken && ValidateLogin(login).Pass? && PasswordVerdict(password).Fail?
              ==> r == PasswordVerdict(password)
      ensures r.Pass? <==> adminToken == config.adminToken && ValidateLogin(login).Pass? && PasswordVerdict(password).Pass?
                           && hashed.Some? && newId.Some? && old(users.available)
      ensures r.Pass? ==> users.rows == old(users.rows) + [User(newId.value, login, hashed.value, "", ZeroTime)]
      ensures r.Fail? ==> users.rows == old(users.rows)
      ensures users.available == old(users.available)
    {
      if adminToken != config.adminToken {
        return Fail(InvalidAdminToken);
      }
      r := ValidateLogin(login);
      if r.Fail? {
        return;
      }
      r := ValidatePassword(password);
      if r.Fail? {
        return;
      }
      if hashed.None? {
        return Fail(HashFailure);
      }
      if newId.None? {
        return Fail(IdFailure);
      }
      if !users.available {
        return Fail(StoreFailure);
      }
      users.rows := users.rows + [User(newId.value, login, hashed.value, "", ZeroTime)];
      return Pass;
    }

    /** Authenticate (auth.go:98-136). */
    method Authenticate(login: string, password: string, now: int) returns (r: Result<string, Error>)
      modifies users, cache
      ensures (r, State()) == AuthenticateSpec(config, old(State()), login, password, now)
    {
      var key := AuthKey(login);
      var cached := cache.Get(key, now);
      if cached.Some? && cached.value.TokenValue? {
        return Ok(cached.value.token);
      }
      if !users.available {
        return Err(StoreFailure);
      }
      var found := UserByLogin(users.rows, login);
      if found.None? {
        return Err(InvalidCredentials);
      }
      var u := found.value;
      if !config.passwordMatches(u.password, password) {
        return Err(InvalidCredentials);
      }
      var expiry := now + TokenLifetime;
      var signed := config.jwt.sign(Claims(u.id, u.login, now, expiry, Issuer));
      if signed.None? {
        return Err(SigningFailure);
      }
      users.rows := WithToken(users.rows, u.id, signed.value, expiry);
      cache.Set(key, TokenValue(signed.value), TokenLifetime, now);
      return Ok(signed.value);
    }

    /** ValidateToken (auth.go:137-174). */
    method ValidateToken(token: string, now: int) returns (r: Result<User, Error>)
      modifies cache
      ensures (r, State()) == ValidateTokenSpec(config, old(State()), token, now)
    {
      var key := TokenKey(token);
      var cached := cache.Get(key, now);
      if cached.Some? && cached.value.UserValue? {
        return Ok(cached.value.user);
      }
      var claims := config.jwt.parse(token, now);
      if claims.None? {
        return Err(InvalidToken);
      }
      if !users.available {
        return Err(StoreFailure);
      }
      var found := UserById(users.rows, claims.value.userId);
      if found.None? {
        return Err(UserNotFound);
      }
      var u := found.value;
      if u.token != token {
        return Err(TokenMismatch);
      }
      if now > u.tokenExpiry {
        return Err(TokenExpired);
      }
      cache.Set(key, UserValue(u), u.tokenExpiry - now, now);
      return Ok(u);
    }

    /** Logout (auth.go:175-189). */
    method Logout(token: string, now: int) returns (r: Outcome<Error>)
      modifies users, cache
      ensures (r, State()) == LogoutSpec(config, old(State()), token, now)
    {
      var claims := config.jwt.parse(token, now);
      if claims.None? {
        return Fail(InvalidToken);
      }
      cache.Delete(AuthKey(claims.value.login));
      cache.Delete(TokenKey(token));
      if !users.available {
        return Fail(StoreFailure);
      }
      users.rows := WithToken(users.rows, claims.value.userId, "", ZeroTime);
      return Pass;
    }
  }
}

/** Properties of the session state machine, stated over the Auth operations' specifications. */
module Sessions {
  import opened Wrappers
  import opened Model
  import opened Store
  import opened Namespaces
  import opened Auth
  import Cache

  /** Whether Authenticate is answered from the `auth_<login>` entry. */
  predicate AuthHit(s: AuthState, login: string, now: int) {
    var hit := Cache.Lookup(s.cache, AuthKey(login), now);
    hit.Some? && hit.value.TokenValue?
  }

  /** A row that a table contains is found by a query on its id. */
  lemma RowFoundById(rows: seq<User>, u: User)
    requires u in rows
    ensures UserById(rows, u.id).Some?
  {
    var i :| 0 <= i < |rows| && rows[i] == u;
    assert HasId(u.id)(rows[i]);
  }

  /**
   * A live `auth_<login>` token is returned as it is: the password is not
   * checked, the store is not read and nothing changes.
   */
  lemma CachedLoginSkipsPasswordCheck(config: AuthConfig, s: AuthState, login: string, password: string, now: int)
    requires AuthHit(s, login, now)
    ensures AuthenticateSpec(config, s, login, password, now) == (Ok(Cache.Lookup(s.cache, AuthKey(login), now).value.token), s)
  {
  }

  /**
   * On a cache miss an unknown login and a wrong password give the same
   * error and change nothing; an unreachable store gives a distinct error.
   */
  lemma FailedLoginsIndistinguishable(config: AuthConfig, s: AuthState, login: string, password: string, now: int)
    requires !AuthHit(s, login, now)
    ensures !s.available ==> AuthenticateSpec(config, s, login, password, now) == (Err(StoreFailure), s)
    ensures s.available && (UserByLogin(s.rows, login).None? ||
                            !config.passwordMatches(UserByLogin(s.rows, login).value.password, password))
            ==> AuthenticateSpec(config, s, login, password, now) == (Err(InvalidCredentials), s)
  {
  }

  /**
   * A successful Authenticate on a cache miss stores the new token with
   * expiry now + 24h on the user's record and keeps `auth_<login>` live
   * for the whole session.
   */
  lemma AuthenticateRecordsSession(config: AuthConfig, s: AuthState, login: string, password: string, now: int, later: int)
    requires !AuthHit(s, login, now)
    requires AuthenticateSpec(config, s, login, password, now).0.Ok?
    requires now <= later <= now + TokenLifetime
    ensures UserByLogin(s.rows, login).Some?
    ensures var (r, s') := AuthenticateSpec(config, s, login, password, now);
            var u := UserByLogin(s.rows, login).value;
            && config.passwordMatches(u.password, password)
            && UserById(s.rows, u.id).Some?
            && UserById(s'.rows, u.id) == Some(UserById(s.rows, u.id).value.(token := r.value, tokenExpiry := now + TokenLifetime))
            && Cache.Lookup(s'.cache, AuthKey(login), later) == Some(TokenValue(r.value))
  {
    var u := UserByLogin(s.rows, login).value;
    var t := AuthenticateSpec(config, s, login, password, now).0.value;
    RowFoundById(s.rows, u);
    UserByIdAfterToken(s.rows, u.id, t, now + TokenLifetime);
  }

  /**
   * A token just issued on a cache miss validates at any instant before its
   * exp claim, the session's end truncated to whole seconds, and resolves to
   * the user who logged in.
   */
  lemma IssuedTokenValidates(config: AuthConfig, s: AuthState, login: string, password: string, now: int, later: int)
    requires SoundJwt(config.jwt)
    requires !AuthHit(s, login, now)
    requires AuthenticateSpec(config, s, login, password, now).0.Ok?
    requires TokenKey(AuthenticateSpec(config, s, login, password, now).0.value) !in s.cache
    requires now <= later < NumericDate(now + TokenLifetime)
    ensures UserByLogin(s.rows, login).Some?
    ensures var (r, s') := AuthenticateSpec(config, s, login, password, now);
            var v := ValidateTokenSpec(config, s', r.value, later).0;
            v.Ok? && v.value.id == UserByLogin(s.rows, login).value.id && v.value.token == r.value
  {
    var (r, s') := AuthenticateSpec(config, s, login, password, now);
    var t := r.value;
    var u := UserByLogin(s.rows, login).value;
    var claims := Claims(u.id, u.login, now, now + TokenLifetime, Issuer);
    AuthenticateRecordsSession(config, s, login, password, now, later);
    KeysDistinct(login, t, "", "");
    assert Cache.Lookup(s'.cache, TokenKey(t), later) == None;
    assert config.jwt.sign(claims) == Some(t);
    assert config.jwt.parse(t, later) == Some(Signed(claims));
  }

  /**
   * From the instant its exp claim is reached, a token issued on a cache
   * miss is refused as invalid unless `token_<t>` still holds a user, even
   * though the stored session may run up to a second longer.
   */
  lemma IssuedTokenExpires(config: AuthConfig, s: AuthState, login: string, password: string, now: int, later: int)
    requires SoundJwt(config.jwt)
    requires !AuthHit(s, login, now)
    requires AuthenticateSpec(config, s, login, password, now).0.Ok?
    requires TokenKey(AuthenticateSpec(config, s, login, password, now).0.value) !in s.cache
    requires now <= later && later >= NumericDate(now + TokenLifetime)
    ensures var (r, s') := AuthenticateSpec(config, s, login, password, now);
            ValidateTokenSpec(config, s', r.value, later) == (Err(InvalidToken), s')
  {
    var (r, s') := AuthenticateSpec(config, s, login, password, now);
    var t := r.value;
    var claims := IssuedSession(config, s, login, password, now);
    KeysDistinct(login, t, "", "");
    assert Cache.Lookup(s'.cache, TokenKey(t), later) == None;
    ExpiredTokenRefused(config.jwt, claims, t, now, later);
  }

  /** A signed token that parsed once is refused from its exp claim on. */
  lemma ExpiredTokenRefused(jwt: Jwt, c: Claims, t: string, now: int, later: int)
    requires SoundJwt(jwt)
    requires jwt.sign(c) == Some(t) && now < NumericDate(c.expiresAt) <= later
    ensures jwt.parse(t, later) == None
  {
    assert jwt.parse(t, now) == Some(Signed(c));
  }

  /** A successful Authenticate on a cache miss signs the user's claims and records `auth_<login>`. */
  lemma IssuedSession(config: AuthConfig, s: AuthState, login: string, password: string, now: int) returns (claims: Claims)
    requires !AuthHit(s, login, now)
    requires AuthenticateSpec(config, s, login, password, now).0.Ok?
    ensures UserByLogin(s.rows, login).Some?
    ensures var u := UserByLogin(s.rows, login).value;
            claims == Claims(u.id, u.login, now, now + TokenLifetime, Issuer)
    ensures var (r, s') := AuthenticateSpec(config, s, login, password, now);
            && config.jwt.sign(claims) == Some(r.value)
            && s'.cache == s.cache[AuthKey(login) := Cache.Item(TokenValue(r.value), now + TokenLifetime)]
  {
    var u := UserByLogin(s.rows, login).value;
    claims := Claims(u.id, u.login, now, now + TokenLifetime, Issuer);
  }

  /**
   * While the `auth_<login>` entry lives, a second Authenticate returns the
   * token already issued, whatever password it is given, and changes
   * nothing: the earlier token is not superseded.
   */
  lemma RepeatAuthenticateReturnsSameToken(config: AuthConfig, s: AuthState, login: string, password: string,
                                           otherPassword: string, now: int, later: int)
    requires !AuthHit(s, login, now)
    requires AuthenticateSpec(config, s, login, password, now).0.Ok?
    requires now <= later <= now + TokenLifetime
    ensures var (r, s') := AuthenticateSpec(config, s, login, password, now);
            AuthenticateSpec(config, s', login, otherPassword, later) == (r, s')
  {
    AuthenticateRecordsSession(config, s, login, password, now, later);
  }

  /**
   * Once a later Authenticate has issued a new token, an older token of the
   * same user that is not cached is refused as a mismatch.
   */
  lemma SupersededTokenRejected(config: AuthConfig, s: AuthState, login: string, password: string,
                                earlier: string, now: int, later: int)
    requires !AuthHit(s, login, now)
    requires AuthenticateSpec(config, s, login, password, now).0.Ok?
    requires earlier != AuthenticateSpec(config, s, login, password, now).0.value
    requires now <= later <= now + TokenLifetime
    requires Cache.Lookup(s.cache, TokenKey(earlier), later) == None
    requires UserByLogin(s.rows, login).Some?
    requires config.jwt.parse(earlier, later).Some? && config.jwt.parse(earlier, later).value.userId == UserByLogin(s.rows, login).value.id
    ensures var s' := AuthenticateSpec(config, s, login, password, now).1;
            ValidateTokenSpec(config, s', earlier, later).0 == Err(TokenMismatch)
  {
    var s' := AuthenticateSpec(config, s, login, password, now).1;
    AuthenticateRecordsSession(config, s, login, password, now, later);
    KeysDistinct(login, earlier, "", "");
    assert Cache.Lookup(s'.cache, TokenKey(earlier), later) == None;
  }

  /**
   * On a cache miss for a parsable token of a stored user, ValidateToken
   * succeeds exactly when the stored token is this one and has not expired;
   * it then caches the user until the stored expiry, and otherwise changes
   * nothing.
   */
  lemma ValidateTokenOnMiss(config: AuthConfig, s: AuthState, token: string, now: int)
    requires Cache.Lookup(s.cache, TokenKey(token), now) == None
    requires s.available && config.jwt.parse(token, now).Some?
    requires UserById(s.rows, config.jwt.parse(token, now).value.userId).Some?
    ensures var u := UserById(s.rows, config.jwt.parse(token, now).value.userId).value;
            var (r, s') := ValidateTokenSpec(config, s, token, now);
            && (r.Ok? <==> u.token == token && now <= u.tokenExpiry)
            && (r.Ok? ==> r.value == u && s' == s.(cache := s.cache[TokenKey(token) := Cache.Item(UserValue(u), u.tokenExpiry)]))
            && (u.token != token ==> r == Err(TokenMismatch))
            && (r.Err? ==> s' == s)
  {
  }

  /**
   * After a successful Logout(t): `auth_<login>` and `token_<t>` are gone,
   * the stored session is ("", zero time), and ValidateToken(t) fails at
   * every later instant, with "token mismatch" whenever t still parses.
   */
  lemma LogoutEndsSession(config: AuthConfig, s: AuthState, token: string, now: int, later: int)
    requires SoundJwt(config.jwt)
    requires LogoutSpec(config, s, token, now).0 == Pass
    ensures config.jwt.parse(token, now).Some?
    ensures var s' := LogoutSpec(config, s, token, now).1;
            var c := config.jwt.parse(token, now).value;
            && AuthKey(c.login) !in s'.cache && TokenKey(token) !in s'.cache
            && (UserById(s.rows, c.userId).Some? ==>
                  UserById(s'.rows, c.userId) == Some(UserById(s.rows, c.userId).value.(token := "", tokenExpiry := ZeroTime)))
            && ValidateTokenSpec(config, s', token, later).0.Err?
            && (config.jwt.parse(token, later).Some? && UserById(s.rows, c.userId).Some? ==>
                  ValidateTokenSpec(config, s', token, later).0 == Err(TokenMismatch))
  {
    var s' := LogoutSpec(config, s, token, now).1;
    var c := config.jwt.parse(token, now).value;
    UserByIdAfterToken(s.rows, c.userId, "", ZeroTime);
    assert Cache.Lookup(s'.cache, TokenKey(token), later) == None;
    if config.jwt.parse(token, later).Some? {
      assert config.jwt.parse(token, later) == Some(c);
      assert token != "";
    }
  }

  /**
   * After a successful Logout the empty token finds a user again: the
   * logged-out row now stores "" as its token, and GetUserByToken's
   * `token = ?` query matches it, so a caller presenting "" to the document
   * service is taken for a user whose session was ended.
   */
  lemma LoggedOutUserFoundByEmptyToken(config: AuthConfig, s: AuthState, token: string, now: int)
    requires LogoutSpec(config, s, token, now).0 == Pass
    requires UserById(s.rows, config.jwt.parse(token, now).value.userId).Some?
    ensures UserByToken(LogoutSpec(config, s, token, now).1.rows, "").Some?
  {
    var rows' := LogoutSpec(config, s, token, now).1.rows;
    var id := config.jwt.parse(token, now).value.userId;
    UserByIdAfterToken(s.rows, id, "", ZeroTime);
    var u := UserById(rows', id).value;
    assert u.token == "";
    var i :| 0 <= i < |rows'| && rows'[i] == u;
    assert rows'[i].token == "";
  }

  /**
   * Logout evicts only the entries of the token it is given: a user cached
   * under another token is still returned by ValidateToken afterwards, even
   * though the store no longer records a session for the logged-out user.
   */
  lemma LogoutKeepsOtherCachedSessions(config: AuthConfig, s: AuthState, token: string, other: string, u: User, now: int)
    requires LogoutSpec(config, s, token, now).0 == Pass
    requires other != token
    requires Cache.Lookup(s.cache, TokenKey(other), now) == Some(UserValue(u))
    ensures var s' := LogoutSpec(config, s, token, now).1;
            var c := config.jwt.parse(token, now).value;
            && ValidateTokenSpec(config, s', other, now) == (Ok(u), s')
            && (UserById(s.rows, c.userId).Some? ==>
                  UserById(s'.rows, c.userId) == Some(UserById(s.rows, c.userId).value.(token := "", tokenExpiry := ZeroTime)))
  {
    var c := config.jwt.parse(token, now).value;
    KeysDistinct(c.login, other, "", "");
    assert TokenKey(other)[6..] == other && TokenKey(token)[6..] == token;
    UserByIdAfterToken(s.rows, c.userId, "", ZeroTime);
  }

  /** Every session operation keeps the shared cache well typed. */
  lemma SessionOperationsKeepCacheWellTyped(config: AuthConfig, s: AuthState, login: string, password: string, token: string, now: int)
    requires WellTyped(s.cache)
    ensures WellTyped(AuthenticateSpec(config, s, login, password, now).1.cache)
    ensures WellTyped(ValidateTokenSpec(config, s, token, now).1.cache)
    ensures WellTyped(LogoutSpec(config, s, token, now).1.cache)
  {
    var u: User :| true;
    var d: Document :| true;
    KeysFit(login, token, "", "", u, d, [], "");
    forall t: string, v: User
      ensures Fits(AuthKey(login), TokenValue(t)) && Fits(TokenKey(token), UserValue(v))
    {
      KeysFit(login, token, "", "", v, d, [], t);
    }
  }
}
