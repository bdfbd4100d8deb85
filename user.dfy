/**
 * The user service (internal/service/user.go): lookups by id and by login,
 * the login-only update, deletion after an existence check, and paged
 * listing with default paging values, over the users table.
 */
module Users {
  import opened Wrappers
  import opened Model
  import opened Store

  /** The paging values ListUsers hands to the table. */
  datatype Page = Page(limit: nat, offset: nat)

  /** ListUsers' defaults: a non-positive limit becomes 10, a negative offset 0. */
  function NormalizePage(limit: int, offset: int): (p: Page)
    ensures p.limit > 0
    ensures limit > 0 ==> p.limit == limit
    ensures offset >= 0 ==> p.offset == offset
    ensures limit <= 0 ==> p.limit == 10
    ensures offset < 0 ==> p.offset == 0
  {
    Page(if limit <= 0 then 10 else limit, if offset < 0 then 0 else offset)
  }

  /** UpdateUser (user.go:55-76) over the table's rows; `user` is None for a nil pointer. */
  function UpdateSpec(rows: seq<User>, available: bool, user: Option<User>): (Outcome<Error>, seq<User>) {
    if user.None? then (Fail(NilUser), rows)
    else if user.value.id == "" then (Fail(EmptyUserId), rows)
    else if !available then (Fail(StoreFailure), rows)
    else if UserById(rows, user.value.id).None? then (Fail(UserNotFound), rows)
    else (Pass, WithLogin(rows, user.value.id, user.value.login))
  }

  /** DeleteUser (user.go:79-94) over the table's rows. */
  function DeleteSpec(rows: seq<User>, available: bool, id: string): (Outcome<Error>, seq<User>) {
    if id == "" then (Fail(EmptyUserId), rows)
    else if !available then (Fail(StoreFailure), rows)
    else if UserById(rows, id).None? then (Fail(UserNotFound), rows)
    else (Pass, WithoutUser(rows, id))
  }

  class UserService {
    const users: UserStore

    constructor (users: UserStore)
      ensures this.users == users
    {
      this.users := users;
    }

    /** An empty id is refused before the table is read; a missing row is "user not found". */
    method GetUserByID(id: string) returns (r: Result<User, Error>)
      ensures id == "" ==> r == Err(EmptyUserId)
      ensures id != "" && !users.available ==> r == Err(StoreFailure)
      ensures id != "" && users.available && UserById(users.rows, id).None? ==> r == Err(UserNotFound)
      ensures r.Ok? <==> id != "" && users.available && UserById(users.rows, id).Some?
      ensures r.Ok? ==> r.value.id == id && r.value in users.rows
    {
      if id == "" {
        return Err(EmptyUserId);
      }
      if !users.available {
        return Err(StoreFailure);
      }
      var found := UserById(users.rows, id);
      if found.None? {
        return Err(UserNotFound);
      }
      return Ok(found.value);
    }

    /** An empty login is refused before the table is read; a missing row is "user not found". */
    method GetUserByLogin(login: string) returns (r: Result<User, Error>)
      ensures login == "" ==> r == Err(EmptyLogin)
      ensures login != "" && !users.available ==> r == Err(StoreFailure)
      ensures login != "" && users.available && UserByLogin(users.rows, login).None? ==> r == Err(UserNotFound)
      ensures r.Ok? <==> login != "" && users.available && UserByLogin(users.rows, login).Some?
      ensures r.Ok? ==> r.value.login == login && r.value in users.rows
    {
      if login == "" {
        return Err(EmptyLogin);
      }
      if !users.available {
        return Err(StoreFailure);
      }
      var found := UserByLogin(users.rows, login);
      if found.None? {
        return Err(UserNotFound);
      }
      return Ok(found.value);
    }

    method UpdateUser(user: Option<User>) returns (r: Outcome<Error>)
      modifies users
      ensures (r, users.rows) == UpdateSpec(old(users.rows), old(users.available), user)
      ensures users.available == old(users.available)
    {
      if user.None? {
        return Fail(NilUser);
      }
      if user.value.id == "" {
        return Fail(EmptyUserId);
      }
      if !users.available {
        return Fail(StoreFailure);
      }
      var existing := UserById(users.rows, user.value.id);
      if existing.None? {
        return Fail(UserNotFound);
      }
      users.rows := WithLogin(users.rows, user.value.id, user.value.login);
      return Pass;
    }

    method DeleteUser(id: string) returns (r: Outcome<Error>)
      modifies users
      ensures (r, users.rows) == DeleteSpec(old(users.rows), old(users.available), id)
      ensures users.available == old(users.available)
    {
      if id == "" {
        return Fail(EmptyUserId);
      }
      if !users.available {
        return Fail(StoreFailure);
      }
      var existing := UserById(users.rows, id);
      if existing.None? {
        return Fail(UserNotFound);
      }
      users.rows := WithoutUser(users.rows, id);
      return Pass;
    }

    /** One page of users, each carrying only its id and login, after the paging defaults are applied. */
    method ListUsers(limit: int, offset: int) returns (r: Result<seq<User>, Error>)
      ensures !users.available ==> r == Err(StoreFailure)
      ensures users.available ==> r.Ok? && r.value == UsersPage(users.rows, NormalizePage(limit, offset).limit, NormalizePage(limit, offset).offset)
      ensures r.Ok? && limit <= 0 ==> |r.value| <= 10
    {
      var page := NormalizePage(limit, offset);
      if !users.available {
        return Err(StoreFailure);
      }
      return Ok(UsersPage(users.rows, page.limit, page.offset));
    }
  }
}

/** Properties of the user service, stated over its operations' specifications. */
module UserProperties {
  import opened Wrappers
  import opened Model
  import opened Store
  import opened Users

  /** Applying the paging defaults twice changes nothing: valid values pass through unchanged. */
  lemma NormalizePageIdempotent(limit: int, offset: int)
    ensures var p := NormalizePage(limit, offset);
            NormalizePage(p.limit, p.offset) == p
  {
  }

  /**
   * A page never holds more than its limit, holds exactly the limit when the
   * table has enough rows past the offset, and reveals only ids and logins.
   */
  lemma PageBounds(rows: seq<User>, limit: int, offset: int)
    ensures var p := NormalizePage(limit, offset);
            var page := UsersPage(rows, p.limit, p.offset);
            && |page| <= p.limit
            && (p.offset + p.limit <= |rows| ==> |page| == p.limit)
            && (limit <= 0 && offset <= 0 ==> |page| == (if |rows| < 10 then |rows| else 10))
            && forall i :: 0 <= i < |page| ==> page[i].password == "" && page[i].token == "" && page[i] == Listed(rows[p.offset + i])
  {
  }

  /** Consecutive pages of one size tile the table: page k starts where page k-1 ended. */
  lemma PagesAreConsecutive(rows: seq<User>, limit: nat, offset: nat)
    ensures UsersPage(rows, 2 * limit, offset) == UsersPage(rows, limit, offset) + UsersPage(rows, limit, offset + limit)
  {
    var whole := UsersPage(rows, 2 * limit, offset);
    var first := UsersPage(rows, limit, offset);
    var second := UsersPage(rows, limit, offset + limit);
    assert |whole| == |first| + |second|;
    forall i | 0 <= i < |whole| ensures whole[i] == (first + second)[i] {
      if i >= |first| {
        assert |first| == limit;
        assert (first + second)[i] == second[i - |first|];
      }
    }
  }

  /**
   * A successful UpdateUser replaces only the login of the stored record:
   * every other field keeps its stored value, and every other id finds
   * the record it found before.
   */
  lemma UpdateChangesOnlyLogin(rows: seq<User>, available: bool, user: User, other: string)
    requires UpdateSpec(rows, available, Some(user)).0 == Pass
    ensures UserById(rows, user.id).Some?
    ensures var rows' := UpdateSpec(rows, available, Some(user)).1;
            && UserById(rows', user.id) == Some(UserById(rows, user.id).value.(login := user.login))
            && (other != user.id ==> UserById(rows', other) == UserById(rows, other))
  {
    UserByIdAfterLogin(rows, user.id, user.login);
    if other != user.id {
      UserByIdAfterLoginElsewhere(rows, user.id, user.login, other);
    }
  }

  /** The password, token and expiry of the record are untouched by UpdateUser whatever the argument carries. */
  lemma UpdateIgnoresCredentials(rows: seq<User>, available: bool, user: User, password: string, token: string, expiry: int)
    ensures UpdateSpec(rows, available, Some(user.(password := password, token := token, tokenExpiry := expiry)))
         == UpdateSpec(rows, available, Some(user))
  {
  }

  /** UpdateUser fails exactly when the argument is nil, has no id, or names no stored user; failures change nothing. */
  lemma UpdateOutcome(rows: seq<User>, user: Option<User>)
    ensures var (r, rows') := UpdateSpec(rows, true, user);
            && (r == Pass <==> user.Some? && user.value.id != "" && UserById(rows, user.value.id).Some?)
            && (r.Fail? ==> rows' == rows)
            && |rows'| == |rows|
  {
  }

  /**
   * DeleteUser removes the user only when it exists: afterwards the id is
   * not found and every other user is still stored; otherwise nothing changes.
   */
  lemma DeleteOutcome(rows: seq<User>, id: string)
    ensures var (r, rows') := DeleteSpec(rows, true, id);
            && (r == Pass <==> id != "" && UserById(rows, id).Some?)
            && (r.Fail? ==> rows' == rows)
            && (r == Pass ==> UserById(rows', id) == None && forall u :: u in rows && u.id != id ==> u in rows')
  {
    UserByIdAfterDelete(rows, id);
  }

  /** An empty id is refused before the store is consulted, even when the store is unavailable. */
  lemma EmptyIdRefusedFirst(rows: seq<User>, available: bool, u: User)
    ensures DeleteSpec(rows, available, "") == (Fail(EmptyUserId), rows)
    ensures UpdateSpec(rows, available, Some(u.(id := ""))) == (Fail(EmptyUserId), rows)
    ensures UpdateSpec(rows, available, None) == (Fail(NilUser), rows)
  {
  }

  /** Deleting twice: the second delete reports "user not found" and changes nothing. */
  lemma DeleteTwice(rows: seq<User>, id: string)
    requires DeleteSpec(rows, true, id).0 == Pass
    ensures var rows' := DeleteSpec(rows, true, id).1;
            DeleteSpec(rows', true, id) == (Fail(UserNotFound), rows')
  {
    UserByIdAfterDelete(rows, id);
  }
}
