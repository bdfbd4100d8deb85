/**
 * The durable stores behind the services, as abstract tables. The SQL
 * repositories (internal/repository) report "not found" as an absent result,
 * not as an error; a store that cannot be reached (`available == false`)
 * fails every call with StoreFailure.
 */
module Store {
  import opened Wrappers
  import opened Model

  /** The first element of `s` satisfying `p`, as a single-row query returns it. */
  function First<T>(s: seq<T>, p: T -> bool): (r: Option<T>)
    ensures r.Some? ==> r.value in s && p(r.value)
    ensures r.None? <==> forall i :: 0 <= i < |s| ==> !p(s[i])
  {
    if s == [] then None
    else if p(s[0]) then Some(s[0])
    else First(s[1..], p)
  }

  /** `s` with `f` applied to every element satisfying `p`, as an UPDATE ... WHERE does. */
  function UpdateWhere<T>(s: seq<T>, p: T -> bool, f: T -> T): (r: seq<T>)
    ensures |r| == |s|
    ensures forall i :: 0 <= i < |s| ==> r[i] == (if p(s[i]) then f(s[i]) else s[i])
  {
    if s == [] then []
    else [if p(s[0]) then f(s[0]) else s[0]] + UpdateWhere(s[1..], p, f)
  }

  /** The elements of `s` satisfying `keep`, in order, as a DELETE or a SELECT ... WHERE leaves them. */
  function Filter<T>(s: seq<T>, keep: T -> bool): (r: seq<T>)
    ensures forall i :: 0 <= i < |r| ==> keep(r[i]) && r[i] in s
    ensures forall x :: x in s && keep(x) ==> x in r
  {
    if s == [] then []
    else (if keep(s[0]) then [s[0]] else []) + Filter(s[1..], keep)
  }

  /** How many elements of `s` satisfy `p`, as a SELECT COUNT(*) ... WHERE counts them. */
  function Count<T>(s: seq<T>, p: T -> bool): (n: nat)
    ensures n <= |s|
  {
    if s == [] then 0 else (if p(s[0]) then 1 else 0) + Count(s[1..], p)
  }

  /** A query keeps each matching element once: as many rows as match. */
  lemma {:induction false} FilterLength<T>(s: seq<T>, p: T -> bool)
    ensures |Filter(s, p)| == Count(s, p)
  {
    if s != [] {
      FilterLength(s[1..], p);
    }
  }

  /** Updating the rows that match `p` with an `f` that keeps them matching updates the row a query for `p` finds. */
  lemma {:induction false} FirstOfUpdate<T>(s: seq<T>, p: T -> bool, f: T -> T)
    requires forall x :: p(x) ==> p(f(x))
    ensures First(UpdateWhere(s, p, f), p) == (if First(s, p).Some? then Some(f(First(s, p).value)) else None)
  {
    if s != [] {
      FirstOfUpdate(s[1..], p, f);
      assert UpdateWhere(s, p, f)[1..] == UpdateWhere(s[1..], p, f);
    }
  }

  /** An update of the rows matching `p` does not change what a query for a disjoint `q` finds. */
  lemma {:induction false} FirstOfUpdateElsewhere<T>(s: seq<T>, p: T -> bool, f: T -> T, q: T -> bool)
    requires forall x :: p(x) ==> !q(x) && !q(f(x))
    ensures First(UpdateWhere(s, p, f), q) == First(s, q)
  {
    if s != [] {
      FirstOfUpdateElsewhere(s[1..], p, f, q);
      assert UpdateWhere(s, p, f)[1..] == UpdateWhere(s[1..], p, f);
    }
  }

  // Row predicates. Every query goes through one of these so that the same
  // predicate value is used wherever a table is searched or updated.

  function HasId(id: string): User -> bool { (u: User) => u.id == id }
  function HasLogin(login: string): User -> bool { (u: User) => u.login == login }
  function HasToken(token: string): User -> bool { (u: User) => u.token == token }
  function UserLacksId(id: string): User -> bool { (u: User) => u.id != id }
  function DocHasId(id: string): Document -> bool { (d: Document) => d.id == id }
  function DocLacksId(id: string): Document -> bool { (d: Document) => d.id != id }
  function OwnedBy(owner: string): Document -> bool { (d: Document) => d.owner == owner }

  function SetToken(token: string, expiry: int): User -> User { (u: User) => u.(token := token, tokenExpiry := expiry) }
  function SetLogin(login: string): User -> User { (u: User) => u.(login := login) }

  /** GetUserByID (internal/repository/user.go:36-49): a stored row with that id, or "not found" when there is none. */
  function UserById(rows: seq<User>, id: string): (r: Option<User>)
    ensures r.Some? ==> r.value in rows && r.value.id == id
    ensures r.None? <==> forall i :: 0 <= i < |rows| ==> rows[i].id != id
  {
    var r := First(rows, HasId(id));
    assert r.Some? ==> HasId(id)(r.value);
    assert r.None? <==> forall i :: 0 <= i < |rows| ==> !HasId(id)(rows[i]);
    r
  }

  /** GetUserByLogin (internal/repository/user.go:50-90): a stored row with that login, or "not found" when there is none. */
  function UserByLogin(rows: seq<User>, login: string): (r: Option<User>)
    ensures r.Some? ==> r.value in rows && r.value.login == login
    ensures r.None? <==> forall i :: 0 <= i < |rows| ==> rows[i].login != login
  {
    var r := First(rows, HasLogin(login));
    assert r.Some? ==> HasLogin(login)(r.value);
    assert r.None? <==> forall i :: 0 <= i < |rows| ==> !HasLogin(login)(rows[i]);
    r
  }

  /**
   * GetUserByToken (internal/repository/user.go:144-184). Its SELECT does not
   * read the token column, so the returned record carries an empty token.
   */
  function UserByToken(rows: seq<User>, token: string): (r: Option<User>)
    ensures r.Some? ==> r.value.token == "" && r.value.(token := token) in rows
    ensures r.None? <==> forall i :: 0 <= i < |rows| ==> rows[i].token != token
  {
    var found := First(rows, HasToken(token));
    assert found.Some? ==> HasToken(token)(found.value) && found.value.(token := "").(token := token) == found.value;
    assert found.None? <==> forall i :: 0 <= i < |rows| ==> !HasToken(token)(rows[i]);
    match found
    case None => None
    case Some(u) => Some(u.(token := ""))
  }

  /** UpdateUserToken (internal/repository/user.go:186-195): every row with that id gets the session, no other row changes. */
  function WithToken(rows: seq<User>, id: string, token: string, expiry: int): (r: seq<User>)
    ensures |r| == |rows|
    ensures forall i :: 0 <= i < |rows| ==>
              r[i] == (if rows[i].id == id then rows[i].(token := token, tokenExpiry := expiry) else rows[i])
  {
    var r := UpdateWhere(rows, HasId(id), SetToken(token, expiry));
    assert forall i :: 0 <= i < |rows| ==> HasId(id)(rows[i]) == (rows[i].id == id);
    r
  }

  /** UpdateUser, which writes only the login column (internal/repository/user.go:91-100). */
  function WithLogin(rows: seq<User>, id: string, login: string): (r: seq<User>)
    ensures |r| == |rows|
    ensures forall i :: 0 <= i < |rows| ==> r[i] == (if rows[i].id == id then rows[i].(login := login) else rows[i])
  {
    var r := UpdateWhere(rows, HasId(id), SetLogin(login));
    assert forall i :: 0 <= i < |rows| ==> HasId(id)(rows[i]) == (rows[i].id == id);
    r
  }

  /** A query keeps every matching element exactly as often as it occurs, and no other element. */
  lemma {:induction false} FilterMultiplicity<T>(s: seq<T>, p: T -> bool, x: T)
    ensures multiset(Filter(s, p))[x] == if p(x) then multiset(s)[x] else 0
  {
    if s != [] {
      FilterMultiplicity(s[1..], p, x);
      assert s == [s[0]] + s[1..];
      assert multiset(s) == multiset([s[0]]) + multiset(s[1..]);
    }
  }

  /** Every element satisfies exactly one of `p` and `q`, so their counts add up to the length. */
  lemma {:induction false} CountComplement<T>(s: seq<T>, p: T -> bool, q: T -> bool)
    requires forall x :: q(x) == !p(x)
    ensures Count(s, p) + Count(s, q) == |s|
  {
    if s != [] {
      CountComplement(s[1..], p, q);
    }
  }

  /**
   * DeleteUser (internal/repository/user.go:102-110): the rows whose id
   * differs, every one of them, each row kept as many times as it was stored.
   */
  function WithoutUser(rows: seq<User>, id: string): (r: seq<User>)
    ensures forall i :: 0 <= i < |r| ==> r[i].id != id && r[i] in rows
    ensures forall u :: u in rows && u.id != id ==> u in r
    ensures forall u :: multiset(r)[u] == if u.id != id then multiset(rows)[u] else 0
    ensures |r| == |rows| - Count(rows, HasId(id))
  {
    var r := Filter(rows, UserLacksId(id));
    FilterLength(rows, UserLacksId(id));
    CountComplement(rows, HasId(id), UserLacksId(id));
    assert forall i :: 0 <= i < |r| ==> UserLacksId(id)(r[i]);
    assert forall u :: u in rows && u.id != id ==> UserLacksId(id)(u);
    forall u
      ensures multiset(r)[u] == if u.id != id then multiset(rows)[u] else 0
    {
      FilterMultiplicity(rows, UserLacksId(id), u);
    }
    r
  }

  /** GetDocumentByID (internal/repository/document.go:103-155): a stored document with that id, or "not found". */
  function DocById(docs: seq<Document>, id: string): (r: Option<Document>)
    ensures r.Some? ==> r.value in docs && r.value.id == id
    ensures r.None? <==> forall i :: 0 <= i < |docs| ==> docs[i].id != id
  {
    var r := First(docs, DocHasId(id));
    assert r.Some? ==> DocHasId(id)(r.value);
    assert r.None? <==> forall i :: 0 <= i < |docs| ==> !DocHasId(id)(docs[i]);
    r
  }

  function Unregistered(rows: seq<User>): string -> bool { (login: string) => UserByLogin(rows, login).None? }

  /**
   * The first grantee login of CreateDocument's grant loop that no user has
   * (internal/repository/document.go:83-88); None when every grantee exists.
   */
  function MissingGrantee(rows: seq<User>, grant: seq<string>): (r: Option<string>)
    ensures r.Some? ==> r.value in grant && UserByLogin(rows, r.value).None?
    ensures r.None? <==> forall i :: 0 <= i < |grant| ==> UserByLogin(rows, grant[i]).Some?
  {
    var r := First(grant, Unregistered(rows));
    assert r.Some? ==> Unregistered(rows)(r.value);
    assert r.None? <==> forall i :: 0 <= i < |grant| ==> !Unregistered(rows)(grant[i]);
    r
  }

  /**
   * DeleteDocument (internal/repository/document.go:261-264): the documents
   * whose id differs, every one of them, each kept as many times as it was stored.
   */
  function WithoutDoc(docs: seq<Document>, id: string): (r: seq<Document>)
    ensures forall i :: 0 <= i < |r| ==> r[i].id != id && r[i] in docs
    ensures forall d :: d in docs && d.id != id ==> d in r
    ensures forall d :: multiset(r)[d] == if d.id != id then multiset(docs)[d] else 0
    ensures |r| == |docs| - Count(docs, DocHasId(id))
  {
    var r := Filter(docs, DocLacksId(id));
    FilterLength(docs, DocLacksId(id));
    CountComplement(docs, DocHasId(id), DocLacksId(id));
    assert forall i :: 0 <= i < |r| ==> DocLacksId(id)(r[i]);
    assert forall d :: d in docs && d.id != id ==> DocLacksId(id)(d);
    forall d
      ensures multiset(r)[d] == if d.id != id then multiset(docs)[d] else 0
    {
      FilterMultiplicity(docs, DocLacksId(id), d);
    }
    r
  }

  /**
   * The record GetUserDocuments scans from a row: it selects only id, name,
   * mime, is_file, is_public and created_at; every other field keeps its zero value.
   */
  function ListedDoc(d: Document): Document {
    Document(d.id, d.name, d.mime, d.file, d.public, d.created, [], "", None, "")
  }

  /** `x` is how GetUserDocuments reports one of `owner`'s documents in `docs`. */
  predicate ListingOf(x: Document, docs: seq<Document>, owner: string) {
    exists d :: d in docs && d.owner == owner && x == ListedDoc(d)
  }

  /**
   * GetUserDocuments (internal/repository/document.go:157-201): the first
   * `limit` of the owner's documents in table order, each reported once and
   * reduced to the selected columns. When fewer than `limit` come back, none
   * of the owner's documents is missing.
   */
  function DocsOwnedBy(docs: seq<Document>, owner: string, limit: nat): (r: seq<Document>)
    ensures var n := Count(docs, OwnedBy(owner));
            |r| == (if n <= limit then n else limit)
    ensures |r| <= |Filter(docs, OwnedBy(owner))|
    ensures forall i :: 0 <= i < |r| ==> r[i] == ListedDoc(Filter(docs, OwnedBy(owner))[i])
    ensures |r| <= limit
    ensures forall i :: 0 <= i < |r| ==> ListingOf(r[i], docs, owner)
    ensures |r| < limit ==> forall d :: d in docs && d.owner == owner ==> ListedDoc(d) in r
  {
    var all := Filter(docs, OwnedBy(owner));
    FilterLength(docs, OwnedBy(owner));
    var n := if |all| <= limit then |all| else limit;
    var r := seq(n, i requires 0 <= i < n => ListedDoc(all[i]));
    assert forall i :: 0 <= i < |r| ==> all[i] in docs && OwnedBy(owner)(all[i]) && r[i] == ListedDoc(all[i]) && ListingOf(r[i], docs, owner);
    assert |r| < limit ==> forall d :: d in docs && d.owner == owner ==> ListedDoc(d) in r by {
      forall d | |r| < limit && d in docs && d.owner == owner
        ensures ListedDoc(d) in r
      {
        assert OwnedBy(owner)(d);
        var j :| 0 <= j < |all| && all[j] == d;
        assert r[j] == ListedDoc(d);
      }
    }
    r
  }

  /** The record ListUsers scans from a row: only `id` and `login` are selected, every other field keeps its zero value. */
  function Listed(u: User): User { User(u.id, u.login, "", "", ZeroTime) }

  /**
   * ListUsers (internal/repository/user.go:112-130): `SELECT id, login ...
   * LIMIT limit OFFSET offset`, in table order.
   */
  function UsersPage(rows: seq<User>, limit: nat, offset: nat): (r: seq<User>)
    ensures |r| == (if offset >= |rows| then 0 else if |rows| - offset <= limit then |rows| - offset else limit)
    ensures forall i :: 0 <= i < |r| ==> r[i] == Listed(rows[offset + i])
  {
    if offset >= |rows| then []
    else
      var n := if |rows| - offset <= limit then |rows| - offset else limit;
      seq(n, i requires 0 <= i < n => Listed(rows[offset + i]))
  }

  /** After UpdateUserToken(id, t, e), GetUserByID(id) finds a row of that id carrying exactly (t, e). */
  lemma UserByIdAfterToken(rows: seq<User>, id: string, token: string, expiry: int)
    ensures UserById(WithToken(rows, id, token, expiry), id) ==
      (if UserById(rows, id).Some? then Some(UserById(rows, id).value.(token := token, tokenExpiry := expiry)) else None)
  {
    FirstOfUpdate(rows, HasId(id), SetToken(token, expiry));
  }

  /** UpdateUserToken on one id does not change what GetUserByID finds for another id. */
  lemma UserByIdAfterTokenElsewhere(rows: seq<User>, id: string, token: string, expiry: int, other: string)
    requires other != id
    ensures UserById(WithToken(rows, id, token, expiry), other) == UserById(rows, other)
  {
    FirstOfUpdateElsewhere(rows, HasId(id), SetToken(token, expiry), HasId(other));
  }

  /** After UpdateUser, GetUserByID finds the same record with only its login replaced. */
  lemma UserByIdAfterLogin(rows: seq<User>, id: string, login: string)
    ensures UserById(WithLogin(rows, id, login), id) ==
      (if UserById(rows, id).Some? then Some(UserById(rows, id).value.(login := login)) else None)
  {
    FirstOfUpdate(rows, HasId(id), SetLogin(login));
  }

  /** UpdateUser on one id does not change what GetUserByID finds for another id. */
  lemma UserByIdAfterLoginElsewhere(rows: seq<User>, id: string, login: string, other: string)
    requires other != id
    ensures UserById(WithLogin(rows, id, login), other) == UserById(rows, other)
  {
    FirstOfUpdateElsewhere(rows, HasId(id), SetLogin(login), HasId(other));
  }

  /** After DeleteUser(id), GetUserByID(id) reports "not found". */
  lemma UserByIdAfterDelete(rows: seq<User>, id: string)
    ensures UserById(WithoutUser(rows, id), id) == None
  {
  }

  /** After DeleteDocument(id), GetDocumentByID(id) reports "not found" and no other document is lost. */
  lemma DocByIdAfterDelete(docs: seq<Document>, id: string)
    ensures DocById(WithoutDoc(docs, id), id) == None
    ensures forall d :: d in docs && d.id != id ==> d in WithoutDoc(docs, id)
  {
  }

  /** The users table: its rows and whether the database can be reached. */
  class UserStore {
    var rows: seq<User>
    var available: bool

    constructor (rows: seq<User>, available: bool)
      ensures this.rows == rows && this.available == available
    {
      this.rows := rows;
      this.available := available;
    }
  }

  /** The documents table: its rows and whether the database can be reached. */
  class DocumentStore {
    var docs: seq<Document>
    var available: bool

    constructor (docs: seq<Document>, available: bool)
      ensures this.docs == docs && this.available == available
    {
      this.docs := docs;
      this.available := available;
    }
  }
}
