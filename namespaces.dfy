/**
 * How the services share one MemoryCache: the key namespaces `auth_<login>`,
 * `token_<token>`, `doc_<id>` and `docs_<userID>`, and the closed set of
 * values stored under them (the Go cache stores `interface{}` and the
 * services cast what they read back).
 */
module Namespaces {
  import opened Model
  import Cache

  datatype CacheValue =
    | TokenValue(token: string)
    | UserValue(user: User)
    | DocValue(doc: Document)
    | DocListValue(docs: seq<Document>)

  type Entries = map<string, Cache.Item<CacheValue>>

  function AuthKey(login: string): string { "auth_" + login }
  function TokenKey(token: string): string { "token_" + token }
  function DocKey(id: string): string { "doc_" + id }
  function DocsKey(userId: string): string { "docs_" + userId }

  /** The kind of value the services store under a key, by its namespace prefix. */
  predicate Fits(key: string, v: CacheValue) {
    && ("auth_" <= key ==> v.TokenValue?)
    && ("token_" <= key ==> v.UserValue?)
    && ("doc_" <= key ==> v.DocValue?)
    && ("docs_" <= key ==> v.DocListValue?)
  }

  /** Every stored value has the type its key's namespace promises, so every cast the services make succeeds. */
  predicate WellTyped(entries: Entries) {
    forall k :: k in entries ==> Fits(k, entries[k].value)
  }

  /** The four namespaces are pairwise disjoint: a key belongs to exactly the namespace it was built in. */
  lemma KeysFit(login: string, token: string, id: string, userId: string, u: User, d: Document, ds: seq<Document>, t: string)
    ensures Fits(AuthKey(login), TokenValue(t))
    ensures Fits(TokenKey(token), UserValue(u))
    ensures Fits(DocKey(id), DocValue(d))
    ensures Fits(DocsKey(userId), DocListValue(ds))
  {
    assert AuthKey(login)[0] == 'a';
    assert TokenKey(token)[0] == 't';
    assert DocKey(id)[..4] == "doc_";
    assert DocsKey(userId)[..5] == "docs_";
    assert DocKey(id)[3] != "docs_"[3];
    assert DocsKey(userId)[3] != "doc_"[3];
  }

  /** Keys from different namespaces never collide. */
  lemma KeysDistinct(login: string, token: string, id: string, userId: string)
    ensures AuthKey(login) != TokenKey(token)
    ensures AuthKey(login) != DocKey(id) && AuthKey(login) != DocsKey(userId)
    ensures TokenKey(token) != DocKey(id) && TokenKey(token) != DocsKey(userId)
    ensures DocKey(id) != DocsKey(userId)
  {
    assert AuthKey(login)[0] == 'a';
    assert TokenKey(token)[0] == 't';
    assert DocKey(id)[3] == '_';
    assert DocsKey(userId)[3] == 's';
  }

  /** Storing a value of the namespace's own kind keeps the cache well typed. */
  lemma StoreKeepsWellTyped(entries: Entries, key: string, v: CacheValue, expiration: int)
    requires WellTyped(entries) && Fits(key, v)
    ensures WellTyped(entries[key := Cache.Item(v, expiration)])
  {
  }

  /** A live entry under a namespace key of a well-typed cache holds that namespace's kind of value. */
  lemma LookupFits(entries: Entries, key: string, now: int)
    requires WellTyped(entries)
    ensures Cache.Lookup(entries, key, now).Some? ==> Fits(key, Cache.Lookup(entries, key, now).value)
  {
  }
}
