/**
 * The document service (internal/service/document.go): every operation
 * resolves the bearer token through the users table, then reads or writes
 * the documents table and the shared cache's `doc_<id>` and `docs_<userID>`
 * entries. File-system writes and removals, UUID generation and MIME lookup
 * by extension are supplied as their results.
 */
module Documents {
  import opened Wrappers
  import opened Model
  import opened Store
  import opened Namespaces
  import Cache

  /** TTL of a cached document (document.go:196) and of a cached list (document.go:163). */
  const DocTtl: int := 10 * Minute
  const ListTtl: int := 5 * Minute

  /** The `meta` JSON of an upload request (document.go:51-57); None when it does not parse. */
  datatype Meta = Meta(name: string, public: bool, mime: string, grant: seq<string>, json: Option<string>)

  /**
   * What an upload learns from outside: mime.TypeByExtension of the first
   * file's extension, where that file was saved (None when creating the
   * directory or writing the file failed) and the generated UUIDv7 (None on failure).
   */
  datatype UploadIo = UploadIo(extensionMime: string, savedPath: Option<string>, newId: Option<string>)

  /** Everything the document operations read or write. */
  datatype DocState = DocState(cache: Entries, users: seq<User>, usersAvailable: bool, docs: seq<Document>, docsAvailable: bool)

  /** The MIME type an upload stores (document.go:70-98): the requested one, else a default by kind. */
  function ResolveMime(requested: string, hasFiles: bool, extensionMime: string): (mime: string)
    ensures mime != ""
    ensures requested != "" ==> mime == requested
    ensures requested == "" && !hasFiles ==> mime == "application/json"
    ensures requested == "" && hasFiles ==> mime == extensionMime || (extensionMime == "" && mime == "application/octet-stream")
  {
    if requested != "" then requested
    else if hasFiles then (if extensionMime != "" then extensionMime else "application/octet-stream")
    else "application/json"
  }

  /** DeleteDocument's access decision (document.go:216): the owner only. */
  predicate CanDelete(user: User, doc: Document) {
    doc.owner == user.id
  }

  /**
   * GetDocument's access decision (document.go:191): anyone may read a public
   * document; a private one only whoever may delete it, its owner.
   */
  function CanRead(user: User, doc: Document): (allowed: bool)
    ensures doc.public ==> allowed
    ensures !doc.public ==> (allowed <==> CanDelete(user, doc))
  {
    doc.owner == user.id || doc.public
  }

  // ---------------------------------------------------------------------
  // The operations as functions of the state they read
  // ---------------------------------------------------------------------

  /** UploadDocument (document.go:40-130). */
  function UploadSpec(s: DocState, token: string, meta: Option<Meta>, files: seq<UploadedFile>, io: UploadIo, now: int)
    : (Result<Document, Error>, DocState)
  {
    if !s.usersAvailable then (Err(StoreFailure), s)
    else match UserByToken(s.users, token)
      case None => (Err(Unauthorized), s)
      case Some(u) =>
        if meta.None? then (Err(InvalidMeta), s)
        else if meta.value.name == "" then (Err(NameRequired), s)
        else if |files| > 0 && io.savedPath.None? then (Err(FileFailure), s)
        else if io.newId.None? then (Err(IdFailure), s)
        else if !s.docsAvailable then (Err(StoreFailure), s)
        else if MissingGrantee(s.users, meta.value.grant).Some? then (Err(GranteeNotFound), s)
        else
          var m := meta.value;
          var doc := Document(io.newId.value, m.name, ResolveMime(m.mime, |files| > 0, io.extensionMime), |files| > 0,
                              m.public, now, m.grant, if |files| > 0 then io.savedPath.value else "", m.json, u.id);
          (Ok(doc), s.(docs := s.docs + [doc], cache := s.cache - {DocsKey(u.id)}))
  }

  /**
   * GetDocumentsList (document.go:132-166). Only the caller's own documents
   * are listed; any other login yields an empty list. A negative limit is
   * rejected by the database.
   */
  function ListSpec(s: DocState, token: string, login: string, limit: int, now: int)
    : (Result<seq<Document>, Error>, DocState)
  {
    if !s.usersAvailable then (Err(StoreFailure), s)
    else match UserByToken(s.users, token)
      case None => (Err(Unauthorized), s)
      case Some(u) =>
        var hit := Cache.Lookup(s.cache, DocsKey(u.id), now);
        if hit.Some? then
          (if hit.value.DocListValue? then (Ok(hit.value.docs), s) else (Err(BadCacheEntry), s))
        else if (login == "" || login == u.login) && (!s.docsAvailable || limit < 0) then (Err(StoreFailure), s)
        else
          var list := if login == "" || login == u.login then DocsOwnedBy(s.docs, u.id, limit) else [];
          (Ok(list), s.(cache := s.cache[DocsKey(u.id) := Cache.Item(DocListValue(list), now + ListTtl)]))
  }

  /** GetDocument (document.go:168-199); a document the store does not have is DocumentNotFound. */
  function GetSpec(s: DocState, token: string, id: string, now: int): (Result<Document, Error>, DocState) {
    if !s.usersAvailable then (Err(StoreFailure), s)
    else match UserByToken(s.users, token)
      case None => (Err(Unauthorized), s)
      case Some(u) =>
        var hit := Cache.Lookup(s.cache, DocKey(id), now);
        if hit.Some? then
          (if hit.value.DocValue? then (Ok(hit.value.doc), s) else (Err(BadCacheEntry), s))
        else if !s.docsAvailable then (Err(StoreFailure), s)
        else match DocById(s.docs, id)
          case None => (Err(DocumentNotFound), s)
          case Some(d) =>
            if !CanRead(u, d) then (Err(Forbidden), s)
            else (Ok(d), s.(cache := s.cache[DocKey(id) := Cache.Item(DocValue(d), now + DocTtl)]))
  }

  /**
   * DeleteDocument (document.go:201-237). `removed` is whether removing the
   * document's file succeeded; it is consulted only for a file document
   * with a path.
   */
  function DeleteSpec(s: DocState, token: string, id: string, removed: bool, now: int): (Result<bool, Error>, DocState) {
    if !s.usersAvailable then (Err(StoreFailure), s)
    else match UserByToken(s.users, token)
      case None => (Err(Unauthorized), s)
      case Some(u) =>
        if !s.docsAvailable then (Err(StoreFailure), s)
        else match DocById(s.docs, id)
          case None => (Err(DocumentNotFound), s)
          case Some(d) =>
            if !CanDelete(u, d) then (Err(Forbidden), s)
            else if d.file && d.filePath != "" && !removed then (Err(FileFailure), s)
            else (Ok(true), s.(docs := WithoutDoc(s.docs, id), cache := s.cache - {DocKey(id)} - {DocsKey(u.id)}))
  }

  // ---------------------------------------------------------------------
  // The service object
  // ---------------------------------------------------------------------

  class DocumentService {
    const users: UserStore
    const docs: DocumentStore
    const cache: Cache.MemoryCache<CacheValue>

    constructor (docs: DocumentStore, users: UserStore, cache: Cache.MemoryCache<CacheValue>)
      ensures this.docs == docs && this.users == users && this.cache == cache
    {
      this.docs := docs;
      this.users := users;
      this.cache := cache;
    }

    function State(): DocState
      reads users, docs, cache
    {
      DocState(cache.items, users.rows, users.available, docs.docs, docs.available)
    }

    /** UploadDocument (document.go:40-130). */
    method UploadDocument(token: string, meta: Option<Meta>, files: seq<UploadedFile>, io: UploadIo, now: int)
      returns (r: Result<Document, Error>)
      modifies docs, cache
      ensures (r, State()) == UploadSpec(old(State()), token, meta, files, io, now)
    {
      if !users.available {
        return Err(StoreFailure);
      }
      var found := UserByToken(users.rows, token);
      if found.None? {
        return Err(Unauthorized);
      }
      var user := found.value;
      if meta.None? {
        return Err(InvalidMeta);
      }
      var m := meta.value;
      if m.name == "" {
        return Err(NameRequired);
      }
      var mime := m.mime;
      var filePath := "";
      if |files| > 0 {
        if mime == "" {
          mime := io.extensionMime;
          if mime == "" {
            mime := "application/octet-stream";
          }
        }
        if io.savedPath.None? {
          return Err(FileFailure);
        }
        filePath := io.savedPath.value;
      } else {
        if mime == "" {
          mime := "application/json";
        }
      }
      if io.newId.None? {
        return Err(IdFailure);
      }
      var doc := Document(io.newId.value, m.name, mime, |files| > 0, m.public, now, m.grant, filePath, m.json, user.id);
      if !docs.available {
        return Err(StoreFailure);
      }
      if MissingGrantee(users.rows, m.grant).Some? {
        return Err(GranteeNotFound);
      }
      docs.docs := docs.docs + [doc];
      cache.Delete(DocsKey(user.id));
      return Ok(doc);
    }

    /** GetDocumentsList (document.go:132-166); its unused key/value filter arguments are omitted. */
    method GetDocumentsList(token: string, login: string, limit: int, now: int) returns (r: Result<seq<Document>, Error>)
      modifies cache
      ensures (r, State()) == ListSpec(old(State()), token, login, limit, now)
    {
      if !users.available {
        return Err(StoreFailure);
      }
      var found := UserByToken(users.rows, token);
      if found.None? {
        return Err(Unauthorized);
      }
      var user := found.value;
      var key := DocsKey(user.id);
      var cached := cache.Get(key, now);
      if cached.Some? {
        if cached.value.DocListValue? {
          return Ok(cached.value.docs);
        }
        return Err(BadCacheEntry);
      }
      var list: seq<Document> := [];
      if login == "" || login == user.login {
        if !docs.available || limit < 0 {
          return Err(StoreFailure);
        }
        list := DocsOwnedBy(docs.docs, user.id, limit);
      }
      ghost var before := State();
      cache.Set(key, DocListValue(list), ListTtl, now);
      assert State() == before.(cache := before.cache[key := Cache.Item(DocListValue(list), now + ListTtl)]);
      return Ok(list);
    }

    /** GetDocument (document.go:168-199). */
    method GetDocument(token: string, id: string, now: int) returns (r: Result<Document, Error>)
      modifies cache
      ensures (r, State()) == GetSpec(old(State()), token, id, now)
    {
      if !users.available {
        return Err(StoreFailure);
      }
      var found := UserByToken(users.rows, token);
      if found.None? {
        return Err(Unauthorized);
      }
      var user := found.value;
      var key := DocKey(id);
      var cached := cache.Get(key, now);
      if cached.Some? {
        if cached.value.DocValue? {
          return Ok(cached.value.doc);
        }
        return Err(BadCacheEntry);
      }
      if !docs.available {
        return Err(StoreFailure);
      }
      var stored := DocById(docs.docs, id);
      if stored.None? {
        return Err(DocumentNotFound);
      }
      var doc := stored.value;
      if doc.owner != user.id && !doc.public {
        return Err(Forbidden);
      }
      cache.Set(key, DocValue(doc), DocTtl, now);
      return Ok(doc);
    }

    /** DeleteDocument (document.go:201-237). */
    method DeleteDocument(token: string, id: string, removed: bool, now: int) returns (r: Result<bool, Error>)
      modifies docs, cache
      ensures (r, State()) == DeleteSpec(old(State()), token, id, removed, now)
    {
      if !users.available {
        return Err(StoreFailure);
      }
      var found := UserByToken(users.rows, token);
      if found.None? {
        return Err(Unauthorized);
      }
      var user := found.value;
      if !docs.available {
        return Err(StoreFailure);
      }
      var stored := DocById(docs.docs, id);
      if stored.None? {
        return Err(DocumentNotFound);
      }
      var doc := stored.value;
      if doc.owner != user.id {
        return Err(Forbidden);
      }
      if doc.file && doc.filePath != "" && !removed {
        return Err(FileFailure);
      }
      docs.docs := WithoutDoc(docs.docs, id);
      cache.Delete(DocKey(id));
      cache.Delete(DocsKey(user.id));
      return Ok(true);
    }
  }
}

/** Properties of the document service, stated over its operations' specifications. */
module DocumentProperties {
  import opened Wrappers
  import opened Model
  import opened Store
  import opened Namespaces
  import opened Documents
  import Cache

  /** Read access ignores the grant list entirely; the owner may always read. */
  lemma ReadIgnoresGrant(user: User, doc: Document, grant: seq<string>)
    ensures CanRead(user, doc.(grant := grant)) == CanRead(user, doc)
    ensures doc.owner == user.id ==> CanRead(user, doc)
    ensures doc.public ==> CanRead(user, doc)
    ensures !CanRead(user, doc) <==> doc.owner != user.id && !doc.public
  {
  }

  /** Delete access belongs to the owner alone, whatever the document's visibility and grants. */
  lemma DeleteOnlyByOwner(user: User, doc: Document, public: bool, grant: seq<string>)
    ensures CanDelete(user, doc.(public := public, grant := grant)) <==> doc.owner == user.id
    ensures CanDelete(user, doc) ==> CanRead(user, doc)
  {
  }

  /**
   * A private document shared with "bob" is not readable by bob: the grant
   * list is not consulted, so only the owner may read it.
   */
  lemma GrantDoesNotConferRead(owner: User, bob: User, doc: Document)
    requires doc.owner == owner.id && bob.id != owner.id && bob.login == "bob"
    requires !doc.public && doc.grant == ["bob"]
    ensures CanRead(owner, doc) && !CanRead(bob, doc) && !CanDelete(bob, doc)
  {
  }

  /** The MIME defaults of an upload that does not name a type. */
  lemma MimeDefaults(extensionMime: string)
    ensures ResolveMime("", true, extensionMime) == (if extensionMime == "" then "application/octet-stream" else extensionMime)
    ensures ResolveMime("", false, extensionMime) == "application/json"
    ensures ResolveMime("text/plain", true, extensionMime) == "text/plain"
  {
  }

  /** A token that resolves to no user is refused as unauthorized before the cache or the documents table is touched. */
  lemma UnknownTokenChangesNothing(s: DocState, token: string, id: string, login: string, limit: int,
                                   meta: Option<Meta>, files: seq<UploadedFile>, io: UploadIo, removed: bool, now: int)
    requires s.usersAvailable && UserByToken(s.users, token).None?
    ensures UploadSpec(s, token, meta, files, io, now) == (Err(Unauthorized), s)
    ensures ListSpec(s, token, login, limit, now) == (Err(Unauthorized), s)
    ensures GetSpec(s, token, id, now) == (Err(Unauthorized), s)
    ensures DeleteSpec(s, token, id, removed, now) == (Err(Unauthorized), s)
  {
  }

  /** A live `doc_<id>` entry is returned to any authenticated caller, before any access check. */
  lemma CachedDocumentSkipsAccessCheck(s: DocState, token: string, id: string, d: Document, now: int)
    requires s.usersAvailable && UserByToken(s.users, token).Some?
    requires Cache.Lookup(s.cache, DocKey(id), now) == Some(DocValue(d))
    ensures GetSpec(s, token, id, now) == (Ok(d), s)
  {
  }

  /**
   * On a cache miss, GetDocument is forbidden exactly when the caller is
   * neither the owner nor the document public; a permitted read caches the
   * document for ten minutes.
   */
  lemma GetDocumentOnMiss(s: DocState, token: string, id: string, now: int, later: int)
    requires s.usersAvailable && UserByToken(s.users, token).Some?
    requires Cache.Lookup(s.cache, DocKey(id), now) == None
    requires s.docsAvailable
    requires now <= later <= now + DocTtl
    ensures var u := UserByToken(s.users, token).value;
            var (r, s') := GetSpec(s, token, id, now);
            && (DocById(s.docs, id).None? ==> r == Err(DocumentNotFound) && s' == s)
            && (DocById(s.docs, id).Some? ==>
                  var d := DocById(s.docs, id).value;
                  && (r == Err(Forbidden) <==> !CanRead(u, d))
                  && (r.Ok? <==> CanRead(u, d))
                  && (r.Ok? ==> r.value == d && Cache.Lookup(s'.cache, DocKey(id), later) == Some(DocValue(d)))
                  && s'.docs == s.docs)
  {
  }

  /**
   * Once the owner has read a private document, any other authenticated
   * user who asks for it within ten minutes receives it from the cache.
   */
  lemma PrivateDocumentServedFromCache(s: DocState, ownerToken: string, otherToken: string, id: string, now: int, later: int)
    requires s.usersAvailable && s.docsAvailable
    requires UserByToken(s.users, ownerToken).Some? && UserByToken(s.users, otherToken).Some?
    requires DocById(s.docs, id).Some? && DocById(s.docs, id).value.owner == UserByToken(s.users, ownerToken).value.id
    requires Cache.Lookup(s.cache, DocKey(id), now) == None
    requires now <= later <= now + DocTtl
    ensures var d := DocById(s.docs, id).value;
            var s' := GetSpec(s, ownerToken, id, now).1;
            && GetSpec(s, ownerToken, id, now).0 == Ok(d)
            && GetSpec(s', otherToken, id, later).0 == Ok(d)
  {
    GetDocumentOnMiss(s, ownerToken, id, now, later);
  }

  /**
   * DeleteDocument of a stored document succeeds exactly for its owner when
   * the file, if any, could be removed; it then removes the row and evicts
   * `doc_<id>` and `docs_<userID>`. Every failure leaves all state unchanged.
   */
  lemma DeleteOutcome(s: DocState, token: string, id: string, removed: bool, now: int)
    requires s.usersAvailable && UserByToken(s.users, token).Some?
    requires s.docsAvailable && DocById(s.docs, id).Some?
    ensures var u := UserByToken(s.users, token).value;
            var d := DocById(s.docs, id).value;
            var (r, s') := DeleteSpec(s, token, id, removed, now);
            && (r == Ok(true) <==> CanDelete(u, d) && (removed || !d.file || d.filePath == ""))
            && (!CanDelete(u, d) ==> r == Err(Forbidden))
            && (r.Err? ==> s' == s)
            && (r.Ok? ==> && s'.docs == WithoutDoc(s.docs, id)
                          && DocById(s'.docs, id) == None
                          && DocKey(id) !in s'.cache && DocsKey(u.id) !in s'.cache)
  {
    DocByIdAfterDelete(s.docs, id);
  }

  /**
   * A successful upload stores a document owned by the uploader with the
   * metadata's name, visibility and grants, a resolved MIME type and
   * `file` set exactly when files were sent, and evicts the uploader's list.
   */
  lemma UploadOutcome(s: DocState, token: string, meta: Option<Meta>, files: seq<UploadedFile>, io: UploadIo, now: int)
    requires UploadSpec(s, token, meta, files, io, now).0.Ok?
    ensures s.usersAvailable && UserByToken(s.users, token).Some? && meta.Some?
    ensures var u := UserByToken(s.users, token).value;
            var m := meta.value;
            var (r, s') := UploadSpec(s, token, meta, files, io, now);
            var d := r.value;
            && m.name != "" && d.name == m.name
            && (forall i :: 0 <= i < |m.grant| ==> UserByLogin(s.users, m.grant[i]).Some?)
            && d.owner == u.id && d.file == (|files| > 0) && d.public == m.public && d.grant == m.grant
            && d.mime == ResolveMime(m.mime, |files| > 0, io.extensionMime) && d.mime != ""
            && s'.docs == s.docs + [d]
            && DocsKey(u.id) !in s'.cache
            && (forall k :: k != DocsKey(u.id) && k in s.cache ==> k in s'.cache && s'.cache[k] == s.cache[k])
  {
  }

  /**
   * An upload whose grant list names a login no user has is refused and
   * changes nothing: CreateDocument's grant lookup fails and its transaction
   * is rolled back, so no document is stored.
   */
  lemma UploadRefusesUnregisteredGrantee(s: DocState, token: string, m: Meta, files: seq<UploadedFile>, io: UploadIo,
                                         now: int, grantee: string)
    requires s.usersAvailable && UserByToken(s.users, token).Some?
    requires m.name != "" && (|files| > 0 ==> io.savedPath.Some?) && io.newId.Some? && s.docsAvailable
    requires grantee in m.grant && UserByLogin(s.users, grantee).None?
    ensures UploadSpec(s, token, Some(m), files, io, now) == (Err(GranteeNotFound), s)
  {
    var i :| 0 <= i < |m.grant| && m.grant[i] == grantee;
    assert UserByLogin(s.users, m.grant[i]).None?;
  }

  /** An upload without a name is refused and changes nothing. */
  lemma UploadNeedsName(s: DocState, token: string, m: Meta, files: seq<UploadedFile>, io: UploadIo, now: int)
    requires s.usersAvailable && UserByToken(s.users, token).Some?
    requires m.name == ""
    ensures UploadSpec(s, token, Some(m), files, io, now) == (Err(NameRequired), s)
  {
  }

  /**
   * GetDocumentsList caches under `docs_<userID>` whatever login or limit it
   * was given: a request naming another user's login caches an empty list
   * for five minutes, and every list request by the same caller in that
   * window, for any login and limit, gets that cached list.
   */
  lemma ListCachedRegardlessOfLogin(s: DocState, token: string, login: string, otherLogin: string, limit: int, otherLimit: int,
                                    now: int, later: int)
    requires s.usersAvailable && UserByToken(s.users, token).Some?
    requires Cache.Lookup(s.cache, DocsKey(UserByToken(s.users, token).value.id), now) == None
    requires login != "" && login != UserByToken(s.users, token).value.login
    requires now <= later <= now + ListTtl
    ensures var (r, s') := ListSpec(s, token, login, limit, now);
            && r == Ok([])
            && ListSpec(s', token, otherLogin, otherLimit, later) == (Ok([]), s')
  {
  }

  /**
   * A listing of the caller's own documents holds as many of them as there
   * are, up to `limit`: the first ones in table order, each once and reduced
   * to the selected columns (so owner, grants and file path read as empty).
   * It misses none of them when fewer than `limit` come back.
   */
  lemma OwnListHoldsOwnDocuments(s: DocState, token: string, limit: int, now: int)
    requires s.usersAvailable && UserByToken(s.users, token).Some?
    requires Cache.Lookup(s.cache, DocsKey(UserByToken(s.users, token).value.id), now) == None
    requires ListSpec(s, token, "", limit, now).0.Ok?
    ensures var u := UserByToken(s.users, token).value;
            var list := ListSpec(s, token, "", limit, now).0.value;
            var n := Count(s.docs, OwnedBy(u.id));
            && |list| == (if n <= limit then n else limit)
            && |list| <= |Filter(s.docs, OwnedBy(u.id))|
            && (forall i :: 0 <= i < |list| ==> list[i] == ListedDoc(Filter(s.docs, OwnedBy(u.id))[i]))
            && (forall i :: 0 <= i < |list| ==> ListingOf(list[i], s.docs, u.id))
            && (|list| < limit ==> forall d :: d in s.docs && CanDelete(u, d) ==> ListedDoc(d) in list)
            && (forall i :: 0 <= i < |list| ==> list[i].owner == "" && list[i].grant == [] && list[i].filePath == "")
  {
  }

  /** Upload and delete only evict entries, so they keep the shared cache well typed. */
  lemma EvictionsKeepCacheWellTyped(s: DocState, token: string, id: string,
                                    meta: Option<Meta>, files: seq<UploadedFile>, io: UploadIo, removed: bool, now: int)
    requires WellTyped(s.cache)
    ensures WellTyped(UploadSpec(s, token, meta, files, io, now).1.cache)
    ensures WellTyped(DeleteSpec(s, token, id, removed, now).1.cache)
  {
  }

  /** GetDocument caches a document only under its `doc_<id>` key. */
  lemma GetKeepsCacheWellTyped(s: DocState, token: string, id: string, now: int)
    requires WellTyped(s.cache)
    ensures WellTyped(GetSpec(s, token, id, now).1.cache)
  {
    if s.usersAvailable && UserByToken(s.users, token).Some? && DocById(s.docs, id).Some? {
      var u := UserByToken(s.users, token).value;
      var d := DocById(s.docs, id).value;
      KeysFit("", "", id, u.id, u, d, [], "");
      StoreKeepsWellTyped(s.cache, DocKey(id), DocValue(d), now + DocTtl);
    }
  }

  /** GetDocumentsList caches a list only under the caller's `docs_<userID>` key. */
  lemma ListKeepsCacheWellTyped(s: DocState, token: string, login: string, limit: int, now: int)
    requires WellTyped(s.cache)
    ensures WellTyped(ListSpec(s, token, login, limit, now).1.cache)
  {
    if s.usersAvailable && UserByToken(s.users, token).Some? && limit >= 0 {
      var u := UserByToken(s.users, token).value;
      var list := if login == "" || login == u.login then DocsOwnedBy(s.docs, u.id, limit) else [];
      var d: Document :| true;
      KeysFit("", "", "", u.id, u, d, list, "");
      StoreKeepsWellTyped(s.cache, DocsKey(u.id), DocListValue(list), now + ListTtl);
    } else if s.usersAvailable && UserByToken(s.users, token).Some? {
      var u := UserByToken(s.users, token).value;
      var d: Document :| true;
      KeysFit("", "", "", u.id, u, d, [], "");
      StoreKeepsWellTyped(s.cache, DocsKey(u.id), DocListValue([]), now + ListTtl);
    }
  }

  /** In a well-typed cache the casts of GetDocument and GetDocumentsList never fail. */
  lemma WellTypedCacheCastsSucceed(s: DocState, token: string, id: string, login: string, limit: int, now: int)
    requires WellTyped(s.cache)
    ensures GetSpec(s, token, id, now).0 != Err(BadCacheEntry)
    ensures ListSpec(s, token, login, limit, now).0 != Err(BadCacheEntry)
  {
    var u: User :| true;
    var d: Document :| true;
    forall userId: string
      ensures Fits(DocKey(id), DocValue(d)) && Fits(DocsKey(userId), DocListValue([]))
    {
      KeysFit("", "", id, userId, u, d, [], "");
    }
    LookupFits(s.cache, DocKey(id), now);
    if s.usersAvailable && UserByToken(s.users, token).Some? {
      LookupFits(s.cache, DocsKey(UserByToken(s.users, token).value.id), now);
    }
  }
}
