/**
 * The osin storage over MySQL, with each table modelled by its primary key:
 * client by id, authorize by code, access by access_token, refresh by
 * refresh_token, and expires as a list with an auto-increment counter.
 *
 * Reads are functions of the tables. They take `down`, the reads the backing
 * store fails to answer, and where the source reads the clock they take
 * `now`. Writes are methods, and each takes a flag per statement saying
 * whether the backing store fails it for a reason other than a key conflict.
 */
module MysqlStorage {
  import opened Records
  import opened Expiry

  /** The inserts buffered in an open transaction, not yet visible in the tables. */
  datatype Tx = Tx(refresh: map<string, string>, access: map<string, AccessRow>)

  /** Adding a one-entry map is the same as updating that key. */
  lemma UnionWithSingleton<K, V>(m: map<K, V>, k: K, v: V)
    ensures m + map[k := v] == m[k := v]
  {
  }

  class Storage {
    var clients: map<string, Client>
    var authorize: map<string, AuthorizeRow>
    var access: map<string, AccessRow>
    var refresh: map<string, string>   // refresh_token -> access_token
    var expires: seq<ExpiryEntry>
    var nextId: nat                    // the expires table's next auto-increment value

    /** Each keyed row sits under its own key; expiry ids are increasing and below the counter. */
    ghost predicate Valid()
      reads this
    {
      && (forall id :: id in clients ==> clients[id].id == id)
      && (forall code :: code in authorize ==> authorize[code].code == code)
      && (forall token :: token in access ==> access[token].accessToken == token)
      && 0 < nextId
      && (forall e :: e in expires ==> 0 < e.id < nextId)
      && Increasing(expires)
    }

    /** A storage over freshly created, empty tables. */
    constructor ()
      ensures Valid()
      ensures clients == map[] && authorize == map[] && access == map[] && refresh == map[]
      ensures expires == [] && nextId == 1
    {
      clients, authorize, access, refresh := map[], map[], map[], map[];
      expires, nextId := [], 1;
    }

    // ---------------------------------------------------------------- clients

    /** Loads the client stored under `id`. */
    function GetClient(id: string, down: set<Query>): (r: Result<Client>)
      reads this
      ensures ClientById(id) in down ==> r == Failure(Backend(StoreFailure))
      ensures ClientById(id) !in down ==> (r == Failure(NotFound) <==> id !in clients)
      ensures r.Success? <==> ClientById(id) !in down && id in clients
      ensures r.Success? ==> r.value == clients[id]
    {
      if ClientById(id) in down then Failure(Backend(StoreFailure))
      else if id !in clients then Failure(NotFound)
      else Success(clients[id])
    }

    /** Replaces secret, redirect URI and user data of the client `c.id`; a missing id changes nothing. */
    method UpdateClient(c: Client, fails: bool) returns (err: Option<Error>)
      requires Valid()
      modifies this`clients
      ensures Valid()
      ensures err == if fails then Some(Backend(StoreFailure)) else None
      ensures fails || c.id !in old(clients) ==> clients == old(clients)
      ensures !fails && c.id in old(clients) ==>
        clients == old(clients)[c.id := old(clients)[c.id].(secret := c.secret, redirectUri := c.redirectUri, userData := c.userData)]
    {
      if fails {
        return Some(Backend(StoreFailure));
      }
      if c.id in clients {
        clients := clients[c.id := clients[c.id].(secret := c.secret, redirectUri := c.redirectUri, userData := c.userData)];
      }
      return None;
    }

    /** Inserts client `c`; an id already in use is a key conflict and changes nothing. */
    method CreateClient(c: Client, fails: bool) returns (err: Option<Error>)
      requires Valid()
      modifies this`clients
      ensures Valid()
      ensures fails ==> err == Some(Backend(StoreFailure))
      ensures !fails && c.id in old(clients) ==> err == Some(Backend(DuplicateKey))
      ensures err.None? <==> !fails && c.id !in old(clients)
      ensures clients == if err.None? then old(clients)[c.id := c] else old(clients)
    {
      if fails {
        return Some(Backend(StoreFailure));
      }
      if c.id in clients {
        return Some(Backend(DuplicateKey));
      }
      clients := clients[c.id := c];
      return None;
    }

    /** Deletes the client `id`, if there is one. */
    method RemoveClient(id: string, fails: bool) returns (err: Option<Error>)
      requires Valid()
      modifies this`clients
      ensures Valid()
      ensures err == if fails then Some(Backend(StoreFailure)) else None
      ensures clients == if fails then old(clients) else old(clients) - {id}
    {
      if fails {
        return Some(Backend(StoreFailure));
      }
      clients := clients - {id};
      return None;
    }

    /** Builds a client value from its fields. */
    function CreateClientWithInformation(id: string, secret: string, redirectUri: string, userData: string): (c: Client)
      ensures c.id == id && c.secret == secret && c.redirectUri == redirectUri && c.userData == userData
    {
      Client(id, secret, redirectUri, userData)
    }

    // ---------------------------------------------------------------- expiry index

    /** Appends an entry with a fresh id, whatever entries `codeOrToken` already has. */
    method AddExpireAtData(codeOrToken: string, expireAt: int, fails: bool) returns (err: Option<Error>)
      requires Valid()
      modifies this`expires, this`nextId
      ensures Valid()
      ensures err == if fails then Some(Backend(StoreFailure)) else None
      ensures fails ==> expires == old(expires) && nextId == old(nextId)
      ensures !fails ==> expires == old(expires) + [ExpiryEntry(old(nextId), codeOrToken, expireAt)]
                         && nextId == old(nextId) + 1
      ensures !fails ==> forall e :: e in old(expires) ==> e.id != old(nextId)
    {
      if fails {
        return Some(Backend(StoreFailure));
      }
      expires := expires + [ExpiryEntry(nextId, codeOrToken, expireAt)];
      nextId := nextId + 1;
      return None;
    }

    /** Deletes every entry of `codeOrToken`. */
    method RemoveExpireAtData(codeOrToken: string, fails: bool) returns (err: Option<Error>)
      requires Valid()
      modifies this`expires
      ensures Valid()
      ensures err == if fails then Some(Backend(StoreFailure)) else None
      ensures expires == if fails then old(expires) else WithoutKey(old(expires), codeOrToken)
      ensures !fails ==> forall e :: e in expires ==> e.codeOrToken != codeOrToken
    {
      if fails {
        return Some(Backend(StoreFailure));
      }
      WithoutKeyIncreasing(expires, codeOrToken);
      expires := WithoutKey(expires, codeOrToken);
      return None;
    }

    // ---------------------------------------------------------------- authorization codes

    /**
     * Inserts the authorize row of `data`, then appends its expiry entry. A
     * failed append is reported but leaves the inserted row in place.
     */
    method SaveAuthorize(data: AuthorizeData, insertFails: bool, expiryFails: bool) returns (err: Option<Error>)
      requires Valid()
      modifies this`authorize, this`expires, this`nextId
      ensures Valid()
      ensures err.None? <==> !insertFails && data.code !in old(authorize) && !expiryFails
      ensures insertFails || data.code in old(authorize) ==>
        && err == Some(Backend(if insertFails then StoreFailure else DuplicateKey))
        && authorize == old(authorize) && expires == old(expires) && nextId == old(nextId)
      ensures !insertFails && data.code !in old(authorize) ==>
        authorize == old(authorize)[data.code := AuthorizeRowOf(data)]
      ensures !insertFails && data.code !in old(authorize) && expiryFails ==>
        err == Some(Backend(StoreFailure)) && expires == old(expires) && nextId == old(nextId)
      ensures err.None? ==>
        && expires == old(expires) + [ExpiryEntry(old(nextId), data.code, ExpireAt(data.createdAt, data.expiresIn))]
        && nextId == old(nextId) + 1
    {
      if insertFails {
        return Some(Backend(StoreFailure));
      }
      if data.code in authorize {
        return Some(Backend(DuplicateKey));
      }
      authorize := authorize[data.code := AuthorizeRowOf(data)];
      err := AddExpireAtData(data.code, ExpireAt(data.createdAt, data.expiresIn), expiryFails);
    }

    /**
     * Loads the authorization data stored under `code`, with its client, at
     * time `now`. The client lookup comes before the expiry check; an expired
     * code is reported and stays stored.
     */
    function LoadAuthorize(code: string, now: int, down: set<Query>): (r: Result<AuthorizeData>)
      requires Valid()
      reads this
      ensures AuthorizeByCode(code) in down ==> r == Failure(Backend(StoreFailure))
      ensures AuthorizeByCode(code) !in down && code !in authorize ==> r == Failure(NotFound)
      ensures AuthorizeByCode(code) !in down && code in authorize ==>
        var row := authorize[code];
        var c := GetClient(row.client, down);
        && (c.Failure? ==> r == Failure(c.error))
        && (c.Success? ==> (r.Failure? <==> ExpireAt(row.createdAt, row.expiresIn) < now))
        && (c.Success? && r.Failure? ==> r.error == Expired(ExpireAt(row.createdAt, row.expiresIn)))
      ensures r.Success? ==>
        && code in authorize
        && r.value.code == code
        && AuthorizeAgrees(r.value, authorize[code])
        && authorize[code].client in clients
        && r.value.client == clients[authorize[code].client]
        && now <= ExpireAt(r.value.createdAt, r.value.expiresIn)
      ensures r.Failure? ==> r.error != InvalidArgument
    {
      if AuthorizeByCode(code) in down then Failure(Backend(StoreFailure))
      else if code !in authorize then Failure(NotFound)
      else
        var row := authorize[code];
        var c := GetClient(row.client, down);
        if c.Failure? then Failure(c.error)
        else if ExpireAt(row.createdAt, row.expiresIn) < now then Failure(Expired(ExpireAt(row.createdAt, row.expiresIn)))
        else Success(AuthorizeData(c.value, row.code, row.expiresIn, row.scope, row.redirectUri, row.state, row.createdAt, row.extra))
    }

    /** Deletes the code's row, then every expiry entry of the code; both are no-ops on missing rows. */
    method RemoveAuthorize(code: string, deleteFails: bool, expiryFails: bool) returns (err: Option<Error>)
      requires Valid()
      modifies this`authorize, this`expires
      ensures Valid()
      ensures err.None? <==> !deleteFails && !expiryFails
      ensures authorize == if deleteFails then old(authorize) else old(authorize) - {code}
      ensures expires == if deleteFails || expiryFails then old(expires) else WithoutKey(old(expires), code)
      ensures err.None? ==> code !in authorize && forall e :: e in expires ==> e.codeOrToken != code
    {
      if deleteFails {
        return Some(Backend(StoreFailure));
      }
      authorize := authorize - {code};
      err := RemoveExpireAtData(code, expiryFails);
    }

    // ---------------------------------------------------------------- access and refresh tokens

    /**
     * Inserts `refreshToken -> accessToken` into the refresh index inside
     * transaction `tx`. On failure the transaction is rolled back, which
     * discards it; a failed rollback replaces the insert's error.
     */
    method SaveRefresh(tx: Tx, refreshToken: string, accessToken: string, insertFails: bool, rollbackFails: bool)
      returns (r: Result<Tx>)
      ensures r.Success? <==> !insertFails && refreshToken !in refresh && refreshToken !in tx.refresh
      ensures r.Success? ==> r.value == tx.(refresh := tx.refresh[refreshToken := accessToken])
      ensures r.Failure? ==>
        r.error == Backend(if insertFails || rollbackFails then StoreFailure else DuplicateKey)
    {
      if insertFails || refreshToken in refresh || refreshToken in tx.refresh {
        var cause := if insertFails then StoreFailure else DuplicateKey;
        if rollbackFails {
          return Failure(Backend(StoreFailure));
        }
        return Failure(Backend(cause));
      }
      return Success(tx.(refresh := tx.refresh[refreshToken := accessToken]));
    }

    /** Makes the inserts buffered in `tx` visible in the tables. */
    method Commit(tx: Tx)
      requires Valid()
      requires forall token :: token in tx.access ==> tx.access[token].accessToken == token
      modifies this`refresh, this`access
      ensures Valid()
      ensures refresh == old(refresh) + tx.refresh && access == old(access) + tx.access
    {
      refresh := refresh + tx.refresh;
      access := access + tx.access;
    }

    /** The refresh-index insert of SaveAccess is rejected. */
    ghost predicate RefreshRejected(data: AccessData, f: TxFaults)
      reads this
    {
      data.refreshToken != "" && (f.refreshInsert || data.refreshToken in refresh)
    }

    /** The access insert of SaveAccess is rejected. */
    ghost predicate AccessRejected(data: AccessData, f: TxFaults)
      reads this
    {
      f.accessInsert || data.accessToken in access
    }

    /** Every statement of the SaveAccess transaction succeeds. */
    ghost predicate TxAccepted(data: AccessData, f: TxFaults)
      reads this
    {
      !f.begin && !RefreshRejected(data, f) && data.client.Some? && !AccessRejected(data, f)
    }

    /** SaveAccess gets as far as committing. */
    ghost predicate ReachesCommit(data: AccessData, f: TxFaults)
      reads this
    {
      TxAccepted(data, f) && !f.expiresInsert
    }

    /**
     * The transactional part of SaveAccess: begin, the refresh-index insert
     * (when there is a refresh token), the client check and the access
     * insert, with a rollback after a failed insert. Nothing becomes visible
     * in the tables; on success the buffered inserts are returned.
     */
    method WriteTx(data: AccessData, f: TxFaults) returns (r: Result<Tx>)
      ensures r.Success? <==> TxAccepted(data, f)
      ensures f.begin ==> r == Failure(Backend(StoreFailure))
      ensures !f.begin && RefreshRejected(data, f) ==>
        r == Failure(Backend(if f.refreshInsert || f.rollback then StoreFailure else DuplicateKey))
      ensures !f.begin && !RefreshRejected(data, f) && data.client.None? ==> r == Failure(InvalidArgument)
      ensures !f.begin && !RefreshRejected(data, f) && data.client.Some? && AccessRejected(data, f) ==>
        r == Failure(Backend(if f.accessInsert || f.rollback then StoreFailure else DuplicateKey))
      ensures r.Success? ==>
        && r.value.access == map[data.accessToken := AccessRowOf(data, data.client.value.id)]
        && r.value.refresh == if data.refreshToken != "" then map[data.refreshToken := data.accessToken] else map[]
    {
      if f.begin {
        return Failure(Backend(StoreFailure));
      }
      var tx := Tx(map[], map[]);
      if data.refreshToken != "" {
        r := SaveRefresh(tx, data.refreshToken, data.accessToken, f.refreshInsert, f.rollback);
        if r.Failure? {
          return;
        }
        tx := r.value;
      }
      if data.client.None? {
        // the open transaction is abandoned, never committed
        return Failure(InvalidArgument);
      }
      if f.accessInsert || data.accessToken in access || data.accessToken in tx.access {
        var cause := if f.accessInsert then StoreFailure else DuplicateKey;
        if f.rollback {
          return Failure(Backend(StoreFailure));
        }
        return Failure(Backend(cause));
      }
      return Success(tx.(access := tx.access[data.accessToken := AccessRowOf(data, data.client.value.id)]));
    }

    /**
     * Saves access data: the transactional inserts of WriteTx, then the
     * expiry entry, appended outside the transaction, then the commit. A
     * failed commit leaves that expiry entry behind without its access row.
     */
    method SaveAccess(data: AccessData, f: TxFaults) returns (err: Option<Error>)
      requires Valid()
      modifies this`refresh, this`access, this`expires, this`nextId
      ensures Valid()
      ensures err.None? <==> old(ReachesCommit(data, f)) && !f.commit
      // every failure before the commit leaves all tables as they were
      ensures !old(ReachesCommit(data, f)) ==>
        && err.Some?
        && refresh == old(refresh) && access == old(access)
        && expires == old(expires) && nextId == old(nextId)
      ensures f.begin ==> err == Some(Backend(StoreFailure))
      ensures !f.begin && old(RefreshRejected(data, f)) ==>
        err == Some(Backend(if f.refreshInsert || f.rollback then StoreFailure else DuplicateKey))
      ensures !f.begin && !old(RefreshRejected(data, f)) && data.client.None? ==> err == Some(InvalidArgument)
      ensures !f.begin && !old(RefreshRejected(data, f)) && data.client.Some? && old(AccessRejected(data, f)) ==>
        err == Some(Backend(if f.accessInsert || f.rollback then StoreFailure else DuplicateKey))
      ensures old(TxAccepted(data, f)) && f.expiresInsert ==> err == Some(Backend(StoreFailure))
      // the expiry entry is written whenever the commit is attempted
      ensures old(ReachesCommit(data, f)) ==>
        && expires == old(expires) + [ExpiryEntry(old(nextId), data.accessToken, ExpireAt(data.createdAt, data.expiresIn))]
        && nextId == old(nextId) + 1
      ensures old(ReachesCommit(data, f)) && f.commit ==>
        err == Some(Backend(StoreFailure)) && refresh == old(refresh) && access == old(access)
      ensures err.None? ==>
        && access == old(access)[data.accessToken := AccessRowOf(data, data.client.value.id)]
        && refresh == if data.refreshToken != "" then old(refresh)[data.refreshToken := data.accessToken]
                      else old(refresh)
    {
      var tx := WriteTx(data, f);
      if tx.Failure? {
        return Some(tx.error);
      }
      err := AddExpireAtData(data.accessToken, ExpireAt(data.createdAt, data.expiresIn), f.expiresInsert);
      if err.Some? {
        // the open transaction is abandoned, never committed
        return;
      }
      if f.commit {
        return Some(Backend(StoreFailure));
      }
      UnionWithSingleton(access, data.accessToken, AccessRowOf(data, data.client.value.id));
      if data.refreshToken != "" {
        UnionWithSingleton(refresh, data.refreshToken, data.accessToken);
      } else {
        assert refresh + tx.value.refresh == refresh;
      }
      Commit(tx.value);
    }

    /** The access row of `token` can be read and its client resolved: LoadAccess succeeds. */
    predicate Resolvable(token: string, down: set<Query>)
      reads this
    {
      AccessByToken(token) !in down && token in access && GetClient(access[token].client, down).Success?
    }

    /**
     * Loads the access data of `token` with its client. The authorization data
     * and the previous access data are looked up too, and a failed lookup of
     * either leaves that field absent. There is no expiry check. At most
     * `fuel` previous-access links are followed.
     */
    function LoadAccess(token: string, now: int, down: set<Query>, fuel: nat): (r: Result<AccessData>)
      requires Valid()
      reads this
      decreases fuel
      ensures AccessByToken(token) in down ==> r == Failure(Backend(StoreFailure))
      ensures AccessByToken(token) !in down && token !in access ==> r == Failure(NotFound)
      ensures AccessByToken(token) !in down && token in access && GetClient(access[token].client, down).Failure? ==>
        r == Failure(GetClient(access[token].client, down).error)
      ensures r.Success? <==> Resolvable(token, down)
      ensures r.Failure? ==> !r.error.Expired? && r.error != InvalidArgument
      ensures r.Success? ==>
        var row := access[token];
        && r.value.accessToken == token
        && AccessAgrees(r.value, row)
        && r.value.client == Some(clients[row.client])
        && (r.value.authorizeData.Some? <==> LoadAuthorize(row.code, now, down).Success?)
        && (r.value.authorizeData.Some? ==> r.value.authorizeData == LoadAuthorize(row.code, now, down).ToOption())
        && (r.value.accessData.Some? <==> fuel > 0 && Resolvable(row.prevAccessToken, down))
        && (r.value.accessData.Some? ==> r.value.accessData.value.accessToken == row.prevAccessToken)
        && PrevDepth(r.value) <= fuel
    {
      if AccessByToken(token) in down then Failure(Backend(StoreFailure))
      else if token !in access then Failure(NotFound)
      else
        var row := access[token];
        var c := GetClient(row.client, down);
        if c.Failure? then Failure(c.error)
        else
          var prev := if fuel == 0 then None else LoadAccess(row.prevAccessToken, now, down, fuel - 1).ToOption();
          Success(AccessData(Some(c.value), LoadAuthorize(row.code, now, down).ToOption(), prev,
                             row.accessToken, row.refreshToken, row.expiresIn, row.scope, row.redirectUri,
                             row.createdAt, row.extra))
    }

    /** Deletes the token's row, then every expiry entry of the token; the refresh index is left alone. */
    method RemoveAccess(token: string, deleteFails: bool, expiryFails: bool) returns (err: Option<Error>)
      requires Valid()
      modifies this`access, this`expires
      ensures Valid()
      ensures err.None? <==> !deleteFails && !expiryFails
      ensures access == if deleteFails then old(access) else old(access) - {token}
      ensures expires == if deleteFails || expiryFails then old(expires) else WithoutKey(old(expires), token)
      ensures err.None? ==> token !in access && forall e :: e in expires ==> e.codeOrToken != token
    {
      if deleteFails {
        return Some(Backend(StoreFailure));
      }
      access := access - {token};
      err := RemoveExpireAtData(token, expiryFails);
    }

    /** Loads the access data the refresh token `refreshToken` points to. */
    function LoadRefresh(refreshToken: string, now: int, down: set<Query>, fuel: nat): (r: Result<AccessData>)
      requires Valid()
      reads this
      ensures RefreshByToken(refreshToken) in down ==> r == Failure(Backend(StoreFailure))
      ensures RefreshByToken(refreshToken) !in down && refreshToken !in refresh ==> r == Failure(NotFound)
      ensures RefreshByToken(refreshToken) !in down && refreshToken in refresh ==>
        r == LoadAccess(refresh[refreshToken], now, down, fuel)
      ensures r.Success? ==> refreshToken in refresh && r.value.accessToken == refresh[refreshToken]
    {
      if RefreshByToken(refreshToken) in down then Failure(Backend(StoreFailure))
      else if refreshToken !in refresh then Failure(NotFound)
      else LoadAccess(refresh[refreshToken], now, down, fuel)
    }

    /** Deletes the refresh token's index entry, if there is one. */
    method RemoveRefresh(refreshToken: string, fails: bool) returns (err: Option<Error>)
      requires Valid()
      modifies this`refresh
      ensures Valid()
      ensures err == if fails then Some(Backend(StoreFailure)) else None
      ensures refresh == if fails then old(refresh) else old(refresh) - {refreshToken}
    {
      if fails {
        return Some(Backend(StoreFailure));
      }
      refresh := refresh - {refreshToken};
      return None;
    }

    /**
     * The source's LoadAccess, which follows previous-access links without a
     * bound, returns after at most `n` nested calls on itself. It recurses
     * only on a row that resolves, so any other token returns at once, and a
     * resolvable row that names itself as its predecessor never returns.
     */
    ghost predicate ChainWithin(token: string, down: set<Query>, n: nat): (r: bool)
      reads this
      decreases n
      ensures !Resolvable(token, down) ==> r
      ensures Resolvable(token, down) && access[token].prevAccessToken == token ==> !r
    {
      !Resolvable(token, down) || (n > 0 && ChainWithin(access[token].prevAccessToken, down, n - 1))
    }
  }
}
