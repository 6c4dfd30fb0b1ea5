/**
 * Properties that relate several operations of the storage: save-then-load
 * round trips, the rotation chain of access tokens, the refresh index, and
 * how the bounded LoadAccess relates to the source's unbounded recursion.
 */
module StorageFacts {
  import opened Records
  import opened MysqlStorage

  // ---------------------------------------------------------------- round trips

  /** A saved authorization code whose client exists loads back as saved, until it expires. */
  lemma SavedAuthorizeLoads(s: Storage, d: AuthorizeData, now: int)
    requires s.Valid()
    requires d.code in s.authorize && s.authorize[d.code] == AuthorizeRowOf(d)
    requires d.client.id in s.clients && s.clients[d.client.id] == d.client
    requires now <= ExpireAt(d.createdAt, d.expiresIn)
    ensures s.LoadAuthorize(d.code, now, {}) == Success(d)
  {
  }

  /** After its expiry the same code is reported as expired, with its expiry time. */
  lemma ExpiredAuthorizeReported(s: Storage, d: AuthorizeData, now: int)
    requires s.Valid()
    requires d.code in s.authorize && s.authorize[d.code] == AuthorizeRowOf(d)
    requires d.client.id in s.clients && s.clients[d.client.id] == d.client
    requires ExpireAt(d.createdAt, d.expiresIn) < now
    ensures s.LoadAuthorize(d.code, now, {}) == Failure(Expired(ExpireAt(d.createdAt, d.expiresIn)))
  {
  }

  /**
   * A saved access token whose client exists loads back with the saved
   * scalar fields and client, at any time (there is no expiry check), and its
   * references point at the saved code and previous token when they resolve.
   */
  lemma SavedAccessLoads(s: Storage, d: AccessData, now: int, fuel: nat)
    requires s.Valid()
    requires d.client.Some?
    requires d.accessToken in s.access && s.access[d.accessToken] == AccessRowOf(d, d.client.value.id)
    requires d.client.value.id in s.clients && s.clients[d.client.value.id] == d.client.value
    ensures var r := s.LoadAccess(d.accessToken, now, {}, fuel);
      && r.Success?
      && r.value.client == d.client
      && r.value.accessToken == d.accessToken && r.value.refreshToken == d.refreshToken
      && r.value.expiresIn == d.expiresIn && r.value.scope == d.scope
      && r.value.redirectUri == d.redirectUri && r.value.createdAt == d.createdAt
      && r.value.userData == d.userData
      && (r.value.authorizeData.Some? ==> r.value.authorizeData.value.code == CodeOf(d))
      && (r.value.accessData.Some? ==> r.value.accessData.value.accessToken == PrevTokenOf(d))
  {
  }

  // ---------------------------------------------------------------- rotation chain

  /**
   * Token `b` rotated out token `a`. Loading `b` succeeds whatever became of
   * `a`: if `a` is gone its previous-access field is absent; if `a` still
   * resolves (and a link may be followed) the field holds `a`'s own data.
   */
  lemma RotationChain(s: Storage, b: string, a: string, now: int, down: set<Query>, fuel: nat)
    requires s.Valid()
    requires s.Resolvable(b, down) && s.access[b].prevAccessToken == a
    ensures var r := s.LoadAccess(b, now, down, fuel);
      && r.Success?
      && (a !in s.access ==> r.value.accessData.None?)
      && (fuel > 0 && s.Resolvable(a, down) ==>
            && r.value.accessData.Some?
            && r.value.accessData == s.LoadAccess(a, now, down, fuel - 1).ToOption()
            && AccessAgrees(r.value.accessData.value, s.access[a]))
  {
  }

  // ---------------------------------------------------------------- refresh index

  /** A refresh token whose access token was removed still has its index entry, and loads as NotFound. */
  lemma RefreshOutlivesAccess(s: Storage, refreshToken: string, now: int, fuel: nat)
    requires s.Valid()
    requires refreshToken in s.refresh && s.refresh[refreshToken] !in s.access
    ensures s.LoadRefresh(refreshToken, now, {}, fuel) == Failure(NotFound)
  {
  }

  // ---------------------------------------------------------------- bounded chain resolution

  /**
   * When the source's recursion from `token` ends within `n` nested calls,
   * every fuel of at least `n` gives the same result, which is therefore the
   * source's result.
   */
  lemma {:induction false} LoadAccessFuelStable(s: Storage, token: string, now: int, down: set<Query>,
                                                n: nat, f1: nat, f2: nat)
    requires s.Valid()
    requires s.ChainWithin(token, down, n) && n <= f1 && n <= f2
    ensures s.LoadAccess(token, now, down, f1) == s.LoadAccess(token, now, down, f2)
    decreases n
  {
    if s.Resolvable(token, down) {
      var prev := s.access[token].prevAccessToken;
      LoadAccessFuelStable(s, prev, now, down, n - 1, f1 - 1, f2 - 1);
    }
  }

  /** A chain that ends within `n` calls also ends within any larger number. */
  lemma {:induction false} ChainWithinMonotone(s: Storage, token: string, down: set<Query>, n: nat, m: nat)
    requires s.ChainWithin(token, down, n) && n <= m
    ensures s.ChainWithin(token, down, m)
    decreases n
  {
    if s.Resolvable(token, down) {
      ChainWithinMonotone(s, s.access[token].prevAccessToken, down, n - 1, m - 1);
    }
  }

  /**
   * An access row saved with the empty token and no previous token names ""
   * as its own predecessor. Every other resolvable first-generation token
   * (previous token "") then leads the source's LoadAccess into that row,
   * and its recursion never ends.
   */
  lemma EmptyTokenRowBlocksChainRoots(s: Storage, token: string, down: set<Query>, n: nat)
    requires s.Resolvable("", down) && s.access[""].prevAccessToken == ""
    requires s.Resolvable(token, down) && s.access[token].prevAccessToken == ""
    ensures !s.ChainWithin(token, down, n)
  {
  }

  /** Saving access data with the empty token and no previous data writes exactly such a row. */
  lemma EmptyTokenRowIsSelfReferencing(d: AccessData, clientId: string)
    requires d.accessToken == "" && d.accessData.None?
    ensures AccessRowOf(d, clientId).accessToken == AccessRowOf(d, clientId).prevAccessToken == ""
  {
  }
}
