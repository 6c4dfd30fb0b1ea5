/**
 * Values exchanged with the osin OAuth2 server and the rows of the five
 * tables the MySQL storage keeps. Times are integer seconds; opaque user
 * data is kept in the string form the store writes to its `extra` column.
 */
module Records {

  datatype Option<T> = None | Some(value: T)

  /** Why a statement against the backing store failed. */
  datatype Cause =
    | DuplicateKey   // a primary-key conflict on insert
    | StoreFailure   // any other failure: connection, transaction, rollback, commit

  /** The error taxonomy of the storage. */
  datatype Error =
    | NotFound                 // osin's ErrNotFound: no row for the key
    | Expired(expireAt: int)   // an authorization code whose lifetime is over
    | InvalidArgument          // the caller left out a required value
    | Backend(cause: Cause)    // anything the backing store reported

  datatype Result<T> = Success(value: T) | Failure(error: Error) {
    /** The value of a lookup whose failure is deliberately ignored. */
    function ToOption(): Option<T> {
      match this
      case Success(v) => Some(v)
      case Failure(_) => None
    }
  }

  /** An OAuth client; also the row of the client table, keyed by `id`. */
  datatype Client = Client(id: string, secret: string, redirectUri: string, userData: string)

  /** Authorization data as osin hands it to the store and gets it back. */
  datatype AuthorizeData = AuthorizeData(
    client: Client,
    code: string,
    expiresIn: int,
    scope: string,
    redirectUri: string,
    state: string,
    createdAt: int,
    userData: string)

  /**
   * Access data as osin hands it to the store and gets it back. `client`,
   * `authorizeData` and `accessData` (the token this one rotated out) may
   * each be absent.
   */
  datatype AccessData = AccessData(
    client: Option<Client>,
    authorizeData: Option<AuthorizeData>,
    accessData: Option<AccessData>,
    accessToken: string,
    refreshToken: string,
    expiresIn: int,
    scope: string,
    redirectUri: string,
    createdAt: int,
    userData: string)

  /** A row of the authorize table, keyed by `code`; `client` holds the client id. */
  datatype AuthorizeRow = AuthorizeRow(
    client: string,
    code: string,
    expiresIn: int,
    scope: string,
    redirectUri: string,
    state: string,
    extra: string,
    createdAt: int)

  /**
   * A row of the access table, keyed by `accessToken`. `code` and
   * `prevAccessToken` are plain strings, empty when there is no reference.
   */
  datatype AccessRow = AccessRow(
    client: string,
    code: string,
    prevAccessToken: string,
    accessToken: string,
    refreshToken: string,
    expiresIn: int,
    scope: string,
    redirectUri: string,
    extra: string,
    createdAt: int)

  /** The moment a code or token stops being valid: creation time plus lifetime. */
  function ExpireAt(createdAt: int, expiresIn: int): int {
    createdAt + expiresIn
  }

  /** The authorize row that saving `d` writes. */
  function AuthorizeRowOf(d: AuthorizeData): AuthorizeRow {
    AuthorizeRow(d.client.id, d.code, d.expiresIn, d.scope, d.redirectUri, d.state, d.userData, d.createdAt)
  }

  /** The token `d` rotated out, or "" when there is none. */
  function PrevTokenOf(d: AccessData): string {
    if d.accessData.Some? then d.accessData.value.accessToken else ""
  }

  /** The authorization code `d` was obtained with, or "" when there is none. */
  function CodeOf(d: AccessData): string {
    if d.authorizeData.Some? then d.authorizeData.value.code else ""
  }

  /** The access row that saving `d` on behalf of client `clientId` writes. */
  function AccessRowOf(d: AccessData, clientId: string): AccessRow {
    AccessRow(clientId, CodeOf(d), PrevTokenOf(d), d.accessToken, d.refreshToken,
              d.expiresIn, d.scope, d.redirectUri, d.userData, d.createdAt)
  }

  /** `d` carries exactly the scalar columns of `row` (everything but the references). */
  predicate AuthorizeAgrees(d: AuthorizeData, row: AuthorizeRow) {
    && d.code == row.code
    && d.expiresIn == row.expiresIn
    && d.scope == row.scope
    && d.redirectUri == row.redirectUri
    && d.state == row.state
    && d.userData == row.extra
    && d.createdAt == row.createdAt
  }

  /** `d` carries exactly the scalar columns of `row` (everything but the references). */
  predicate AccessAgrees(d: AccessData, row: AccessRow) {
    && d.accessToken == row.accessToken
    && d.refreshToken == row.refreshToken
    && d.expiresIn == row.expiresIn
    && d.scope == row.scope
    && d.redirectUri == row.redirectUri
    && d.userData == row.extra
    && d.createdAt == row.createdAt
  }

  /** Number of previous-access links nested inside `d`. */
  function PrevDepth(d: AccessData): nat {
    if d.accessData.None? then 0 else 1 + PrevDepth(d.accessData.value)
  }

  /** A read that the backing store may fail to answer. */
  datatype Query =
    | ClientById(id: string)
    | AuthorizeByCode(code: string)
    | AccessByToken(token: string)
    | RefreshByToken(token: string)

  /** Which statements of one SaveAccess call the backing store fails (other than key conflicts). */
  datatype TxFaults = TxFaults(
    begin: bool,           // opening the transaction
    refreshInsert: bool,   // inserting the refresh-index row
    accessInsert: bool,    // inserting the access row
    rollback: bool,        // rolling back after a failed insert
    expiresInsert: bool,   // appending the expiry entry
    commit: bool)          // committing
}
