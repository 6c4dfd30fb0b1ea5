# osin-mysql storage, modelled in Dafny

This project models the MySQL storage backend of the osin OAuth2 server, `mysql.go`. The
`Storage` type there holds no data of its own. Every method is one or two SQL statements
over five tables, and the model keeps each table as the logical content its primary key
implies:

- `client`: a map from client id to the client (id, secret, redirect URI, user data).
- `authorize`: a map from authorization code to its row.
- `access`: a map from access token to its row. The row holds the client id, the code the
  token came from (`""` when there is none) and the token it rotated out (`prev_access_token`,
  `""` when there is none).
- `refresh`: a map from refresh token to access token.
- `expires`: an append-only list of `(id, code_or_token, expires_at)` entries, plus the next
  auto-increment id. Nothing makes `code_or_token` unique.

`MysqlStorage.Storage` is a class with these six fields. `Valid()` says that every row sits
under its own key and that expiry ids are positive, increasing and below the counter.

- Writes are methods with `modifies` frames on exactly the fields they touch. Each write
  takes one flag per SQL statement. The flag says whether the backing store fails that
  statement for a reason other than a key conflict. Key conflicts follow from the tables.
- `SaveAccess` keeps its transaction as a value, `Tx`: the inserts buffered but not yet
  visible. `WriteTx` runs the statements inside the transaction: begin, `saveRefresh`, the
  client check, and the access insert with rollback. The expiry entry is then appended
  outside the transaction, and only after that does `Commit` make the buffered inserts
  visible.
- Reads are functions of the tables. `down` is the set of lookups the store fails to answer.
  `now` stands for `time.Now()`. `ExpireAt` is `created_at + expires_in`, in integer seconds.
- Errors are `NotFound`, `Expired(at)`, `InvalidArgument` and `Backend(DuplicateKey |
  StoreFailure)`.

`Scenarios` runs call sequences against a fresh storage and proves what a caller can
conclude from the contracts alone:

- the client and code life cycle (load one second after saving, then 700 seconds after);
- the refresh flow, including a second token that reuses a refresh token;
- rotation and removal of the predecessor token;
- `SaveAccess` failures;
- the empty-token case described under Findings.

Two points of the code that shape the model:

- `SaveAccess` appends the expiry entry before `Commit` and outside the transaction
  (mysql.go:241-246), so a failed commit leaves an expiry entry with no access row.
- The source reports an expired code with an unstructured error (mysql.go:183-184). The
  model gives it its own constructor, `Expired(at)`.

## Model

| member | source | states |
|---|---|---|
| `MysqlStorage.Storage.constructor` | mysql.go:66-69 | a storage over empty tables; the expiry counter starts at 1 as auto-increment does |
| `MysqlStorage.Storage.GetClient` | mysql.go:96-107 | NotFound exactly when no client has the id; a failed read is a backend error; otherwise the stored id, secret, redirect URI and user data unchanged |
| `MysqlStorage.Storage.UpdateClient` | mysql.go:111-118 | replaces only secret, redirect URI and user data of the matching client; succeeds without effect when the id is absent |
| `MysqlStorage.Storage.CreateClient` | mysql.go:121-128 | an id already present is a duplicate-key error that leaves the table unchanged; otherwise exactly that client is added |
| `MysqlStorage.Storage.RemoveClient` | mysql.go:131-136 | removes only that id; succeeds whether or not it was present |
| `MysqlStorage.Storage.CreateClientWithInformation` | mysql.go:326-333 | the built client's id, secret, redirect URI and user data are the arguments |
| `MysqlStorage.Storage.AddExpireAtData` | mysql.go:347-357 | appends one entry with a fresh id, distinct from every existing id, even when the same code or token already has entries |
| `MysqlStorage.Storage.RemoveExpireAtData` | mysql.go:360-368 | afterwards no entry has that code or token, and every other entry is kept |
| `Expiry.WithoutKey` | mysql.go:361-363 | an entry survives the delete exactly when it was there and has another code or token; the table never grows |
| `Expiry.WithoutKeyIncreasing` | mysql.go:51-57 | deleting entries keeps the auto-increment ids in increasing order |
| `Expiry.WithoutAbsentKey` | mysql.go:360-368 | deleting a code or token that has no entry changes nothing |
| `Expiry.WithoutKeyIdempotent` | mysql.go:360-368 | a second delete of the same code or token has no effect |
| `MysqlStorage.Storage.SaveAuthorize` | mysql.go:139-161 | a duplicate code is an error that changes nothing; otherwise the row is added, then one expiry entry (code, created_at + expires_in) is appended; if that append fails the row stays and the error is returned |
| `MysqlStorage.Storage.LoadAuthorize` | mysql.go:167-189 | NotFound for an absent code; the client lookup's error comes before the expiry check; an expiry error exactly when created_at + expires_in is before now; otherwise the stored row with its client attached |
| `MysqlStorage.Storage.RemoveAuthorize` | mysql.go:192-200 | the code's row and all its expiry entries are gone and nothing else changes; a failed expiry delete keeps the row removed and returns the error |
| `MysqlStorage.Storage.SaveRefresh` | mysql.go:335-344 | the insert succeeds exactly when the refresh token is not yet a key, and then buffers refresh to access; on failure the transaction is rolled back, and a failed rollback replaces the error |
| `MysqlStorage.Storage.WriteTx` | mysql.go:218-239 | the error order of the transaction: begin, then the refresh insert, then the client check, then the access insert with rollback; on success the buffer holds the access row and, for a non-empty refresh token, the refresh entry |
| `MysqlStorage.Storage.Commit` | mysql.go:244-246 | the buffered refresh and access inserts become visible together |
| `MysqlStorage.Storage.SaveAccess` | mysql.go:204-249 | any failure before the commit leaves every table unchanged; the expiry entry is appended whenever the commit is attempted, so a failed commit leaves it without an access row; on success the access row carries the previous token or "" and the code or "", and the refresh table gains refresh to access exactly when the refresh token is non-empty |
| `MysqlStorage.Storage.LoadAccess` | mysql.go:254-289 | NotFound for an absent token; client-lookup errors propagate; never an expiry error; the scalar columns and client of the row; a failing authorize or previous-access lookup leaves that field absent; a present previous field carries the previous token; at most fuel links deep |
| `MysqlStorage.Storage.RemoveAccess` | mysql.go:292-300 | the token's row and all its expiry entries are gone; the refresh index is untouched; idempotent |
| `MysqlStorage.Storage.LoadRefresh` | mysql.go:305-314 | NotFound for an absent refresh token; otherwise exactly LoadAccess of the access token it maps to |
| `MysqlStorage.Storage.RemoveRefresh` | mysql.go:317-323 | removes only that refresh token; succeeds whether or not it was present |
| `StorageFacts.SavedAuthorizeLoads` | mysql.go:139-189 | a saved code whose client exists loads back equal to what was saved, as long as it has not expired |
| `StorageFacts.ExpiredAuthorizeReported` | mysql.go:183-185 | after created_at + expires_in the same code gives an expiry error carrying that time |
| `StorageFacts.SavedAccessLoads` | mysql.go:233-288 | a saved access token whose client exists loads back with the saved scalar fields and client, at any time; its references name the saved code and previous token |
| `StorageFacts.RotationChain` | mysql.go:284-288 | loading a token succeeds whatever became of its predecessor; a removed predecessor gives an absent field; a resolvable one gives its own data |
| `StorageFacts.RefreshOutlivesAccess` | mysql.go:292-314 | removing an access token keeps its refresh entry, which then loads as NotFound |
| `MysqlStorage.Storage.ChainWithin` | mysql.go:279-286 | the source's unbounded recursion returns within n calls; it recurses only on a resolvable row, so any other token returns at once, and a resolvable row naming itself as its previous token never returns for any n |
| `StorageFacts.LoadAccessFuelStable` | mysql.go:254-289 | when the unbounded recursion along prev_access_token ends within n calls, every fuel of at least n gives the same result |
| `StorageFacts.ChainWithinMonotone` | mysql.go:286 | a recursion that ends within n calls also ends within any larger bound |
| `StorageFacts.EmptyTokenRowBlocksChainRoots` | mysql.go:254-289 | with an access row saved under the empty token, loading any first-generation token recurses forever |
| `StorageFacts.EmptyTokenRowIsSelfReferencing` | mysql.go:205-233 | saving access data with an empty token and no previous data writes a row whose previous token is its own |

## Findings

| source | as written | input that shows it | evidently intended | confidence | as-written member | corrected member |
|---|---|---|---|---|---|---|
| mysql.go:286 | `LoadAccess` always loads `prev_access_token`, with no depth bound and no cycle guard. A token with no predecessor is stored with `""` there, and `SaveAccess` accepts an empty access token. | `SaveAccess` with `AccessToken: ""` and no previous data, then `SaveAccess` of token `"a1"` with no previous data, then `LoadAccess("a1")`. The lookup of `""` finds the row `""`, whose predecessor is `""` again, and the recursion never returns. | Loading a token returns. Previous-access links beyond a bound are left absent; a cyclic history is unrolled up to that bound. | not executed; high that the recursion does not end on this input | `StorageFacts.EmptyTokenRowBlocksChainRoots` | `MysqlStorage.Storage.LoadAccess` (follows at most `fuel` links; proved by `StorageFacts.LoadAccessFuelStable` to agree with the source wherever the source returns) |

## Left out

- `MysqlStorage.Storage.LoadAccess`: follows at most `fuel` previous-access links and leaves the field absent beyond them. The source has no such bound and never returns on a cyclic chain (see Findings). `StorageFacts.LoadAccessFuelStable` shows that they agree when the source's recursion ends within n nested calls and `fuel` is at least n. On a cyclic chain the bounded `LoadAccess` returns the cycle unrolled `fuel` times; it does not detect the cycle.
- `MysqlStorage.Storage.LoadRefresh`: takes the same `fuel` bound, because it delegates to `LoadAccess`.
- `MysqlStorage.Storage.constructor`: starts from freshly created, empty tables with the expiry counter at 1. `New` wraps whatever database it is given; every other member assumes only `Valid()` of the tables, not that they started empty.
- `MysqlStorage.Storage.SaveAuthorize`: the client of authorization data is always present. The source calls `GetId` on it without a nil check (mysql.go:147) and would panic on a nil client; that path is not modelled.
- `CreateSchemas` and the DDL text, except the primary keys they declare. `Clone` and `Close` have no behaviour.
- SQL text building, `tablePrefix`, the driver and connection pooling are not modelled. The tables are maps, not queries.
- Concurrency is not modelled: transaction isolation, lock waits, and partial states seen by other readers. Everything is sequential.
- Two failure paths of `SaveAccess` return without commit or rollback: the nil-client check and the failed expiry append. The model only says that nothing is committed. It does not model the transaction left open, or the connection and row locks it keeps.
- A failed rollback is modelled as an error. The buffered inserts still do not become visible.
- MySQL column limits are not modelled: `varchar` widths, the ranges of `int(10)`, `int(11)` and `timestamp`, and second-precision timestamps. Integers are unbounded.
- MySQL's trailing-space-insensitive comparison of `varchar` keys is not modelled. Keys compare as exact strings.
- Auto-increment values used up by failed inserts are not modelled. The counter advances only on a successful append.
- Opaque user data is taken in its string form. The conversion `gopher_utils.ToStr` is foreign code.
- osin's PKCE fields of authorization data (code challenge and method) are not stored by the source, so they are not modelled.
- Error message text and wrapping context are not modelled.
- A failure flag always means the statement had no effect. A statement that the server applied but reported as failed is not covered: for example a lost reply to `COMMIT`, or to an autocommitted `DELETE` or `INSERT`. The "failure changes nothing" clauses of `SaveAccess` and the `Remove*` methods rest on this.
- `now` is one instant for a whole `LoadAccess` call. The source calls `time.Now()` again in every nested `LoadAuthorize` (mysql.go:183, reached from mysql.go:285 at each level), so in the source the expiry check of each level may see a later time.
- `down` fixes one answer per lookup for the whole call. A store whose answer to the same lookup changes within one call is not covered.
