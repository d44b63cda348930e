# Northstar master server: accounts, client authentication and server heartbeats

A Dafny model of the session and presence core of the Northstar master
server (TypeScript, Fastify):

- the `PlayerAccount` record and its store (`src/accounts/account.ts`): constructor
  defaults, `tokenExpired`, the three write-through updates, `accountToModel`,
  `getById`, `createAccount` and `getOrCreate`;
- the two versions of `/client/origin_auth`: the older one in
  `src/routes/client/clientauth.ts`, which always mints a fresh session token and
  has no ban check, and the newer one in `src/routes/client/origin_auth.ts`, which
  returns the stored token and refuses banned players;
- join authorisation: `/client/auth_with_server` and `/client/auth_with_self`,
  with the 31-character join token and the mod `pdiff` selection;
- the persistence write gate `/accounts/write_persistence`;
- the heartbeat `/server/heartbeat`.

State is two objects. An `AccountStore` stands for the `accounts` SQL table: a
map from id to row. A `ServerRegistry` stands for the game-server registry: a map
from id to record. A `PlayerAccount` is a class with the source's mutable
fields. Each of its update methods writes the store and then its own field.
Every handler is a method over these objects. It returns the reply record, and
also the outbound call it made, if any: the query to the identity oracle, or
the request to the game server's `authPort`. So "refused before any call" can be
stated. Inputs that the source gets from the outside world are parameters:

- the clock (`now`, milliseconds);
- `crypto.randomBytes(16).toString('hex')` (a 32-character lower-case hex string);
- the oracle's reply (`hasOnlineAccess`, `storeUri`);
- the remote server's acknowledgement (`None` for no response, else its `success` field);
- the uploaded persistence file (`seq<bv8>`);
- the caller's ip.

Modules: `Prelude` (option, `includes`, random-hex strings), `Hex` (the oracle's
`userId`), `Accounts`, `GameServers`, `OriginProtocol` (types shared by both
origin-auth handlers), `ClientAuth` (the older routes file), `OriginAuth`,
`WritePersistence`, `Heartbeat`, and `Scenarios` (end-to-end scenarios, proved for
every clock and random input).

Behaviour of the source worth noting:

- A token is expired only when `expiry < now` (strict), so it is still valid at its
  expiry instant.
- The newer origin_auth does not refresh the session token; it returns the stored one.
  `Scenarios.ExpiredTokenCannotJoin` shows the consequence: a returning player whose
  token has expired is handed that token, which fails the session check of both
  join routes from then on.
- The older origin_auth has no ban check.
- write_persistence and heartbeat answer `null` on every path. Rejection, success and
  a dropped wrong-length blob look the same to the caller. Both methods therefore
  have no result.
- No 30-second liveness rule appears in the handlers. `getGameServer` is a plain lookup.

## Model

| member | source | states |
|---|---|---|
| `Prelude.IncludesAt` | src/routes/client/origin_auth.ts:65 | `includes` holds whenever the substring occurs at some position |
| `Prelude.IncludesOnlyAt` | src/routes/client/origin_auth.ts:65 | `includes` holds only when the substring occurs, and yields a position where it does |
| `Prelude.IncludesIff` | src/routes/client/origin_auth.ts:65 | `includes` holds exactly when some slice of the string equals the substring |
| `OriginProtocol.OracleAccepts` | src/routes/client/origin_auth.ts:64-67 | the oracle's reply is accepted exactly when `hasOnlineAccess` is the string `"1"` and `titanfall-2` occurs at some position of `storeUri` (the same test as clientauth.ts:49) |
| `Hex.ToUpperHex` | src/routes/client/origin_auth.ts:47 | `toString(16).toUpperCase()` yields a non-empty string of `0-9A-F` with a leading `0` only for zero |
| `Hex.HexValueOfToUpperHex` | src/routes/client/origin_auth.ts:47 | parsing the rendering back in base 16 gives the rendered number |
| `Hex.ToUpperHexInjective` | src/routes/client/origin_auth.ts:47 | different numbers never render to the same `userId` |
| `Hex.UserIdHex` | src/routes/client/origin_auth.ts:45-48 | for a digit-only id, the `userId` sent to the oracle contains only `0-9A-F` and reads back in base 16 as the id's decimal value |
| `Accounts.DefaultAccountFields` | src/accounts/account.ts:25-34 | an id-only account is unbanned, has no current server, has the default blob and the given token, and expires at `now + TOKEN_EXPIRATION_TIME`, so it is not expired at `now` |
| `Accounts.SuppliedOptionsWin` | src/accounts/account.ts:25-34 | every supplied option overrides its default |
| `Accounts.ModelRoundTrip` | src/accounts/account.ts:91-101 | building an account from `accountToModel(a)` reproduces all six fields whatever the clock and random source |
| `Accounts.Account.TokenExpired` | src/accounts/account.ts:54-56 | a token is not expired at its expiry instant and is expired at every later instant |
| `Accounts.PlayerAccount.TokenExpired` | src/accounts/account.ts:54-56 | the object's `tokenExpired` agrees with that of its `accountToModel` row |
| `Accounts.PlayerAccount.Model` | src/accounts/account.ts:92-101 | `accountToModel` gives a row holding each of the object's six properties, and constructing from that row gives the row back, whatever the clock and random source |
| `Accounts.ExpiryIsStrict` | src/accounts/account.ts:54-56 | a token is not expired at its exact expiry instant and is expired one millisecond later |
| `Accounts.AccountStore.Find` | src/accounts/account.ts:116-122 | the select returns a row exactly when the id is stored, and that row is the stored one, carrying that id |
| `Accounts.AccountStore.Insert` | src/accounts/account.ts:109 | an insert adds the row under its id if the id is new and otherwise changes nothing |
| `Accounts.AccountStore.UpdateAuthToken` | src/accounts/account.ts:63-65 | the update changes token and expiry of the row with that id and nothing else |
| `Accounts.AccountStore.UpdateCurrentServer` | src/accounts/account.ts:72-74 | the update changes only `currentServerId` of the row with that id |
| `Accounts.AccountStore.UpdateBaseline` | src/accounts/account.ts:80-82 | the update changes only the blob of the row with that id |
| `Accounts.PlayerAccount.constructor` | src/accounts/account.ts:25-34 | the object's fields are the options, each missing one replaced by its default |
| `Accounts.PlayerAccount.UpdateAuthToken` | src/accounts/account.ts:59-69 | the token is the given one, or the fresh random one; the expiry is `now + TOKEN_EXPIRATION_TIME`; the token is not expired at `now`; the other fields are unchanged; the store row agrees on token and expiry |
| `Accounts.PlayerAccount.UpdateCurrentServer` | src/accounts/account.ts:71-77 | only `currentServerId` changes, in the object and in the store row |
| `Accounts.PlayerAccount.UpdatePersistentDataBaseline` | src/accounts/account.ts:79-85 | only the blob changes, in the object and in the store row |
| `Accounts.GetById` | src/accounts/account.ts:113-124 | returns none exactly when the id is not stored, otherwise a new object equal to the stored row |
| `Accounts.CreateAccount` | src/accounts/account.ts:103-111 | inserts the default account for a new id and returns it |
| `Accounts.GetOrCreate` | src/accounts/account.ts:126-132 | the store afterwards is unchanged if the id was stored, otherwise it gains the default account; the returned object equals the stored row |
| `Accounts.GetOrCreateEffect` | src/accounts/account.ts:126-132 | an existing record is returned untouched; otherwise exactly one record, the default one for the id, is added and no other row changes |
| `Accounts.GetOrCreateTwice` | src/accounts/account.ts:126-132 | a second getOrCreate for the same id returns the same record and changes nothing, at any time and with any random source |
| `GameServers.ServerRegistry.Get` | src/routes/server/heartbeat.ts:23 | `getGameServer(id)` (also write_persistence.ts:33 and `GetGameServers()[id]` at clientauth.ts:84) returns a record exactly when the id is registered, and it is the stored record with that id |
| `GameServers.ServerRegistry.Add` | src/routes/server/heartbeat.ts:32 | a server is stored under its own id, replacing any previous record for that id |
| `Heartbeat.HandleHeartbeat` | src/routes/server/heartbeat.ts:22-34 | the registry afterwards is the refreshed registry, and stays keyed by id |
| `Heartbeat.RejectedHeartbeatChangesNothing` | src/routes/server/heartbeat.ts:23-26 | an unknown id, or a caller ip different from the server's, leaves the registry unchanged |
| `Heartbeat.AcceptedHeartbeatRefreshes` | src/routes/server/heartbeat.ts:28-32 | an accepted heartbeat sets `lastHeartbeat = now` and the reported `playerCount` under the same id, and changes nothing else |
| `Heartbeat.HeartbeatKeepsIdentity` | src/routes/server/heartbeat.ts:28-32 | no heartbeat changes any server field other than `lastHeartbeat` and `playerCount`, and the registry stays keyed by id |
| `WritePersistence.HandleWritePersistence` | src/routes/account/write_persistence.ts:26-54 | the table afterwards is the gated single-upload result: the blob is replaced only for an allowed caller and an equal-length blob |
| `WritePersistence.AbsentOrBannedUnchanged` | src/routes/account/write_persistence.ts:27-29 | an absent or banned account is never written |
| `WritePersistence.SelfServerSkipsServerCheck` | src/routes/account/write_persistence.ts:31-32 | for an account on its own server, an equal-length blob is written whatever the registry and the caller's ip |
| `WritePersistence.OtherServerNeedsAllThree` | src/routes/account/write_persistence.ts:33-42 | otherwise a write needs the server registered, the caller at its ip, and that server being the account's current one |
| `WritePersistence.WrongLengthDropped` | src/routes/account/write_persistence.ts:49-51 | a blob of a different length leaves the table unchanged |
| `WritePersistence.UploadsKeepLengthsAndFields` | src/routes/account/write_persistence.ts:49-51 | over any sequence of uploads every account keeps its blob length and every field other than the blob |
| `ClientAuth.OriginAuthLegacy` | src/routes/client/clientauth.ts:26-67 | an origin token with `&` is refused before the oracle is asked; otherwise the call succeeds exactly when the oracle accepts; success creates the account if absent, stores a fresh token valid until `now + TTL`, and returns that token; a refusal changes nothing; banned accounts are not refused |
| `ClientAuth.JoinToken` | src/routes/client/clientauth.ts:105 | the join token is exactly 31 lower-case hex characters, the first 31 of the random string |
| `ClientAuth.PdiffList` | src/routes/client/clientauth.ts:108 | the diff list holds exactly the truthy `pdiff`s of the mods and is no longer than the mod list |
| `ClientAuth.PdiffListAppend` | src/routes/client/clientauth.ts:108 | the selection distributes over concatenation of mod lists, so it keeps mod-list order |
| `ClientAuth.PdiffListAllDeclared` | src/routes/client/clientauth.ts:108 | when every mod has a pdiff, the list is those pdiffs, one per mod, in order |
| `ClientAuth.AuthWithServer` | src/routes/client/clientauth.ts:83-131 | the remote server is called exactly when the server exists, the password passes, the account exists, and the token matches and is unexpired; the call carries ip, authPort, the join token, the server's auth token and the pdiff list; success needs an acknowledgement with `success` true and returns the server's ip, port and join token |
| `ClientAuth.AuthWithSelf` | src/routes/client/clientauth.ts:145-173 | succeeds exactly when the account exists and the token matches and is unexpired; then it sets `currentServerId = "self"` and returns the id, the join token and the unchanged blob; a refusal changes nothing |
| `OriginAuth.HandleOriginAuth` | src/routes/client/origin_auth.ts:29-81 | with enforcement on, a `&` token yields `invalid session token` and an unaccepting oracle yields `missing game access`, both with no change; otherwise getOrCreate runs, a banned account yields `you are banned`, and anyone else gets the stored token |
| `OriginAuth.EnforcementOffSkipsChecks` | src/routes/client/origin_auth.ts:31 | with `REQUIRE_SESSION_TOKEN` off, neither the origin token nor the oracle's reply can refuse |
| `OriginAuth.EnforcementOnRefusals` | src/routes/client/origin_auth.ts:33-69 | with enforcement on, `&` refuses whatever the oracle says, and the call passes the early checks exactly when `hasOnlineAccess` is `"1"` and `storeUri` includes `titanfall-2` |
| `OriginAuth.ExistingAccountKeepsItsToken` | src/routes/client/origin_auth.ts:72-80 | for a stored account nothing is written, so the token is not refreshed |
| `OriginAuth.NewAccountTokenIsFresh` | src/routes/client/origin_auth.ts:72-80 | a new player receives the created account's token, which is unexpired at `now`, and the account is unbanned |
| `Scenarios.NewPlayerHostsOwnServer` | src/routes/client/clientauth.ts:145-173 | with enforcement off, a new player's granted token passes auth_with_self at the same instant, which returns the default blob and leaves the account on "self" |
| `Scenarios.PlayerJoinsRegisteredServer` | src/routes/client/clientauth.ts:83-131 | the right token, valid until exactly `now`, joins a password-less acknowledging server at its ip and port; any other token is refused with no remote call |
| `Scenarios.ExpiredTokenCannotJoin` | src/routes/client/origin_auth.ts:72-80 | a stored, unbanned account whose token has expired keeps that token through origin_auth, and the token fails the session check of auth_with_server and auth_with_self at that instant and every later one |

## Left out

- Fastify routing, TypeBox schema validation and multipart parsing. The uploaded file
  is a byte-sequence parameter. The heartbeat's `playerCount` is a `nat`, which stands
  for the schema's minimum of 0.
- The HTTPS call to the identity oracle, including the URL parameters other than
  `code` and the player. Its reply is a parameter. A reply that is unreachable or
  malformed, which would throw, is not modelled.
- The POST to the game server's `authPort`: URL building and JSON parsing are left out.
  The acknowledgement is a parameter. `AsyncGetPlayerPersistenceBufferForMods` is in
  shared/accounts.js, which is not part of this model. The outbound request records
  its arguments (player id and pdiff list) instead of the buffer.
- The SQL store is an in-memory map. Store failures, which would throw, are not modelled.
- `crypto.randomBytes` and `Date.now()` are parameters.
- `TOKEN_EXPIRATION_TIME` and `DEFAULT_PDATA_BASELINE` come from ~constants.js, which is
  not part of this model. They are declared without a value, so every property holds
  for any value.
- shared/accounts.js and shared/gameserver.js, the helpers of the older routes file,
  are not part of this model. They are read as the same store and registry that the
  newer modules use. `AsyncUpdateCurrentPlayerAuthToken` is read as `updateAuthToken`,
  which also sets the expiry.
- ~gameservers is not part of this model. Its 30-second eviction of stale servers is
  therefore absent, and `getGameServer` is a plain lookup that returns a copy.
- Concurrency: the async interleavings; the source has no per-id locking.
  The un-awaited updates at clientauth.ts:61 and :163 are treated as completed before
  the handler answers.
- ClientAuth.AuthWithServer: clientauth.ts:110 calls `asyncHttp.request`, which the
  file neither imports nor defines (its lines 1-7), so as written every request that
  passes the password, account and token checks throws a `ReferenceError` at that
  line and the client never gets a join reply. The model gives the call its evident
  meaning, the POST to the server's `authPort`, with the server's answer as the
  acknowledgement parameter.
- Hex.UserIdHex: covers only non-empty digit-only ids up to 2^53-1. `Number.parseInt`
  gives `NaN` for other strings, parses only a leading digit prefix, and loses
  precision above that bound. The handler methods record the raw player id in the
  oracle query and leave the rendering to this function.
- Accounts.CreateAccount: inserting an id that is already stored returns no account
  and changes nothing. In the source the insert would throw, assuming the id is the
  table's key; no caller of `createAccount` in the model reaches that case.
