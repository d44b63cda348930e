/** Player accounts (src/accounts/account.ts). The `accounts` SQL table is an
    `AccountStore` object holding a map from id to row; a `PlayerAccount` is the
    in-memory object that `getById` builds from a row and whose update methods
    write the row first and their own field second. The clock (`Date.now()`)
    and the random source (`crypto.randomBytes`) are parameters. */
module Accounts {
  import opened Prelude

  /** Lifetime of a session token in milliseconds. Its value is defined in
      ~constants.js, which is not part of this model; every property here holds
      whatever it is. */
  const TOKEN_EXPIRATION_TIME: nat

  /** Persistence blob of a new account, also from ~constants.js. */
  const DEFAULT_PDATA_BASELINE: seq<Byte>

  /** The `currentServerId` that marks a player hosting their own server. */
  const SELF_SERVER_ID: string := "self"

  /** A row of the accounts table: the six properties of `PlayerAccount`
      that `accountToModel` copies out. */
  datatype Account = Account(
    id: string,
    isBanned: bool,
    authToken: string,
    authTokenExpireTime: int,
    currentServerId: Option<string>,
    persistentDataBaseline: seq<Byte>)
  {
    /** `tokenExpired()`: strictly past the expiry instant, so a token is
        still valid at the very millisecond it expires. */
    predicate TokenExpired(now: nat)
      ensures now == authTokenExpireTime ==> !TokenExpired(now)
      ensures now > authTokenExpireTime ==> TokenExpired(now)
    {
      authTokenExpireTime < now
    }
  }

  /** The constructor's argument: only `id` is mandatory. */
  datatype AccountOptions = AccountOptions(
    id: string,
    isBanned: Option<bool>,
    authToken: Option<string>,
    authTokenExpireTime: Option<int>,
    currentServerId: Option<string>,
    persistentDataBaseline: Option<seq<Byte>>)

  /** JavaScript's `x ?? d`. */
  function OrElse<T>(x: Option<T>, d: T): T
  {
    if x.Some? then x.value else d
  }

  /** The options `createAccount` passes: `{ id }`. */
  function IdOnly(id: string): AccountOptions
  {
    AccountOptions(id, None, None, None, None, None)
  }

  /** The options `getById` passes: the stored row itself. */
  function AsOptions(a: Account): AccountOptions
  {
    AccountOptions(a.id, Some(a.isBanned), Some(a.authToken), Some(a.authTokenExpireTime),
                   a.currentServerId, Some(a.persistentDataBaseline))
  }

  /** The fields the constructor assigns, `random` standing for
      `randomBytes(16).toString('hex')` and `now` for `Date.now()`; both are
      consulted only when their option is missing. */
  function FromOptions(o: AccountOptions, now: nat, random: string): Account
  {
    Account(o.id,
            OrElse(o.isBanned, false),
            OrElse(o.authToken, random),
            OrElse(o.authTokenExpireTime, now + TOKEN_EXPIRATION_TIME),
            o.currentServerId,
            OrElse(o.persistentDataBaseline, DEFAULT_PDATA_BASELINE))
  }

  /** The record `createAccount` builds for a new id. */
  function DefaultAccount(id: string, now: nat, random: string): Account
  {
    FromOptions(IdOnly(id), now, random)
  }

  /** With only an id, the constructor yields an unbanned account with no
      current server, the default blob and a token valid until `now + TTL`. */
  lemma DefaultAccountFields(id: string, now: nat, random: string)
    ensures var a := DefaultAccount(id, now, random);
      && a.id == id && !a.isBanned && a.authToken == random
      && a.authTokenExpireTime == now + TOKEN_EXPIRATION_TIME
      && a.currentServerId == None
      && a.persistentDataBaseline == DEFAULT_PDATA_BASELINE
      && !a.TokenExpired(now)
  {
  }

  /** Every option that is supplied overrides its default. */
  lemma SuppliedOptionsWin(o: AccountOptions, now: nat, random: string)
    ensures var a := FromOptions(o, now, random);
      && a.id == o.id
      && (o.isBanned.Some? ==> a.isBanned == o.isBanned.value)
      && (o.authToken.Some? ==> a.authToken == o.authToken.value)
      && (o.authTokenExpireTime.Some? ==> a.authTokenExpireTime == o.authTokenExpireTime.value)
      && (o.currentServerId.Some? ==> a.currentServerId == o.currentServerId)
      && (o.persistentDataBaseline.Some? ==> a.persistentDataBaseline == o.persistentDataBaseline.value)
  {
  }

  /** `new PlayerAccount(accountToModel(a))` reproduces all six fields of `a`,
      whatever the clock and the random source say. */
  lemma ModelRoundTrip(a: Account, now: nat, random: string)
    ensures FromOptions(AsOptions(a), now, random) == a
  {
  }

  /** A token is still valid at its exact expiry instant and expired one
      millisecond later. */
  lemma ExpiryIsStrict(a: Account)
    requires a.authTokenExpireTime >= 0
    ensures !a.TokenExpired(a.authTokenExpireTime as nat)
    ensures a.TokenExpired(a.authTokenExpireTime as nat + 1)
  {
  }

  // The three partial updates the store applies: `update({...}).where({ id })`
  // changes the row with that id, if there is one, and nothing else.

  function SetAuthToken(rows: map<string, Account>, id: string, token: string, expire: int): map<string, Account>
  {
    if id in rows then rows[id := rows[id].(authToken := token, authTokenExpireTime := expire)] else rows
  }

  function SetCurrentServer(rows: map<string, Account>, id: string, serverId: string): map<string, Account>
  {
    if id in rows then rows[id := rows[id].(currentServerId := Some(serverId))] else rows
  }

  function SetBaseline(rows: map<string, Account>, id: string, blob: seq<Byte>): map<string, Account>
  {
    if id in rows then rows[id := rows[id].(persistentDataBaseline := blob)] else rows
  }

  /** Each row is stored under its own id. */
  ghost predicate KeyedById(rows: map<string, Account>)
  {
    forall k :: k in rows ==> rows[k].id == k
  }

  /** The accounts table. */
  class AccountStore {
    var rows: map<string, Account>

    ghost predicate Valid()
      reads this
    {
      KeyedById(rows)
    }

    constructor (initial: map<string, Account>)
      requires KeyedById(initial)
      ensures Valid() && rows == initial
    {
      rows := initial;
    }

    /** `select('*').where({ id }).limit(1).first()`: the row with that
        id, if any. */
    function Find(id: string): (row: Option<Account>)
      reads this
      ensures row.Some? <==> id in rows
      ensures row.Some? ==> row.value == rows[id] && (Valid() ==> row.value.id == id)
    {
      if id in rows then Some(rows[id]) else None
    }

    /** `insert(model)`: the id is the table's key, so inserting an id that is
        already present fails and changes nothing. */
    method Insert(row: Account) returns (ok: bool)
      requires Valid()
      modifies this
      ensures Valid()
      ensures ok <==> row.id !in old(rows)
      ensures rows == if ok then old(rows)[row.id := row] else old(rows)
    {
      ok := row.id !in rows;
      if ok {
        rows := rows[row.id := row];
      }
    }

    method UpdateAuthToken(id: string, token: string, expire: int)
      requires Valid()
      modifies this
      ensures Valid()
      ensures rows == SetAuthToken(old(rows), id, token, expire)
    {
      rows := SetAuthToken(rows, id, token, expire);
    }

    method UpdateCurrentServer(id: string, serverId: string)
      requires Valid()
      modifies this
      ensures Valid()
      ensures rows == SetCurrentServer(old(rows), id, serverId)
    {
      rows := SetCurrentServer(rows, id, serverId);
    }

    method UpdateBaseline(id: string, blob: seq<Byte>)
      requires Valid()
      modifies this
      ensures Valid()
      ensures rows == SetBaseline(old(rows), id, blob)
    {
      rows := SetBaseline(rows, id, blob);
    }
  }

  /** The in-memory account object. `id` and `isBanned` are read-only; the
      other four fields change only through the three update methods, each of
      which writes the store before its own field. */
  class PlayerAccount {
    const db: AccountStore
    const id: string
    const isBanned: bool
    var authToken: string
    var authTokenExpireTime: int
    var currentServerId: Option<string>
    var persistentDataBaseline: seq<Byte>

    constructor (db: AccountStore, options: AccountOptions, now: nat, random: string)
      ensures this.db == db
      ensures Model() == FromOptions(options, now, random)
    {
      this.db := db;
      id := options.id;
      isBanned := OrElse(options.isBanned, false);
      authToken := OrElse(options.authToken, random);
      authTokenExpireTime := OrElse(options.authTokenExpireTime, now + TOKEN_EXPIRATION_TIME);
      currentServerId := options.currentServerId;
      persistentDataBaseline := OrElse(options.persistentDataBaseline, DEFAULT_PDATA_BASELINE);
    }

    /** `accountToModel(this)`: a row holding each of the object's six
        properties, from which the constructor rebuilds exactly this account,
        whatever the clock and the random source. */
    function Model(): (row: Account)
      reads this
      ensures row.id == id && row.isBanned == isBanned && row.currentServerId == currentServerId
      ensures row.authToken == authToken && row.authTokenExpireTime == authTokenExpireTime
      ensures row.persistentDataBaseline == persistentDataBaseline
      ensures forall now: nat, random :: FromOptions(AsOptions(row), now, random) == row
    {
      Account(id, isBanned, authToken, authTokenExpireTime, currentServerId, persistentDataBaseline)
    }

    /** `tokenExpired()` on the object agrees with the stored row it models. */
    predicate TokenExpired(now: nat)
      reads this
      ensures TokenExpired(now) <==> Model().TokenExpired(now)
    {
      authTokenExpireTime < now
    }

    /** `updateAuthToken(token?)`: the given token, or `random` when it is
        omitted, valid until `now + TOKEN_EXPIRATION_TIME`. */
    method UpdateAuthToken(token: Option<string>, now: nat, random: string)
      requires db.Valid()
      modifies this, db
      ensures db.Valid()
      ensures authToken == OrElse(token, random)
      ensures authTokenExpireTime == now + TOKEN_EXPIRATION_TIME
      ensures !TokenExpired(now)
      ensures currentServerId == old(currentServerId)
      ensures persistentDataBaseline == old(persistentDataBaseline)
      ensures db.rows == SetAuthToken(old(db.rows), id, authToken, authTokenExpireTime)
      ensures id in db.rows ==>
        db.rows[id].authToken == authToken && db.rows[id].authTokenExpireTime == authTokenExpireTime
    {
      var newToken := OrElse(token, random);
      var newExpireTime := now + TOKEN_EXPIRATION_TIME;
      db.UpdateAuthToken(id, newToken, newExpireTime);
      authToken := newToken;
      authTokenExpireTime := newExpireTime;
    }

    /** `updateCurrentServer(serverId)`. */
    method UpdateCurrentServer(serverId: string)
      requires db.Valid()
      modifies this, db
      ensures db.Valid()
      ensures currentServerId == Some(serverId)
      ensures authToken == old(authToken) && authTokenExpireTime == old(authTokenExpireTime)
      ensures persistentDataBaseline == old(persistentDataBaseline)
      ensures db.rows == SetCurrentServer(old(db.rows), id, serverId)
      ensures id in db.rows ==> db.rows[id].currentServerId == currentServerId
    {
      db.UpdateCurrentServer(id, serverId);
      currentServerId := Some(serverId);
    }

    /** `updatePersistentDataBaseline(blob)`. */
    method UpdatePersistentDataBaseline(blob: seq<Byte>)
      requires db.Valid()
      modifies this, db
      ensures db.Valid()
      ensures persistentDataBaseline == blob
      ensures authToken == old(authToken) && authTokenExpireTime == old(authTokenExpireTime)
      ensures currentServerId == old(currentServerId)
      ensures db.rows == SetBaseline(old(db.rows), id, blob)
      ensures id in db.rows ==> db.rows[id].persistentDataBaseline == persistentDataBaseline
    {
      db.UpdateBaseline(id, blob);
      persistentDataBaseline := blob;
    }
  }

  /** `getById(id)`: a new object built from the stored row, or none. */
  method GetById(db: AccountStore, id: string) returns (account: PlayerAccount?)
    requires db.Valid()
    ensures account == null <==> id !in db.rows
    ensures account != null ==>
      fresh(account) && account.db == db && account.Model() == db.rows[id] && account.id == id
  {
    var found := db.Find(id);
    if found.None? {
      return null;
    }
    var row := found.value;
    ModelRoundTrip(row, 0, "");
    // every option is present, so the clock and the random source are not consulted
    account := new PlayerAccount(db, AsOptions(row), 0, "");
  }

  /** `createAccount(id)`: builds the default account and inserts its model. */
  method CreateAccount(db: AccountStore, id: string, now: nat, random: string) returns (account: PlayerAccount?)
    requires db.Valid()
    modifies db
    ensures db.Valid()
    ensures account == null <==> id in old(db.rows)
    ensures account == null ==> db.rows == old(db.rows)
    ensures account != null ==>
      && fresh(account) && account.db == db
      && account.Model() == DefaultAccount(id, now, random)
      && db.rows == old(db.rows)[id := DefaultAccount(id, now, random)]
  {
    var created := new PlayerAccount(db, IdOnly(id), now, random);
    var ok := db.Insert(created.Model());
    if ok {
      account := created;
    } else {
      account := null;
    }
  }

  /** The table after `getOrCreate(id)`. */
  function GetOrCreateRows(rows: map<string, Account>, id: string, now: nat, random: string): map<string, Account>
  {
    if id in rows then rows else rows[id := DefaultAccount(id, now, random)]
  }

  /** `getOrCreate(id)`: the stored account if there is one, otherwise a newly
      inserted default one. */
  method GetOrCreate(db: AccountStore, id: string, now: nat, random: string) returns (account: PlayerAccount)
    requires db.Valid()
    modifies db
    ensures db.Valid()
    ensures db.rows == GetOrCreateRows(old(db.rows), id, now, random)
    ensures fresh(account) && account.db == db && account.id == id
    ensures account.Model() == db.rows[id]
  {
    var found := GetById(db, id);
    if found != null {
      return found;
    }
    var created := CreateAccount(db, id, now, random);
    account := created;
  }

  /** `getOrCreate` returns the stored record untouched when there is one, and
      otherwise adds exactly one record, the default one for `id`. */
  lemma GetOrCreateEffect(rows: map<string, Account>, id: string, now: nat, random: string)
    ensures var after := GetOrCreateRows(rows, id, now, random);
      && after.Keys == rows.Keys + {id}
      && (id in rows ==> after == rows)
      && (id !in rows ==> after[id] == DefaultAccount(id, now, random)
                          && forall k :: k in rows ==> k in after && after[k] == rows[k])
  {
  }

  /** A second `getOrCreate` for the same id, at any time and with any random
      source, returns the record the first one returned and changes nothing. */
  lemma GetOrCreateTwice(rows: map<string, Account>, id: string, now1: nat, random1: string, now2: nat, random2: string)
    ensures var once := GetOrCreateRows(rows, id, now1, random1);
      && GetOrCreateRows(once, id, now2, random2) == once
      && id in once
  {
  }
}
