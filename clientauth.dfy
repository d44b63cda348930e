/** The older client routes (src/routes/client/clientauth.ts):
    `/client/origin_auth`, `/client/auth_with_server` and `/client/auth_with_self`.
    That file sets `shouldRequireSessionToken` by assigning `true` (line 9),
    so the session-token checks it guards are always made and are written here
    without the flag. Its account and server helpers (shared/accounts.js,
    shared/gameserver.js) are not part of this model; they are read as the
    account store and registry of the other modules, and
    `AsyncUpdateCurrentPlayerAuthToken` / `AsyncUpdatePlayerCurrentServer` as
    `PlayerAccount.UpdateAuthToken` / `UpdateCurrentServer`. The two updates the
    source does not await are taken as completed before the handler answers. */
module ClientAuth {
  import opened Prelude
  import opened Accounts
  import opened GameServers
  import opened OriginProtocol

  // ---------------------------------------------------------------- origin_auth

  /** The older `/client/origin_auth`: after the `&` check and the oracle's
      verdict, it creates the account if needed and always issues a fresh
      session token (`tokenRandom`); it has no ban check. `createRandom` is the
      token a newly created account starts with, overwritten at once. */
  method OriginAuthLegacy(db: AccountStore, query: OriginAuthQuery, oracle: OracleReply, now: nat,
                          createRandom: string, tokenRandom: string)
    returns (reply: TokenReply, asked: Option<OracleQuery>)
    requires db.Valid()
    modifies db
    ensures db.Valid()
    ensures asked == if IsMalformedOriginToken(query.token) then None else Some(OracleQuery(query.token, query.id))
    ensures reply.Granted? <==> !IsMalformedOriginToken(query.token) && OracleAccepts(oracle)
    ensures reply.Refused? ==> reply.reason == None && db.rows == old(db.rows)
    ensures reply.Granted? ==>
      && reply.token == tokenRandom
      && db.rows == SetAuthToken(GetOrCreateRows(old(db.rows), query.id, now, createRandom),
                                 query.id, tokenRandom, now + TOKEN_EXPIRATION_TIME)
      && query.id in db.rows
      && db.rows[query.id].authToken == reply.token
      && !db.rows[query.id].TokenExpired(now)
  {
    if IsMalformedOriginToken(query.token) {
      return Refused(None), None;
    }
    asked := Some(OracleQuery(query.token, query.id));
    if !OracleAccepts(oracle) {
      return Refused(None), asked;
    }
    var account := GetById(db, query.id);
    if account == null {
      var created := CreateAccount(db, query.id, now, createRandom);
      account := GetById(db, query.id);
    }
    var authToken := tokenRandom;
    account.UpdateAuthToken(Some(authToken), now, tokenRandom);
    reply := Granted(authToken);
  }

  // ------------------------------------------------------------------ join token

  /** `randomBytes(16).toString('hex').substr(0, 31)`: the client cannot take
      a join token longer than 31 characters. */
  function JoinToken(random: string): (token: string)
    requires IsRandomHex(random)
    ensures |token| == 31
    ensures forall i :: 0 <= i < |token| ==> IsLowerHexChar(token[i]) && token[i] == random[i]
  {
    random[..31]
  }

  // -------------------------------------------------------------- pdiff selection

  /** `!!m.pdiff`: defined and not the empty string. */
  predicate HasPdiff(m: ModInfo)
  {
    m.pdiff.Some? && m.pdiff.value != ""
  }

  /** Some mod of the list declares the persistence diff `pdiff`. */
  ghost predicate Declares(mods: seq<ModInfo>, pdiff: string)
  {
    exists i :: 0 <= i < |mods| && HasPdiff(mods[i]) && mods[i].pdiff.value == pdiff
  }

  /** `mods.filter(m => !!m.pdiff).map(m => m.pdiff)`: the diffs the target
      server's mods declare, in mod-list order. */
  function PdiffList(mods: seq<ModInfo>): (pdiffs: seq<string>)
    ensures |pdiffs| <= |mods|
    ensures forall p :: p in pdiffs <==> Declares(mods, p)
    decreases |mods|
  {
    if |mods| == 0 then []
    else
      var rest := PdiffList(mods[1..]);
      assert forall p :: Declares(mods, p) <==>
        (HasPdiff(mods[0]) && mods[0].pdiff.value == p) || Declares(mods[1..], p) by {
        forall p ensures Declares(mods, p) ==> (HasPdiff(mods[0]) && mods[0].pdiff.value == p) || Declares(mods[1..], p) {
          if Declares(mods, p) {
            var i :| 0 <= i < |mods| && HasPdiff(mods[i]) && mods[i].pdiff.value == p;
            if i > 0 { assert mods[1..][i - 1] == mods[i]; }
          }
        }
        forall p ensures Declares(mods[1..], p) ==> Declares(mods, p) {
          if Declares(mods[1..], p) {
            var i :| 0 <= i < |mods[1..]| && HasPdiff(mods[1..][i]) && mods[1..][i].pdiff.value == p;
            assert mods[i + 1] == mods[1..][i];
          }
        }
      }
      if HasPdiff(mods[0]) then [mods[0].pdiff.value] + rest else rest
  }

  /** The selection distributes over concatenation, so it keeps the mods'
      relative order. */
  lemma {:induction false} PdiffListAppend(a: seq<ModInfo>, b: seq<ModInfo>)
    ensures PdiffList(a + b) == PdiffList(a) + PdiffList(b)
    decreases |a|
  {
    if |a| > 0 {
      assert (a + b)[1..] == a[1..] + b;
      assert (a + b)[0] == a[0];
      PdiffListAppend(a[1..], b);
    } else {
      assert a + b == b;
    }
  }

  /** When every mod declares a diff, the list is all of them, one per mod. */
  lemma {:induction false} PdiffListAllDeclared(mods: seq<ModInfo>)
    requires forall i :: 0 <= i < |mods| ==> HasPdiff(mods[i])
    ensures |PdiffList(mods)| == |mods|
    ensures forall i :: 0 <= i < |mods| ==> HasPdiff(mods[i]) && PdiffList(mods)[i] == mods[i].pdiff.value
    decreases |mods|
  {
    if |mods| > 0 {
      PdiffListAllDeclared(mods[1..]);
      assert forall i :: 1 <= i < |mods| ==> mods[1..][i - 1] == mods[i];
    }
  }

  // ------------------------------------------------------------ auth_with_server

  /** `?id=&playerToken=&server=&password=`. */
  datatype ServerJoinQuery = ServerJoinQuery(id: string, playerToken: string, server: string, password: string)

  /** The POST the master makes to the server's `authPort`
      (`/authenticate_incoming_player`), carrying the player's persistence
      buffer for the listed diffs. */
  datatype RemoteAuthRequest = RemoteAuthRequest(
    host: string, port: nat, playerId: string, authToken: string, serverAuthToken: string, pdiffs: seq<string>)

  datatype ServerJoinReply = JoinedServer(ip: string, port: nat, authToken: string) | ServerJoinRefused

  /** The server exists and, if it has a password, the attempt matches it. */
  predicate ServerAdmits(server: Option<GameServer>, password: string)
  {
    server.Some? && !(server.value.hasPassword && password != server.value.password)
  }

  /** The claimed session token is the account's and has not expired. */
  predicate SessionValid(account: Account, playerToken: string, now: nat)
  {
    playerToken == account.authToken && !account.TokenExpired(now)
  }

  /** `/client/auth_with_server`. The checks run in the source's order and the
      remote server is called only when all pass; `ack` is its answer: `None`
      when there is no response, otherwise the `success` field of its JSON. */
  method AuthWithServer(db: AccountStore, registry: ServerRegistry, query: ServerJoinQuery, now: nat,
                        random: string, ack: Option<bool>)
    returns (reply: ServerJoinReply, sent: Option<RemoteAuthRequest>)
    requires db.Valid() && IsRandomHex(random)
    ensures var server := registry.Get(query.server);
      sent.Some? <==>
        && ServerAdmits(server, query.password)
        && query.id in db.rows
        && SessionValid(db.rows[query.id], query.playerToken, now)
    ensures sent.Some? ==>
      var server := registry.servers[query.server];
      sent.value == RemoteAuthRequest(server.ip, server.authPort, query.id, JoinToken(random),
                                      server.serverAuthToken, PdiffList(server.mods))
    ensures reply.JoinedServer? <==> sent.Some? && ack == Some(true)
    ensures reply.JoinedServer? ==>
      var server := registry.servers[query.server];
      reply == JoinedServer(server.ip, server.port, JoinToken(random))
  {
    var server := registry.Get(query.server);
    if server.None? || (server.value.hasPassword && query.password != server.value.password) {
      return ServerJoinRefused, None;
    }
    var account := GetById(db, query.id);
    if account == null {
      return ServerJoinRefused, None;
    }
    if query.playerToken != account.authToken {
      return ServerJoinRefused, None;
    }
    if account.authTokenExpireTime < now {
      return ServerJoinRefused, None;
    }
    var authToken := JoinToken(random);
    var s := server.value;
    sent := Some(RemoteAuthRequest(s.ip, s.authPort, query.id, authToken, s.serverAuthToken, PdiffList(s.mods)));
    if ack.None? {
      return ServerJoinRefused, sent;
    }
    if !ack.value {
      return ServerJoinRefused, sent;
    }
    reply := JoinedServer(s.ip, s.port, authToken);
  }

  // -------------------------------------------------------------- auth_with_self

  /** `?id=&playerToken=`. */
  datatype SelfJoinQuery = SelfJoinQuery(id: string, playerToken: string)

  /** `{ success: true, id, authToken, persistentData }` or `{ success: false }`. */
  datatype SelfJoinReply = JoinedSelf(id: string, authToken: string, persistentData: seq<Byte>) | SelfJoinRefused

  /** `/client/auth_with_self`: the same account and session checks as
      `auth_with_server`, then the account is marked as on its own server and
      its blob is handed to the client. */
  method AuthWithSelf(db: AccountStore, query: SelfJoinQuery, now: nat, random: string)
    returns (reply: SelfJoinReply)
    requires db.Valid() && IsRandomHex(random)
    modifies db
    ensures db.Valid()
    ensures reply.JoinedSelf? <==> query.id in old(db.rows) && SessionValid(old(db.rows)[query.id], query.playerToken, now)
    ensures reply.SelfJoinRefused? ==> db.rows == old(db.rows)
    ensures reply.JoinedSelf? ==>
      && reply == JoinedSelf(query.id, JoinToken(random), old(db.rows)[query.id].persistentDataBaseline)
      && db.rows == SetCurrentServer(old(db.rows), query.id, SELF_SERVER_ID)
      && db.rows[query.id].currentServerId == Some(SELF_SERVER_ID)
  {
    var account := GetById(db, query.id);
    if account == null {
      return SelfJoinRefused;
    }
    if query.playerToken != account.authToken {
      return SelfJoinRefused;
    }
    if account.authTokenExpireTime < now {
      return SelfJoinRefused;
    }
    var authToken := JoinToken(random);
    account.UpdateCurrentServer(SELF_SERVER_ID);
    reply := JoinedSelf(account.id, authToken, account.persistentDataBaseline);
  }
}
