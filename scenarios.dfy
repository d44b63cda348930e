/** End-to-end scenarios, proved for all clocks and random strings: a new
    player on their own server, a player joining a registered server with the
    right and with a wrong session token, and a returning player whose token
    has expired. */
module Scenarios {
  import opened Prelude
  import opened Accounts
  import opened GameServers
  import opened OriginProtocol
  import opened OriginAuth
  import opened ClientAuth

  /** Enforcement off, unknown player "P1": origin_auth grants the new
      account's token, auth_with_self with that token hands back the default
      blob and leaves the account on the "self" server. */
  method NewPlayerHostsOwnServer(now: nat, random: string, joinRandom: string)
    returns (granted: TokenReply, joined: SelfJoinReply, db: AccountStore)
    requires IsRandomHex(random) && IsRandomHex(joinRandom)
    ensures granted == Granted(random)
    ensures joined == JoinedSelf("P1", JoinToken(joinRandom), DEFAULT_PDATA_BASELINE)
    ensures "P1" in db.rows && db.rows["P1"].currentServerId == Some(SELF_SERVER_ID)
  {
    db := new AccountStore(map[]);
    var asked;
    granted, asked := HandleOriginAuth(db, OriginAuthQuery("P1", "origin"), false, OracleReply("0", ""), now, random);
    joined := AuthWithSelf(db, SelfJoinQuery("P1", random), now, joinRandom);
  }

  function PlayerP2(token: string, expiry: int): Account
  {
    Account("P2", false, token, expiry, None, DEFAULT_PDATA_BASELINE)
  }

  function ServerS1(): GameServer
  {
    GameServer("S1", "server one", "1.2.3.4", 37015, 8081, false, "", "secret", [], 0, 0)
  }

  /** "P2" holds an unexpired token and joins "S1", which has no password and
      acknowledges: the client is sent to 1.2.3.4. With any other token the
      join is refused and S1 is never contacted. */
  method PlayerJoinsRegisteredServer(now: nat, token: string, claimed: string, random: string)
    returns (reply: ServerJoinReply, sent: Option<RemoteAuthRequest>)
    requires IsRandomHex(random)
    ensures claimed == token ==> reply == JoinedServer("1.2.3.4", 37015, JoinToken(random))
    ensures claimed != token ==> reply == ServerJoinRefused && sent == None
  {
    var db := new AccountStore(map["P2" := PlayerP2(token, now)]);
    var registry := new ServerRegistry(map["S1" := ServerS1()]);
    reply, sent := AuthWithServer(db, registry, ServerJoinQuery("P2", claimed, "S1", ""), now, random, Some(true));
  }

  /** A returning player whose stored token has expired is granted that same
      token by origin_auth, and at that moment or any later one the token
      fails the session check of both join routes. */
  lemma ExpiredTokenCannotJoin(rows: map<string, Account>, query: OriginAuthQuery, now: nat, random: string, later: nat)
    requires query.id in rows && !rows[query.id].isBanned
    requires rows[query.id].TokenExpired(now) && now <= later
    ensures var after := GetOrCreateRows(rows, query.id, now, random);
      && after[query.id].authToken == rows[query.id].authToken
      && !SessionValid(after[query.id], after[query.id].authToken, later)
  {
    ExistingAccountKeepsItsToken(rows, query, now, random);
  }
}
