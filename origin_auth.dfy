/** The newer `GET /client/origin_auth` (src/routes/client/origin_auth.ts).
    With `REQUIRE_SESSION_TOKEN` on it refuses a malformed origin token and
    asks the identity oracle; then it gets or creates the account, refuses a
    banned one and returns the account's stored session token, without
    refreshing it. */
module OriginAuth {
  import opened Prelude
  import opened Accounts
  import opened OriginProtocol

  const INVALID_SESSION_TOKEN := "invalid session token"
  const MISSING_GAME_ACCESS := "missing game access"
  const YOU_ARE_BANNED := "you are banned"

  /** Whether the request stops before the account is looked up, and why. */
  function EarlyRefusal(requireSessionToken: bool, query: OriginAuthQuery, oracle: OracleReply): Option<string>
  {
    if !requireSessionToken then None
    else if IsMalformedOriginToken(query.token) then Some(INVALID_SESSION_TOKEN)
    else if !OracleAccepts(oracle) then Some(MISSING_GAME_ACCESS)
    else None
  }

  /** `random` is the session token a newly created account starts with. */
  method HandleOriginAuth(db: AccountStore, query: OriginAuthQuery, requireSessionToken: bool,
                          oracle: OracleReply, now: nat, random: string)
    returns (reply: TokenReply, asked: Option<OracleQuery>)
    requires db.Valid()
    modifies db
    ensures db.Valid()
    ensures asked == if requireSessionToken && !IsMalformedOriginToken(query.token)
                     then Some(OracleQuery(query.token, query.id)) else None
    ensures EarlyRefusal(requireSessionToken, query, oracle).Some? ==>
      reply == Refused(EarlyRefusal(requireSessionToken, query, oracle)) && db.rows == old(db.rows)
    ensures EarlyRefusal(requireSessionToken, query, oracle).None? ==>
      && db.rows == GetOrCreateRows(old(db.rows), query.id, now, random)
      && reply == if db.rows[query.id].isBanned then Refused(Some(YOU_ARE_BANNED))
                  else Granted(db.rows[query.id].authToken)
  {
    asked := None;
    if requireSessionToken {
      if IsMalformedOriginToken(query.token) {
        return Refused(Some(INVALID_SESSION_TOKEN)), None;
      }
      asked := Some(OracleQuery(query.token, query.id));
      var hasOnlineAccess := oracle.hasOnlineAccess == "1";
      var ownsGame := Includes(oracle.storeUri, "titanfall-2");
      if !hasOnlineAccess || !ownsGame {
        return Refused(Some(MISSING_GAME_ACCESS)), asked;
      }
    }
    var account := GetOrCreate(db, query.id, now, random);
    if account.isBanned {
      return Refused(Some(YOU_ARE_BANNED)), asked;
    }
    reply := Granted(account.authToken);
  }

  /** With enforcement off the oracle's reply and the origin token play no
      part: every unbanned player is granted a token. */
  lemma EnforcementOffSkipsChecks(query: OriginAuthQuery, oracle: OracleReply)
    ensures EarlyRefusal(false, query, oracle) == None
  {
  }

  /** With enforcement on, the `&` check comes first, whatever the oracle
      would have said, and the oracle must report both online access and
      ownership of the game. */
  lemma EnforcementOnRefusals(query: OriginAuthQuery, oracle: OracleReply)
    ensures IsMalformedOriginToken(query.token) ==> EarlyRefusal(true, query, oracle) == Some(INVALID_SESSION_TOKEN)
    ensures EarlyRefusal(true, query, oracle) == None <==>
      !IsMalformedOriginToken(query.token) && oracle.hasOnlineAccess == "1" && Includes(oracle.storeUri, "titanfall-2")
  {
  }

  /** For an already stored account nothing is written: the token is not
      refreshed. `Scenarios.ExpiredTokenCannotJoin` draws the consequence. */
  lemma ExistingAccountKeepsItsToken(rows: map<string, Account>, query: OriginAuthQuery, now: nat, random: string)
    requires query.id in rows
    ensures GetOrCreateRows(rows, query.id, now, random) == rows
  {
  }

  /** A new player gets the token of the account just created for them, valid
      until `now + TOKEN_EXPIRATION_TIME`. */
  lemma NewAccountTokenIsFresh(rows: map<string, Account>, query: OriginAuthQuery, now: nat, random: string)
    requires query.id !in rows
    ensures var a := GetOrCreateRows(rows, query.id, now, random)[query.id];
      && a.authToken == random && !a.isBanned && !a.TokenExpired(now)
  {
  }
}
