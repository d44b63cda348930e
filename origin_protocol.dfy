/** What the two `/client/origin_auth` handlers share: the request, the
    identity oracle's reply (an input here, since the HTTPS call to it is not
    modelled), the query the handler sends it, and the answer to the client. */
module OriginProtocol {
  import opened Prelude

  /** `?id=<player id>&token=<origin token>`. */
  datatype OriginAuthQuery = OriginAuthQuery(id: string, token: string)

  /** The two fields of the oracle's JSON reply that the handlers read. */
  datatype OracleReply = OracleReply(hasOnlineAccess: string, storeUri: string)

  /** The oracle is asked with the origin token as `code` for player `playerId`
      (sent as `userId`, rendered by `Hex.UserIdHex`). */
  datatype OracleQuery = OracleQuery(code: string, playerId: string)

  /** `{ success: true, token }` or `{ success: false[, reason] }`. */
  datatype TokenReply = Granted(token: string) | Refused(reason: Option<string>)

  /** An origin token containing `&` would break out of the oracle's query
      string; both handlers refuse it before asking. */
  predicate IsMalformedOriginToken(token: string)
  {
    '&' in token
  }

  /** The oracle says the player has online access and owns Titanfall 2:
      `hasOnlineAccess` is the string "1" and "titanfall-2" occurs somewhere in
      `storeUri`. */
  predicate OracleAccepts(reply: OracleReply)
    ensures OracleAccepts(reply) <==>
      reply.hasOnlineAccess == "1" && exists i: nat :: OccursAt(reply.storeUri, "titanfall-2", i)
  {
    IncludesIff(reply.storeUri, "titanfall-2");
    reply.hasOnlineAccess == "1" && Includes(reply.storeUri, "titanfall-2")
  }
}
