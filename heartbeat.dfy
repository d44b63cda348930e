/** `POST /server/heartbeat` (src/routes/server/heartbeat.ts): a registered
    server refreshes its heartbeat time and player count. The handler always
    answers `null`, so the method has no result; its effect is on the
    registry. */
module Heartbeat {
  import opened GameServers

  /** The query string; the schema makes `playerCount` an integer >= 0. */
  datatype HeartbeatQuery = HeartbeatQuery(id: string, playerCount: nat)

  /** The registry after a heartbeat from `callerIp` at time `now`: only a
      known server whose registered ip is the caller's is refreshed. */
  function Refreshed(servers: map<string, GameServer>, query: HeartbeatQuery, callerIp: string, now: nat): map<string, GameServer>
  {
    if query.id in servers && callerIp == servers[query.id].ip
    then servers[query.id := servers[query.id].(lastHeartbeat := now, playerCount := query.playerCount)]
    else servers
  }

  method HandleHeartbeat(registry: ServerRegistry, query: HeartbeatQuery, callerIp: string, now: nat)
    requires registry.Valid()
    modifies registry
    ensures registry.Valid()
    ensures registry.servers == Refreshed(old(registry.servers), query, callerIp, now)
  {
    var found := registry.Get(query.id);
    if found.None? || callerIp != found.value.ip {
      return;
    }
    // the record is a copy: set its two fields, then store it back
    var server := found.value.(lastHeartbeat := now, playerCount := query.playerCount);
    registry.Add(server);
  }

  /** An unknown server id, or a caller whose ip is not the server's, leaves
      the registry exactly as it was. */
  lemma RejectedHeartbeatChangesNothing(servers: map<string, GameServer>, query: HeartbeatQuery, callerIp: string, now: nat)
    requires query.id !in servers || callerIp != servers[query.id].ip
    ensures Refreshed(servers, query, callerIp, now) == servers
  {
  }

  /** An accepted heartbeat stamps `now` and the reported player count on the
      server's record, under the same id, and changes nothing else. */
  lemma AcceptedHeartbeatRefreshes(servers: map<string, GameServer>, query: HeartbeatQuery, callerIp: string, now: nat)
    requires query.id in servers && callerIp == servers[query.id].ip
    ensures var after := Refreshed(servers, query, callerIp, now);
      && after.Keys == servers.Keys
      && after[query.id].lastHeartbeat == now
      && after[query.id].playerCount == query.playerCount
      && after[query.id] == servers[query.id].(lastHeartbeat := now, playerCount := query.playerCount)
      && forall k :: k in servers && k != query.id ==> after[k] == servers[k]
  {
  }

  /** Whatever the request, every record keeps its id, ip, ports, password,
      auth token and mod list, and the registry stays keyed by id. */
  lemma HeartbeatKeepsIdentity(servers: map<string, GameServer>, query: HeartbeatQuery, callerIp: string, now: nat)
    requires KeyedById(servers)
    ensures var after := Refreshed(servers, query, callerIp, now);
      && KeyedById(after)
      && after.Keys == servers.Keys
      && forall k :: k in servers ==>
           after[k] == servers[k].(lastHeartbeat := after[k].lastHeartbeat, playerCount := after[k].playerCount)
  {
  }
}
